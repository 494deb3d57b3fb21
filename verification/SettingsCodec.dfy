/** The JSON documents of the settings store: what is written and what the strict readers accept.
    A digest, a token or a path built from one appears as the term it was made from. */
module SettingsCodec {
  import opened Wrappers
  import opened SettingsModel

  datatype Text =
    | Plain(text: string)
    | SettingDigest(id: SettingId)
    | DeclarationDigest(declaration: Declaration)
    | AccountDigest(account: Account)
    | Hex(token: Token)
    | JournalFile(op: Token)

  /** The member names the documents use; any other name is foreign to all of them. */
  datatype Key =
    | Foreign(name: string)
    | SettingIdKey
    | PluginIdKey
    | PackageDigestKey
    | DeclarationDigestKey
    | ScopeKey
    | ScopeBindingDigestKey
    | NameKey
    | DescriptionKey
    | EnvVarKey
    | SensitiveKey
    | RequiredKey
    | ConsumerScopeKey
    | GenerationKey
    | TombstoneGenerationKey
    | CommittedRevisionKey
    | OperationIdKey
    | FileKey
    | MetadataLocatorKey
    | StateKey
    | RegisteredRevisionKey
    | SchemaVersionKey
    | RevisionKey
    | RecordsKey
    | TombstonesKey
    | JournalRefsKey
    | WorkspaceRegistryKey
    | OperationKey
    | PhaseKey
    | RetryableKey
    | RecordKey
    | OldRecordKey
    | OldGenerationKey
    | NewGenerationKey
    | NewAccountKey
    | OldAccountKey
    | TombstoneKey

  datatype Json =
    | Null
    | Bool(b: bool)
    | Int(n: int)
    | Real(r: real)
    | Str(text: Text)
    | Arr(items: seq<Json>)
    | Obj(fields: map<Key, Json>)

  const VERSION := Int(1)

  /** Python's `==` with 1: a JSON `true` or `1.0` passes as schema version 1. */
  predicate IsVersion(v: Json) { v == VERSION || v == Bool(true) || v == Real(1.0) }

  function Field(v: Json, name: Key): Json {
    if v.Obj? && name in v.fields then v.fields[name] else Null
  }

  predicate HasExactly(v: Json, names: set<Key>) { v.Obj? && v.fields.Keys == names }

  function ScopeName(b: Binding): Json { Str(Plain(if b.UserScope? then "user" else "workspace")) }
  function BindingName(b: Binding): Json { Str(Plain(b.digest)) }

  // ---- records -------------------------------------------------------------------------

  const RECORD_FIELDS: set<Key> := {
    SettingIdKey, PluginIdKey, PackageDigestKey, DeclarationDigestKey, ScopeKey, ScopeBindingDigestKey,
    NameKey, DescriptionKey, EnvVarKey, SensitiveKey, RequiredKey, ConsumerScopeKey, GenerationKey }

  function RecordMember(r: Record, k: Key): Json {
    match k
    case SettingIdKey => Str(SettingDigest(r.id))
    case PluginIdKey => Str(Plain(r.id.plugin))
    case PackageDigestKey => Str(Plain(r.id.package))
    case DeclarationDigestKey => Str(DeclarationDigest(r.Declared()))
    case ScopeKey => ScopeName(r.binding)
    case ScopeBindingDigestKey => BindingName(r.binding)
    case NameKey => Str(Plain(r.name))
    case DescriptionKey => Str(Plain(r.description))
    case EnvVarKey => Str(Plain(r.id.env))
    case SensitiveKey => Bool(r.sensitive)
    case RequiredKey => Bool(false)
    case ConsumerScopeKey => Str(Plain("extension-wide"))
    case GenerationKey => Str(Hex(r.generation))
    case _ => Null
  }

  function RecordToDict(r: Record): Json { Obj(map k | k in RECORD_FIELDS :: RecordMember(r, k)) }

  predicate IsPlain(v: Json) { v.Str? && v.text.Plain? }

  /** `DurableSettingRecord.from_dict` for the scope of the index it is read from. */
  function RecordFromDict(v: Json, b: Binding): Option<Record> {
    if !HasExactly(v, RECORD_FIELDS) then None
    else if Field(v, ScopeKey) != ScopeName(b) || Field(v, ScopeBindingDigestKey) != BindingName(b) then None
    else if Field(v, RequiredKey) != Bool(false) || Field(v, ConsumerScopeKey) != Str(Plain("extension-wide")) then None
    else if !IsPlain(Field(v, PluginIdKey)) || !IsPlain(Field(v, PackageDigestKey)) || !IsPlain(Field(v, NameKey))
      || !IsPlain(Field(v, DescriptionKey)) || !IsPlain(Field(v, EnvVarKey)) || !Field(v, SensitiveKey).Bool?
      || !Field(v, GenerationKey).Str? || !Field(v, GenerationKey).text.Hex? then None
    else
      var id := SettingId(Field(v, PluginIdKey).text.text, Field(v, PackageDigestKey).text.text, Field(v, EnvVarKey).text.text);
      var r := Record(id, b, Field(v, NameKey).text.text, Field(v, DescriptionKey).text.text,
                      Field(v, SensitiveKey).b, Field(v, GenerationKey).text.token);
      if !RecordFields(r) then None
      else if Field(v, SettingIdKey) != Str(SettingDigest(id))
        || Field(v, DeclarationDigestKey) != Str(DeclarationDigest(r.Declared())) then None
      else Some(r)
  }

  lemma RecordField(r: Record, k: Key)
    requires k in RECORD_FIELDS
    ensures Field(RecordToDict(r), k) == RecordMember(r, k)
  {
    hide RecordMember;
  }

  lemma WrittenRecord(r: Record)
    ensures HasExactly(RecordToDict(r), RECORD_FIELDS)
    ensures var v := RecordToDict(r);
      && Field(v, ScopeKey) == ScopeName(r.binding) && Field(v, ScopeBindingDigestKey) == BindingName(r.binding)
      && Field(v, RequiredKey) == Bool(false) && Field(v, ConsumerScopeKey) == Str(Plain("extension-wide"))
      && Field(v, GenerationKey) == Str(Hex(r.generation))
  {
    hide ScopeName, BindingName, Field;
    RecordField(r, ScopeKey);
    RecordField(r, ScopeBindingDigestKey);
    RecordField(r, RequiredKey);
    RecordField(r, ConsumerScopeKey);
    RecordField(r, GenerationKey);
  }

  lemma WrittenIdentity(r: Record)
    ensures var v := RecordToDict(r);
      && Field(v, SettingIdKey) == Str(SettingDigest(r.id)) && Field(v, PluginIdKey) == Str(Plain(r.id.plugin))
      && Field(v, PackageDigestKey) == Str(Plain(r.id.package)) && Field(v, EnvVarKey) == Str(Plain(r.id.env))
      && Field(v, DeclarationDigestKey) == Str(DeclarationDigest(r.Declared()))
      && Field(v, NameKey) == Str(Plain(r.name)) && Field(v, DescriptionKey) == Str(Plain(r.description))
      && Field(v, SensitiveKey) == Bool(r.sensitive)
  {
    hide ScopeName, BindingName, Field, RecordToDict;
    RecordField(r, SettingIdKey);
    RecordField(r, PluginIdKey);
    RecordField(r, PackageDigestKey);
    RecordField(r, EnvVarKey);
    RecordField(r, DeclarationDigestKey);
    RecordField(r, NameKey);
    RecordField(r, DescriptionKey);
    RecordField(r, SensitiveKey);
  }

  /** A written record reads back as itself. */
  lemma RecordRoundTrip(r: Record)
    requires RecordFields(r)
    ensures RecordFromDict(RecordToDict(r), r.binding) == Some(r)
  {
    hide RecordFields, RecordMember, RecordToDict, Field;
    WrittenRecord(r);
    WrittenIdentity(r);
  }

  lemma RecordReadBack(v: Json, b: Binding)
    requires RecordFromDict(v, b).Some?
    ensures RecordToDict(RecordFromDict(v, b).value) == v
    ensures RecordFields(RecordFromDict(v, b).value) && RecordFromDict(v, b).value.binding == b
  {
    hide RecordFields;
    var w := RecordToDict(RecordFromDict(v, b).value);
    assert w.fields == v.fields;
  }

  // ---- tombstones, references, registry entries -----------------------------------------

  const TOMBSTONE_FIELDS: set<Key> := {
    SettingIdKey, PluginIdKey, PackageDigestKey, DeclarationDigestKey, ScopeKey, ScopeBindingDigestKey,
    TombstoneGenerationKey, CommittedRevisionKey }

  function TombstoneMember(t: Tombstone, k: Key): Json {
    match k
    case SettingIdKey => Str(SettingDigest(t.id))
    case PluginIdKey => Str(Plain(t.plugin))
    case PackageDigestKey => Str(Plain(t.package))
    case DeclarationDigestKey => Str(DeclarationDigest(t.declaration))
    case ScopeKey => ScopeName(t.binding)
    case ScopeBindingDigestKey => BindingName(t.binding)
    case TombstoneGenerationKey => Str(Hex(t.generation))
    case CommittedRevisionKey => Int(t.committedRevision)
    case _ => Null
  }

  function TombstoneToDict(t: Tombstone): Json { Obj(map k | k in TOMBSTONE_FIELDS :: TombstoneMember(t, k)) }

  predicate IsNat(v: Json) { v.Int? && v.n >= 0 }

  function Decimal(n: nat): string {
    if n < 10 then [Digit(n)] else Decimal(n / 10) + [Digit(n % 10)]
  }

  function Digit(n: nat): char
    requires n < 10
  {
    ('0' as int + n) as char
  }

  function Pow10(k: nat): nat { if k == 0 then 1 else 10 * Pow10(k - 1) }

  lemma {:induction false} PowerDigits(k: nat)
    ensures |Decimal(Pow10(k))| == k + 1 && Pow10(k) > 0
  {
    if k > 0 {
      PowerDigits(k - 1);
      assert Pow10(k) / 10 == Pow10(k - 1);
    }
  }

  lemma {:induction false} DecimalIsDigits(n: nat)
    ensures forall i :: 0 <= i < |Decimal(n)| ==> '0' <= Decimal(n)[i] <= '9'
  {
    if n >= 10 { DecimalIsDigits(n / 10); }
  }

  /** A number of 64 digits spells a digest; 10 to the 63 is one. */
  lemma DigestNumber(n: nat)
    ensures IsHex(Decimal(n), 64) <==> |Decimal(n)| == 64
    ensures IsHex(Decimal(Pow10(63)), 64)
  {
    hide Decimal, Pow10;
    DecimalIsDigits(n);
    DecimalIsDigits(Pow10(63));
    PowerDigits(63);
  }

  /** The digest that the decimal digits of a number spell, when there are 64 of them, is the digest of
      some declaration; of which one is left open, as hashing is. */
  const SPELLED: nat -> Declaration

  /** `str` of a package digest: a string is itself and a number its decimal digits. Whatever else is
      there does not spell a digest. */
  function PackageText(v: Json): Option<string> {
    if IsPlain(v) then Some(v.text.text) else if IsNat(v) then Some(Decimal(v.n)) else None
  }

  function DeclarationText(v: Json): Option<Declaration> {
    if v.Str? && v.text.DeclarationDigest? then Some(v.text.declaration)
    else if IsNat(v) && |Decimal(v.n)| == 64 then Some(SPELLED(v.n))
    else None
  }

  /** Both digests of the tombstone document are strings. */
  predicate StringDigests(v: Json) { Field(v, PackageDigestKey).Str? && Field(v, DeclarationDigestKey).Str? }

  /** `_tombstone_from_dict`; the digests are checked for their shape only, and after `str`. */
  function TombstoneFromDict(v: Json, b: Binding): Option<Tombstone> {
    var package, declaration := PackageText(Field(v, PackageDigestKey)), DeclarationText(Field(v, DeclarationDigestKey));
    if !HasExactly(v, TOMBSTONE_FIELDS) then None
    else if Field(v, ScopeKey) != ScopeName(b) || Field(v, ScopeBindingDigestKey) != BindingName(b) then None
    else if !IsNat(Field(v, CommittedRevisionKey)) || !IsPlain(Field(v, PluginIdKey)) || package.None? || declaration.None?
      || !Field(v, SettingIdKey).Str? || !Field(v, SettingIdKey).text.SettingDigest?
      || !Field(v, TombstoneGenerationKey).Str? || !Field(v, TombstoneGenerationKey).text.Hex? then None
    else
      var t := Tombstone(
        Field(v, SettingIdKey).text.id, Field(v, PluginIdKey).text.text, package.value,
        declaration.value, b, Field(v, TombstoneGenerationKey).text.token, Field(v, CommittedRevisionKey).n);
      if TombstoneFields(t) then Some(t) else None
  }

  lemma TombstoneField(t: Tombstone, k: Key)
    requires k in TOMBSTONE_FIELDS
    ensures Field(TombstoneToDict(t), k) == TombstoneMember(t, k)
  {
    hide TombstoneMember;
  }

  lemma WrittenTombstone(t: Tombstone)
    ensures HasExactly(TombstoneToDict(t), TOMBSTONE_FIELDS)
    ensures var v := TombstoneToDict(t);
      && Field(v, SettingIdKey) == Str(SettingDigest(t.id)) && Field(v, PluginIdKey) == Str(Plain(t.plugin))
      && Field(v, PackageDigestKey) == Str(Plain(t.package))
      && Field(v, DeclarationDigestKey) == Str(DeclarationDigest(t.declaration))
      && Field(v, ScopeKey) == ScopeName(t.binding) && Field(v, ScopeBindingDigestKey) == BindingName(t.binding)
      && Field(v, TombstoneGenerationKey) == Str(Hex(t.generation)) && Field(v, CommittedRevisionKey) == Int(t.committedRevision)
  {
    hide ScopeName, BindingName, Field;
    TombstoneField(t, SettingIdKey);
    TombstoneField(t, PluginIdKey);
    TombstoneField(t, PackageDigestKey);
    TombstoneField(t, DeclarationDigestKey);
    TombstoneField(t, ScopeKey);
    TombstoneField(t, ScopeBindingDigestKey);
    TombstoneField(t, TombstoneGenerationKey);
    TombstoneField(t, CommittedRevisionKey);
  }

  lemma TombstoneRoundTrip(t: Tombstone)
    requires TombstoneFields(t)
    ensures TombstoneFromDict(TombstoneToDict(t), t.binding) == Some(t)
  {
    hide TombstoneFields, TombstoneToDict, Field, HasExactly;
    WrittenTombstone(t);
  }

  /** An accepted tombstone document is what its tombstone would be written as exactly when both of
      its digests are strings: a number of 64 digits passes the shape check as well. */
  lemma TombstoneReadBack(v: Json, b: Binding)
    requires TombstoneFromDict(v, b).Some?
    ensures TombstoneToDict(TombstoneFromDict(v, b).value) == v <==> StringDigests(v)
    ensures TombstoneFields(TombstoneFromDict(v, b).value) && TombstoneFromDict(v, b).value.binding == b
  {
    hide TombstoneFields, Decimal;
    var t := TombstoneFromDict(v, b).value;
    WrittenTombstone(t);
    if StringDigests(v) { assert TombstoneToDict(t).fields == v.fields; }
  }

  /** The document of a tombstone with a number in place of its package digest. */
  function WithNumber(t: Tombstone, n: nat): Json { Obj(TombstoneToDict(t).fields[PackageDigestKey := Int(n)]) }

  /** When the package digest is spelled in digits only, the number is read as the very same. */
  lemma NumberIsRead(t: Tombstone, n: nat)
    requires TombstoneFields(t) && t.package == Decimal(n)
    ensures TombstoneFromDict(WithNumber(t, n), t.binding) == Some(t) && !StringDigests(WithNumber(t, n))
  {
    hide TombstoneFields, TombstoneToDict, Decimal, Field, HasExactly;
    WrittenTombstone(t);
    TombstoneIsObject(t);
    OneMemberSet(TombstoneToDict(t), PackageDigestKey, Int(n));
    WithExactly(TombstoneToDict(t), WithNumber(t, n), TOMBSTONE_FIELDS);
  }

  lemma TombstoneIsObject(t: Tombstone)
    ensures TombstoneToDict(t).Obj? && PackageDigestKey in TombstoneToDict(t).fields
  {
    hide TombstoneMember;
  }

  lemma WithExactly(v: Json, w: Json, names: set<Key>)
    requires HasExactly(v, names) && w.Obj? && v.fields.Keys == w.fields.Keys
    ensures HasExactly(w, names)
  {
  }

  lemma OneMemberSet(v: Json, name: Key, value: Json)
    requires v.Obj? && name in v.fields
    ensures var w := Obj(v.fields[name := value]);
      && w.fields.Keys == v.fields.Keys && Field(w, name) == value && forall k :: k != name ==> Field(w, k) == Field(v, k)
  {
  }

  function RefToDict(op: Token): Json { Obj(map[OperationIdKey := Str(Hex(op)), FileKey := Str(JournalFile(op))]) }

  function RefFromDict(v: Json): Option<Token> {
    if !HasExactly(v, {OperationIdKey, FileKey}) then None
    else if !Field(v, OperationIdKey).Str? || !Field(v, OperationIdKey).text.Hex? then None
    else if Field(v, FileKey) != Str(JournalFile(Field(v, OperationIdKey).text.token)) then None
    else Some(Field(v, OperationIdKey).text.token)
  }

  lemma RefReadBack(v: Json)
    requires RefFromDict(v).Some?
    ensures RefToDict(RefFromDict(v).value) == v
  {
    assert RefToDict(RefFromDict(v).value).fields == v.fields;
  }

  const ENTRY_FIELDS: set<Key> := { ScopeBindingDigestKey, MetadataLocatorKey, StateKey, RegisteredRevisionKey }

  function StateName(s: EntryState): string {
    match s
    case Registering => "registering"
    case Registered => "registered"
    case RemovalPending => "removal_pending"
    case Partial => "partial"
    case Removed => "removed"
  }

  function ReadState(name: string): Option<EntryState> {
    if name == "registering" then Some(Registering)
    else if name == "registered" then Some(Registered)
    else if name == "removal_pending" then Some(RemovalPending)
    else if name == "partial" then Some(Partial)
    else if name == "removed" then Some(Removed)
    else None
  }

  lemma StateNames(s: EntryState, name: string)
    ensures ReadState(StateName(s)) == Some(s)
    ensures ReadState(name).Some? ==> StateName(ReadState(name).value) == name
  {
    assert "registering"[8] != "registered"[8];
    assert "removal_pending"[5] != "removed"[5];
  }

  function Locator(digest: string): string { "workspaces/" + digest + "/index.json" }

  function EntryMember(e: Entry, k: Key): Json {
    match k
    case ScopeBindingDigestKey => Str(Plain(e.binding.digest))
    case MetadataLocatorKey => Str(Plain(Locator(e.binding.digest)))
    case StateKey => Str(Plain(StateName(e.state)))
    case RegisteredRevisionKey => Int(e.registeredRevision)
    case _ => Null
  }

  function EntryToDict(e: Entry): Json { Obj(map k | k in ENTRY_FIELDS :: EntryMember(e, k)) }

  /** `_workspace_entry_from_dict`. */
  function EntryFromDict(v: Json): Option<Entry> {
    if !HasExactly(v, ENTRY_FIELDS) then None
    else if !IsPlain(Field(v, ScopeBindingDigestKey)) || !IsHex(Field(v, ScopeBindingDigestKey).text.text, 64) then None
    else
      var digest := Field(v, ScopeBindingDigestKey).text.text;
      if Field(v, MetadataLocatorKey) != Str(Plain(Locator(digest))) then None
      else if !IsPlain(Field(v, StateKey)) || ReadState(Field(v, StateKey).text.text).None? then None
      else if !IsNat(Field(v, RegisteredRevisionKey)) then None
      else Some(Entry(WorkspaceScope(digest), ReadState(Field(v, StateKey).text.text).value, Field(v, RegisteredRevisionKey).n))
  }

  lemma EntryRoundTrip(e: Entry)
    requires WorkspaceName(e.binding)
    ensures EntryFromDict(EntryToDict(e)) == Some(e)
  {
    hide IsHex, StateName, ReadState, Locator;
    StateNames(e.state, "");
  }

  lemma EntryReadBack(v: Json)
    requires EntryFromDict(v).Some?
    ensures EntryToDict(EntryFromDict(v).value) == v && WorkspaceName(EntryFromDict(v).value.binding)
  {
    hide IsHex, StateName, ReadState, Locator;
    StateNames(Partial, Field(v, StateKey).text.text);
    assert EntryToDict(EntryFromDict(v).value).fields == v.fields;
  }

  // ---- lists ---------------------------------------------------------------------------

  function WriteAll<T>(xs: seq<T>, write: T -> Json): seq<Json> { seq(|xs|, k requires 0 <= k < |xs| => write(xs[k])) }

  /** Read every item, or nothing at all. */
  function ReadAll<T>(items: seq<Json>, read: Json -> Option<T>): (xs: Option<seq<T>>)
    ensures xs.Some? ==> |xs.value| == |items| && forall k :: 0 <= k < |items| ==> read(items[k]) == Some(xs.value[k])
    ensures xs.None? ==> exists k :: 0 <= k < |items| && read(items[k]).None?
  {
    if items == [] then Some([])
    else
      var first := read(items[0]);
      var rest := ReadAll(items[1..], read);
      if first.Some? && rest.Some? then Some([first.value] + rest.value)
      else if first.None? then None
      else
        assert forall k :: 0 <= k < |items[1..]| ==> items[1..][k] == items[k + 1];
        None
  }

  lemma AllRoundTrip<T>(xs: seq<T>, write: T -> Json, read: Json -> Option<T>)
    requires forall k :: 0 <= k < |xs| ==> read(write(xs[k])) == Some(xs[k])
    ensures ReadAll(WriteAll(xs, write), read) == Some(xs)
  {
    var back := ReadAll(WriteAll(xs, write), read);
    assert forall k :: 0 <= k < |xs| ==> WriteAll(xs, write)[k] == write(xs[k]);
    assert back.value == xs;
  }

  lemma AllReadBack<T>(items: seq<Json>, write: T -> Json, read: Json -> Option<T>)
    requires ReadAll(items, read).Some?
    ensures WriteAll(ReadAll(items, read).value, write) == items
      <==> forall k :: 0 <= k < |items| ==> write(read(items[k]).value) == items[k]
  {
    var xs := ReadAll(items, read).value;
    assert forall k :: 0 <= k < |items| ==> WriteAll(xs, write)[k] == write(read(items[k]).value);
  }

  // ---- the index -----------------------------------------------------------------------

  const INDEX_FIELDS: set<Key> := {
    SchemaVersionKey, ScopeKey, ScopeBindingDigestKey, RevisionKey, RecordsKey, TombstonesKey,
    JournalRefsKey, WorkspaceRegistryKey }

  function IndexMember(b: Binding, i: Index, k: Key): Json {
    match k
    case SchemaVersionKey => VERSION
    case ScopeKey => ScopeName(b)
    case ScopeBindingDigestKey => BindingName(b)
    case RevisionKey => Int(i.revision)
    case RecordsKey => Arr(WriteAll(i.records, RecordToDict))
    case TombstonesKey => Arr(WriteAll(i.tombstones, TombstoneToDict))
    case JournalRefsKey => Arr(WriteAll(i.refs, RefToDict))
    case WorkspaceRegistryKey => Arr(WriteAll(i.registry, EntryToDict))
    case _ => Null
  }

  function IndexToDict(b: Binding, i: Index): Json { Obj(map k | k in INDEX_FIELDS :: IndexMember(b, i, k)) }

  /** `MetadataIndexV1.__post_init__`. */
  ghost predicate PostInit(b: Binding, i: Index) {
    && (b.WorkspaceScope? ==> i.registry == [])
    && (forall j, k :: 0 <= j < k < |i.records| ==> i.records[j].id != i.records[k].id)
    && DistinctTombstones(i.tombstones) && DistinctRefs(i.refs) && DistinctEntries(i.registry)
    && (forall r, t :: r in i.records && t in i.tombstones ==> r.id != t.id)
  }

  function BindingOf(v: Json): Option<Binding> {
    if !IsPlain(Field(v, ScopeBindingDigestKey)) || !IsHex(Field(v, ScopeBindingDigestKey).text.text, 64) then None
    else if Field(v, ScopeKey) == Str(Plain("user")) then Some(UserScope(Field(v, ScopeBindingDigestKey).text.text))
    else if Field(v, ScopeKey) == Str(Plain("workspace")) then Some(WorkspaceScope(Field(v, ScopeBindingDigestKey).text.text))
    else None
  }

  lemma BindingIs(v: Json, b: Binding)
    ensures Field(v, ScopeKey) == ScopeName(b) && Field(v, ScopeBindingDigestKey) == BindingName(b) && IsHex(b.digest, 64)
      <==> BindingOf(v) == Some(b)
  {
    assert "user"[0] != "workspace"[0];
  }

  function RecordReader(b: Binding): Json -> Option<Record> { x => RecordFromDict(x, b) }
  function TombstoneReader(b: Binding): Json -> Option<Tombstone> { x => TombstoneFromDict(x, b) }

  lemma RecordsRoundTrip(b: Binding, rs: seq<Record>)
    requires forall r :: r in rs ==> RecordFields(r) && r.binding == b
    ensures ReadAll(WriteAll(rs, RecordToDict), RecordReader(b)) == Some(rs)
  {
    hide RecordFields, RecordToDict, RecordFromDict;
    forall r | r in rs ensures RecordReader(b)(RecordToDict(r)) == Some(r) { RecordRoundTrip(r); }
    AllRoundTrip(rs, RecordToDict, RecordReader(b));
  }

  lemma RefsRoundTrip(refs: seq<Token>)
    ensures ReadAll(WriteAll(refs, RefToDict), RefFromDict) == Some(refs)
  {
    AllRoundTrip(refs, RefToDict, RefFromDict);
  }

  lemma TombstonesRoundTrip(b: Binding, ts: seq<Tombstone>)
    requires forall t :: t in ts ==> TombstoneFields(t) && t.binding == b
    ensures ReadAll(WriteAll(ts, TombstoneToDict), TombstoneReader(b)) == Some(ts)
  {
    hide TombstoneFields, TombstoneToDict, TombstoneFromDict;
    forall t | t in ts ensures TombstoneReader(b)(TombstoneToDict(t)) == Some(t) { TombstoneRoundTrip(t); }
    AllRoundTrip(ts, TombstoneToDict, TombstoneReader(b));
  }

  lemma EntriesRoundTrip(es: seq<Entry>)
    requires forall e :: e in es ==> WorkspaceName(e.binding)
    ensures ReadAll(WriteAll(es, EntryToDict), EntryFromDict) == Some(es)
  {
    hide WorkspaceName, EntryToDict, EntryFromDict;
    forall e | e in es ensures EntryFromDict(EntryToDict(e)) == Some(e) { EntryRoundTrip(e); }
    AllRoundTrip(es, EntryToDict, EntryFromDict);
  }

  /** The parts of an index document, read one by one. */
  function ReadParts(v: Json, b: Binding): Option<Index> {
    if !IsNat(Field(v, RevisionKey)) || !Field(v, RecordsKey).Arr? || !Field(v, TombstonesKey).Arr?
      || !Field(v, JournalRefsKey).Arr? || !Field(v, WorkspaceRegistryKey).Arr? then None
    else
      var records := ReadAll(Field(v, RecordsKey).items, RecordReader(b));
      var tombstones := ReadAll(Field(v, TombstonesKey).items, TombstoneReader(b));
      var refs := ReadAll(Field(v, JournalRefsKey).items, RefFromDict);
      var registry := ReadAll(Field(v, WorkspaceRegistryKey).items, EntryFromDict);
      if records.None? || tombstones.None? || refs.None? || registry.None? then None
      else Some(Index(Field(v, RevisionKey).n, records.value, tombstones.value, refs.value, registry.value))
  }

  /** `MetadataIndexV1.from_dict`. */
  ghost function IndexFromDict(v: Json): Option<(Binding, Index)> {
    if !HasExactly(v, INDEX_FIELDS) || !IsVersion(Field(v, SchemaVersionKey)) then None
    else
      var b := BindingOf(v);
      if b.None? then None
      else
        var i := ReadParts(v, b.value);
        if i.None? || !PostInit(b.value, i.value) then None else Some((b.value, i.value))
  }

  /** Every string the index carries has the shape its reader insists on. */
  ghost predicate IndexFields(b: Binding, i: Index) {
    && IsHex(b.digest, 64)
    && (forall r :: r in i.records ==> RecordFields(r) && r.binding == b)
    && (forall t :: t in i.tombstones ==> TombstoneFields(t) && t.binding == b)
    && (forall e :: e in i.registry ==> WorkspaceName(e.binding))
  }

  lemma IndexField(b: Binding, i: Index, k: Key)
    requires k in INDEX_FIELDS
    ensures Field(IndexToDict(b, i), k) == IndexMember(b, i, k)
  {
    hide IndexMember;
  }

  lemma WrittenIndex(b: Binding, i: Index)
    ensures var v := IndexToDict(b, i);
      && Field(v, RevisionKey) == Int(i.revision)
      && Field(v, RecordsKey) == Arr(WriteAll(i.records, RecordToDict))
      && Field(v, TombstonesKey) == Arr(WriteAll(i.tombstones, TombstoneToDict))
      && Field(v, JournalRefsKey) == Arr(WriteAll(i.refs, RefToDict))
      && Field(v, WorkspaceRegistryKey) == Arr(WriteAll(i.registry, EntryToDict))
  {
    hide RecordToDict, TombstoneToDict, EntryToDict, RefToDict, WriteAll, Field, IndexToDict;
    IndexField(b, i, RevisionKey);
    IndexField(b, i, RecordsKey);
    IndexField(b, i, TombstonesKey);
    IndexField(b, i, JournalRefsKey);
    IndexField(b, i, WorkspaceRegistryKey);
  }

  lemma PartsRoundTrip(b: Binding, i: Index)
    requires IndexFields(b, i)
    ensures ReadParts(IndexToDict(b, i), b) == Some(i)
  {
    hide RecordFields, TombstoneFields, WorkspaceName, IsHex, RecordToDict, RecordReader, TombstoneToDict,
      TombstoneReader, EntryToDict, EntryFromDict, ReadAll, WriteAll, IndexToDict, Field, RefToDict, RefFromDict;
    WrittenIndex(b, i);
    RecordsRoundTrip(b, i.records);
    TombstonesRoundTrip(b, i.tombstones);
    RefsRoundTrip(i.refs);
    EntriesRoundTrip(i.registry);
  }

  /** Reading back what was written gives the same index. */
  lemma IndexRoundTrip(b: Binding, i: Index)
    requires IndexFields(b, i) && PostInit(b, i)
    ensures IndexFromDict(IndexToDict(b, i)) == Some((b, i))
  {
    hide IndexFields, PostInit, ReadParts, IsHex, ReadAll, WriteAll;
    PartsRoundTrip(b, i);
    assert IsHex(b.digest, 64) by { DigestOf(b, i); }
    BindingIs(IndexToDict(b, i), b);
  }

  lemma DigestOf(b: Binding, i: Index)
    requires IndexFields(b, i)
    ensures IsHex(b.digest, 64)
  {
  }

  predicate AllStringDigests(items: seq<Json>) { forall k :: 0 <= k < |items| ==> StringDigests(items[k]) }

  lemma TombstonesReadBack(items: seq<Json>, b: Binding)
    requires ReadAll(items, TombstoneReader(b)).Some?
    ensures WriteAll(ReadAll(items, TombstoneReader(b)).value, TombstoneToDict) == items <==> AllStringDigests(items)
  {
    hide TombstoneToDict, TombstoneFromDict, WriteAll, StringDigests;
    AllReadBack(items, TombstoneToDict, TombstoneReader(b));
    forall k | 0 <= k < |items|
      ensures TombstoneToDict(TombstoneReader(b)(items[k]).value) == items[k] <==> StringDigests(items[k])
    {
      TombstoneReadBack(items[k], b);
    }
  }

  lemma PartsReadBack(v: Json, b: Binding)
    requires ReadParts(v, b).Some?
    ensures var i := ReadParts(v, b).value;
      && Field(v, RevisionKey) == Int(i.revision)
      && Field(v, RecordsKey) == Arr(WriteAll(i.records, RecordToDict))
      && Field(v, TombstonesKey).Arr?
      && (Field(v, TombstonesKey) == Arr(WriteAll(i.tombstones, TombstoneToDict))
          <==> AllStringDigests(Field(v, TombstonesKey).items))
      && Field(v, JournalRefsKey) == Arr(WriteAll(i.refs, RefToDict))
      && Field(v, WorkspaceRegistryKey) == Arr(WriteAll(i.registry, EntryToDict))
  {
    hide RecordToDict, RecordFromDict, TombstoneToDict, TombstoneFromDict, EntryToDict, EntryFromDict, RefToDict,
      RefFromDict, WriteAll, AllStringDigests;
    forall x | RecordReader(b)(x).Some? ensures RecordToDict(RecordReader(b)(x).value) == x { RecordReadBack(x, b); }
    forall x | RefFromDict(x).Some? ensures RefToDict(RefFromDict(x).value) == x { RefReadBack(x); }
    forall x | EntryFromDict(x).Some? ensures EntryToDict(EntryFromDict(x).value) == x { EntryReadBack(x); }
    AllReadBack(Field(v, RecordsKey).items, RecordToDict, RecordReader(b));
    TombstonesReadBack(Field(v, TombstonesKey).items, b);
    AllReadBack(Field(v, JournalRefsKey).items, RefToDict, RefFromDict);
    AllReadBack(Field(v, WorkspaceRegistryKey).items, EntryToDict, EntryFromDict);
  }

  /** An accepted index document is the one its index would be written as exactly when its schema
      version is the integer 1 and the digests of all its tombstones are strings. */
  lemma IndexReadBack(v: Json)
    requires IndexFromDict(v).Some?
    ensures var (b, i) := IndexFromDict(v).value;
      && PostInit(b, i) && Field(v, TombstonesKey).Arr?
      && (IndexToDict(b, i) == v
          <==> Field(v, SchemaVersionKey) == VERSION && AllStringDigests(Field(v, TombstonesKey).items))
  {
    hide PostInit, ReadParts, WriteAll, IsHex, AllStringDigests, IndexToDict, Field, BindingOf;
    var (b, i) := IndexFromDict(v).value;
    BindingIs(v, b);
    PartsReadBack(v, b);
    WrittenIndex(b, i);
    WrittenFrame(b, i);
    SameIndexDocument(v, IndexToDict(b, i));
  }

  lemma SameIndexDocument(v: Json, w: Json)
    requires HasExactly(v, INDEX_FIELDS) && HasExactly(w, INDEX_FIELDS)
    requires forall k :: k in INDEX_FIELDS && k != SchemaVersionKey && k != TombstonesKey ==> Field(v, k) == Field(w, k)
    ensures v == w <==>
      Field(v, SchemaVersionKey) == Field(w, SchemaVersionKey) && Field(v, TombstonesKey) == Field(w, TombstonesKey)
  {
    if Field(v, SchemaVersionKey) == Field(w, SchemaVersionKey) && Field(v, TombstonesKey) == Field(w, TombstonesKey) {
      forall k | k in INDEX_FIELDS ensures v.fields[k] == w.fields[k] { assert Field(v, k) == Field(w, k); }
      assert v.fields == w.fields;
    }
  }

  lemma WrittenFrame(b: Binding, i: Index)
    ensures var v := IndexToDict(b, i);
      && HasExactly(v, INDEX_FIELDS) && Field(v, SchemaVersionKey) == VERSION
      && Field(v, ScopeKey) == ScopeName(b) && Field(v, ScopeBindingDigestKey) == BindingName(b)
  {
    hide WriteAll, Field, RecordToDict, TombstoneToDict, EntryToDict, RefToDict;
    IndexField(b, i, SchemaVersionKey);
    IndexField(b, i, ScopeKey);
    IndexField(b, i, ScopeBindingDigestKey);
  }

  lemma LooseFields(w: Json, loose: Json)
    requires HasExactly(w, INDEX_FIELDS)
    ensures var v := Obj(w.fields[SchemaVersionKey := loose]);
      && HasExactly(v, INDEX_FIELDS) && Field(v, SchemaVersionKey) == loose
      && (forall b :: ReadParts(v, b) == ReadParts(w, b)) && BindingOf(v) == BindingOf(w)
  {
    hide ReadAll, RecordReader, TombstoneReader, RefFromDict, EntryFromDict, IsHex;
    var v := Obj(w.fields[SchemaVersionKey := loose]);
    assert v.fields.Keys == INDEX_FIELDS;
    assert forall k :: k != SchemaVersionKey ==> Field(v, k) == Field(w, k);
  }

  /** Every valid index also reads back from such a document, so the two directions are not quite
      inverse to each other. */
  lemma LooseVersionIsAccepted(b: Binding, i: Index, loose: Json)
    requires IndexFields(b, i) && PostInit(b, i) && (loose == Bool(true) || loose == Real(1.0))
    ensures var v := Obj(IndexToDict(b, i).fields[SchemaVersionKey := loose]);
      IndexFromDict(v) == Some((b, i)) && IndexToDict(b, i) != v
  {
    hide IndexFields, PostInit, ReadParts, BindingOf;
    IndexRoundTrip(b, i);
    LooseFields(IndexToDict(b, i), loose);
    assert Field(IndexToDict(b, i), SchemaVersionKey) == VERSION;
  }

  /** The tombstone documents of an index, one of them with a number for its package digest. */
  function Numbered(ts: seq<Tombstone>, k: nat, n: nat): (items: seq<Json>)
    requires k < |ts|
    ensures |items| == |ts|
    ensures forall j :: 0 <= j < |ts| ==> items[j] == if j == k then WithNumber(ts[k], n) else TombstoneToDict(ts[j])
  {
    WriteAll(ts, TombstoneToDict)[k := WithNumber(ts[k], n)]
  }

  function NumberedIndex(b: Binding, i: Index, k: nat, n: nat): Json
    requires k < |i.tombstones|
  {
    Obj(IndexToDict(b, i).fields[TombstonesKey := Arr(Numbered(i.tombstones, k, n))])
  }

  /** Every valid index in which a package digest is spelled in digits only also reads back from a
      document with the number in place of that string; its version is the integer 1. */
  lemma NumberInIndexIsAccepted(b: Binding, i: Index, k: nat, n: nat)
    requires IndexFields(b, i) && PostInit(b, i) && k < |i.tombstones| && i.tombstones[k].package == Decimal(n)
    ensures var v := NumberedIndex(b, i, k, n);
      IndexFromDict(v) == Some((b, i)) && Field(v, SchemaVersionKey) == VERSION && IndexToDict(b, i) != v
  {
    hide IndexFields, PostInit, ReadParts, BindingOf, IndexToDict, WriteAll, Field, IsHex, Decimal, AllStringDigests, Numbered;
    WrittenFrame(b, i);
    OneMemberSet(IndexToDict(b, i), TombstonesKey, Arr(Numbered(i.tombstones, k, n)));
    DigestOf(b, i);
    BindingIs(NumberedIndex(b, i, k, n), b);
    NumberedParts(b, i, k, n);
    NotAllStrings(i.tombstones, k, n);
    IndexReadBack(NumberedIndex(b, i, k, n));
  }

  lemma NotAllStrings(ts: seq<Tombstone>, k: nat, n: nat)
    requires k < |ts|
    ensures !AllStringDigests(Numbered(ts, k, n))
  {
    hide TombstoneToDict;
    WrittenTombstone(ts[k]);
    OneMemberSet(TombstoneToDict(ts[k]), PackageDigestKey, Int(n));
    assert !StringDigests(Numbered(ts, k, n)[k]);
  }

  lemma NumberedTombstones(b: Binding, ts: seq<Tombstone>, k: nat, n: nat)
    requires forall t :: t in ts ==> TombstoneFields(t) && t.binding == b
    requires k < |ts| && ts[k].package == Decimal(n)
    ensures ReadAll(Numbered(ts, k, n), TombstoneReader(b)) == Some(ts)
  {
    hide TombstoneFields, TombstoneToDict, TombstoneFromDict, Decimal, WithNumber, Numbered;
    var items := Numbered(ts, k, n);
    forall j | 0 <= j < |ts| ensures TombstoneReader(b)(items[j]) == Some(ts[j]) {
      if j == k { NumberIsRead(ts[j], n); } else { TombstoneRoundTrip(ts[j]); }
    }
    var back := ReadAll(items, TombstoneReader(b));
    assert back.value == ts;
  }

  lemma NumberedParts(b: Binding, i: Index, k: nat, n: nat)
    requires IndexFields(b, i) && k < |i.tombstones| && i.tombstones[k].package == Decimal(n)
    ensures ReadParts(NumberedIndex(b, i, k, n), b) == Some(i)
  {
    hide RecordFields, TombstoneFields, WorkspaceName, IsHex, RecordToDict, RecordReader, TombstoneToDict, WithNumber, Decimal,
      TombstoneReader, EntryToDict, EntryFromDict, ReadAll, WriteAll, IndexToDict, Field, RefToDict, RefFromDict, Numbered;
    WrittenIndex(b, i);
    WrittenFrame(b, i);
    OneMemberSet(IndexToDict(b, i), TombstonesKey, Arr(Numbered(i.tombstones, k, n)));
    RecordsRoundTrip(b, i.records);
    NumberedTombstones(b, i.tombstones, k, n);
    RefsRoundTrip(i.refs);
    EntriesRoundTrip(i.registry);
  }

  /** A concrete document that is accepted, has the integer 1 as its version, and is not what its index
      would be written as: the package digest of its tombstone is the number 10 to the 63. */
  lemma NumberDocument() returns (v: Json)
    ensures IndexFromDict(v).Some? && Field(v, SchemaVersionKey) == VERSION
    ensures var (b, i) := IndexFromDict(v).value; IndexToDict(b, i) != v
  {
    hide IndexFromDict, IndexToDict, Numbered, Decimal, Pow10, Field, IsHex;
    var digits := Decimal(Pow10(63));
    DigestNumber(0);
    var b := UserScope(digits);
    var t := Tombstone(SettingId("plugin", digits, "KEY"), "plugin", digits, Declaration("KEY", false), b, 0, 0);
    var i := Index(1, [], [t], [], []);
    NumberInIndexIsAccepted(b, i, 0, Pow10(63));
    v := NumberedIndex(b, i, 0, Pow10(63));
  }
}
