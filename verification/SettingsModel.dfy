/** The values the settings store keeps on disk: records, tombstones, journals and the
    metadata index of one scope, with the pure index edits the transactions are made of.

    SHA-256 is idealised: a digest is the tuple that was hashed, so distinct inputs give
    distinct setting identities and distinct credential accounts. */
module SettingsModel {
  import opened Wrappers

  /** What `uuid4().hex` and `token_hex(16)` return: an opaque value that never repeats. */
  type Token = nat
  type Secret = string

  /** `scope_binding_digest`: one value for the user scope of a home, one per workspace. */
  datatype Binding = UserScope(digest: string) | WorkspaceScope(digest: string)

  datatype SettingId = SettingId(plugin: string, package: string, env: string)

  datatype Account = CredentialAccount(binding: Binding, id: SettingId, generation: Token)

  /** A durable record. `from_dict` insists that the stored setting id and declaration digest
      equal the ones derived from the other fields, so neither is kept twice here. */
  datatype Record = Record(
    id: SettingId, binding: Binding, name: string, description: string,
    sensitive: bool, generation: Token)
  {
    function Declared(): Declaration { Declaration(id.env, sensitive) }

    function Account(): Account { CredentialAccount(binding, id, generation) }

    /** One plugin has at most one active record per environment variable. */
    predicate SameKey(other: Record) {
      id.plugin == other.id.plugin && id.env == other.id.env
    }
  }

  /** What a declaration digest is the digest of. */
  datatype Declaration = Declaration(env: string, sensitive: bool)

  datatype Tombstone = Tombstone(
    id: SettingId, plugin: string, package: string, declaration: Declaration, binding: Binding,
    generation: Token, committedRevision: nat)

  datatype Phase =
    | Prepared
    | CredentialWritten
    | MetadataCommitted
    | CleanupPending
    | TombstoneCommitted
    | CredentialCleanupPending

  datatype Journal =
    | SetJournal(op: Token, phase: Phase, record: Record, prior: Option<Record>)
    | RemoveJournal(op: Token, phase: Phase, record: Record, tombstone: Tombstone)

  {
    function At(next: Phase): Journal {
      match this
      case SetJournal(op, _, record, prior) => SetJournal(op, next, record, prior)
      case RemoveJournal(op, _, record, tombstone) => RemoveJournal(op, next, record, tombstone)
    }
  }

  datatype EntryState = Registering | Registered | RemovalPending | Partial | Removed

  datatype Entry = Entry(binding: Binding, state: EntryState, registeredRevision: nat)

  datatype Index = Index(
    revision: nat, records: seq<Record>, tombstones: seq<Tombstone>,
    refs: seq<Token>, registry: seq<Entry>)

  const EMPTY_INDEX := Index(0, [], [], [], [])

  /** The durable state of one scope: its index file, its journal directory and the part of the
      credential backend that holds its accounts. `minted` remembers every token drawn for it. */
  datatype Disk = Disk(
    index: Option<Index>, journals: map<Token, Journal>, vault: map<Account, Secret>,
    minted: set<Token>)
  {
    function Idx(): Index { if index.Some? then index.value else EMPTY_INDEX }
  }

  const EMPTY_DISK := Disk(None, map[], map[], {})

  // ---- field shapes the store insists on ----------------------------------------------

  const MAX_NAME_BYTES := 256
  const MAX_DESCRIPTION_BYTES := 4096
  const MAX_ENV_BYTES := 128
  const FORBIDDEN_ENV: set<string> := {
    "PATH", "NODE_OPTIONS", "PYTHONPATH", "CLASSPATH", "RUBYOPT", "PERL5OPT",
    "GIT_CONFIG_GLOBAL", "GIT_CONFIG_SYSTEM", "DYLD_INSERT_LIBRARIES" }

  predicate IsHex(s: string, length: nat) {
    |s| == length && forall i :: 0 <= i < |s| ==> '0' <= s[i] <= '9' || 'a' <= s[i] <= 'f'
  }

  predicate IsLetter(c: char) { 'a' <= c <= 'z' || 'A' <= c <= 'Z' || c == '_' }

  predicate IsEnvVar(s: string) {
    && 0 < |s| <= MAX_ENV_BYTES
    && IsLetter(s[0])
    && (forall i :: 0 <= i < |s| ==> IsLetter(s[i]) || '0' <= s[i] <= '9')
    && s !in FORBIDDEN_ENV
    && !("LD_" <= s) && !("DYLD_" <= s) && !("PYTHONWARNINGS" <= s)
  }

  function Utf8Bytes(s: string): nat {
    if s == [] then 0
    else
      var c := s[|s| - 1] as int;
      Utf8Bytes(s[..|s| - 1]) + (if c < 0x80 then 1 else if c < 0x800 then 2 else if c < 0x10000 then 3 else 4)
  }

  /** The characters Python's `str.strip` removes. */
  predicate IsWhite(c: char) {
    || '\t' <= c <= '\r' || '\U{1C}' <= c <= '\U{20}' || c == '\U{85}' || c == '\U{A0}' || c == '\U{1680}'
    || '\U{2000}' <= c <= '\U{200A}' || c == '\U{2028}' || c == '\U{2029}' || c == '\U{202F}' || c == '\U{205F}'
    || c == '\U{3000}'
  }

  predicate IsDisplayText(s: string, limit: nat) {
    (exists i :: 0 <= i < |s| && !IsWhite(s[i])) && Utf8Bytes(s) <= limit
  }

  /** The checks `_validate_mutation_identity` and `DurableSettingRecord.from_dict` share. */
  predicate RecordFields(r: Record) {
    && r.id.plugin != ""
    && IsHex(r.id.package, 64)
    && IsEnvVar(r.id.env)
    && IsDisplayText(r.name, MAX_NAME_BYTES)
    && IsDisplayText(r.description, MAX_DESCRIPTION_BYTES)
    && IsHex(r.binding.digest, 64)
  }

  predicate WorkspaceName(b: Binding) { b.WorkspaceScope? && IsHex(b.digest, 64) }

  predicate TombstoneFields(t: Tombstone) {
    && t.plugin != ""
    && IsHex(t.package, 64)
    && IsHex(t.binding.digest, 64)
  }

  // ---- lists without duplicates -------------------------------------------------------

  ghost predicate DistinctKeys(rs: seq<Record>) {
    forall i, j :: 0 <= i < j < |rs| ==> !rs[i].SameKey(rs[j])
  }

  ghost predicate DistinctTombstones(ts: seq<Tombstone>) {
    forall i, j :: 0 <= i < j < |ts| ==> ts[i].id != ts[j].id
  }

  ghost predicate DistinctRefs(refs: seq<Token>) {
    forall i, j :: 0 <= i < j < |refs| ==> refs[i] != refs[j]
  }

  ghost predicate DistinctEntries(es: seq<Entry>) {
    forall i, j :: 0 <= i < j < |es| ==> es[i].binding != es[j].binding
  }

  /** `_find_record`: the first active record of this plugin and environment variable. */
  function FindKey(rs: seq<Record>, plugin: string, env: string): (found: Option<Record>)
    ensures found.Some? ==> found.value in rs
    ensures found.Some? ==> found.value.id.plugin == plugin && found.value.id.env == env
    ensures found.None? ==> forall r :: r in rs ==> !(r.id.plugin == plugin && r.id.env == env)
  {
    if rs == [] then None
    else if rs[0].id.plugin == plugin && rs[0].id.env == env then Some(rs[0])
    else FindKey(rs[1..], plugin, env)
  }

  /** The records whose setting id is not in `gone`, in order. */
  function WithoutIds(rs: seq<Record>, gone: set<SettingId>): (kept: seq<Record>)
    ensures forall r :: r in kept <==> r in rs && r.id !in gone
    ensures DistinctKeys(rs) ==> DistinctKeys(kept)
    ensures (forall r :: r in rs ==> r.id !in gone) ==> kept == rs
  {
    if rs == [] then []
    else
      var last := rs[|rs| - 1];
      var front := WithoutIds(rs[..|rs| - 1], gone);
      assert rs == rs[..|rs| - 1] + [last];
      assert DistinctKeys(rs) ==> DistinctKeys(rs[..|rs| - 1]) && forall r :: r in rs[..|rs| - 1] ==> !r.SameKey(last);
      if last.id in gone then front else front + [last]
  }

  function WithoutTombstone(ts: seq<Tombstone>, id: SettingId): (kept: seq<Tombstone>)
    ensures forall t :: t in kept <==> t in ts && t.id != id
    ensures DistinctTombstones(ts) ==> DistinctTombstones(kept)
  {
    if ts == [] then []
    else
      var last := ts[|ts| - 1];
      var front := WithoutTombstone(ts[..|ts| - 1], id);
      assert ts == ts[..|ts| - 1] + [last];
      if last.id == id then front else front + [last]
  }

  function WithoutRef(refs: seq<Token>, op: Token): (kept: seq<Token>)
    ensures forall r :: r in kept <==> r in refs && r != op
    ensures DistinctRefs(refs) ==> DistinctRefs(kept)
    ensures DistinctRefs(refs) && op in refs ==> |kept| == |refs| - 1
    ensures op !in refs ==> kept == refs
  {
    if refs == [] then []
    else
      var last := refs[|refs| - 1];
      var front := WithoutRef(refs[..|refs| - 1], op);
      assert refs == refs[..|refs| - 1] + [last];
      assert DistinctRefs(refs) ==> last !in refs[..|refs| - 1];
      if last == op then front else front + [last]
  }

  lemma KeyIdentifiesRecord(rs: seq<Record>, r: Record, s: Record)
    requires DistinctKeys(rs) && r in rs && s in rs && r.SameKey(s)
    ensures r == s
  {
    var i :| 0 <= i < |rs| && rs[i] == r;
    var j :| 0 <= j < |rs| && rs[j] == s;
    assert i == j;
  }

  lemma IdIdentifiesTombstone(ts: seq<Tombstone>, t: Tombstone, u: Tombstone)
    requires DistinctTombstones(ts) && t in ts && u in ts && t.id == u.id
    ensures t == u
  {
    var i :| 0 <= i < |ts| && ts[i] == t;
    var j :| 0 <= j < |ts| && ts[j] == u;
    assert i == j;
  }

  // ---- the workspace registry ----------------------------------------------------------

  function FindEntry(es: seq<Entry>, b: Binding): (found: Option<Entry>)
    ensures found.Some? ==> found.value in es && found.value.binding == b
    ensures found.None? ==> forall e :: e in es ==> e.binding != b
  {
    if es == [] then None
    else if es[0].binding == b then Some(es[0])
    else FindEntry(es[1..], b)
  }

  /** Every entry of this scope becomes `entry`; the others stay where they are. */
  function ReplaceEntry(es: seq<Entry>, entry: Entry): (changed: seq<Entry>)
    ensures |changed| == |es|
    ensures forall k :: 0 <= k < |es| ==> changed[k] == if es[k].binding == entry.binding then entry else es[k]
  {
    seq(|es|, k requires 0 <= k < |es| => if es[k].binding == entry.binding then entry else es[k])
  }

  function UpsertEntry(es: seq<Entry>, entry: Entry): seq<Entry> {
    if FindEntry(es, entry.binding).Some? then ReplaceEntry(es, entry) else ReplaceEntry(es, entry) + [entry]
  }

  lemma FieldsNameScope(r: Record)
    requires RecordFields(r) && r.binding.WorkspaceScope?
    ensures WorkspaceName(r.binding)
  {
  }
}
