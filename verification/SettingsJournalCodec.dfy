/** Journal documents, and the store's own state read back: what every run writes is accepted. */
module SettingsJournalCodec {
  import opened Wrappers
  import opened SettingsModel
  import opened SettingsProtocol
  import opened SettingsHistory
  import opened SettingsAtomicity
  import opened SettingsCodec

  const COMMON_FIELDS: set<Key> := {
    SchemaVersionKey, OperationIdKey, OperationKey, PhaseKey, ScopeKey, ScopeBindingDigestKey, RetryableKey }
  const SET_FIELDS: set<Key> := {
    RecordKey, OldRecordKey, OldGenerationKey, NewGenerationKey, NewAccountKey, OldAccountKey }
  const REMOVE_FIELDS: set<Key> := { RecordKey, OldGenerationKey, OldAccountKey, TombstoneKey }

  function PhaseName(p: Phase): string {
    match p
    case Prepared => "prepared"
    case CredentialWritten => "credential_written"
    case MetadataCommitted => "metadata_committed"
    case CleanupPending => "cleanup_pending"
    case TombstoneCommitted => "tombstone_committed"
    case CredentialCleanupPending => "credential_cleanup_pending"
  }

  function ReadPhase(name: string): Option<Phase> {
    if name == "prepared" then Some(Prepared)
    else if name == "credential_written" then Some(CredentialWritten)
    else if name == "metadata_committed" then Some(MetadataCommitted)
    else if name == "cleanup_pending" then Some(CleanupPending)
    else if name == "tombstone_committed" then Some(TombstoneCommitted)
    else if name == "credential_cleanup_pending" then Some(CredentialCleanupPending)
    else None
  }

  lemma PhaseNames(p: Phase, name: string)
    ensures ReadPhase(PhaseName(p)) == Some(p)
    ensures ReadPhase(name).Some? ==> PhaseName(ReadPhase(name).value) == name
  {
    assert |"prepared"| == 8 && |"credential_written"| == 18 && |"metadata_committed"| == 18;
    assert |"cleanup_pending"| == 15 && |"tombstone_committed"| == 19 && |"credential_cleanup_pending"| == 26;
    assert "credential_written"[0] != "metadata_committed"[0];
  }

  function OptionalRecord(r: Option<Record>): Json { if r.Some? then RecordToDict(r.value) else Null }
  function OptionalToken(r: Option<Record>): Json { if r.Some? then Str(Hex(r.value.generation)) else Null }
  function AccountName(r: Record): Json { Str(AccountDigest(r.Account())) }
  function OptionalAccount(r: Option<Record>): Json { if r.Some? then AccountName(r.value) else Null }

  function JournalMember(j: Journal, k: Key): Json {
    match k
    case SchemaVersionKey => VERSION
    case OperationIdKey => Str(Hex(j.op))
    case OperationKey => Str(Plain(if j.SetJournal? then "set" else "remove"))
    case PhaseKey => Str(Plain(PhaseName(j.phase)))
    case ScopeKey => ScopeName(j.record.binding)
    case ScopeBindingDigestKey => BindingName(j.record.binding)
    case RetryableKey => Bool(true)
    case RecordKey => RecordToDict(j.record)
    case OldRecordKey => if j.SetJournal? then OptionalRecord(j.prior) else Null
    case OldGenerationKey => if j.SetJournal? then OptionalToken(j.prior) else Str(Hex(j.record.generation))
    case NewGenerationKey => Str(Hex(j.record.generation))
    case NewAccountKey => AccountName(j.record)
    case OldAccountKey => if j.SetJournal? then OptionalAccount(j.prior) else AccountName(j.record)
    case TombstoneKey => if j.RemoveJournal? then TombstoneToDict(j.tombstone) else Null
    case _ => Null
  }

  function JournalFieldNames(isSet: bool): set<Key> { COMMON_FIELDS + if isSet then SET_FIELDS else REMOVE_FIELDS }

  function JournalToDict(j: Journal): Json { Obj(map k | k in JournalFieldNames(j.SetJournal?) :: JournalMember(j, k)) }

  /** The checks common to both operations: names, version, identity, scope and phase. */
  predicate CommonChecks(v: Json, b: Binding, isSet: bool) {
    && HasExactly(v, JournalFieldNames(isSet))
    && IsVersion(Field(v, SchemaVersionKey))
    && Field(v, OperationIdKey).Str? && Field(v, OperationIdKey).text.Hex?
    && Field(v, ScopeKey) == ScopeName(b) && Field(v, ScopeBindingDigestKey) == BindingName(b)
    && Field(v, RetryableKey).Bool?
    && IsPlain(Field(v, PhaseKey)) && ReadPhase(Field(v, PhaseKey).text.text).Some?
    && PhaseOf(isSet, ReadPhase(Field(v, PhaseKey).text.text).value)
  }

  function ReadSet(v: Json, b: Binding, record: Record): Option<Journal>
    requires CommonChecks(v, b, true)
  {
    var prior := if Field(v, OldRecordKey) == Null then None else RecordFromDict(Field(v, OldRecordKey), b);
    if Field(v, OldRecordKey) != Null && (prior.None? || !prior.value.SameKey(record)) then None
    else if Field(v, OldGenerationKey) != OptionalToken(prior) || Field(v, OldAccountKey) != OptionalAccount(prior) then None
    else if Field(v, NewGenerationKey) != Str(Hex(record.generation)) || Field(v, NewAccountKey) != AccountName(record) then None
    else Some(SetJournal(Field(v, OperationIdKey).text.token, ReadPhase(Field(v, PhaseKey).text.text).value, record, prior))
  }

  function ReadRemove(v: Json, b: Binding, record: Record): Option<Journal>
    requires CommonChecks(v, b, false)
  {
    var tombstone := TombstoneFromDict(Field(v, TombstoneKey), b);
    if Field(v, OldGenerationKey) != Str(Hex(record.generation)) || Field(v, OldAccountKey) != AccountName(record) then None
    else if tombstone.None? || tombstone.value.id != record.id || tombstone.value.plugin != record.id.plugin
      || tombstone.value.package != record.id.package || tombstone.value.declaration != record.Declared() then None
    else Some(RemoveJournal(Field(v, OperationIdKey).text.token, ReadPhase(Field(v, PhaseKey).text.text).value, record, tombstone.value))
  }

  /** `_validate_journal_payload`. */
  function JournalFromDict(v: Json, b: Binding): Option<Journal> {
    var isSet := Field(v, OperationKey) == Str(Plain("set"));
    if !isSet && Field(v, OperationKey) != Str(Plain("remove")) then None
    else if !CommonChecks(v, b, isSet) then None
    else
      var record := RecordFromDict(Field(v, RecordKey), b);
      if record.None? then None
      else if isSet then ReadSet(v, b, record.value)
      else ReadRemove(v, b, record.value)
  }

  ghost predicate JournalFields(b: Binding, j: Journal) {
    && RecordFields(j.record) && j.record.binding == b
    && (j.SetJournal? && j.prior.Some? ==> RecordFields(j.prior.value) && j.prior.value.binding == b)
    && (j.RemoveJournal? ==> TombstoneFields(j.tombstone) && j.tombstone.binding == b)
  }

  lemma WrittenField(j: Journal, k: Key)
    requires k in JournalFieldNames(j.SetJournal?)
    ensures Field(JournalToDict(j), k) == JournalMember(j, k)
  {
    hide JournalMember;
  }

  /** The members a reader is strict about. */
  predicate IsStrict(k: Key) { k != SchemaVersionKey && k != RetryableKey && k != TombstoneKey }

  /** A document for this journal: the version may be a loose one, the flag either way, and the
      tombstone any that is read as this one. */
  ghost predicate Describes(v: Json, j: Journal) {
    && HasExactly(v, JournalFieldNames(j.SetJournal?))
    && IsVersion(Field(v, SchemaVersionKey)) && Field(v, RetryableKey).Bool?
    && (j.RemoveJournal? ==> TombstoneFromDict(Field(v, TombstoneKey), j.record.binding) == Some(j.tombstone))
    && forall k :: k in JournalFieldNames(j.SetJournal?) && IsStrict(k) ==> Field(v, k) == JournalMember(j, k)
  }

  lemma CommonMembers(j: Journal)
    ensures JournalMember(j, SchemaVersionKey) == VERSION && JournalMember(j, OperationIdKey) == Str(Hex(j.op))
    ensures JournalMember(j, ScopeKey) == ScopeName(j.record.binding)
    ensures JournalMember(j, ScopeBindingDigestKey) == BindingName(j.record.binding)
    ensures JournalMember(j, RetryableKey) == Bool(true) && JournalMember(j, PhaseKey) == Str(Plain(PhaseName(j.phase)))
  {
    hide RecordToDict, TombstoneToDict, PhaseName, OptionalRecord, OptionalToken, OptionalAccount, AccountName, ScopeName, BindingName;
  }

  lemma DescribedField(v: Json, j: Journal, k: Key)
    requires Describes(v, j) && k in JournalFieldNames(j.SetJournal?) && IsStrict(k)
    ensures Field(v, k) == JournalMember(j, k)
  {
    hide JournalFieldNames, JournalMember, Field, HasExactly, IsVersion, TombstoneFromDict;
  }

  lemma DescribedTombstone(v: Json, b: Binding, j: Journal)
    requires Describes(v, j) && j.RemoveJournal? && j.record.binding == b
    ensures TombstoneFromDict(Field(v, TombstoneKey), b) == Some(j.tombstone)
  {
    hide JournalFieldNames, JournalMember, Field, HasExactly, IsVersion, TombstoneFromDict;
  }

  lemma CommonNames(isSet: bool)
    ensures var names := JournalFieldNames(isSet);
      && SchemaVersionKey in names && OperationIdKey in names && OperationKey in names && PhaseKey in names
      && ScopeKey in names && ScopeBindingDigestKey in names && RetryableKey in names && RecordKey in names
  {
  }

  lemma DescribedCommon(v: Json, b: Binding, j: Journal)
    requires Describes(v, j) && j.record.binding == b && PhaseOf(j.SetJournal?, j.phase)
    ensures CommonChecks(v, b, j.SetJournal?)
    ensures Field(v, OperationIdKey).text.token == j.op
    ensures ReadPhase(Field(v, PhaseKey).text.text) == Some(j.phase)
  {
    hide PhaseName, ReadPhase, JournalMember, JournalFieldNames, Field, IsVersion, HasExactly, TombstoneFromDict;
    PhaseNames(j.phase, "");
    CommonMembers(j);
    CommonNames(j.SetJournal?);
    DescribedField(v, j, OperationIdKey);
    DescribedField(v, j, ScopeKey);
    DescribedField(v, j, ScopeBindingDigestKey);
    DescribedField(v, j, PhaseKey);
  }

  lemma WrittenNames(j: Journal)
    ensures HasExactly(JournalToDict(j), JournalFieldNames(j.SetJournal?))
    ensures forall k :: k in COMMON_FIELDS ==> k in JournalFieldNames(j.SetJournal?)
  {
    hide JournalMember;
  }

  lemma SetReads(v: Json, b: Binding, j: Journal)
    requires j.SetJournal? && CommonChecks(v, b, true)
    requires j.prior.Some? ==> RecordFields(j.prior.value) && j.prior.value.binding == b && j.prior.value.SameKey(j.record)
    requires Field(v, OldRecordKey) == OptionalRecord(j.prior) && Field(v, OldGenerationKey) == OptionalToken(j.prior)
    requires Field(v, OldAccountKey) == OptionalAccount(j.prior)
    requires Field(v, NewGenerationKey) == Str(Hex(j.record.generation)) && Field(v, NewAccountKey) == AccountName(j.record)
    requires Field(v, OperationIdKey).text.token == j.op && ReadPhase(Field(v, PhaseKey).text.text) == Some(j.phase)
    ensures ReadSet(v, b, j.record) == Some(j)
  {
    hide RecordFields, RecordToDict, RecordFromDict, ReadPhase, Field;
    if j.prior.Some? { RecordRoundTrip(j.prior.value); IsObject(j.prior.value); }
  }

  lemma DescribedSet(v: Json, b: Binding, j: Journal)
    requires Describes(v, j) && j.SetJournal? && JournalShape(j) && JournalFields(b, j) && CommonChecks(v, b, true)
    requires Field(v, OperationIdKey).text.token == j.op && ReadPhase(Field(v, PhaseKey).text.text) == Some(j.phase)
    ensures ReadSet(v, b, j.record) == Some(j)
  {
    hide RecordFields, RecordToDict, RecordFromDict, ReadPhase, CommonChecks, Field, JournalFieldNames,
      ReadSet, OptionalRecord, OptionalToken, OptionalAccount, Describes, JournalMember, AccountName;
    SetNames();
    SetMembers(j);
    DescribedField(v, j, OldRecordKey);
    DescribedField(v, j, OldGenerationKey);
    DescribedField(v, j, NewGenerationKey);
    DescribedField(v, j, NewAccountKey);
    DescribedField(v, j, OldAccountKey);
    SetReads(v, b, j);
  }

  lemma SetNames()
    ensures forall k :: k in SET_FIELDS ==> k in JournalFieldNames(true)
    ensures forall k :: k in REMOVE_FIELDS ==> k in JournalFieldNames(false)
    ensures forall k :: k in COMMON_FIELDS ==> k in JournalFieldNames(true) && k in JournalFieldNames(false)
  {
  }

  lemma DescribedRemove(v: Json, b: Binding, j: Journal)
    requires Describes(v, j) && j.RemoveJournal? && JournalShape(j) && JournalFields(b, j) && CommonChecks(v, b, false)
    requires Field(v, OperationIdKey).text.token == j.op && ReadPhase(Field(v, PhaseKey).text.text) == Some(j.phase)
    ensures ReadRemove(v, b, j.record) == Some(j)
  {
    hide RecordFields, TombstoneFields, RecordToDict, TombstoneToDict, TombstoneFromDict, PhaseName, ReadPhase, CommonChecks,
      Field, JournalFieldNames, Describes;
    SetNames();
    DescribedField(v, j, OldGenerationKey);
    DescribedField(v, j, OldAccountKey);
    DescribedTombstone(v, b, j);
  }

  lemma DescribedIsRead(v: Json, b: Binding, j: Journal)
    requires Describes(v, j) && JournalShape(j) && JournalFields(b, j)
    ensures JournalFromDict(v, b) == Some(j)
  {
    hide RecordFields, TombstoneFields, RecordToDict, RecordFromDict, TombstoneToDict, TombstoneFromDict, PhaseName,
      ReadPhase, CommonChecks, ReadSet, ReadRemove, Field, JournalFieldNames, Describes;
    CommonNames(j.SetJournal?);
    DescribedCommon(v, b, j);
    DescribedField(v, j, OperationKey);
    DescribedField(v, j, RecordKey);
    RecordRoundTrip(j.record);
    assert "set"[0] != "remove"[0];
    if j.SetJournal? { DescribedSet(v, b, j); } else { DescribedRemove(v, b, j); }
  }

  lemma WrittenDescribes(b: Binding, j: Journal)
    requires JournalFields(b, j)
    ensures Describes(JournalToDict(j), j)
  {
    hide JournalMember, JournalToDict, JournalFieldNames, Field, RecordFields, TombstoneFields, TombstoneFromDict, TombstoneToDict;
    if j.RemoveJournal? {
      RemoveMembers(j);
      TombstoneRoundTrip(j.tombstone);
    }
    WrittenNames(j);
    SetNames();
    CommonMembers(j);
    assert SchemaVersionKey in COMMON_FIELDS && RetryableKey in COMMON_FIELDS;
    forall k | k in JournalFieldNames(j.SetJournal?) ensures Field(JournalToDict(j), k) == JournalMember(j, k) { WrittenField(j, k); }
  }

  /** Every journal the protocol writes reads back as itself. */
  lemma JournalRoundTrip(b: Binding, j: Journal)
    requires JournalShape(j) && JournalFields(b, j)
    ensures JournalFromDict(JournalToDict(j), b) == Some(j)
  {
    hide JournalFromDict, JournalToDict, Describes, JournalShape, JournalFields;
    WrittenDescribes(b, j);
    DescribedIsRead(JournalToDict(j), b, j);
  }

  /** Every well-formed journal also reads back from documents with a loose version, or with
      `retryable` false: no journal at all is written like that. */
  lemma LooseJournalIsAccepted(b: Binding, j: Journal, version: Json, retryable: bool)
    requires JournalShape(j) && JournalFields(b, j) && IsVersion(version)
    ensures var v := Obj(JournalToDict(j).fields[SchemaVersionKey := version][RetryableKey := Bool(retryable)]);
      && JournalFromDict(v, b) == Some(j)
      && (version != VERSION || !retryable ==> forall other: Journal :: JournalToDict(other) != v)
  {
    hide JournalFromDict, JournalShape, JournalFields, JournalFieldNames, JournalMember, JournalToDict, Field, Describes, IsVersion;
    CommonAreThere(j);
    var w := JournalToDict(j);
    var v := Obj(w.fields[SchemaVersionKey := version][RetryableKey := Bool(retryable)]);
    WrittenDescribes(b, j);
    OneMemberSet(w, SchemaVersionKey, version);
    OneMemberSet(Obj(w.fields[SchemaVersionKey := version]), RetryableKey, Bool(retryable));
    LooselyDescribes(v, w, j);
    DescribedIsRead(v, b, j);
    forall other: Journal ensures JournalToDict(other) == v ==> version == VERSION && retryable { StrictlyWritten(other); }
  }

  lemma CommonAreThere(j: Journal)
    ensures JournalToDict(j).Obj? && SchemaVersionKey in JournalToDict(j).fields && RetryableKey in JournalToDict(j).fields
  {
    hide JournalMember;
  }

  lemma StrictlyWritten(j: Journal)
    ensures Field(JournalToDict(j), SchemaVersionKey) == VERSION && Field(JournalToDict(j), RetryableKey) == Bool(true)
  {
    hide JournalMember, JournalToDict, JournalFieldNames, Field;
    CommonMembers(j);
    CommonNames(j.SetJournal?);
    WrittenField(j, SchemaVersionKey);
    WrittenField(j, RetryableKey);
  }

  lemma LooselyDescribes(v: Json, w: Json, j: Journal)
    requires Describes(w, j) && v.Obj? && w.Obj? && v.fields.Keys == w.fields.Keys
    requires forall k :: k != SchemaVersionKey && k != RetryableKey ==> Field(v, k) == Field(w, k)
    requires IsVersion(Field(v, SchemaVersionKey)) && Field(v, RetryableKey).Bool?
    ensures Describes(v, j)
  {
    hide JournalMember, Field, TombstoneFromDict, JournalFieldNames, IsVersion;
  }

  /** So does a `remove` journal whose package digest is spelled in digits only, from a document with
      the number in place of that string in its tombstone. */
  lemma NumberInJournalIsAccepted(b: Binding, j: Journal, n: nat)
    requires JournalShape(j) && JournalFields(b, j) && j.RemoveJournal? && j.tombstone.package == Decimal(n)
    ensures var v := Obj(JournalToDict(j).fields[TombstoneKey := WithNumber(j.tombstone, n)]);
      && JournalFromDict(v, b) == Some(j) && Field(v, SchemaVersionKey) == VERSION && Field(v, RetryableKey) == Bool(true)
      && forall other: Journal :: JournalToDict(other) != v
  {
    hide JournalFromDict, JournalShape, JournalFieldNames, JournalMember, JournalToDict, TombstoneFromDict, Field, WithNumber,
      TombstoneFields, RecordFields, Decimal, HasExactly;
    TombstoneIsThere(j);
    var w, tombstone := JournalToDict(j), WithNumber(j.tombstone, n);
    var v := Obj(w.fields[TombstoneKey := tombstone]);
    WrittenDescribes(b, j);
    OneMemberSet(w, TombstoneKey, tombstone);
    NumberIsRead(j.tombstone, n);
    NumberDescribes(v, w, j);
    DescribedIsRead(v, b, j);
    StrictlyWritten(j);
    forall other: Journal ensures JournalToDict(other) != v { NotWrittenWithNumber(other, v); }
  }

  lemma TombstoneIsThere(j: Journal)
    requires j.RemoveJournal?
    ensures JournalToDict(j).Obj? && TombstoneKey in JournalToDict(j).fields
  {
    hide JournalMember;
  }

  lemma NumberDescribes(v: Json, w: Json, j: Journal)
    requires Describes(w, j) && j.RemoveJournal? && v.Obj? && w.Obj? && v.fields.Keys == w.fields.Keys
    requires forall k :: k != TombstoneKey ==> Field(v, k) == Field(w, k)
    requires TombstoneFromDict(Field(v, TombstoneKey), j.record.binding) == Some(j.tombstone)
    ensures Describes(v, j)
  {
    hide JournalMember, Field, TombstoneFromDict, JournalFieldNames, IsVersion;
  }

  lemma NotWrittenWithNumber(other: Journal, v: Json)
    requires !StringDigests(Field(v, TombstoneKey)) && v.Obj? && TombstoneKey in v.fields
    ensures JournalToDict(other) != v
  {
    hide JournalMember, StringDigests, Field, TombstoneToDict;
    if JournalToDict(other) == v {
      TombstoneName();
      assert other.RemoveJournal?;
      WrittenField(other, TombstoneKey);
      RemoveMembers(other);
      WrittenIsString(other.tombstone);
    }
  }

  lemma WrittenIsString(t: Tombstone)
    ensures StringDigests(TombstoneToDict(t))
  {
    WrittenTombstone(t);
  }

  lemma IsObject(r: Record)
    ensures RecordToDict(r) != Null
  {
  }

  lemma AcceptedCommon(v: Json, b: Binding, j: Journal)
    requires JournalFromDict(v, b) == Some(j)
    ensures CommonChecks(v, b, j.SetJournal?)
    ensures Field(v, OperationKey) == Str(Plain(if j.SetJournal? then "set" else "remove"))
    ensures Field(v, OperationIdKey).text.token == j.op && ReadPhase(Field(v, PhaseKey).text.text) == Some(j.phase)
    ensures RecordFromDict(Field(v, RecordKey), b) == Some(j.record)
  {
    hide RecordFields, RecordFromDict, TombstoneFromDict, ReadPhase, HasExactly, Field;
  }

  // The fields of an accepted document are those its journal would be written with.
  lemma ReadBackCommon(v: Json, b: Binding, j: Journal, k: Key)
    requires JournalFromDict(v, b) == Some(j) && k in COMMON_FIELDS && k != SchemaVersionKey && k != RetryableKey
    ensures j.record.binding == b && JournalMember(j, k) == Field(v, k)
  {
    hide RecordFields, RecordToDict, RecordFromDict, TombstoneToDict, PhaseName, ReadPhase, JournalFromDict, HasExactly, Field;
    AcceptedCommon(v, b, j);
    RecordReadBack(Field(v, RecordKey), b);
    PhaseNames(Prepared, Field(v, PhaseKey).text.text);
  }

  lemma SetMembers(j: Journal)
    requires j.SetJournal?
    ensures JournalMember(j, RecordKey) == RecordToDict(j.record) && JournalMember(j, OldRecordKey) == OptionalRecord(j.prior)
    ensures JournalMember(j, OldGenerationKey) == OptionalToken(j.prior)
    ensures JournalMember(j, NewGenerationKey) == Str(Hex(j.record.generation))
    ensures JournalMember(j, NewAccountKey) == AccountName(j.record) && JournalMember(j, OldAccountKey) == OptionalAccount(j.prior)
  {
    hide RecordToDict, TombstoneToDict, PhaseName, OptionalRecord, OptionalToken, OptionalAccount, AccountName, ScopeName, BindingName;
  }

  lemma RemoveMembers(j: Journal)
    requires j.RemoveJournal?
    ensures JournalMember(j, RecordKey) == RecordToDict(j.record) && JournalMember(j, OldAccountKey) == AccountName(j.record)
    ensures JournalMember(j, OldGenerationKey) == Str(Hex(j.record.generation))
    ensures JournalMember(j, TombstoneKey) == TombstoneToDict(j.tombstone)
  {
    hide RecordToDict, TombstoneToDict, PhaseName, OptionalRecord, OptionalToken, OptionalAccount, AccountName, ScopeName, BindingName;
  }

  lemma AcceptedRemove(v: Json, b: Binding, j: Journal)
    requires JournalFromDict(v, b) == Some(j) && j.RemoveJournal?
    ensures RecordFromDict(Field(v, RecordKey), b) == Some(j.record)
    ensures TombstoneFromDict(Field(v, TombstoneKey), b) == Some(j.tombstone)
    ensures Field(v, OldGenerationKey) == Str(Hex(j.record.generation)) && Field(v, OldAccountKey) == AccountName(j.record)
    ensures j.tombstone.id == j.record.id && j.tombstone.plugin == j.record.id.plugin
    ensures j.tombstone.package == j.record.id.package && j.tombstone.declaration == j.record.Declared()
    ensures PhaseOf(false, j.phase)
  {
    hide RecordFields, RecordFromDict, TombstoneFromDict, Field;
  }

  lemma AcceptedSet(v: Json, b: Binding, j: Journal)
    requires JournalFromDict(v, b) == Some(j) && j.SetJournal?
    ensures RecordFromDict(Field(v, RecordKey), b) == Some(j.record)
    ensures if Field(v, OldRecordKey) == Null then j.prior.None?
            else j.prior.Some? && RecordFromDict(Field(v, OldRecordKey), b) == j.prior && j.prior.value.SameKey(j.record)
    ensures Field(v, OldGenerationKey) == OptionalToken(j.prior) && Field(v, OldAccountKey) == OptionalAccount(j.prior)
    ensures Field(v, NewGenerationKey) == Str(Hex(j.record.generation)) && Field(v, NewAccountKey) == AccountName(j.record)
    ensures PhaseOf(true, j.phase)
  {
    hide RecordFields, RecordFromDict, Field;
  }

  lemma ReadBackSet(v: Json, b: Binding, j: Journal, k: Key)
    requires JournalFromDict(v, b) == Some(j) && j.SetJournal? && k in SET_FIELDS
    ensures JournalMember(j, k) == Field(v, k)
    ensures JournalShape(j) && JournalFields(b, j)
  {
    hide RecordFields, RecordToDict, RecordFromDict, PhaseName, ReadPhase, JournalFieldNames, JournalFromDict, Field, JournalMember,
      OptionalToken, OptionalAccount, AccountName;
    AcceptedSet(v, b, j);
    SetMembers(j);
    RecordReadBack(Field(v, RecordKey), b);
    if j.prior.Some? { RecordReadBack(Field(v, OldRecordKey), b); }
  }

  lemma ReadBackRemove(v: Json, b: Binding, j: Journal, k: Key)
    requires JournalFromDict(v, b) == Some(j) && j.RemoveJournal? && k in REMOVE_FIELDS
    ensures JournalMember(j, k) == Field(v, k) <==> k != TombstoneKey || StringDigests(Field(v, k))
    ensures JournalShape(j) && JournalFields(b, j)
  {
    hide RecordFields, TombstoneFields, RecordToDict, RecordFromDict, TombstoneToDict, TombstoneFromDict, PhaseName, ReadPhase,
      JournalFieldNames, JournalFromDict, Field, JournalMember, AccountName, StringDigests;
    AcceptedRemove(v, b, j);
    RemoveMembers(j);
    RecordReadBack(Field(v, RecordKey), b);
    TombstoneReadBack(Field(v, TombstoneKey), b);
  }

  /** And what is accepted is such a journal: its document could differ only in the loose version, in
      the `retryable` flag, which nothing reads, and in digests of the tombstone that are numbers. */
  lemma JournalReadBack(v: Json, b: Binding)
    requires JournalFromDict(v, b).Some?
    ensures var j := JournalFromDict(v, b).value;
      && JournalShape(j) && JournalFields(b, j)
      && (JournalToDict(j) == v <==>
            && Field(v, SchemaVersionKey) == VERSION && Field(v, RetryableKey) == Bool(true)
            && (j.RemoveJournal? ==> StringDigests(Field(v, TombstoneKey))))
  {
    hide JournalFromDict, JournalMember, JournalShape, JournalFields, JournalFieldNames, HasExactly, Field, JournalToDict, StringDigests;
    var j := JournalFromDict(v, b).value;
    var w := JournalToDict(j);
    ReadBackRest(v, b, j);
    WrittenNames(j);
    CommonMembers(j);
    forall k | k in JournalFieldNames(j.SetJournal?) ensures Field(w, k) == JournalMember(j, k) { WrittenField(j, k); }
    SameDocument(v, w, JournalFieldNames(j.SetJournal?));
    CommonNames(j.SetJournal?);
    TombstoneName();
  }

  lemma TombstoneName()
    ensures TombstoneKey in JournalFieldNames(false) && TombstoneKey !in JournalFieldNames(true)
  {
  }

  lemma SameDocument(v: Json, w: Json, names: set<Key>)
    requires HasExactly(v, names) && HasExactly(w, names)
    ensures v == w <==> forall k :: k in names ==> Field(v, k) == Field(w, k)
  {
    if forall k :: k in names ==> Field(v, k) == Field(w, k) {
      forall k | k in names ensures v.fields[k] == w.fields[k] { assert Field(v, k) == Field(w, k); }
      assert v.fields == w.fields;
    }
  }

  lemma ReadBackRest(v: Json, b: Binding, j: Journal)
    requires JournalFromDict(v, b) == Some(j)
    ensures JournalShape(j) && JournalFields(b, j) && HasExactly(v, JournalFieldNames(j.SetJournal?))
    ensures forall k :: k in JournalFieldNames(j.SetJournal?) && IsStrict(k) ==> JournalMember(j, k) == Field(v, k)
    ensures j.RemoveJournal? ==>
      (JournalMember(j, TombstoneKey) == Field(v, TombstoneKey) <==> StringDigests(Field(v, TombstoneKey)))
  {
    hide JournalMember, JournalShape, JournalFields, RecordFromDict, TombstoneFromDict, ReadPhase, StringDigests;
    forall k | k in COMMON_FIELDS && k != SchemaVersionKey && k != RetryableKey { ReadBackCommon(v, b, j, k); }
    if j.SetJournal? {
      ReadBackSet(v, b, j, RecordKey);
      forall k | k in SET_FIELDS { ReadBackSet(v, b, j, k); }
    } else {
      ReadBackRemove(v, b, j, RecordKey);
      forall k | k in REMOVE_FIELDS
        ensures JournalMember(j, k) == Field(v, k) <==> k != TombstoneKey || StringDigests(Field(v, k))
      {
        ReadBackRemove(v, b, j, k);
      }
    }
  }

  // ---- every run writes only what the readers accept --------------------------------------

  ghost predicate FieldsOk(b: Binding, d: Disk) {
    && (forall r :: r in d.Idx().records ==> RecordFields(r) && r.binding == b)
    && (forall t :: t in d.Idx().tombstones ==> TombstoneFields(t) && t.binding == b)
    && (forall op :: op in d.journals ==> JournalFields(b, d.journals[op]) && JournalShape(d.journals[op]))
  }

  lemma TombstoneInherits(r: Record, t: Tombstone)
    requires RecordFields(r) && t.plugin == r.id.plugin && t.package == r.id.package && t.binding == r.binding
    ensures TombstoneFields(t)
  {
    hide IsEnvVar, IsDisplayText;
  }

  lemma StagedFields(b: Binding, d: Disk, j: Journal)
    requires FieldsOk(b, d) && Enabled(d, Stage(j))
    requires j.SetJournal? ==> RecordFields(j.record) && j.record.binding == b
    ensures JournalFields(b, j) && JournalShape(j)
  {
    hide RecordFields, TombstoneFields;
    if j.RemoveJournal? { TombstoneInherits(j.record, j.tombstone); }
  }

  lemma FieldsKept(b: Binding, d: Disk, a: Action)
    requires FieldsOk(b, d) && Enabled(d, a)
    requires a.Stage? && a.journal.SetJournal? ==> RecordFields(a.journal.record) && a.journal.record.binding == b
    ensures FieldsOk(b, Apply(d, a))
  {
    hide RecordFields, TombstoneFields, Stale, DistinctEntries, JournalFields, JournalShape;
    match a
    case Stage(j) => StagedFields(b, d, j);
    case Mark(op, phase) => MarkFields(b, d.journals[op], phase);
    case Commit(op) => CommitFields(b, d, op);
    case _ =>
  }

  lemma CommitFields(b: Binding, d: Disk, op: Token)
    requires FieldsOk(b, d) && Enabled(d, Commit(op))
    ensures FieldsOk(b, Apply(d, Commit(op)))
  {
    hide RecordFields, TombstoneFields, JournalShape, Stale, DistinctEntries;
    var j := d.journals[op];
    assert JournalFields(b, j);
  }

  lemma MarkFields(b: Binding, j: Journal, phase: Phase)
    requires JournalFields(b, j) && JournalShape(j) && PhaseOf(j.SetJournal?, phase)
    ensures JournalFields(b, j.At(phase)) && JournalShape(j.At(phase))
  {
    hide RecordFields, TombstoneFields;
  }

  lemma {:induction false} RunFields(w: World, log: seq<Event>, v: World, b: Binding)
    requires FieldsOk(b, w.At(b)) && Reaches(w, log, v)
    ensures FieldsOk(b, v.At(b))
    decreases |log|
  {
    hide FieldsOk, Enabled, RecordFields, Apply;
    if log != [] {
      var n := |log| - 1;
      var u := Replay(w, log[..n]).value;
      RunFields(w, log[..n], u, b);
      if log[n].at == b { FieldsKept(b, u.At(b), log[n].action); }
    }
  }

  /** The store never rejects its own state: after any run, crashed or not, the index and every
      journal file of every scope read back as what was written. */
  lemma RunIsReadable(user: Binding, log: seq<Event>, w: World, b: Binding)
    requires user.UserScope? && Reaches(World(user, map[]), log, w)
    requires IsHex(b.digest, 64) && (b == user || b.WorkspaceScope?)
    ensures w.At(b).index.Some? ==> IndexFromDict(IndexToDict(b, w.At(b).Idx())) == Some((b, w.At(b).Idx()))
    ensures forall op :: op in w.At(b).journals ==> JournalFromDict(JournalToDict(w.At(b).journals[op]), b) == Some(w.At(b).journals[op])
    ensures forall op :: op in w.At(b).Idx().refs ==> op in w.At(b).journals
  {
    hide Inv, Reaches, IsHex, RecordFields, TombstoneFields, IndexFromDict, IndexToDict, JournalFromDict, JournalToDict,
      JournalShape, JournalFields, PostInit, RegistryCovers;
    var start := World(user, map[]);
    RunFields(start, log, w, b);
    RunKeepsInv(start, log, w);
    RunInvAt(start, log, w, b);
    ValidAtInit(w, b);
    if w.At(b).index.Some? {
      IndexRoundTrip(b, w.At(b).Idx());
    }
    forall op | op in w.At(b).journals { JournalRoundTrip(b, w.At(b).journals[op]); }
  }

  lemma ValidAtInit(w: World, b: Binding)
    requires WorldInv(w) && Inv(w.At(b)) && w.user.UserScope?
    ensures PostInit(b, w.At(b).Idx())
    ensures forall op :: op in w.At(b).Idx().refs ==> op in w.At(b).journals
    ensures forall e :: e in w.At(b).Idx().registry ==> WorkspaceName(e.binding)
  {
    hide VaultOk, TokensOk, IsHex, RegistryCovers;
    assert IndexOk(w.At(b).Idx());
    assert b != w.user ==> w.At(b).Idx().registry == [];
  }
}
