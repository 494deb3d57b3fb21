/** The bounded queue of the diagnostic log: warnings and errors may use all of it, debug and info
    records only what is not reserved, and a record displaces the oldest less important ones. */
module DiagnosticQueue {
  import Sorting

  newtype Byte = b: int | 0 <= b < 256

  type Bytes = seq<Byte>

  datatype Level = Debug | Info | Warn | Error
  {
    predicate Priority() { Warn? || Error? }

    /** `_LEVEL_ORDER`. */
    function Order(): nat { match this case Debug => 0 case Info => 1 case Warn => 2 case Error => 3 }
  }

  datatype Queued = Queued(level: Level, sequence: nat, encoded: Bytes)

  datatype Limits = Limits(maxRecords: nat, maxBytes: nat, reservedRecords: nat, reservedBytes: nat)
  {
    /** The record and byte caps a level may fill the queue to. */
    function Records(level: Level): int { if level.Priority() then maxRecords else maxRecords - reservedRecords }
    function Bytes(level: Level): int { if level.Priority() then maxBytes else maxBytes - reservedBytes }
  }

  function Size(records: seq<Queued>): nat {
    if records == [] then 0 else |records[0].encoded| + Size(records[1..])
  }

  lemma {:induction false} SizeAppends(a: seq<Queued>, b: seq<Queued>)
    ensures Size(a + b) == Size(a) + Size(b)
  {
    if a == [] {
      assert a + b == b;
    } else {
      assert (a + b)[1..] == a[1..] + b;
      SizeAppends(a[1..], b);
    }
  }

  /** The record fits beside the queued ones. */
  predicate Fits(limits: Limits, records: seq<Queued>, r: Queued) {
    |records| + 1 <= limits.Records(r.level) && Size(records) + |r.encoded| <= limits.Bytes(r.level)
  }

  function Keep(records: seq<Queued>, levels: set<Level>): seq<Queued> {
    if records == [] then []
    else KeepOne(records[0], levels) + Keep(records[1..], levels)
  }

  function KeepOne(r: Queued, levels: set<Level>): seq<Queued> { if r.level in levels then [r] else [] }

  lemma {:induction false} KeepAppends(a: seq<Queued>, b: seq<Queued>, levels: set<Level>)
    ensures Keep(a + b, levels) == Keep(a, levels) + Keep(b, levels)
  {
    if a == [] {
      assert a + b == b;
    } else {
      assert (a + b)[1..] == a[1..] + b;
      KeepAppends(a[1..], b, levels);
    }
  }

  /** What an incoming record of the level may displace. */
  function Displaceable(level: Level): set<Level> {
    match level
    case Debug => {}
    case Info => {Debug}
    case _ => {Debug, Info}
  }

  const LEVELS: set<Level> := {Debug, Info, Warn, Error}

  /** Where the oldest record of the level is, or the length when there is none. */
  function Oldest(records: seq<Queued>, level: Level): (k: nat)
    ensures k <= |records| && (k < |records| ==> records[k].level == level)
    ensures forall i :: 0 <= i < k ==> records[i].level != level
  {
    if records == [] || records[0].level == level then 0 else 1 + Oldest(records[1..], level)
  }

  function WithoutOldest(records: seq<Queued>, level: Level): (r: seq<Queued>)
    requires Oldest(records, level) < |records|
    ensures |r| == |records| - 1
  {
    records[..Oldest(records, level)] + records[Oldest(records, level) + 1..]
  }

  /** The queue without the `k` oldest records of the level. */
  function Without(records: seq<Queued>, level: Level, k: nat): seq<Queued> {
    if k == 0 || Oldest(records, level) == |records| then records
    else Without(WithoutOldest(records, level), level, k - 1)
  }

  /** What `_evict_until_fits` leaves. */
  function Evicted(limits: Limits, records: seq<Queued>, level: Level, incoming: Queued): seq<Queued>
    decreases |records|
  {
    if Fits(limits, records, incoming) || Oldest(records, level) == |records| then records
    else Evicted(limits, WithoutOldest(records, level), level, incoming)
  }

  // ---- what eviction does ----------------------------------------------------------------

  lemma KeepAround(records: seq<Queued>, k: nat, levels: set<Level>)
    requires k < |records|
    ensures Keep(records, levels) == Keep(records[..k], levels) + KeepOne(records[k], levels) + Keep(records[k + 1..], levels)
    ensures Keep(records[..k] + records[k + 1..], levels) == Keep(records[..k], levels) + Keep(records[k + 1..], levels)
  {
    var a, x, b := records[..k], records[k], records[k + 1..];
    assert records == a + ([x] + b);
    KeepAppends(a, [x] + b, levels);
    KeepAppends([x], b, levels);
    KeepAppends(a, b, levels);
    assert Keep([x], levels) == KeepOne(x, levels);
  }

  lemma SizeAround(records: seq<Queued>, k: nat)
    requires k < |records|
    ensures Size(records[..k] + records[k + 1..]) + |records[k].encoded| == Size(records)
  {
    var a, x, b := records[..k], records[k], records[k + 1..];
    assert records == a + ([x] + b);
    SizeAppends(a, [x] + b);
    SizeAppends([x], b);
    SizeAppends(a, b);
  }

  lemma OneOut(records: seq<Queued>, level: Level, levels: set<Level>)
    requires Oldest(records, level) < |records|
    ensures Size(WithoutOldest(records, level)) + |records[Oldest(records, level)].encoded| == Size(records)
    ensures level !in levels ==> Keep(WithoutOldest(records, level), levels) == Keep(records, levels)
    ensures Keep(records, {level}) == [records[Oldest(records, level)]] + Keep(WithoutOldest(records, level), {level})
  {
    hide Keep, Size;
    var k := Oldest(records, level);
    SizeAround(records, k);
    KeepAround(records, k, levels);
    KeepAround(records, k, {level});
    KeepsNone(records[..k], {level});
  }

  lemma {:induction false} KeepsNone(records: seq<Queued>, levels: set<Level>)
    requires forall i :: 0 <= i < |records| ==> records[i].level !in levels
    ensures Keep(records, levels) == []
  {
    if records != [] { KeepsNone(records[1..], levels); }
  }

  lemma {:induction false} KeepsNoneOnly(records: seq<Queued>, levels: set<Level>)
    requires Keep(records, levels) == []
    ensures forall i :: 0 <= i < |records| ==> records[i].level !in levels
  {
    if records != [] {
      KeepsNoneOnly(records[1..], levels);
      assert forall i :: 1 <= i < |records| ==> records[i] == records[1..][i - 1];
    }
  }

  /** Records of other levels are not touched, the evicted ones are the oldest of their level, and
      eviction goes on only while the incoming record does not fit. */
  lemma {:induction false} EvictionIsMinimal(limits: Limits, records: seq<Queued>, level: Level, r: Queued)
    returns (k: nat)
    ensures var left := Evicted(limits, records, level, r);
      && left == Without(records, level, k) && k <= |Keep(records, {level})|
      && Keep(left, {level}) == Keep(records, {level})[k..]
      && Keep(left, LEVELS - {level}) == Keep(records, LEVELS - {level})
      && (forall j :: 0 <= j < k ==> !Fits(limits, Without(records, level, j), r))
      && (Fits(limits, left, r) || Keep(left, {level}) == [])
    decreases |records|
  {
    hide Fits, Keep, Oldest;
    if Fits(limits, records, r) {
      k := 0;
    } else if Oldest(records, level) == |records| {
      k := 0;
      KeepsNone(records, {level});
    } else {
      var rest := WithoutOldest(records, level);
      OneOut(records, level, LEVELS - {level});
      var n := EvictionIsMinimal(limits, rest, level, r);
      k := n + 1;
      forall j | 0 <= j < k ensures !Fits(limits, Without(records, level, j), r) {
        if j > 0 { assert Without(records, level, j) == Without(rest, level, j - 1); }
      }
    }
  }

  // ---- what an arrival does -----------------------------------------------------------------

  /** The records and how many of each level were dropped. */
  datatype Queue = Queue(records: seq<Queued>, dropped: map<Level, nat>)

  const EMPTY: Queue := Queue([], map[Debug := 0, Info := 0, Warn := 0, Error := 0])

  function Evict(limits: Limits, q: Queue, level: Level, r: Queued): Queue
    requires level in q.dropped
  {
    var left := Evicted(limits, q.records, level, r);
    EvictedIsShorter(limits, q.records, level, r);
    Queue(left, q.dropped[level := q.dropped[level] + (|q.records| - |left|)])
  }

  lemma EvictedIsShorter(limits: Limits, records: seq<Queued>, level: Level, r: Queued)
    ensures |Evicted(limits, records, level, r)| <= |records|
    decreases |records|
  {
    if !Fits(limits, records, r) && Oldest(records, level) < |records| {
      EvictedIsShorter(limits, WithoutOldest(records, level), level, r);
    }
  }

  predicate Counted(q: Queue) { q.dropped.Keys == LEVELS }

  /** The less important records make room, so far as they can and as it is needed. */
  function MakeRoom(limits: Limits, q: Queue, r: Queued): (room: Queue)
    requires Counted(q)
    ensures Counted(room)
  {
    match r.level
    case Debug => q
    case Info => Evict(limits, q, Debug, r)
    case _ => Evict(limits, Evict(limits, q, Debug, r), Info, r)
  }

  function Put(limits: Limits, q: Queue, r: Queued): (after: Queue)
    requires Counted(q)
    ensures Counted(after)
  {
    var room := MakeRoom(limits, q, r);
    if Fits(limits, room.records, r) then room.(records := room.records + [r])
    else room.(dropped := room.dropped[r.level := room.dropped[r.level] + 1])
  }

  lemma {:induction false} KeepKeep(records: seq<Queued>, few: set<Level>, many: set<Level>)
    requires few <= many
    ensures Keep(Keep(records, many), few) == Keep(records, few)
  {
    if records != [] {
      KeepKeep(records[1..], few, many);
      KeepAppends(KeepOne(records[0], many), Keep(records[1..], many), few);
    }
  }

  lemma {:induction false} KeepIsSmaller(records: seq<Queued>, levels: set<Level>)
    ensures |Keep(records, levels)| <= |records| && Size(Keep(records, levels)) <= Size(records)
  {
    if records != [] {
      KeepIsSmaller(records[1..], levels);
      SizeAppends(KeepOne(records[0], levels), Keep(records[1..], levels));
    }
  }

  lemma {:induction false} KeepsAll(records: seq<Queued>, levels: set<Level>)
    requires forall i :: 0 <= i < |records| ==> records[i].level in levels
    ensures Keep(records, levels) == records
  {
    if records != [] { KeepsAll(records[1..], levels); }
  }

  lemma KeepsEverything(records: seq<Queued>)
    ensures Keep(records, LEVELS) == records
  {
    forall i | 0 <= i < |records| ensures records[i].level in LEVELS {
      match records[i].level case Debug => case Info => case Warn => case Error =>
    }
    KeepsAll(records, LEVELS);
  }

  lemma {:induction false} KeepSplits(records: seq<Queued>, a: set<Level>, b: set<Level>)
    requires a !! b
    ensures |Keep(records, a + b)| == |Keep(records, a)| + |Keep(records, b)|
  {
    if records != [] { KeepSplits(records[1..], a, b); }
  }

  function Others(level: Level): set<Level> { LEVELS - {level} }

  /** Eviction of one level: the other levels stay, what is lost was counted. */
  lemma EvictCounts(limits: Limits, q: Queue, level: Level, r: Queued)
    requires Counted(q)
    ensures var left := Evict(limits, q, level, r);
      && Counted(left)
      && Keep(left.records, Others(level)) == Keep(q.records, Others(level))
      && (forall l :: l in LEVELS - {level} ==> left.dropped[l] == q.dropped[l])
      && |Keep(left.records, {level})| + left.dropped[level] == |Keep(q.records, {level})| + q.dropped[level]
      && (Fits(limits, left.records, r) || Keep(left.records, {level}) == [])
      && (Fits(limits, q.records, r) ==> left.records == q.records)
  {
    hide Keep, Without, Size;
    var k := EvictionIsMinimal(limits, q.records, level, r);
    var left := Evicted(limits, q.records, level, r);
    KeepSplits(left, Others(level), {level});
    KeepSplits(q.records, Others(level), {level});
    assert Others(level) + {level} == LEVELS;
    KeepsEverything(left);
    KeepsEverything(q.records);
  }

  /** What an arrival may not displace stays; everything it displaces is counted as dropped; if it
      still does not fit, nothing it may displace is left. */
  lemma RoomCounts(limits: Limits, q: Queue, r: Queued)
    requires Counted(q)
    ensures var room := MakeRoom(limits, q, r);
      && Keep(room.records, LEVELS - Displaceable(r.level)) == Keep(q.records, LEVELS - Displaceable(r.level))
      && (forall l :: l in LEVELS ==>
            |Keep(room.records, {l})| + room.dropped[l] == |Keep(q.records, {l})| + q.dropped[l])
      && (Fits(limits, room.records, r) || Keep(room.records, Displaceable(r.level)) == [])
  {
    hide Keep, Evict, Fits;
    if r.level.Debug? {
      KeepsNothing(q.records);
    } else {
      EvictCounts(limits, q, Debug, r);
      var first := Evict(limits, q, Debug, r);
      OthersToo(q.records, first.records, Debug, LEVELS - Displaceable(r.level));
      if r.level.Priority() {
        EvictCounts(limits, first, Info, r);
        var room := Evict(limits, first, Info, r);
        OthersToo(first.records, room.records, Info, LEVELS - Displaceable(r.level));
        assert {Debug} + {Info} == {Debug, Info};
        KeepSplits(room.records, {Debug}, {Info});
      }
    }
  }

  lemma {:induction false} KeepsNothing(records: seq<Queued>)
    ensures Keep(records, {}) == []
  {
    if records != [] { KeepsNothing(records[1..]); }
  }

  /** Two queues that agree on all levels but one agree on every smaller set of levels. */
  lemma OthersToo(a: seq<Queued>, b: seq<Queued>, level: Level, levels: set<Level>)
    requires Keep(a, Others(level)) == Keep(b, Others(level)) && level !in levels && levels <= LEVELS
    ensures Keep(a, levels) == Keep(b, levels)
    ensures forall l :: l in LEVELS && l != level ==> Keep(a, {l}) == Keep(b, {l})
  {
    KeepKeep(a, levels, Others(level));
    KeepKeep(b, levels, Others(level));
    forall l | l in LEVELS && l != level ensures Keep(a, {l}) == Keep(b, {l}) {
      KeepKeep(a, {l}, Others(level));
      KeepKeep(b, {l}, Others(level));
    }
  }

  lemma CoverAll(records: seq<Queued>, level: Level)
    ensures Keep(records, LEVELS) == records
    ensures Keep(records, Displaceable(level)) == [] ==> Keep(records, LEVELS - Displaceable(level)) == records
  {
    KeepsEverything(records);
    if Keep(records, Displaceable(level)) == [] {
      KeepsNoneOnly(records, Displaceable(level));
      forall i | 0 <= i < |records| ensures records[i].level in LEVELS - Displaceable(level) {
        match records[i].level case Debug => case Info => case Warn => case Error =>
      }
      KeepsAll(records, LEVELS - Displaceable(level));
    }
  }

  /** A record is accepted exactly when it fits beside the records it may not displace. */
  lemma AcceptedExactly(limits: Limits, q: Queue, r: Queued)
    requires Counted(q)
    ensures Fits(limits, MakeRoom(limits, q, r).records, r) <==>
            Fits(limits, Keep(q.records, LEVELS - Displaceable(r.level)), r)
  {
    hide Keep, Size;
    var room := MakeRoom(limits, q, r).records;
    RoomCounts(limits, q, r);
    KeepIsSmaller(room, LEVELS - Displaceable(r.level));
    CoverAll(room, r.level);
  }

  // ---- runs of the queue -------------------------------------------------------------------

  datatype Op = Arrive(record: Queued) | TakeAll | Clear

  function Step(limits: Limits, q: Queue, op: Op): (after: Queue)
    requires Counted(q)
    ensures Counted(after)
  {
    match op
    case Arrive(r) => Put(limits, q, r)
    case TakeAll => q.(records := [])
    case Clear => q.(records := [])
  }

  function Run(limits: Limits, q: Queue, ops: seq<Op>): (after: Queue)
    requires Counted(q)
    ensures Counted(after)
    decreases |ops|
  {
    if ops == [] then q else Run(limits, Step(limits, q, ops[0]), ops[1..])
  }

  /** Of one level: how many records arrived in the run, and how many left it by being taken or cleared. */
  function Arrived(ops: seq<Op>, level: Level): nat {
    if ops == [] then 0
    else (if ops[0].Arrive? && ops[0].record.level == level then 1 else 0) + Arrived(ops[1..], level)
  }

  function Left(limits: Limits, q: Queue, ops: seq<Op>, level: Level): nat
    requires Counted(q)
    decreases |ops|
  {
    if ops == [] then 0
    else (if ops[0].Arrive? then 0 else |Keep(q.records, {level})|)
         + Left(limits, Step(limits, q, ops[0]), ops[1..], level)
  }

  lemma PutCounts(limits: Limits, q: Queue, r: Queued, level: Level)
    requires Counted(q)
    ensures var after := Put(limits, q, r);
      |Keep(after.records, {level})| + after.dropped[level] ==
      |Keep(q.records, {level})| + q.dropped[level] + if r.level == level then 1 else 0
  {
    var room := MakeRoom(limits, q, r);
    RoomCounts(limits, q, r);
    KeepAppends(room.records, [r], {level});
    assert Keep([r], {level}) == if r.level == level then [r] else [];
  }

  /** Conservation over every run: each record of a level that arrived is queued, dropped, taken or
      cleared, and is counted once. */
  lemma {:induction false} NothingIsLost(limits: Limits, q: Queue, ops: seq<Op>, level: Level)
    requires Counted(q)
    ensures var end := Run(limits, q, ops);
      |Keep(q.records, {level})| + q.dropped[level] + Arrived(ops, level) ==
      |Keep(end.records, {level})| + end.dropped[level] + Left(limits, q, ops, level)
    decreases |ops|
  {
    if ops != [] {
      var next := Step(limits, q, ops[0]);
      NothingIsLost(limits, next, ops[1..], level);
      match ops[0]
      case Arrive(r) => PutCounts(limits, q, r, level);
      case _ =>
    }
  }

  const LOW: set<Level> := {Debug, Info}
  const HIGH: set<Level> := {Warn, Error}

  /** The caps: of the whole queue, and of the debug and info records in it. */
  predicate Capped(limits: Limits, records: seq<Queued>) {
    && |records| <= limits.maxRecords && Size(records) <= limits.maxBytes
    && (var low := Keep(records, LOW);
        low == [] || (|low| <= limits.maxRecords - limits.reservedRecords
                      && Size(low) <= limits.maxBytes - limits.reservedBytes))
  }

  lemma EvictStaysCapped(limits: Limits, records: seq<Queued>, level: Level, r: Queued)
    requires Capped(limits, records) && level in LOW
    ensures Capped(limits, Evicted(limits, records, level, r))
    decreases |records|
  {
    if !Fits(limits, records, r) && Oldest(records, level) < |records| {
      var k := Oldest(records, level);
      var less := WithoutOldest(records, level);
      OneOut(records, level, {});
      LowShrinks(records, k);
      EvictStaysCapped(limits, less, level, r);
    }
  }

  lemma LowShrinks(records: seq<Queued>, k: nat)
    requires k < |records|
    ensures var less := records[..k] + records[k + 1..];
      |Keep(less, LOW)| <= |Keep(records, LOW)| && Size(Keep(less, LOW)) <= Size(Keep(records, LOW))
  {
    hide Keep, Size;
    KeepAround(records, k, LOW);
    var a, x, b := Keep(records[..k], LOW), KeepOne(records[k], LOW), Keep(records[k + 1..], LOW);
    SizeAppends(a + x, b);
    SizeAppends(a, x);
    SizeAppends(a, b);
  }

  lemma RoomStaysCapped(limits: Limits, q: Queue, r: Queued)
    requires Counted(q) && Capped(limits, q.records)
    ensures Capped(limits, MakeRoom(limits, q, r).records)
  {
    hide Evicted, Capped;
    match r.level
    case Debug =>
    case Info => EvictStaysCapped(limits, q.records, Debug, r);
    case _ =>
      EvictStaysCapped(limits, q.records, Debug, r);
      EvictStaysCapped(limits, Evicted(limits, q.records, Debug, r), Info, r);
  }

  lemma PutStaysCapped(limits: Limits, q: Queue, r: Queued)
    requires Counted(q) && Capped(limits, q.records)
    ensures Capped(limits, Put(limits, q, r).records)
  {
    hide MakeRoom;
    var room := MakeRoom(limits, q, r).records;
    RoomStaysCapped(limits, q, r);
    SizeAppends(room, [r]);
    KeepAppends(room, [r], LOW);
    KeepIsSmaller(room + [r], LOW);
    assert Keep([r], LOW) == if r.level in LOW then [r] else [];
    assert r.level !in LOW ==> Keep(room + [r], LOW) == Keep(room, LOW);
  }

  /** The caps hold over every run. */
  lemma {:induction false} RunStaysCapped(limits: Limits, q: Queue, ops: seq<Op>)
    requires Counted(q) && Capped(limits, q.records)
    ensures Capped(limits, Run(limits, q, ops).records)
    decreases |ops|
  {
    if ops != [] {
      if ops[0].Arrive? { PutStaysCapped(limits, q, ops[0].record); }
      RunStaysCapped(limits, Step(limits, q, ops[0]), ops[1..]);
    }
  }

  /** No arrival removes a warning or an error, and one that is refused finds no debug or info
      record in the queue any more. */
  lemma PriorityIsSafe(limits: Limits, q: Queue, r: Queued)
    requires Counted(q)
    ensures var after := Put(limits, q, r).records;
      && Keep(q.records, HIGH) <= Keep(after, HIGH)
      && (r.level.Priority() ==>
            if Fits(limits, MakeRoom(limits, q, r).records, r)
            then Keep(after, HIGH) == Keep(q.records, HIGH) + [r]
            else Keep(after, LOW) == [])
  {
    var room := MakeRoom(limits, q, r).records;
    RoomCounts(limits, q, r);
    assert HIGH <= LEVELS - Displaceable(r.level);
    KeepKeep(room, HIGH, LEVELS - Displaceable(r.level));
    KeepKeep(q.records, HIGH, LEVELS - Displaceable(r.level));
    KeepAppends(room, [r], HIGH);
    assert Keep([r], HIGH) == if r.level in HIGH then [r] else [];
    assert r.level.Priority() ==> Displaceable(r.level) == LOW;
  }

  // ---- the order of the records -------------------------------------------------------------

  predicate Ascending(records: seq<Queued>) {
    forall i, j :: 0 <= i < j < |records| ==> records[i].sequence < records[j].sequence
  }

  function Sequence(r: Queued): int { r.sequence }

  lemma EvictKeepsOrder(limits: Limits, records: seq<Queued>, level: Level, r: Queued)
    requires Ascending(records)
    ensures Ascending(Evicted(limits, records, level, r))
    ensures forall x :: x in Evicted(limits, records, level, r) ==> x in records
    decreases |records|
  {
    if !Fits(limits, records, r) && Oldest(records, level) < |records| {
      EvictKeepsOrder(limits, WithoutOldest(records, level), level, r);
    }
  }

  lemma RoomKeepsOrder(limits: Limits, q: Queue, r: Queued)
    requires Counted(q) && Ascending(q.records)
    ensures Ascending(MakeRoom(limits, q, r).records)
    ensures forall x :: x in MakeRoom(limits, q, r).records ==> x in q.records
  {
    hide Ascending, Evicted, Fits;
    if r.level != Debug {
      EvictKeepsOrder(limits, q.records, Debug, r);
      if r.level != Info { EvictKeepsOrder(limits, Evicted(limits, q.records, Debug, r), Info, r); }
    }
  }

  /** Every queued record is older than `limit`, and they are in order. */
  predicate Before(records: seq<Queued>, limit: nat) {
    Ascending(records) && forall i :: 0 <= i < |records| ==> records[i].sequence < limit
  }

  /** When every arrival is newer than the queued records, the queue stays in arrival order. */
  lemma PutKeepsOrder(limits: Limits, q: Queue, r: Queued)
    requires Counted(q) && Before(q.records, r.sequence)
    ensures Before(Put(limits, q, r).records, r.sequence + 1)
  {
    hide MakeRoom, Fits;
    var room := MakeRoom(limits, q, r).records;
    RoomKeepsOrder(limits, q, r);
    forall i | 0 <= i < |room| ensures room[i].sequence < r.sequence {
      assert room[i] in q.records;
    }
  }

  lemma AscendingIsSorted(records: seq<Queued>)
    requires Ascending(records)
    ensures Sorting.Sort(records, Sequence) == records
  {
    Sorting.SortedStays(records, Sequence);
  }

  lemma OneMoreDropped(dropped: map<Level, nat>, level: Level, a: nat, b: nat)
    ensures dropped[level := a][level := b] == dropped[level := b]
  {
  }

  lemma EvictStep(limits: Limits, records: seq<Queued>, level: Level, r: Queued)
    ensures Evicted(limits, records, level, r) ==
            if Fits(limits, records, r) || Oldest(records, level) == |records| then records
            else Evicted(limits, WithoutOldest(records, level), level, r)
  {
  }

  // ---- the class ----------------------------------------------------------------------------

  class BoundedQueue {
    const limits: Limits
    var records: seq<Queued>
    var bytes: nat
    var dropped: map<Level, nat>

    constructor (limits: Limits)
      ensures Valid() && this.limits == limits && State() == EMPTY
    {
      this.limits, records, bytes, dropped := limits, [], 0, EMPTY.dropped;
    }

    function State(): Queue
      reads this
    {
      Queue(records, dropped)
    }

    /** The byte counter is the size of what is queued, and the caps hold. */
    ghost predicate Valid()
      reads this
    {
      bytes == Size(records) && Counted(State()) && Capped(limits, records)
    }

    // The less important records go, oldest first.
    method MakeRoomFor(record: Queued, maxRecords: int, maxBytes: int)
      requires Counted(State()) && bytes == Size(records)
      requires maxRecords == limits.Records(record.level) && maxBytes == limits.Bytes(record.level)
      modifies this
      ensures State() == MakeRoom(limits, old(State()), record) && bytes == Size(records)
    {
      hide Evicted, Size;
      if record.level.Info? {
        EvictUntilFits(Debug, record, maxRecords, maxBytes);
      }
      if record.level.Priority() {
        EvictUntilFits(Debug, record, maxRecords, maxBytes);
        EvictUntilFits(Info, record, maxRecords, maxBytes);
      }
    }

    method Enqueue(record: Queued)
      requires Valid()
      modifies this
      ensures Valid() && State() == Put(limits, old(State()), record)
    {
      hide Evicted, Capped, MakeRoom, Keep;
      PutStaysCapped(limits, State(), record);
      var priority := record.level.Priority();
      var maxRecords := if priority then limits.maxRecords else limits.maxRecords - limits.reservedRecords;
      var maxBytes := if priority then limits.maxBytes else limits.maxBytes - limits.reservedBytes;
      MakeRoomFor(record, maxRecords, maxBytes);
      if |records| + 1 > maxRecords || bytes + |record.encoded| > maxBytes {
        dropped := dropped[record.level := dropped[record.level] + 1];
        return;
      }
      SizeAppends(records, [record]);
      records := records + [record];
      bytes := bytes + |record.encoded|;
    }

    /** The batch to be written, oldest first; the queue is empty afterwards. */
    method TakeAllRecords() returns (batch: seq<Queued>)
      requires Valid()
      modifies this`records, this`bytes
      ensures Valid() && State() == Step(limits, old(State()), TakeAll)
      ensures batch == Sorting.Sort(old(records), Sequence)
      ensures Ascending(old(records)) ==> batch == old(records)
    {
      hide Ascending, Sorting.Sort;
      batch := Sorting.Sort(records, Sequence);
      if Ascending(records) { AscendingIsSorted(records); }
      records, bytes := [], 0;
    }

    method ClearRecords()
      requires Valid()
      modifies this`records, this`bytes
      ensures Valid() && State() == Step(limits, old(State()), Clear)
    {
      records, bytes := [], 0;
    }

    method EvictUntilFits(level: Level, incoming: Queued, maxRecords: int, maxBytes: int)
      requires Counted(State()) && bytes == Size(records)
      requires maxRecords == limits.Records(incoming.level) && maxBytes == limits.Bytes(incoming.level)
      modifies this
      ensures State() == Evict(limits, old(State()), level, incoming) && bytes == Size(records)
    {
      hide Keep, Size, Evicted, Oldest;
      while |records| + 1 > maxRecords || bytes + |incoming.encoded| > maxBytes
        invariant bytes == Size(records) && Counted(State())
        invariant Evicted(limits, records, level, incoming) == Evicted(limits, old(records), level, incoming)
        invariant |records| <= |old(records)|
        invariant dropped == old(dropped)[level := old(dropped)[level] + (|old(records)| - |records|)]
        decreases |records|
      {
        var index := Oldest(records, level);
        EvictStep(limits, records, level, incoming);
        if index == |records| { return; }
        SizeAround(records, index);
        var record := records[index];
        records := records[..index] + records[index + 1..];
        bytes := bytes - |record.encoded|;
        OneMoreDropped(old(dropped), level, dropped[level], dropped[level] + 1);
        dropped := dropped[level := dropped[level] + 1];
      }
      EvictStep(limits, records, level, incoming);
    }
  }
}
