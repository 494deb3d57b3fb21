/** The diagnostic log from `emit` to the segment files: numbering, the queue, the drain loop and the
    records the log writes about itself, with emits interleaved at any point of a drain. */
module LogPipeline {
  import opened DiagnosticQueue

  const MAX_RECORD_BYTES := 8192

  /** A record in the files; an internal one was written by the drain loop itself. */
  datatype Entry = Entry(sequence: nat, encoded: Bytes, internal: bool)

  /** `batch` is what the drain loop took and has not written yet, `file` what was appended, in order,
      and `emitted` every record that was handed to the queue. */
  datatype State = State(next: nat, queue: Queue, batch: seq<Queued>, file: seq<Entry>, emitted: seq<Queued>)

  const START: State := State(1, EMPTY, [], [], [])

  datatype Event =
    | Emit(level: Level, encoded: Bytes, valid: bool)
    | TakeBatch
    | AppendNext
    | AppendInternal(encoded: Bytes)

  /** An emit may come at any time; the drain loop writes about itself only between two batches. */
  predicate Enabled(s: State, e: Event) {
    match e
    case Emit(_, _, _) => true
    case TakeBatch => s.batch == [] && s.queue.records != []
    case AppendNext => s.batch != []
    case AppendInternal(_) => s.batch == []
  }

  /** A number is drawn before the record is checked, so a rejected record leaves a gap. */
  function Next(limits: Limits, s: State, e: Event): (t: State)
    requires Counted(s.queue) && Enabled(s, e)
    ensures Counted(t.queue)
  {
    match e
    case Emit(level, encoded, valid) =>
      var numbered := s.(next := s.next + 1);
      if |encoded| > MAX_RECORD_BYTES || !valid then numbered
      else
        var r := Queued(level, s.next, encoded);
        numbered.(queue := Put(limits, s.queue, r), emitted := s.emitted + [r])
    case TakeBatch => s.(batch := s.queue.records, queue := s.queue.(records := []))
    case AppendNext =>
      s.(batch := s.batch[1..], file := s.file + [Entry(s.batch[0].sequence, s.batch[0].encoded, false)])
    case AppendInternal(encoded) => s.(next := s.next + 1, file := s.file + [Entry(s.next, encoded, true)])
  }

  predicate Allowed(limits: Limits, s: State, events: seq<Event>)
    requires Counted(s.queue)
    decreases |events|
  {
    events == [] || (Enabled(s, events[0]) && Allowed(limits, Next(limits, s, events[0]), events[1..]))
  }

  function Run(limits: Limits, s: State, events: seq<Event>): (t: State)
    requires Counted(s.queue) && Allowed(limits, s, events)
    ensures Counted(t.queue)
    decreases |events|
  {
    if events == [] then s else Run(limits, Next(limits, s, events[0]), events[1..])
  }

  // ---- order ------------------------------------------------------------------------------

  predicate Rising(numbers: seq<nat>) { forall i, j :: 0 <= i < j < |numbers| ==> numbers[i] < numbers[j] }

  function Numbers(records: seq<Queued>): seq<nat> {
    seq(|records|, i requires 0 <= i < |records| => records[i].sequence)
  }

  function AllNumbers(file: seq<Entry>): seq<nat> {
    seq(|file|, i requires 0 <= i < |file| => file[i].sequence)
  }

  /** The records in the files that came through the queue. */
  function FromQueue(file: seq<Entry>): seq<Entry> {
    if file == [] then []
    else
      var last := file[|file| - 1];
      FromQueue(file[..|file| - 1]) + if last.internal then [] else [last]
  }

  /** Numbers of records taken, then the queue, all in the order they were drawn. */
  predicate InLine(taken: seq<nat>, records: seq<Queued>, next: nat) {
    && Rising(taken) && Before(records, next)
    && (forall i :: 0 <= i < |taken| ==> taken[i] < next)
    && (forall i, j :: 0 <= i < |taken| && 0 <= j < |records| ==> taken[i] < records[j].sequence)
  }

  function Taken(s: State): seq<nat> { AllNumbers(FromQueue(s.file)) + Numbers(s.batch) }

  predicate Known(s: State, sequence: nat, encoded: Bytes) {
    exists r :: r in s.emitted && r.sequence == sequence && r.encoded == encoded
  }

  /** What every step keeps: the queued records move from `emit` to the files in order, and no record
      is changed on the way. */
  ghost predicate Inv(s: State) {
    && Counted(s.queue) && InLine(Taken(s), s.queue.records, s.next)
    && (forall e :: e in FromQueue(s.file) ==> Known(s, e.sequence, e.encoded))
    && (forall r :: r in s.batch || r in s.queue.records ==> r in s.emitted)
    && Before(s.emitted, s.next)
  }

  lemma PutInLine(limits: Limits, taken: seq<nat>, q: Queue, r: Queued)
    requires Counted(q) && InLine(taken, q.records, r.sequence)
    ensures InLine(taken, Put(limits, q, r).records, r.sequence + 1)
    ensures forall x :: x in Put(limits, q, r).records ==> x in q.records || x == r
  {
    hide MakeRoom, Fits;
    PutKeepsOrder(limits, q, r);
    RoomKeepsOrder(limits, q, r);
    var after := Put(limits, q, r).records;
    forall i, j | 0 <= i < |taken| && 0 <= j < |after| ensures taken[i] < after[j].sequence {
      if after[j] != r { assert after[j] in q.records; }
    }
  }

  lemma TakeInLine(taken: seq<nat>, records: seq<Queued>, next: nat)
    requires InLine(taken, records, next)
    ensures InLine(taken + Numbers(records), [], next)
  {
  }

  lemma EmitKeepsInv(limits: Limits, s: State, e: Event)
    requires Inv(s) && e.Emit?
    ensures Inv(Next(limits, s, e))
  {
    var t := Next(limits, s, e);
    if t.emitted != s.emitted {
      hide Put, Before, Counted;
      var r := Queued(e.level, s.next, e.encoded);
      PutInLine(limits, Taken(s), s.queue, r);
      EmittedGrows(s.emitted, r);
      forall x | x in FromQueue(s.file) ensures Known(t, x.sequence, x.encoded) {
        var y :| y in s.emitted && y.sequence == x.sequence && y.encoded == x.encoded;
        assert y in t.emitted;
      }
    }
  }

  lemma EmittedGrows(records: seq<Queued>, r: Queued)
    requires Before(records, r.sequence)
    ensures Before(records + [r], r.sequence + 1)
  {
  }

  lemma AppendKeepsInv(limits: Limits, s: State)
    requires Inv(s) && Enabled(s, AppendNext)
    ensures Inv(Next(limits, s, AppendNext))
  {
    hide InLine, Before, Counted;
    var t := Next(limits, s, AppendNext);
    var last := t.file[|s.file|];
    assert t.file[..|s.file|] == s.file && t.file[|t.file| - 1] == last && !last.internal;
    assert FromQueue(t.file) == FromQueue(s.file) + [last];
    TakenStays(s, t, last);
    assert s.batch[0] in s.batch && Known(t, last.sequence, last.encoded);
    forall e | e in FromQueue(s.file) ensures Known(t, e.sequence, e.encoded) { KnownStays(s, t, e); }
  }

  lemma KnownStays(s: State, t: State, e: Entry)
    requires Known(s, e.sequence, e.encoded) && t.emitted == s.emitted
    ensures Known(t, e.sequence, e.encoded)
  {
  }

  // A record that goes from the batch to the files stays where it was in line.
  lemma TakenStays(s: State, t: State, last: Entry)
    requires s.batch != [] && t.batch == s.batch[1..] && last.sequence == s.batch[0].sequence
    requires FromQueue(t.file) == FromQueue(s.file) + [last]
    ensures Taken(t) == Taken(s)
  {
    hide FromQueue;
    assert AllNumbers(FromQueue(t.file)) == AllNumbers(FromQueue(s.file)) + [last.sequence];
    assert Numbers(s.batch) == [last.sequence] + Numbers(t.batch);
  }

  lemma InternalKeepsInv(limits: Limits, s: State, encoded: Bytes)
    requires Inv(s) && Enabled(s, AppendInternal(encoded))
    ensures Inv(Next(limits, s, AppendInternal(encoded)))
  {
    var t := Next(limits, s, AppendInternal(encoded));
    assert t.file[..|s.file|] == s.file;
    assert FromQueue(t.file) == FromQueue(s.file);
    assert Taken(t) == Taken(s);
    hide FromQueue, Taken;
    forall e | e in FromQueue(s.file) ensures Known(t, e.sequence, e.encoded) { KnownStays(s, t, e); }
  }

  lemma TakeKeepsInv(limits: Limits, s: State)
    requires Inv(s) && Enabled(s, TakeBatch)
    ensures Inv(Next(limits, s, TakeBatch))
  {
    var t := Next(limits, s, TakeBatch);
    TakeInLine(Taken(s), s.queue.records, s.next);
    assert Taken(s) == AllNumbers(FromQueue(s.file));
    forall e | e in FromQueue(s.file) ensures Known(t, e.sequence, e.encoded) { KnownStays(s, t, e); }
  }

  lemma StepKeepsInv(limits: Limits, s: State, e: Event)
    requires Inv(s) && Enabled(s, e)
    ensures Inv(Next(limits, s, e))
  {
    hide Inv, Next, Enabled;
    match e
    case Emit(_, _, _) => EmitKeepsInv(limits, s, e);
    case TakeBatch => TakeKeepsInv(limits, s);
    case AppendNext => AppendKeepsInv(limits, s);
    case AppendInternal(encoded) => InternalKeepsInv(limits, s, encoded);
  }

  /** Over every run the queued records in the files are a rising selection of the emitted ones. */
  lemma {:induction false} RunKeepsInv(limits: Limits, s: State, events: seq<Event>)
    requires Inv(s) && Allowed(limits, s, events)
    ensures var end := Run(limits, s, events);
      && Inv(end) && Rising(AllNumbers(FromQueue(end.file)))
      && forall e :: e in FromQueue(end.file) ==> Known(end, e.sequence, e.encoded)
    decreases |events|
  {
    hide Next;
    if events != [] {
      StepKeepsInv(limits, s, events[0]);
      RunKeepsInv(limits, Next(limits, s, events[0]), events[1..]);
    } else {
      var numbers := AllNumbers(FromQueue(s.file));
      assert forall i :: 0 <= i < |numbers| ==> numbers[i] == Taken(s)[i];
    }
  }

  /** Everything in the files, internal records included, in the order the numbers were drawn, and
      what is still to come in order after it. */
  predicate FilesInOrder(s: State) { InLine(AllNumbers(s.file) + Numbers(s.batch), s.queue.records, s.next) }

  lemma FilesKeepOrder(limits: Limits, s: State, e: Event)
    requires Counted(s.queue) && FilesInOrder(s) && Enabled(s, e) && !e.AppendInternal?
    ensures FilesInOrder(Next(limits, s, e))
  {
    var t := Next(limits, s, e);
    var taken := AllNumbers(s.file) + Numbers(s.batch);
    match e
    case Emit(level, encoded, _) =>
      if t.emitted != s.emitted { PutInLine(limits, taken, s.queue, Queued(level, s.next, encoded)); }
    case TakeBatch =>
      TakeInLine(taken, s.queue.records, s.next);
      assert taken == AllNumbers(s.file);
    case AppendNext =>
      assert AllNumbers(t.file) + Numbers(t.batch) == taken;
  }

  ghost predicate NoInternal(events: seq<Event>) {
    forall k :: 0 <= k < |events| ==> !events[k].AppendInternal?
  }

  /** Without internal records files that are in order stay so over every run. */
  lemma {:induction false} RunKeepsFiles(limits: Limits, s: State, events: seq<Event>)
    requires Counted(s.queue) && FilesInOrder(s) && Allowed(limits, s, events) && NoInternal(events)
    ensures FilesInOrder(Run(limits, s, events)) && Rising(AllNumbers(Run(limits, s, events).file))
    decreases |events|
  {
    hide Next;
    if events != [] {
      FilesKeepOrder(limits, s, events[0]);
      RunKeepsFiles(limits, Next(limits, s, events[0]), events[1..]);
    } else {
      FilesAreRising(s);
    }
  }

  lemma FilesAreRising(s: State)
    requires FilesInOrder(s)
    ensures Rising(AllNumbers(s.file))
  {
    var taken := AllNumbers(s.file) + Numbers(s.batch);
    assert forall i :: 0 <= i < |s.file| ==> AllNumbers(s.file)[i] == taken[i];
  }

  /** Whatever comes next, short of another internal record, the files end in number order. */
  ghost predicate FilesStayRising(limits: Limits, t: State)
    requires Counted(t.queue)
  {
    forall events :: Allowed(limits, t, events) && NoInternal(events) ==> Rising(AllNumbers(Run(limits, t, events).file))
  }

  /** With nothing waiting an internal record takes its place at the end of the line. */
  lemma InternalWithNoneWaiting(limits: Limits, s: State, encoded: Bytes)
    requires Counted(s.queue) && FilesInOrder(s) && s.batch == [] && s.queue.records == []
    ensures FilesInOrder(Next(limits, s, AppendInternal(encoded)))
  {
    var t := Next(limits, s, AppendInternal(encoded));
    var taken := AllNumbers(t.file) + Numbers(t.batch);
    assert taken[|s.file|] == s.next;
    assert forall i :: 0 <= i < |s.file| ==> taken[i] == (AllNumbers(s.file) + Numbers(s.batch))[i];
  }

  /** With one waiting, draining it next puts its older number behind that of the internal record. */
  lemma InternalOvertakes(limits: Limits, s: State, encoded: Bytes)
    requires Counted(s.queue) && FilesInOrder(s) && s.batch == [] && s.queue.records != []
    ensures !FilesStayRising(limits, Next(limits, s, AppendInternal(encoded)))
  {
    var t := Next(limits, s, AppendInternal(encoded));
    var u := Next(limits, t, TakeBatch);
    var v := Next(limits, u, AppendNext);
    Ends(limits, v);
    var events := Follow(limits, u, AppendNext, v, []);
    events := Follow(limits, t, TakeBatch, u, events);
    assert NoInternal(events);
    var n := |s.file|;
    assert AllNumbers(v.file)[n] == s.next && AllNumbers(v.file)[n + 1] == s.queue.records[0].sequence;
  }

  /** The record the log writes about itself takes a number later than those of records that arrived
      since the batch was taken but are written after it. The files end in number order in every
      continuation exactly when no record was waiting. */
  lemma InternalKeepsOrderExactly(limits: Limits, s: State, encoded: Bytes)
    requires Counted(s.queue) && FilesInOrder(s) && s.batch == []
    ensures FilesStayRising(limits, Next(limits, s, AppendInternal(encoded))) <==> s.queue.records == []
  {
    hide FilesStayRising, Next;
    if s.queue.records == [] {
      InternalWithNoneWaiting(limits, s, encoded);
      ContinuationsRise(limits, Next(limits, s, AppendInternal(encoded)));
    } else {
      InternalOvertakes(limits, s, encoded);
    }
  }

  lemma ContinuationsRise(limits: Limits, t: State)
    requires Counted(t.queue) && FilesInOrder(t)
    ensures FilesStayRising(limits, t)
  {
    forall events | Allowed(limits, t, events) && NoInternal(events)
      ensures Rising(AllNumbers(Run(limits, t, events).file))
    {
      RunKeepsFiles(limits, t, events);
    }
  }

  /** In this run every internal record is written while no record is waiting. */
  predicate NoneWaiting(limits: Limits, s: State, events: seq<Event>)
    requires Counted(s.queue) && Allowed(limits, s, events)
    decreases |events|
  {
    events == []
    || ((events[0].AppendInternal? ==> s.queue.records == []) && NoneWaiting(limits, Next(limits, s, events[0]), events[1..]))
  }

  lemma {:induction false} QuietRunInOrder(limits: Limits, s: State, events: seq<Event>)
    requires Counted(s.queue) && FilesInOrder(s) && Allowed(limits, s, events) && NoneWaiting(limits, s, events)
    ensures FilesInOrder(Run(limits, s, events))
    decreases |events|
  {
    hide Next, FilesInOrder;
    if events != [] {
      if events[0].AppendInternal? {
        InternalWithNoneWaiting(limits, s, events[0].encoded);
      } else {
        FilesKeepOrder(limits, s, events[0]);
      }
      QuietRunInOrder(limits, Next(limits, s, events[0]), events[1..]);
    }
  }

  /** From the start on: if no record waits whenever the log writes about itself, the files end in
      number order, internal records included. */
  lemma FilesRiseFromStart(limits: Limits, events: seq<Event>)
    requires Allowed(limits, START, events) && NoneWaiting(limits, START, events)
    ensures Rising(AllNumbers(Run(limits, START, events).file))
  {
    assert FilesInOrder(START);
    QuietRunInOrder(limits, START, events);
    FilesAreRising(Run(limits, START, events));
  }

  lemma PutAlone(limits: Limits, q: Queue, r: Queued)
    requires Counted(q) && q.records == [] && r.level == Warn
    requires limits.maxRecords >= 1 && limits.maxBytes >= |r.encoded|
    ensures Put(limits, q, r) == Queue([r], q.dropped)
  {
    assert Fits(limits, [], r);
    assert q.dropped[Debug := q.dropped[Debug]] == q.dropped && q.dropped[Info := q.dropped[Info]] == q.dropped;
    assert MakeRoom(limits, q, r) == q;
  }

  /** A run that puts the numbers 1, 3, 2 into the files. */
  lemma FilesOutOfOrder(limits: Limits, encoded: Bytes) returns (events: seq<Event>)
    requires |encoded| <= MAX_RECORD_BYTES && limits.maxRecords >= 1 && limits.maxBytes >= |encoded|
    ensures Allowed(limits, START, events)
    ensures AllNumbers(Run(limits, START, events).file) == [1, 3, 2]
  {
    hide Put, Allowed, Run, AllNumbers;
    var d, emit, log := EMPTY.dropped, Emit(Warn, encoded, true), AppendInternal(encoded);
    var r1, r2 := Queued(Warn, 1, encoded), Queued(Warn, 2, encoded);
    var e1, e2, e3 := Entry(1, encoded, false), Entry(2, encoded, false), Entry(3, encoded, true);
    PutAlone(limits, EMPTY, r1);
    PutAlone(limits, EMPTY, r2);
    var end := State(4, EMPTY, [], [e1, e3, e2], [r1, r2]);
    Ends(limits, end);
    events := Follow(limits, State(4, EMPTY, [r2], [e1, e3], [r1, r2]), AppendNext, end, []);
    events := Follow(limits, State(4, Queue([r2], d), [], [e1, e3], [r1, r2]), TakeBatch,
                     State(4, EMPTY, [r2], [e1, e3], [r1, r2]), events);
    events := Follow(limits, State(3, Queue([r2], d), [], [e1], [r1, r2]), log,
                     State(4, Queue([r2], d), [], [e1, e3], [r1, r2]), events);
    events := Follow(limits, State(3, Queue([r2], d), [r1], [], [r1, r2]), AppendNext,
                     State(3, Queue([r2], d), [], [e1], [r1, r2]), events);
    events := Follow(limits, State(2, EMPTY, [r1], [], [r1]), emit,
                     State(3, Queue([r2], d), [r1], [], [r1, r2]), events);
    events := Follow(limits, State(2, Queue([r1], d), [], [], [r1]), TakeBatch,
                     State(2, EMPTY, [r1], [], [r1]), events);
    events := Follow(limits, START, emit, State(2, Queue([r1], d), [], [], [r1]), events);
    Listed(e1, e3, e2);
  }

  lemma Listed(a: Entry, b: Entry, c: Entry)
    ensures AllNumbers([a, b, c]) == [a.sequence, b.sequence, c.sequence]
  {
  }

  lemma Ends(limits: Limits, s: State)
    requires Counted(s.queue)
    ensures Allowed(limits, s, []) && Run(limits, s, []) == s
  {
  }

  /** One more step at the front of a run. */
  lemma Follow(limits: Limits, s: State, e: Event, t: State, rest: seq<Event>) returns (events: seq<Event>)
    requires Counted(s.queue) && Enabled(s, e) && Next(limits, s, e) == t && Allowed(limits, t, rest)
    ensures events == [e] + rest && Allowed(limits, s, events) && Run(limits, s, events) == Run(limits, t, rest)
  {
    events := [e] + rest;
    assert events[1..] == rest;
  }
}
