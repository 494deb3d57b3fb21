/** The runtime object of the diagnostic log. Its methods are the steps of the pipeline; between two
    of them any other may run, as the event loop allows. */
module DiagnosticRuntime {
  import opened DiagnosticQueue
  import opened Segments
  import opened LogPipeline

  function Encodings(file: seq<Entry>): seq<Bytes> {
    seq(|file|, i requires 0 <= i < |file| => file[i].encoded)
  }

  class Runtime {
    const queue: BoundedQueue
    const writer: SegmentWriter
    var threshold: Level
    var nextSequence: nat
    var batch: seq<Queued>
    var disabled: bool
    var closing: bool
    ghost var file: seq<Entry>
    ghost var emitted: seq<Queued>

    constructor (limits: Limits, threshold: Level, active: set<nat>, reliable: bool)
      ensures Valid() && View() == START && queue.limits == limits && !disabled && writer.reliable == reliable
      ensures fresh(queue) && fresh(writer)
    {
      hide Inv, Stream, Flatten, Capped;
      queue := new BoundedQueue(limits);
      writer := new SegmentWriter(active, reliable);
      this.threshold := threshold;
      nextSequence, batch, disabled, closing := 1, [], false, false;
      file, emitted := [], [];
      new;
      StartIsFine();
    }

    ghost function View(): State
      reads this, queue
    {
      State(nextSequence, queue.State(), batch, file, emitted)
    }

    /** While the writer works, the segments hold exactly the records that were appended. */
    ghost predicate Valid()
      reads this, queue, writer
    {
      && queue.Valid() && Inv(View())
      && (!disabled ==> writer.Valid() && Stream(writer.segments) == Flatten(Encodings(file)))
    }

    /** `emit`: never reaches the files itself; what is suppressed draws no number. */
    method EmitRecord(level: Level, encoded: Bytes, valid: bool)
      requires Valid()
      modifies this`nextSequence, this`emitted, queue
      ensures Valid()
      ensures View() == if old(closing || disabled) || level.Order() < threshold.Order() then old(View())
                        else Next(queue.limits, old(View()), Emit(level, encoded, valid))
    {
      hide Inv, Put, Stream, Flatten;
      if closing || disabled || level.Order() < threshold.Order() { return; }
      StepKeepsInv(queue.limits, View(), Emit(level, encoded, valid));
      var sequence := nextSequence;
      nextSequence := nextSequence + 1;
      if |encoded| > MAX_RECORD_BYTES || !valid { return; }
      var record := Queued(level, sequence, encoded);
      queue.Enqueue(record);
      emitted := emitted + [record];
    }

    /** The head of the drain loop. */
    method Take()
      requires Valid() && Enabled(View(), TakeBatch)
      modifies this`batch, queue
      ensures Valid() && View() == Next(queue.limits, old(View()), TakeBatch)
    {
      hide Inv, Stream, Flatten, Ascending, Capped, Size;
      StepKeepsInv(queue.limits, View(), TakeBatch);
      InvIsAscending(View());
      batch := queue.TakeAllRecords();
    }

    /** One append of the drain loop; a failed one disables the log. */
    method AppendOne(maxFileBytes: nat) returns (ok: bool)
      requires Valid() && !disabled && Enabled(View(), AppendNext) && batch[0].encoded != []
      modifies this`batch, this`file, this`disabled, writer
      ensures Valid() && (ok <==> !disabled) && (writer.reliable ==> ok)
      ensures ok ==> View() == Next(queue.limits, old(View()), AppendNext)
      ensures !ok ==> View() == old(View())
    {
      hide Inv, Stream, Flatten;
      StepKeepsInv(queue.limits, View(), AppendNext);
      ghost var entry := Entry(batch[0].sequence, batch[0].encoded, false);
      ok := AppendBytes(batch[0].encoded, maxFileBytes, entry);
      if ok { batch := batch[1..]; }
    }

    /** A record of the log about itself, between two batches. */
    method AppendAggregate(encoded: Bytes, maxFileBytes: nat) returns (ok: bool)
      requires Valid() && !disabled && Enabled(View(), AppendInternal(encoded)) && encoded != []
      modifies this`nextSequence, this`file, this`disabled, writer
      ensures Valid() && (ok <==> !disabled) && (writer.reliable ==> ok)
      ensures ok ==> View() == Next(queue.limits, old(View()), AppendInternal(encoded))
      ensures !ok ==> View() == old(View()).(next := old(nextSequence) + 1)
    {
      hide Inv, Stream, Flatten;
      StepKeepsInv(queue.limits, View(), AppendInternal(encoded));
      GapKeepsInv(View());
      ghost var entry := Entry(nextSequence, encoded, true);
      nextSequence := nextSequence + 1;
      ok := AppendBytes(encoded, maxFileBytes, entry);
    }

    /** Hand the bytes to the writer; when that fails give up on the files. */
    method AppendBytes(encoded: Bytes, maxFileBytes: nat, ghost entry: Entry) returns (ok: bool)
      requires writer.Valid() && Stream(writer.segments) == Flatten(Encodings(file)) && !disabled
      requires encoded != [] && entry.encoded == encoded
      modifies this`file, this`disabled, writer
      ensures (ok <==> !disabled) && (writer.reliable ==> ok)
      ensures file == if ok then old(file) + [entry] else old(file)
      ensures ok ==> writer.Valid() && Stream(writer.segments) == Flatten(Encodings(file))
    {
      hide Stream, Flatten, Inv, AllWhole;
      var taken;
      ok, taken := writer.Append(encoded, maxFileBytes);
      if ok {
        assert encoded[..taken] == encoded;
        assert Encodings(file + [entry]) == Encodings(file) + [encoded];
        FlattenAppends(Encodings(file), [encoded]);
        FlattenOne(encoded);
        file := file + [entry];
      } else {
        disabled := true;
        writer.Abort();
      }
    }
  }

  lemma StartIsFine()
    ensures Inv(START) && Stream([]) == Flatten(Encodings([]))
  {
  }

  lemma InvIsAscending(s: State)
    requires Inv(s)
    ensures Ascending(s.queue.records)
  {
  }

  /** A number that is drawn and not used only leaves a gap. */
  lemma GapKeepsInv(s: State)
    requires Inv(s)
    ensures Inv(s.(next := s.next + 1))
  {
    var t := s.(next := s.next + 1);
    forall e | e in FromQueue(s.file) ensures Known(t, e.sequence, e.encoded) {
      assert Known(s, e.sequence, e.encoded);
    }
  }
}
