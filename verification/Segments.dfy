/** The rotating segment writer of the diagnostic log. A file operation may fail, and the operating
    system may take any part of what it is handed. */
module Segments {
  import opened DiagnosticQueue

  function Flatten(parts: seq<Bytes>): Bytes {
    if parts == [] then [] else parts[0] + Flatten(parts[1..])
  }

  lemma {:induction false} FlattenAppends(a: seq<Bytes>, b: seq<Bytes>)
    ensures Flatten(a + b) == Flatten(a) + Flatten(b)
  {
    if a == [] {
      assert a + b == b;
    } else {
      assert (a + b)[1..] == a[1..] + b;
      FlattenAppends(a[1..], b);
    }
  }

  lemma FlattenOne(part: Bytes)
    ensures Flatten([part]) == part
  {
  }

  datatype Segment = Segment(number: nat, content: Bytes)

  function Contents(segments: seq<Segment>): (r: seq<Bytes>)
    ensures |r| == |segments| && forall i :: 0 <= i < |r| ==> r[i] == segments[i].content
  {
    seq(|segments|, i requires 0 <= i < |segments| => segments[i].content)
  }

  /** All bytes of the segments, in the order the segments were opened. */
  function Stream(segments: seq<Segment>): Bytes { Flatten(Contents(segments)) }

  /** The last segment with more bytes at its end. */
  function Grown(segments: seq<Segment>, more: Bytes): seq<Segment>
    requires segments != []
  {
    var n := |segments| - 1;
    segments[n := segments[n].(content := segments[n].content + more)]
  }

  lemma GrownTwice(segments: seq<Segment>, a: Bytes, b: Bytes)
    requires segments != []
    ensures Grown(segments, []) == segments
    ensures Grown(Grown(segments, a), b) == Grown(segments, a + b)
  {
    var content := segments[|segments| - 1].content;
    assert content + [] == content;
    assert (content + a) + b == content + (a + b);
  }

  lemma GrownNew(segments: seq<Segment>, number: nat, content: Bytes)
    ensures Grown(segments + [Segment(number, [])], content) == segments + [Segment(number, content)]
  {
    assert [] + content == content;
  }

  lemma StreamGrows(segments: seq<Segment>, more: Bytes)
    requires segments != []
    ensures Stream(Grown(segments, more)) == Stream(segments) + more
  {
    var n := |segments| - 1;
    var last := segments[n];
    assert Contents(segments) == Contents(segments)[..n] + [last.content];
    assert Contents(Grown(segments, more)) == Contents(segments)[..n] + [last.content + more];
    FlattenAppends(Contents(segments)[..n], [last.content]);
    FlattenAppends(Contents(segments)[..n], [last.content + more]);
    FlattenOne(last.content);
    FlattenOne(last.content + more);
  }

  lemma StreamOpens(segments: seq<Segment>, number: nat)
    ensures Stream(segments + [Segment(number, [])]) == Stream(segments)
  {
    assert Contents(segments + [Segment(number, [])]) == Contents(segments) + [[]];
    FlattenAppends(Contents(segments), [[]]);
    FlattenOne([]);
  }

  /** A segment is made of whole records, and is within the limit or holds a single record. */
  ghost predicate Whole(content: Bytes, records: seq<Bytes>, limit: nat) {
    content == Flatten(records) && (|content| <= limit || |records| <= 1)
  }

  lemma WholeGrows(content: Bytes, records: seq<Bytes>, limit: nat, more: Bytes)
    requires Whole(content, records, limit) && (content == [] ==> records == [])
    requires content != [] ==> |content| + |more| <= limit
    ensures Whole(content + more, records + [more], limit)
  {
    FlattenAppends(records, [more]);
    FlattenOne(more);
  }

  /** Each segment is made of the records listed for it, and no record is empty. */
  ghost predicate AllWhole(segments: seq<Segment>, records: seq<seq<Bytes>>, limit: nat) {
    && |records| == |segments|
    && (forall i :: 0 <= i < |segments| ==> Whole(segments[i].content, records[i], limit))
    && (forall i, k :: 0 <= i < |records| && 0 <= k < |records[i]| ==> records[i][k] != [])
  }

  /** All segments but the last are whole, and the last ends in a piece of a record. */
  ghost predicate TornAt(segments: seq<Segment>, records: seq<seq<Bytes>>, limit: nat, piece: Bytes) {
    && segments != [] && |records| == |segments|
    && segments[|segments| - 1].content == Flatten(records[|segments| - 1]) + piece
    && AllWhole(segments[..|segments| - 1], records[..|segments| - 1], limit)
  }

  lemma LastGrows(segments: seq<Segment>, records: seq<seq<Bytes>>, limit: nat, encoded: Bytes)
    requires AllWhole(segments, records, limit) && segments != [] && encoded != []
    requires var content := segments[|segments| - 1].content;
      content != [] ==> |content| + |encoded| <= limit
    ensures var n := |segments| - 1;
      |records| == |segments| && AllWhole(Grown(segments, encoded), records[n := records[n] + [encoded]], limit)
  {
    var n := |segments| - 1;
    EmptyIsEmpty(records[n]);
    WholeGrows(segments[n].content, records[n], limit, encoded);
  }

  lemma NewIsWhole(segments: seq<Segment>, records: seq<seq<Bytes>>, limit: nat, number: nat)
    requires AllWhole(segments, records, limit)
    ensures AllWhole(segments + [Segment(number, [])], records + [[]], limit)
  {
    assert Whole([], [], limit);
  }

  lemma LastTorn(segments: seq<Segment>, records: seq<seq<Bytes>>, limit: nat, piece: Bytes)
    requires AllWhole(segments, records, limit) && segments != []
    ensures TornAt(Grown(segments, piece), records, limit, piece)
  {
    var n := |segments| - 1;
    assert Grown(segments, piece)[..n] == segments[..n];
  }

  class SegmentWriter {
    /** The environment: when set, no file operation fails. */
    const reliable: bool
    var segment: nat
    var bytes: nat
    var open: bool
    /** The numbers for which a `.active.jsonl` file exists, whoever created it. */
    var active: set<nat>
    /** This writer's segments in the order they were opened; when a file is open it is the last. */
    var segments: seq<Segment>
    /** The records each segment is made of. */
    ghost var records: seq<seq<Bytes>>
    /** The largest segment size allowed so far. */
    ghost var widest: nat

    constructor (active: set<nat>, reliable: bool)
      ensures Valid() && segments == [] && !open && widest == 0 && this.reliable == reliable
    {
      this.reliable := reliable;
      segment, bytes, open, this.active, segments := 0, 0, false, active, [];
      records, widest := [], 0;
    }

    ghost predicate Numbered()
      reads this
    {
      && (forall i, j :: 0 <= i < j < |segments| ==> segments[i].number < segments[j].number)
      && (forall i :: 0 <= i < |segments| ==> segments[i].number <= segment)
      && (segments != [] && segments[|segments| - 1].number == segment ==> segment in active)
      && (open ==> segments != [] && segments[|segments| - 1].number == segment
                   && bytes == |segments[|segments| - 1].content|)
    }

    /** Each segment holds whole records only. */
    ghost predicate Valid()
      reads this
    {
      Numbered() && AllWhole(segments, records, widest)
    }

    /** `_write_all`: keeps writing what the system did not take yet; fails when it takes nothing. */
    method WriteAll(encoded: Bytes) returns (ok: bool, taken: nat)
      requires segments != []
      modifies this`segments
      ensures taken <= |encoded| && (ok <==> taken == |encoded|)
      ensures segments == Grown(old(segments), encoded[..taken])
      ensures reliable ==> ok
    {
      var remaining := encoded;
      taken := 0;
      GrownTwice(segments, [], []);
      while remaining != []
        invariant taken <= |encoded| && remaining == encoded[taken..]
        invariant segments == Grown(old(segments), encoded[..taken])
        decreases |remaining|
      {
        var written: nat :| written <= |remaining| && (reliable ==> written > 0);
        if written == 0 { return false, taken; }
        var part := remaining[..written];
        assert encoded[..taken + written] == encoded[..taken] + part;
        GrownTwice(old(segments), encoded[..taken], part);
        segments := Grown(segments, part);
        remaining, taken := remaining[written..], taken + written;
      }
      ok := true;
    }

    /** Count on while the exclusive create finds the file there already. */
    method FindFree()
      modifies this`segment
      ensures old(segment) <= segment && segment !in active
      ensures forall k :: old(segment) <= k < segment ==> k in active
    {
      while segment in active
        invariant old(segment) <= segment && forall k :: old(segment) <= k < segment ==> k in active
        decreases set k | k in active && segment <= k
      {
        ghost var above := set k | k in active && segment <= k;
        assert segment in above;
        segment := segment + 1;
        assert segment - 1 !in (set k | k in active && segment <= k);
      }
    }

    /** `_open_segment`: a new file under the first free number, never an existing one. */
    method OpenSegment() returns (ok: bool)
      requires Valid() && !open
      modifies this
      ensures Valid() && widest == old(widest)
      ensures ok ==> open && bytes == 0 && segments == old(segments) + [Segment(segment, [])]
      ensures ok ==> segment !in old(active) && active == old(active) + {segment}
      ensures ok ==> old(segment) <= segment && forall k :: old(segment) <= k < segment ==> k in old(active)
      ensures !ok ==> !open && segments == old(segments)
      ensures Stream(segments) == Stream(old(segments))
      ensures reliable ==> ok
    {
      hide AllWhole, Stream;
      var possible: bool := *;
      if !possible && !reliable { return false; }
      FindFree();
      StreamOpens(segments, segment);
      NewIsWhole(segments, records, widest, segment);
      assert segments != [] ==> segments[|segments| - 1].number < segment;
      segments, records := segments + [Segment(segment, [])], records + [[]];
      active, bytes, open, ok := active + {segment}, 0, true, true;
    }

    /** `_finalize_segment`: close and rename; the number is used up only when that succeeds. */
    method FinalizeSegment() returns (ok: bool)
      requires Valid()
      modifies this`open, this`active, this`segment
      ensures Valid() && !open
      ensures ok && old(open) ==> active == old(active) - {old(segment)} && segment == old(segment) + 1
      ensures !(ok && old(open)) ==> active == old(active) && segment == old(segment)
      ensures reliable ==> ok
    {
      if !open { return true; }
      open := false;
      var renamed: bool := *;
      if !renamed && !reliable { return false; }
      active, segment := active - {segment}, segment + 1;
      return true;
    }

    method Abort()
      modifies this`open
      ensures !open && (old(Valid()) ==> Valid())
    {
      open := false;
    }

    /** Append one record; every record ends in a newline, so none is empty. After a success the
        stream has grown by exactly the record and no segment is split or too large; after a failure
        by a proper part of it, and all segments are still whole exactly when that part is empty. */
    method Append(encoded: Bytes, maxFileBytes: nat) returns (ok: bool, taken: nat)
      requires Valid() && encoded != []
      modifies this
      ensures taken <= |encoded| && (ok <==> taken == |encoded|)
      ensures Stream(segments) == Stream(old(segments)) + encoded[..taken]
      ensures ok ==>
        if old(open && (bytes == 0 || bytes + |encoded| <= maxFileBytes))
        then old(segments) != [] && segments == Grown(old(segments), encoded)
        else segments == old(segments) + [Segment(segment, encoded)]
      ensures ok ==> open && bytes == |segments[|segments| - 1].content|
      ensures widest == if maxFileBytes > old(widest) then maxFileBytes else old(widest)
      ensures taken == 0 || ok ==> Valid()
      ensures reliable ==> ok
      ensures !ok && taken > 0 ==> TornAt(segments, records, widest, encoded[..taken])
    {
      hide Numbered, AllWhole, TornAt, Stream, Grown;
      assert Stream(segments) == Stream(segments) + encoded[..0];
      Widen(maxFileBytes);
      var ready := MakeRoom(|encoded|, maxFileBytes);
      if !ready { return false, 0; }
      ghost var before := segments;
      ok, taken := Put(encoded, maxFileBytes);
      if ok {
        assert encoded[..taken] == encoded;
        if before != old(segments) { GrownNew(old(segments), segment, encoded); }
      }
    }

    /** Open a segment when none is open, and a new one when the open one is too full. */
    method MakeRoom(size: nat, maxFileBytes: nat) returns (ok: bool)
      requires Valid()
      modifies this
      ensures Valid() && widest == old(widest) && Stream(segments) == Stream(old(segments))
      ensures ok ==> open && segments != [] && (bytes == 0 || bytes + size <= maxFileBytes)
      ensures ok ==>
        if old(open && (bytes == 0 || bytes + size <= maxFileBytes)) then segments == old(segments)
        else segments == old(segments) + [Segment(segment, [])]
      ensures reliable ==> ok
    {
      hide AllWhole, Stream;
      if !open {
        ok := OpenSegment();
        return;
      }
      if bytes != 0 && bytes + size > maxFileBytes {
        var closed := FinalizeSegment();
        if !closed { return false; }
        ok := OpenSegment();
        return;
      }
      return true;
    }

    /** A larger limit keeps what was within the smaller one. */
    ghost method Widen(limit: nat)
      requires Valid()
      modifies this`widest
      ensures Valid() && widest == if limit > old(widest) then limit else old(widest)
    {
      if limit > widest { widest := limit; }
    }

    /** The write itself, into an open segment with room. */
    method Put(encoded: Bytes, maxFileBytes: nat) returns (ok: bool, taken: nat)
      requires Valid() && encoded != [] && open && segments != [] && maxFileBytes <= widest
      requires bytes == 0 || bytes + |encoded| <= maxFileBytes
      modifies this`segments, this`bytes, this`records
      ensures taken <= |encoded| && (ok <==> taken == |encoded|)
      ensures segments == Grown(old(segments), encoded[..taken]) && segments != []
      ensures ok ==> open && bytes == |segments[|segments| - 1].content|
      ensures Stream(segments) == Stream(old(segments)) + encoded[..taken]
      ensures taken == 0 || ok ==> Valid()
      ensures reliable ==> ok
      ensures !ok && taken > 0 ==> TornAt(segments, records, widest, encoded[..taken])
    {
      hide AllWhole, TornAt, Stream, Flatten;
      ghost var before, n := segments, |segments| - 1;
      ok, taken := WriteAll(encoded);
      StreamGrows(before, encoded[..taken]);
      if ok {
        assert encoded[..taken] == encoded;
        LastGrows(before, records, widest, encoded);
        bytes := bytes + |encoded|;
        records := records[n := records[n] + [encoded]];
      } else {
        LastTorn(before, records, widest, encoded[..taken]);
        GrownTwice(before, [], []);
      }
    }
  }

  lemma EmptyIsEmpty(records: seq<Bytes>)
    requires forall k :: 0 <= k < |records| ==> records[k] != []
    ensures Flatten(records) == [] ==> records == []
  {
  }
}
