/** The retention sweep over closed segment files: oldest first, a file is unlinked when it is
    expired or the log is still too large. Active files only count towards the size. */
module Retention {
  import Sorting

  /** A segment file, active or closed. `modified` is the file's mtime in seconds, rounded to whole
      units of the clock. */
  datatype LogFile = LogFile(name: string, segment: nat, active: bool, modified: int, size: nat)

  /** The sweep knows files by four digits of the segment number; from 10000 on the name has five. */
  predicate Named(f: LogFile) { f.segment <= 9999 }

  /** The files the sweep recognises as active, or as closed, in the order they are listed. */
  function Recognised(listing: seq<LogFile>, active: bool): (files: seq<LogFile>)
    ensures forall f :: f in files <==> f in listing && Named(f) && f.active == active
  {
    if listing == [] then []
    else
      var last := listing[|listing| - 1];
      var front := Recognised(listing[..|listing| - 1], active);
      assert listing == listing[..|listing| - 1] + [last];
      if Named(last) && last.active == active then front + [last] else front
  }

  function Modified(f: LogFile): int { f.modified }

  function Total(files: seq<LogFile>): nat {
    if files == [] then 0 else files[0].size + Total(files[1..])
  }

  datatype Policy = Policy(cutoff: int, maxTotalBytes: nat, protectedBytes: nat)
  {
    /** Files that may all stay: none expired, and with the active files they fit. */
    predicate Allows(files: seq<LogFile>) {
      protectedBytes + Total(files) <= maxTotalBytes && forall i :: 0 <= i < |files| ==> files[i].modified >= cutoff
    }
  }

  /** The files the sweep leaves, in the order it visits them; `stuck` files cannot be unlinked. */
  function Swept(p: Policy, files: seq<LogFile>, total: int, stuck: set<LogFile>): seq<LogFile> {
    if files == [] then []
    else
      var f := files[0];
      if (f.modified < p.cutoff || total > p.maxTotalBytes) && f !in stuck
      then Swept(p, files[1..], total - f.size, stuck)
      else [f] + Swept(p, files[1..], total, stuck)
  }

  /** Nothing more is unlinked once the oldest file left is not expired and everything fits. */
  lemma {:induction false} RestStays(p: Policy, files: seq<LogFile>, total: int, stuck: set<LogFile>)
    requires total <= p.maxTotalBytes && Sorting.SortedBy(files, Modified)
    requires files != [] ==> files[0].modified >= p.cutoff
    ensures Swept(p, files, total, stuck) == files
  {
    if files != [] {
      if |files| > 1 { assert Modified(files[0]) <= Modified(files[1]); }
      RestStays(p, files[1..], total, stuck);
    }
  }

  /** `files[k..]` is the longest suffix the policy allows; the empty one may always stay. */
  ghost predicate LongestSuffix(p: Policy, files: seq<LogFile>, k: nat) {
    k <= |files| && (k < |files| ==> p.Allows(files[k..])) && forall j :: 0 <= j < k ==> !p.Allows(files[j..])
  }

  lemma LongerByOne(p: Policy, files: seq<LogFile>, n: nat)
    requires files != [] && LongestSuffix(p, files[1..], n)
    requires files[0].modified < p.cutoff || p.protectedBytes + Total(files) > p.maxTotalBytes
    ensures LongestSuffix(p, files, n + 1)
  {
    assert files[n + 1..] == files[1..][n..];
    forall j | 0 <= j < n + 1 ensures !p.Allows(files[j..]) {
      if j == 0 { assert files[0..] == files; } else { assert files[j..] == files[1..][j - 1..]; }
    }
  }

  lemma AllStay(p: Policy, files: seq<LogFile>)
    requires files != [] && Sorting.SortedBy(files, Modified)
    requires files[0].modified >= p.cutoff && p.protectedBytes + Total(files) <= p.maxTotalBytes
    ensures LongestSuffix(p, files, 0)
  {
    assert files[0..] == files;
    forall i | 0 <= i < |files| ensures files[i].modified >= p.cutoff {
      if i > 0 { assert Modified(files[0]) <= Modified(files[i]); }
    }
  }

  /** When every unlink succeeds the survivors are the longest newest-first suffix the policy
      allows, and none when the active files alone are too large. */
  lemma {:induction false} LongestSuffixStays(p: Policy, files: seq<LogFile>) returns (k: nat)
    requires Sorting.SortedBy(files, Modified)
    ensures LongestSuffix(p, files, k)
    ensures Swept(p, files, p.protectedBytes + Total(files), {}) == files[k..]
    ensures p.protectedBytes > p.maxTotalBytes ==> k == |files|
  {
    hide LongestSuffix;
    var total := p.protectedBytes + Total(files);
    if files == [] {
      k := 0;
      NoneStay(p);
    } else if files[0].modified < p.cutoff || total > p.maxTotalBytes {
      var n := LongestSuffixStays(p, files[1..]);
      k := n + 1;
      LongerByOne(p, files, n);
    } else {
      RestStays(p, files, total, {});
      AllStay(p, files);
      k := 0;
    }
  }

  lemma NoneStay(p: Policy)
    ensures LongestSuffix(p, [], 0)
  {
  }

  /** Files that cannot be unlinked: what is left over is still justified. Every survivor that could
      have been unlinked is unexpired, and if what is left is too large, only stuck files are left. */
  lemma {:induction false} StuckFilesOnly(p: Policy, files: seq<LogFile>, total: nat, stuck: set<LogFile>)
    requires total >= Total(files)
    ensures var left := Swept(p, files, total, stuck);
      && Total(left) <= Total(files)
      && (forall f :: f in left ==> f in files)
      && (forall f :: f in left && f !in stuck ==> f.modified >= p.cutoff)
      && (total - Total(files) + Total(left) > p.maxTotalBytes ==> forall f :: f in left ==> f in stuck)
  {
    if files != [] {
      var f := files[0];
      assert files == [f] + files[1..];
      if (f.modified < p.cutoff || total > p.maxTotalBytes) && f !in stuck {
        StuckFilesOnly(p, files[1..], total - f.size, stuck);
      } else {
        StuckFilesOnly(p, files[1..], total, stuck);
        var rest := Swept(p, files[1..], total, stuck);
        assert ([f] + rest)[1..] == rest;
      }
    }
  }

  lemma {:induction false} TotalAppends(files: seq<LogFile>, f: LogFile)
    ensures Total(files + [f]) == Total(files) + f.size
  {
    if files != [] {
      assert (files + [f])[1..] == files[1..] + [f];
      TotalAppends(files[1..], f);
    }
  }

  /** The first loop: closed files are candidates, active ones are protected. */
  method Scan(listing: seq<LogFile>) returns (candidates: seq<LogFile>, protectedBytes: nat)
    ensures candidates == Recognised(listing, false) && protectedBytes == Total(Recognised(listing, true))
  {
    candidates, protectedBytes := [], 0;
    for k := 0 to |listing|
      invariant candidates == Recognised(listing[..k], false) && protectedBytes == Total(Recognised(listing[..k], true))
    {
      var f := listing[k];
      assert listing[..k + 1][..k] == listing[..k] && listing[..k + 1][k] == f;
      if Named(f) && f.active {
        TotalAppends(Recognised(listing[..k], true), f);
        protectedBytes := protectedBytes + f.size;
      } else if Named(f) {
        candidates := candidates + [f];
      }
    }
    assert listing[..|listing|] == listing;
  }

  function PolicyFor(cutoff: int, maxTotalBytes: nat, listing: seq<LogFile>): Policy {
    Policy(cutoff, maxTotalBytes, Total(Recognised(listing, true)))
  }

  function ByAge(listing: seq<LogFile>): seq<LogFile> { Sorting.Sort(Recognised(listing, false), Modified) }

  /** The sweep over a directory. */
  method RetainClosed(cutoff: int, maxTotalBytes: nat, listing: seq<LogFile>, stuck: set<LogFile>)
    returns (left: seq<LogFile>)
    ensures var p := PolicyFor(cutoff, maxTotalBytes, listing);
      left == Swept(p, ByAge(listing), p.protectedBytes + Total(ByAge(listing)), stuck)
    ensures stuck == {} ==> exists k: nat ::
      LongestSuffix(PolicyFor(cutoff, maxTotalBytes, listing), ByAge(listing), k) && left == ByAge(listing)[k..]
  {
    hide Sorting.Sort, LongestSuffix, Recognised;
    var closed, protectedBytes := Scan(listing);
    var p := Policy(cutoff, maxTotalBytes, protectedBytes);
    var candidates := Sorting.Sort(closed, Modified);
    var total: int := protectedBytes + Total(candidates);
    left := [];
    ghost var whole := Swept(p, candidates, total, stuck);
    for k := 0 to |candidates|
      invariant whole == left + Swept(p, candidates[k..], total, stuck)
    {
      var f := candidates[k];
      assert candidates[k..][1..] == candidates[k + 1..];
      if f.modified < cutoff || total > maxTotalBytes {
        if f in stuck {
          left := left + [f];
        } else {
          total := total - f.size;
        }
      } else {
        left := left + [f];
      }
    }
    Sorting.SortSorts(closed, Modified);
    if stuck == {} { ghost var k := LongestSuffixStays(p, candidates); }
  }

  /** A closed file is on the disk after the sweep: it was left, or was never recognised. */
  predicate OnDisk(listing: seq<LogFile>, left: seq<LogFile>, f: LogFile) {
    f in left || (f in listing && !f.active && !Named(f))
  }

  /** When every unlink succeeds no closed file past the retention period is on the disk any more,
      exactly when none of those with a segment number of five digits is past it. */
  lemma ExpiredGoExactly(cutoff: int, maxTotalBytes: nat, listing: seq<LogFile>, k: nat)
    requires LongestSuffix(PolicyFor(cutoff, maxTotalBytes, listing), ByAge(listing), k)
    ensures (forall f :: OnDisk(listing, ByAge(listing)[k..], f) ==> f.modified >= cutoff)
      <==> (forall f :: f in listing && !f.active && !Named(f) ==> f.modified >= cutoff)
  {
    hide Sorting.Sort, Recognised, PolicyFor;
    var left := ByAge(listing)[k..];
    if forall f :: f in listing && !f.active && !Named(f) ==> f.modified >= cutoff {
      forall f | OnDisk(listing, left, f) ensures f.modified >= cutoff {
        if i :| 0 <= i < |left| && left[i] == f { CutoffOf(cutoff, maxTotalBytes, listing); }
      }
    } else {
      var f :| f in listing && !f.active && !Named(f) && f.modified < cutoff;
      assert OnDisk(listing, left, f);
    }
  }

  lemma CutoffOf(cutoff: int, maxTotalBytes: nat, listing: seq<LogFile>)
    ensures PolicyFor(cutoff, maxTotalBytes, listing).cutoff == cutoff
  {
  }

  /** A closed file with such a number is neither a candidate nor counted, however old or large it is. */
  lemma FiveDigitsStay(f: LogFile, cutoff: int, maxTotalBytes: nat)
    requires f.segment >= 10000 && !f.active
    ensures ByAge([f]) == [] && PolicyFor(cutoff, maxTotalBytes, [f]).protectedBytes == 0
    ensures LongestSuffix(PolicyFor(cutoff, maxTotalBytes, [f]), ByAge([f]), 0) && OnDisk([f], ByAge([f])[0..], f)
  {
    assert forall g :: g !in Recognised([f], false) && g !in Recognised([f], true);
  }
}
