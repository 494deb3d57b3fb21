/** Version numbers of the release scripts: parsing, and precedence as `compareSemVer` computes it.
    Numbers are idealised: a string of digits of any length has its exact value. */
module SemVer {
  import opened Wrappers
  import opened ScriptText

  datatype SemVer = SemVer(major: nat, minor: nat, patch: nat, prerelease: seq<string>)

  predicate IsIdentifierChar(c: char) { IsDigit(c) || 'A' <= c <= 'Z' || 'a' <= c <= 'z' || c == '-' }

  predicate Identifier(s: string) { s != "" && forall i :: 0 <= i < |s| ==> IsIdentifierChar(s[i]) }

  predicate AllIdentifiers(ids: seq<string>) { forall i :: 0 <= i < |ids| ==> Identifier(ids[i]) }

  /** `0` or digits that do not start with `0`. */
  predicate Numeral(s: string) { Digits(s) && (s[0] == '0' ==> |s| == 1) }

  predicate Build(s: string) { s != "" && forall i :: 0 <= i < |s| ==> IsIdentifierChar(s[i]) || s[i] == '.' }

  // ---- comparing --------------------------------------------------------------------------

  /** JavaScript's `a > b` on the strings, character by character. */
  predicate TextGreater(a: string, b: string) {
    if a == "" then false
    else if b == "" then true
    else if a[0] != b[0] then a[0] > b[0]
    else TextGreater(a[1..], b[1..])
  }

  /** Two different identifiers: numbers by value, numbers below the others, the others as text. */
  function CompareIdentifier(a: string, b: string): int
    requires a != b
  {
    if Digits(a) && Digits(b) then (if Value(a) > Value(b) then 1 else -1)
    else if Digits(a) != Digits(b) then (if Digits(a) then -1 else 1)
    else if TextGreater(a, b) then 1 else -1
  }

  function ComparePrerelease(a: seq<string>, b: seq<string>): int {
    if a == [] && b == [] then 0
    else if a == [] then -1
    else if b == [] then 1
    else if a[0] == b[0] then ComparePrerelease(a[1..], b[1..])
    else CompareIdentifier(a[0], b[0])
  }

  function Compare(a: SemVer, b: SemVer): int {
    if a.major != b.major then (if a.major > b.major then 1 else -1)
    else if a.minor != b.minor then (if a.minor > b.minor then 1 else -1)
    else if a.patch != b.patch then (if a.patch > b.patch then 1 else -1)
    else if a.prerelease == [] && b.prerelease == [] then 0
    else if a.prerelease == [] then 1
    else if b.prerelease == [] then -1
    else ComparePrerelease(a.prerelease, b.prerelease)
  }

  /** `compareSemVer`: the loop over the identifiers. */
  method CompareSemVer(left: SemVer, right: SemVer) returns (r: int)
    ensures r == Compare(left, right)
  {
    if left.major != right.major { return if left.major > right.major then 1 else -1; }
    if left.minor != right.minor { return if left.minor > right.minor then 1 else -1; }
    if left.patch != right.patch { return if left.patch > right.patch then 1 else -1; }
    var a, b := left.prerelease, right.prerelease;
    if a == [] && b == [] { return 0; }
    if a == [] { return 1; }
    if b == [] { return -1; }
    var count := if |a| > |b| then |a| else |b|;
    for index := 0 to count
      invariant index <= |a| && index <= |b|
      invariant ComparePrerelease(a, b) == ComparePrerelease(a[index..], b[index..])
    {
      assert index < |a| ==> a[index..][0] == a[index] && a[index..][1..] == a[index + 1..];
      assert index < |b| ==> b[index..][0] == b[index] && b[index..][1..] == b[index + 1..];
      if index < |a| && index < |b| && a[index] == b[index] { continue; }
      if index >= |a| { return -1; }
      if index >= |b| { return 1; }
      return CompareIdentifier(a[index], b[index]);
    }
    return 0;
  }

  // ---- section 11 of Semantic Versioning 2.0.0, as a relation -------------------------------------

  ghost predicate TextBelow(a: string, b: string) {
    exists k :: 0 <= k <= |a| && k <= |b| && SameUpTo(a, b, k)
      && k < |b| && (k < |a| ==> a[k] < b[k])
  }

  predicate SameUpTo<T(==)>(a: seq<T>, b: seq<T>, k: nat)
    requires k <= |a| && k <= |b|
  {
    a[..k] == b[..k]
  }

  /** Item 11.4.1 to 11.4.3. */
  ghost predicate IdentifierBelow(a: string, b: string) {
    || (Digits(a) && Digits(b) && Value(a) < Value(b))
    || (Digits(a) && !Digits(b))
    || (!Digits(a) && !Digits(b) && TextBelow(a, b))
  }

  /** Item 11.4: the first identifier that differs decides; 11.4.4: more identifiers win a tie. */
  ghost predicate PrereleaseBelow(a: seq<string>, b: seq<string>) {
    exists k :: 0 <= k <= |a| && k <= |b| && SameUpTo(a, b, k)
      && k < |b| && (k < |a| ==> IdentifierBelow(a[k], b[k]))
  }

  ghost predicate CoreBelow(a: SemVer, b: SemVer) {
    || a.major < b.major
    || (a.major == b.major && a.minor < b.minor)
    || (a.major == b.major && a.minor == b.minor && a.patch < b.patch)
  }

  predicate SameCore(a: SemVer, b: SemVer) { a.major == b.major && a.minor == b.minor && a.patch == b.patch }

  /** Precedence of section 11: a version with a pre-release is below the one without. */
  ghost predicate Below(a: SemVer, b: SemVer) {
    || CoreBelow(a, b)
    || (SameCore(a, b) && a.prerelease != [] && b.prerelease == [])
    || (SameCore(a, b) && a.prerelease != [] && b.prerelease != [] && PrereleaseBelow(a.prerelease, b.prerelease))
  }

  /** Section 9: numeric identifiers carry no leading zeros. The parser does not insist on it. */
  predicate NoLeadingZeros(ids: seq<string>) { forall i :: 0 <= i < |ids| && Digits(ids[i]) ==> Numeral(ids[i]) }

  predicate WellFormed(v: SemVer) { NoLeadingZeros(v.prerelease) }

  // ---- texts and numbers -------------------------------------------------------------------

  lemma {:induction false} TextOrder(a: string, b: string)
    requires a != b
    ensures TextGreater(a, b) <==> !TextGreater(b, a)
  {
    if a != "" && b != "" && a[0] == b[0] {
      assert a == [a[0]] + a[1..] && b == [b[0]] + b[1..];
      TextOrder(a[1..], b[1..]);
    }
  }

  lemma {:induction false} TextChains(a: string, b: string, c: string)
    requires TextGreater(a, b) && TextGreater(b, c)
    ensures TextGreater(a, c)
  {
    if b != "" && c != "" && a[0] == b[0] == c[0] { TextChains(a[1..], b[1..], c[1..]); }
  }

  /** Sequences that agree on a front agree on the first element. */
  lemma SameFirst<T>(a: seq<T>, b: seq<T>)
    ensures forall k :: 0 < k <= |a| && k <= |b| && SameUpTo(a, b, k) ==> a[0] == b[0]
  {
    forall k | 0 < k <= |a| && k <= |b| && SameUpTo(a, b, k) ensures a[0] == b[0] {
      assert a[0] == a[..k][0] && b[0] == b[..k][0];
    }
  }

  lemma {:induction false} NotGreater(a: string)
    ensures !TextGreater(a, a)
  {
    if a != "" { NotGreater(a[1..]); }
  }

  lemma {:induction false} TextMeans(a: string, b: string)
    ensures TextGreater(b, a) <==> TextBelow(a, b)
  {
    if a != "" && b != "" && a[0] == b[0] {
      TextMeans(a[1..], b[1..]);
      if TextBelow(a[1..], b[1..]) {
        var k :| 0 <= k <= |a[1..]| && k <= |b[1..]| && SameUpTo(a[1..], b[1..], k)
                 && k < |b[1..]| && (k < |a[1..]| ==> a[1..][k] < b[1..][k]);
        assert a[..k + 1] == [a[0]] + a[1..][..k] && b[..k + 1] == [b[0]] + b[1..][..k];
        assert SameUpTo(a, b, k + 1);
      }
      if TextBelow(a, b) {
        var k :| 0 <= k <= |a| && k <= |b| && SameUpTo(a, b, k) && k < |b| && (k < |a| ==> a[k] < b[k]);
        assert k > 0;
        assert a[1..][..k - 1] == a[..k][1..] && b[1..][..k - 1] == b[..k][1..];
        assert SameUpTo(a[1..], b[1..], k - 1);
      }
    } else if b != "" && (a == "" || a[0] < b[0]) {
      assert SameUpTo(a, b, 0);
    } else {
      SameFirst(a, b);
    }
  }

  lemma {:induction false} NumeralsDiffer(a: string, b: string)
    requires Numeral(a) && Numeral(b) && Value(a) == Value(b)
    ensures a == b
    decreases |a|
  {
    NumeralSize(a);
    NumeralSize(b);
    var x, y := a[..|a| - 1], b[..|b| - 1];
    assert a == x + [a[|a| - 1]] && b == y + [b[|b| - 1]];
    assert IsDigit(a[|a| - 1]) && IsDigit(b[|b| - 1]);
    if |a| > 1 {
      assert IsDigit(a[0]) && x[0] == a[0] && y[0] == b[0];
      NumeralsDiffer(x, y);
    }
  }

  lemma {:induction false} NumeralSize(s: string)
    requires Numeral(s)
    ensures Value(s) >= 10 <==> |s| > 1
    ensures s[0] != '0' ==> Value(s) >= 1
    decreases |s|
  {
    assert IsDigit(s[|s| - 1]);
    if |s| > 1 {
      var front := s[..|s| - 1];
      assert front[0] == s[0];
      NumeralSize(front);
    } else {
      assert s[..0] == "";
    }
  }

  // ---- identifiers -------------------------------------------------------------------------

  predicate Tidy(s: string) { Digits(s) ==> Numeral(s) }

  lemma IdentifierMeans(a: string, b: string)
    requires a != b && Tidy(a) && Tidy(b)
    ensures CompareIdentifier(a, b) == (if IdentifierBelow(a, b) then -1 else 1)
    ensures IdentifierBelow(a, b) <==> !IdentifierBelow(b, a)
  {
    hide TextBelow, TextGreater, Value;
    TextOrder(a, b);
    TextMeans(a, b);
    TextMeans(b, a);
    if Digits(a) && Digits(b) && Value(a) == Value(b) { NumeralsDiffer(a, b); }
  }

  lemma IdentifierChains(a: string, b: string, c: string)
    requires IdentifierBelow(a, b) && IdentifierBelow(b, c)
    ensures IdentifierBelow(a, c)
  {
    hide TextBelow, TextGreater;
    TextMeans(a, b);
    TextMeans(b, c);
    TextMeans(a, c);
    if TextBelow(a, b) && TextBelow(b, c) { TextChains(c, b, a); }
  }

  // ---- pre-releases ------------------------------------------------------------------------

  lemma {:induction false} PrereleaseMeans(a: seq<string>, b: seq<string>)
    requires NoLeadingZeros(a) && NoLeadingZeros(b)
    ensures ComparePrerelease(a, b) == if a == b then 0 else if PrereleaseBelow(a, b) then -1 else 1
    ensures a != b ==> (PrereleaseBelow(a, b) <==> !PrereleaseBelow(b, a))
    decreases |a|
  {
    hide IdentifierBelow, CompareIdentifier, Digits, Numeral;
    if a == [] || b == [] {
      assert b != [] ==> SameUpTo([], b, 0);
      assert a != [] ==> SameUpTo([], a, 0);
    } else if a[0] == b[0] {
      TailsTidy(a);
      TailsTidy(b);
      PrereleaseMeans(a[1..], b[1..]);
      assert a == [a[0]] + a[1..] && b == [b[0]] + b[1..];
      BelowShifts(a, b);
      BelowShifts(b, a);
    } else {
      HeadsTidy(a);
      HeadsTidy(b);
      IdentifierMeans(a[0], b[0]);
      BelowAtOnce(a, b);
      BelowAtOnce(b, a);
    }
  }

  lemma TailsTidy(a: seq<string>)
    requires NoLeadingZeros(a) && a != []
    ensures NoLeadingZeros(a[1..])
  {
    assert forall i :: 0 <= i < |a[1..]| ==> a[1..][i] == a[i + 1];
  }

  lemma HeadsTidy(a: seq<string>)
    requires NoLeadingZeros(a) && a != []
    ensures Tidy(a[0])
  {
  }

  lemma NotBelowItself(a: string)
    ensures !IdentifierBelow(a, a)
  {
    hide TextBelow;
    TextMeans(a, a);
    NotGreater(a);
  }

  lemma BelowShifts(a: seq<string>, b: seq<string>)
    requires a != [] && b != [] && a[0] == b[0]
    ensures PrereleaseBelow(a, b) <==> PrereleaseBelow(a[1..], b[1..])
  {
    NotBelowItself(a[0]);
    hide IdentifierBelow;
    if PrereleaseBelow(a[1..], b[1..]) {
      var k :| 0 <= k <= |a[1..]| && k <= |b[1..]| && SameUpTo(a[1..], b[1..], k)
               && k < |b[1..]| && (k < |a[1..]| ==> IdentifierBelow(a[1..][k], b[1..][k]));
      assert a[..k + 1] == [a[0]] + a[1..][..k] && b[..k + 1] == [b[0]] + b[1..][..k];
      assert SameUpTo(a, b, k + 1);
    }
    if PrereleaseBelow(a, b) {
      var k :| 0 <= k <= |a| && k <= |b| && SameUpTo(a, b, k) && k < |b| && (k < |a| ==> IdentifierBelow(a[k], b[k]));
      if k > 0 {
        assert a[1..][..k - 1] == a[..k][1..] && b[1..][..k - 1] == b[..k][1..];
        assert SameUpTo(a[1..], b[1..], k - 1);
      }
    }
  }

  lemma BelowAtOnce(a: seq<string>, b: seq<string>)
    requires a != [] && b != [] && a[0] != b[0]
    ensures PrereleaseBelow(a, b) <==> IdentifierBelow(a[0], b[0])
  {
    hide IdentifierBelow;
    assert SameUpTo(a, b, 0);
    SameFirst(a, b);
  }

  lemma {:induction false} PrereleaseChains(a: seq<string>, b: seq<string>, c: seq<string>)
    requires PrereleaseBelow(a, b) && PrereleaseBelow(b, c)
    ensures PrereleaseBelow(a, c)
  {
    hide IdentifierBelow;
    var k :| 0 <= k <= |a| && k <= |b| && SameUpTo(a, b, k) && k < |b| && (k < |a| ==> IdentifierBelow(a[k], b[k]));
    var l :| 0 <= l <= |b| && l <= |c| && SameUpTo(b, c, l) && l < |c| && (l < |b| ==> IdentifierBelow(b[l], c[l]));
    var m := if k < l then k else l;
    assert a[..m] == a[..k][..m] && b[..m] == b[..k][..m] == b[..l][..m] && c[..m] == c[..l][..m];
    assert SameUpTo(a, c, m);
    if k < l {
      assert b[k] == b[..l][k] == c[..l][k] == c[k];
    } else if l < k {
      assert b[l] == b[..k][l] == a[..k][l] == a[l];
    } else if k < |a| {
      IdentifierChains(a[k], b[k], c[k]);
    }
  }

  // ---- versions ----------------------------------------------------------------------------

  /** `compareSemVer` is the precedence of section 11 on versions without leading zeros. */
  lemma MatchesSection11(a: SemVer, b: SemVer)
    requires WellFormed(a) && WellFormed(b)
    ensures Compare(a, b) == (if Below(a, b) then -1 else if Below(b, a) then 1 else 0)
    ensures !(Below(a, b) && Below(b, a))
    ensures Compare(a, b) == 0 <==> a == b
  {
    hide PrereleaseBelow, NoLeadingZeros, ComparePrerelease;
    PrereleaseMeans(a.prerelease, b.prerelease);
    PrereleaseMeans(b.prerelease, a.prerelease);
    NoneBelowItself(a.prerelease);
  }

  lemma NoneBelowItself(a: seq<string>)
    ensures !PrereleaseBelow(a, a)
  {
    hide IdentifierBelow;
    forall k | 0 <= k < |a| ensures !IdentifierBelow(a[k], a[k]) { NotBelowItself(a[k]); }
  }

  /** Precedence is transitive, so with the trichotomy above it is a total order. */
  lemma PrecedenceChains(a: SemVer, b: SemVer, c: SemVer)
    requires Below(a, b) && Below(b, c)
    ensures Below(a, c)
  {
    hide PrereleaseBelow;
    if PrereleaseBelow(a.prerelease, b.prerelease) && PrereleaseBelow(b.prerelease, c.prerelease) {
      PrereleaseChains(a.prerelease, b.prerelease, c.prerelease);
    }
  }

  /** `compareSemVer` totally orders the versions without leading zeros. */
  lemma CompareIsTotalOrder(a: SemVer, b: SemVer, c: SemVer)
    requires WellFormed(a) && WellFormed(b) && WellFormed(c)
    ensures Compare(a, b) == -Compare(b, a)
    ensures Compare(a, b) <= 0 && Compare(b, c) <= 0 ==> Compare(a, c) <= 0
  {
    hide Below, Compare, WellFormed;
    MatchesSection11(a, b);
    MatchesSection11(b, a);
    MatchesSection11(b, c);
    MatchesSection11(a, c);
    if Below(a, b) && Below(b, c) { PrecedenceChains(a, b, c); }
  }

  /** The first identifiers that differ are two spellings of one number. */
  ghost predicate SpellingClash(a: seq<string>, b: seq<string>) {
    exists k :: 0 <= k < |a| && k < |b| && SameUpTo(a, b, k) && OneNumber(a[k], b[k])
  }

  predicate OneNumber(a: string, b: string) { a != b && Digits(a) && Digits(b) && Value(a) == Value(b) }

  lemma {:induction false} ClashExactly(a: seq<string>, b: seq<string>)
    ensures ComparePrerelease(a, b) == -ComparePrerelease(b, a) <==> !SpellingClash(a, b)
    decreases |a|
  {
    if a != [] && b != [] {
      if a[0] == b[0] {
        ClashExactly(a[1..], b[1..]);
        ClashShifts(a, b);
      } else {
        SameFirst(a, b);
        assert SameUpTo(a, b, 0);
        TextOrder(a[0], b[0]);
      }
    }
  }

  lemma ClashShifts(a: seq<string>, b: seq<string>)
    requires a != [] && b != [] && a[0] == b[0]
    ensures SpellingClash(a, b) <==> SpellingClash(a[1..], b[1..])
  {
    assert !OneNumber(a[0], b[0]);
    hide OneNumber;
    if SpellingClash(a[1..], b[1..]) {
      var k :| 0 <= k < |a[1..]| && k < |b[1..]| && SameUpTo(a[1..], b[1..], k)
               && OneNumber(a[1..][k], b[1..][k]);
      assert a[..k + 1] == [a[0]] + a[1..][..k] && b[..k + 1] == [b[0]] + b[1..][..k];
      assert SameUpTo(a, b, k + 1) && a[k + 1] == a[1..][k] && b[k + 1] == b[1..][k];
    }
    if SpellingClash(a, b) {
      var k :| 0 <= k < |a| && k < |b| && SameUpTo(a, b, k) && OneNumber(a[k], b[k]);
      assert k > 0;
      assert a[1..][..k - 1] == a[..k][1..] && b[1..][..k - 1] == b[..k][1..];
      assert SameUpTo(a[1..], b[1..], k - 1) && a[k] == a[1..][k - 1] && b[k] == b[1..][k - 1];
    }
  }

  /** For all versions: swapping the sides negates the result exactly when the first pre-release
      identifiers that differ are not two spellings of one number. */
  lemma AntisymmetricExactly(a: SemVer, b: SemVer)
    ensures Compare(a, b) == -Compare(b, a) <==>
      !(SameCore(a, b) && SpellingClash(a.prerelease, b.prerelease))
  {
    hide ComparePrerelease, SpellingClash;
    ClashExactly(a.prerelease, b.prerelease);
    if a.prerelease == [] || b.prerelease == [] { NothingClashes(a.prerelease, b.prerelease); }
  }

  lemma NothingClashes(a: seq<string>, b: seq<string>)
    requires a == [] || b == []
    ensures !SpellingClash(a, b)
  {
  }

  /** `1.0.0-01` and `1.0.0-1`: each is reported to be lower than the other. */
  lemma LeadingZeroClash()
    ensures Compare(SemVer(1, 0, 0, ["01"]), SemVer(1, 0, 0, ["1"])) == -1
    ensures Compare(SemVer(1, 0, 0, ["1"]), SemVer(1, 0, 0, ["01"])) == -1
  {
    assert "01"[..1] == "0" && "0"[..0] == "" && "1"[..0] == "";
    assert Value("") == 0 && Value("0") == 0 && Value("1") == 1 && Value("01") == 1;
    assert Digits("01") && Digits("1");
  }

  /** Two lists agree up to and including the first identifier that the one between them spells as
      another text of the same number. */
  predicate Respelled(a: seq<string>, b: seq<string>, c: seq<string>) {
    && a != [] && b != [] && c != [] && a[0] == c[0]
    && (OneNumber(a[0], b[0]) || (a[0] == b[0] && Respelled(a[1..], b[1..], c[1..])))
  }

  /** The comparison of identifiers never goes round: only equality can break a chain. */
  lemma IdentifierOrder(a: string, b: string, c: string)
    requires a != b && b != c && a != c && CompareIdentifier(a, b) < 0 && CompareIdentifier(b, c) < 0
    ensures CompareIdentifier(a, c) < 0
  {
    hide Value;
    if !Digits(a) && !Digits(b) && !Digits(c) {
      TextOrder(a, b);
      TextOrder(b, c);
      TextOrder(a, c);
      TextChains(c, b, a);
    }
  }

  lemma BothWays(a: string, b: string)
    requires a != b
    ensures CompareIdentifier(a, b) < 0 && CompareIdentifier(b, a) < 0 <==> OneNumber(a, b)
  {
    TextOrder(a, b);
  }

  lemma {:induction false} ChainExactly(a: seq<string>, b: seq<string>, c: seq<string>)
    ensures (ComparePrerelease(a, b) <= 0 && ComparePrerelease(b, c) <= 0 ==> ComparePrerelease(a, c) <= 0)
      <==> !(Respelled(a, b, c) && ComparePrerelease(a, c) > 0)
    decreases |a|
  {
    hide CompareIdentifier, OneNumber;
    if a != [] && b != [] && c != [] {
      if a[0] == b[0] == c[0] {
        assert !OneNumber(a[0], b[0]) by { NotTwoSpellings(a[0]); }
        ChainExactly(a[1..], b[1..], c[1..]);
      } else if a[0] != b[0] && b[0] != c[0] {
        BothWays(a[0], b[0]);
        if a[0] != c[0] && CompareIdentifier(a[0], b[0]) < 0 && CompareIdentifier(b[0], c[0]) < 0 {
          IdentifierOrder(a[0], b[0], c[0]);
        }
        IdentifierSigns(a[0], b[0]);
        IdentifierSigns(b[0], c[0]);
      }
    }
  }

  lemma IdentifierSigns(a: string, b: string)
    requires a != b
    ensures CompareIdentifier(a, b) == 1 || CompareIdentifier(a, b) == -1
  {
  }

  lemma NotTwoSpellings(a: string)
    ensures !OneNumber(a, a)
  {
  }

  /** For all versions: a chain of two comparisons carries over exactly unless the outer versions agree
      up to and including the first identifier that the middle one spells as another text of the same
      number, and the first of them is above the last. */
  lemma TransitiveExactly(a: SemVer, b: SemVer, c: SemVer)
    ensures (Compare(a, b) <= 0 && Compare(b, c) <= 0 ==> Compare(a, c) <= 0)
      <==> !(SameCore(a, b) && SameCore(b, c) && Respelled(a.prerelease, b.prerelease, c.prerelease)
             && ComparePrerelease(a.prerelease, c.prerelease) > 0)
  {
    hide ComparePrerelease, OneNumber;
    ChainExactly(a.prerelease, b.prerelease, c.prerelease);
  }

  /** `1.0.0-1.5`, `1.0.0-01.x`, `1.0.0-1.3`: each is reported to be lower than the next, and the first
      higher than the last. */
  lemma ChainBreaks()
    ensures var a, b, c := SemVer(1, 0, 0, ["1", "5"]), SemVer(1, 0, 0, ["01", "x"]), SemVer(1, 0, 0, ["1", "3"]);
      Compare(a, b) == -1 && Compare(b, c) == -1 && Compare(a, c) == 1
  {
    LeadingZeroClash();
    assert Digits("5") && Digits("3") && "5"[..0] == "" && "3"[..0] == "";
    assert Value("5") == 5 && Value("3") == 3;
    assert ["1", "5"][1..] == ["5"] && ["1", "3"][1..] == ["3"];
    assert "1" != "01" by { assert |"1"| != |"01"|; }
    assert CompareIdentifier("1", "01") == -1 && CompareIdentifier("01", "1") == -1 by { OneInTwo(); }
    assert ComparePrerelease(["5"], ["3"]) == 1;
  }

  lemma OneInTwo()
    ensures OneNumber("01", "1") && OneNumber("1", "01")
  {
    assert "01"[..1] == "0" && "0"[..0] == "" && "1"[..0] == "";
    assert Value("") == 0 && Value("0") == 0 && Value("1") == 1 && Value("01") == 1;
    assert Digits("01") && Digits("1");
  }

  // ---- parsing -----------------------------------------------------------------------------

  /** The parts of a version text; `text` puts them together. */
  datatype Parts = Parts(major: string, minor: string, patch: string, prerelease: seq<string>, build: Option<string>)
  {
    predicate Valid() {
      && Numeral(major) && Numeral(minor) && Numeral(patch)
      && AllIdentifiers(prerelease)
      && (build.Some? ==> Build(build.value))
    }

    function Core(): string { Join([major, minor, patch], '.') }

    function Front(): string { if prerelease == [] then Core() else Core() + ['-'] + Join(prerelease, '.') }

    function Text(): string { if build.None? then Front() else Front() + ['+'] + build.value }

    function Version(): SemVer
      requires Valid()
    {
      SemVer(Value(major), Value(minor), Value(patch), prerelease)
    }
  }

  /** The part before the build: the pre-release starts at the first `-`. */
  function ParseFront(front: string): Option<SemVer> {
    var dash := IndexOf(front, '-');
    var core := Split(if dash < 0 then front else front[..dash], '.');
    var prerelease := if dash < 0 then [] else Split(front[dash + 1..], '.');
    if |core| == 3 && Numeral(core[0]) && Numeral(core[1]) && Numeral(core[2])
       && AllIdentifiers(prerelease)
    then Some(SemVer(Value(core[0]), Value(core[1]), Value(core[2]), prerelease))
    else None
  }

  /** `parseSemVer` on trimmed text: the build part starts at the first `+`. */
  function ParseTrimmed(s: string): Option<SemVer> {
    var plus := IndexOf(s, '+');
    if plus < 0 then ParseFront(s)
    else if Build(s[plus + 1..]) then ParseFront(s[..plus])
    else None
  }

  function ParseSemVer(s: string): Option<SemVer> { ParseTrimmed(Trim(s)) }

  predicate Clear(s: string, c: char) { c !in s }

  lemma NumeralIsClear(s: string)
    requires Digits(s)
    ensures Clear(s, '.') && Clear(s, '-') && Clear(s, '+')
  {
  }

  lemma IdentifierIsClear(s: string)
    requires Identifier(s)
    ensures Clear(s, '.') && Clear(s, '+')
  {
  }

  lemma {:induction false} JoinIsClear(parts: seq<string>, dot: char, c: char)
    requires parts != [] && dot != c && forall i :: 0 <= i < |parts| ==> Clear(parts[i], c)
    ensures Clear(Join(parts, dot), c)
    decreases |parts|
  {
    if |parts| > 1 { JoinIsClear(parts[1..], dot, c); }
  }

  lemma CoreIsClear(p: Parts)
    requires p.Valid()
    ensures Clear(p.Core(), '-') && Clear(p.Core(), '+') && Split(p.Core(), '.') == [p.major, p.minor, p.patch]
  {
    NumeralIsClear(p.major);
    NumeralIsClear(p.minor);
    NumeralIsClear(p.patch);
    hide Digits;
    JoinIsClear([p.major, p.minor, p.patch], '.', '-');
    JoinIsClear([p.major, p.minor, p.patch], '.', '+');
    SplitJoined([p.major, p.minor, p.patch], '.');
  }

  lemma FrontIsClear(p: Parts)
    requires p.Valid()
    ensures Clear(p.Front(), '+')
    ensures IndexOf(p.Front(), '-') == if p.prerelease == [] then -1 else |p.Core()|
    ensures p.prerelease != [] ==> Split(p.Front()[|p.Core()| + 1..], '.') == p.prerelease
    ensures p.Front()[..|p.Core()|] == p.Core()
  {
    hide Identifier, Digits;
    CoreIsClear(p);
    if p.prerelease != [] {
      forall i | 0 <= i < |p.prerelease| ensures Clear(p.prerelease[i], '.') && Clear(p.prerelease[i], '+') {
        IdentifierIsClear(p.prerelease[i]);
      }
      var rest := Join(p.prerelease, '.');
      JoinIsClear(p.prerelease, '.', '+');
      SplitJoined(p.prerelease, '.');
      IndexAfter(p.Core(), '-', rest);
      assert p.Front()[|p.Core()| + 1..] == rest;
    }
  }

  lemma FrontParses(p: Parts)
    requires p.Valid()
    ensures ParseFront(p.Front()) == Some(p.Version())
  {
    hide Identifier, Digits, Build, Value, Numeral, IndexOf, Join, Split;
    CoreIsClear(p);
    FrontIsClear(p);
  }

  /** A text put together from valid parts parses to their version, whatever the build part is. */
  lemma PartsParse(p: Parts)
    requires p.Valid()
    ensures ParseTrimmed(p.Text()) == Some(p.Version())
  {
    hide AllIdentifiers, Digits, Build, Value, Numeral, ParseFront, IndexOf, Join, Split;
    FrontIsClear(p);
    FrontParses(p);
    var s := p.Text();
    if p.build.Some? {
      IndexAfter(p.Front(), '+', p.build.value);
      assert s[..|p.Front()|] == p.Front() && s[|p.Front()| + 1..] == p.build.value;
    }
  }

  lemma FrontHasParts(front: string) returns (p: Parts)
    requires ParseFront(front).Some?
    ensures p.Valid() && p.Front() == front && p.build.None? && ParseFront(front) == Some(p.Version())
  {
    hide AllIdentifiers, Digits, Value, Numeral, Join, Split, IndexOf;
    var dash := IndexOf(front, '-');
    var core := Split(if dash < 0 then front else front[..dash], '.');
    var prerelease := if dash < 0 then [] else Split(front[dash + 1..], '.');
    p := Parts(core[0], core[1], core[2], prerelease, None);
    FrontFromParts(front, p);
  }

  // Splitting the front and joining it again.
  lemma FrontFromParts(front: string, p: Parts)
    requires var dash := IndexOf(front, '-');
      && Split(if dash < 0 then front else front[..dash], '.') == [p.major, p.minor, p.patch]
      && p.prerelease == (if dash < 0 then [] else Split(front[dash + 1..], '.'))
    ensures p.Front() == front
  {
    hide Join, Split, IndexOf;
    var dash := IndexOf(front, '-');
    if dash < 0 {
      JoinSplit(front, '.');
    } else {
      JoinSplit(front[..dash], '.');
      JoinSplit(front[dash + 1..], '.');
      assert front == front[..dash] + ['-'] + front[dash + 1..];
    }
  }

  /** Whatever parses is put together from valid parts: the parser accepts exactly the grammar. */
  lemma ParsedHasParts(s: string) returns (p: Parts)
    requires ParseTrimmed(s).Some?
    ensures p.Valid() && p.Text() == s && ParseTrimmed(s) == Some(p.Version())
  {
    hide AllIdentifiers, Digits, Build, Value, Numeral, ParseFront, Join;
    var plus := IndexOf(s, '+');
    if plus < 0 {
      p := FrontHasParts(s);
    } else {
      var q := FrontHasParts(s[..plus]);
      p := q.(build := Some(s[plus + 1..]));
      SameFront(p, q);
      assert s == s[..plus] + ['+'] + s[plus + 1..];
    }
  }

  lemma SameFront(p: Parts, q: Parts)
    requires q.Valid() && q == p.(build := None) && (p.build.Some? ==> Build(p.build.value))
    ensures p.Front() == q.Front() && p.Valid() && p.Version() == q.Version()
  {
  }

  /** A trimmed text is accepted exactly when it has valid parts, and these determine the version. */
  lemma ParsesExactly(s: string)
    ensures ParseTrimmed(s).Some? <==> exists p: Parts :: p.Valid() && p.Text() == s
    ensures forall p: Parts :: p.Valid() && p.Text() == s ==> ParseTrimmed(s) == Some(p.Version())
  {
    if ParseTrimmed(s).Some? { var p := ParsedHasParts(s); }
    forall p: Parts | p.Valid() && p.Text() == s ensures ParseTrimmed(s) == Some(p.Version()) { PartsParse(p); }
  }

  /** The parser takes identifiers with leading zeros, so the clash above comes from real inputs. */
  lemma LeadingZerosParse(number: string)
    requires number == "01" || number == "1"
    ensures ParseSemVer("1.0.0-" + number) == Some(SemVer(1, 0, 0, [number]))
  {
    hide ParseTrimmed, Join;
    var p := Parts("1", "0", "0", [number], None);
    ThreeParts("1", "0", "0");
    OnePart(number);
    assert p.Text() == "1.0.0-" + number;
    ZeroAndOne();
    PartsParse(p);
    TrimmedStays("1.0.0-" + number);
  }

  /** All three versions of the broken chain are accepted by the parser. */
  lemma ChainParses(first: string, second: string)
    requires (first == "1" && (second == "5" || second == "3")) || (first == "01" && second == "x")
    ensures ParseSemVer("1.0.0-" + first + "." + second) == Some(SemVer(1, 0, 0, [first, second]))
  {
    hide ParseTrimmed, Join;
    var p := Parts("1", "0", "0", [first, second], None);
    ThreeParts("1", "0", "0");
    TwoParts(first, second);
    assert p.Text() == "1.0.0-" + first + "." + second;
    ZeroAndOne();
    PartsParse(p);
    TrimmedStays("1.0.0-" + first + "." + second);
  }

  lemma ZeroAndOne()
    ensures Value("1") == 1 && Value("0") == 0
  {
    assert "1"[..0] == "" && "0"[..0] == "" && Value("") == 0;
  }

  lemma OnePart(a: string)
    ensures Join([a], '.') == a
  {
  }

  lemma TwoParts(a: string, b: string)
    ensures Join([a, b], '.') == a + "." + b
  {
    assert [a, b][1..] == [b];
    assert Join([b], '.') == b;
  }

  lemma ThreeParts(a: string, b: string, c: string)
    ensures Join([a, b, c], '.') == a + "." + b + "." + c
  {
    assert [a, b, c][1..] == [b, c] && [b, c][1..] == [c];
    assert Join([b, c], '.') == b + ['.'] + c;
    assert Join([a, b, c], '.') == a + ['.'] + (b + ['.'] + c);
  }
}
