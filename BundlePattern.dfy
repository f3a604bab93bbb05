/** The bundle pattern of core/assembler/build-messages.js:
    `/^(.*)\{([0-9]*)([0-9])\}\.[a-zA-Z0-9]+/` applied with `String.match`.
    A name `<base>{<digits>}.<ext>` belongs to the bundle named
    `<base>_<all digits but the last>`, at the member index given by the
    last digit. The pattern has no end anchor, and its `(.*)` is greedy:
    the match uses the longest base for which the rest of the pattern
    matches, and a base never spans a line terminator. */
module BundlePattern {
  import opened Wrappers
  import opened StringUtil

  /** The three capture groups, the last one as the number `+` gives. */
  datatype BundleMatch = BundleMatch(base: string, coarse: string, fine: nat)
  {
    /** `bundleName`: group 1, an underscore, group 2. */
    function Name(): string {
      base + "_" + coarse
    }
  }

  /** The end of the run of digits starting at `i`. */
  function DigitRunEnd(s: string, i: nat): (j: nat)
    requires i <= |s|
    ensures i <= j <= |s|
    ensures forall k :: i <= k < j ==> IsDigit(s[k])
    ensures j == |s| || !IsDigit(s[j])
    decreases |s| - i
  {
    if i == |s| || !IsDigit(s[i]) then i else DigitRunEnd(s, i + 1)
  }

  /** Whether `\{([0-9]*)([0-9])\}\.[a-zA-Z0-9]+` matches at `p`. The two
      digit groups together take the whole run of digits after the brace
      (the closing brace is not a digit), and the run must be non-empty. */
  predicate TailAt(s: string, p: nat) {
    && p < |s| && s[p] == '{'
    && var q := DigitRunEnd(s, p + 1);
       q > p + 1 && q + 2 < |s| && s[q] == '}' && s[q + 1] == '.' && IsAsciiAlnum(s[q + 2])
  }

  /** Whether the whole pattern matches with group 1 ending at `p`. */
  predicate MatchesAt(s: string, p: nat) {
    p <= |s| && NoLineTerminator(s[..p]) && TailAt(s, p)
  }

  /** The capture groups of the match whose base ends at `p`. */
  function Groups(s: string, p: nat): (m: BundleMatch)
    requires TailAt(s, p)
    ensures AllDigits(m.coarse)
  {
    var q := DigitRunEnd(s, p + 1);
    BundleMatch(s[..p], s[p + 1..q - 1], DigitValue(s[q - 1]))
  }

  /** The backtracking of the greedy `(.*)`: the longest base, at most
      `p` long, for which the pattern matches. */
  function LongestFrom(s: string, p: nat): (r: Option<nat>)
    requires p <= |s|
    ensures r.Some? ==> r.value <= p && MatchesAt(s, r.value)
    decreases p
  {
    if MatchesAt(s, p) then Some(p)
    else if p == 0 then None
    else LongestFrom(s, p - 1)
  }

  /** No longer base matches than the one found, and none at all when none
      is found. */
  lemma {:induction false} LongestFromMax(s: string, p: nat)
    requires p <= |s|
    ensures LongestFrom(s, p).Some? ==> forall k :: LongestFrom(s, p).value < k <= p ==> !MatchesAt(s, k)
    ensures LongestFrom(s, p).None? ==> forall k :: 0 <= k <= p ==> !MatchesAt(s, k)
    decreases p
  {
    if !MatchesAt(s, p) && p > 0 {
      LongestFromMax(s, p - 1);
    }
  }

  /** `file.name.match(...)`, reduced to its capture groups. */
  function ParseBundleName(name: string): Option<BundleMatch> {
    match LongestFrom(name, |name|)
    case None => None
    case Some(p) => Some(Groups(name, p))
  }

  /** The name matches exactly when some base works, and then the groups
      are those of the longest one. */
  lemma ParseBundleNameSpec(name: string)
    ensures ParseBundleName(name).Some? <==> exists p: nat :: MatchesAt(name, p)
    ensures forall p: nat :: (MatchesAt(name, p) && (forall k: nat :: p < k <= |name| ==> !MatchesAt(name, k)))
                               ==> ParseBundleName(name) == Some(Groups(name, p))
  {
    var r := LongestFrom(name, |name|);
    LongestFromMax(name, |name|);
    if r.Some? {
      assert MatchesAt(name, r.value);
    }
    forall p: nat | MatchesAt(name, p) && (forall k: nat :: p < k <= |name| ==> !MatchesAt(name, k))
      ensures ParseBundleName(name) == Some(Groups(name, p))
    {
      assert r.Some?;
    }
  }

  /** The name `<base>{<digits>}.<ext>`. */
  function Compose(base: string, digits: string, ext: string): string {
    base + "{" + digits + "}." + ext
  }

  /** What `RoundTrip` asks of the parts of a name. */
  predicate WellFormedParts(base: string, digits: string, ext: string) {
    && NoLineTerminator(base)
    && |digits| >= 1 && AllDigits(digits)
    && |ext| >= 1 && forall i :: 0 <= i < |ext| ==> IsAsciiAlnum(ext[i])
  }

  lemma RoundTripMatch(base: string, digits: string, ext: string)
    requires WellFormedParts(base, digits, ext)
    ensures MatchesAt(Compose(base, digits, ext), |base|)
    ensures Groups(Compose(base, digits, ext), |base|)
            == BundleMatch(base, digits[..|digits| - 1], DigitValue(digits[|digits| - 1]))
  {
    var name := Compose(base, digits, ext);
    var p := |base|;
    var q := p + 1 + |digits|;
    assert name[..p] == base;
    assert forall k :: p + 1 <= k < q ==> name[k] == digits[k - p - 1];
    assert name[q] == '}' && name[q + 1] == '.' && name[q + 2] == ext[0];
    DigitRunEndAt(name, p + 1, q);
    assert name[p + 1..q - 1] == digits[..|digits| - 1];
  }

  lemma RoundTripNoLonger(base: string, digits: string, ext: string, k: nat)
    requires WellFormedParts(base, digits, ext)
    requires |base| < k <= |Compose(base, digits, ext)|
    ensures !MatchesAt(Compose(base, digits, ext), k)
  {
    var name := Compose(base, digits, ext);
    var q := |base| + 1 + |digits|;
    if k < |name| {
      if k < q {
        assert name[k] == digits[k - |base| - 1];
      } else if k >= q + 2 {
        assert name[k] == ext[k - q - 2];
      }
    }
  }

  /** Building a name from a base without line terminators, at least one
      digit and an alphanumeric extension, and parsing it back, returns the
      base, the leading digits and the value of the last digit. */
  lemma RoundTrip(base: string, digits: string, ext: string)
    requires WellFormedParts(base, digits, ext)
    ensures ParseBundleName(Compose(base, digits, ext))
            == Some(BundleMatch(base, digits[..|digits| - 1], DigitValue(digits[|digits| - 1])))
  {
    RoundTripMatch(base, digits, ext);
    forall k: nat | |base| < k <= |Compose(base, digits, ext)|
      ensures !MatchesAt(Compose(base, digits, ext), k)
    {
      RoundTripNoLonger(base, digits, ext, k);
    }
    ParseBundleNameSpec(Compose(base, digits, ext));
  }

  lemma {:induction false} DigitRunEndAt(s: string, i: nat, j: nat)
    requires i <= j <= |s|
    requires forall k :: i <= k < j ==> IsDigit(s[k])
    requires j == |s| || !IsDigit(s[j])
    ensures DigitRunEnd(s, i) == j
    decreases j - i
  {
    if i < j {
      DigitRunEndAt(s, i + 1, j);
    }
  }

  lemma UnderscoreAt(m: BundleMatch)
    ensures |m.base| < |m.Name()| && m.Name()[|m.base|] == '_'
  {
  }

  lemma DigitAfterUnderscore(m: BundleMatch, i: int)
    requires AllDigits(m.coarse) && |m.base| < i < |m.Name()|
    ensures IsDigit(m.Name()[i])
  {
    assert m.Name()[i] == m.coarse[i - |m.base| - 1];
  }

  /** Two matches fall into the same bundle exactly when they have the same
      base and the same leading digits: the underscore of the name is
      always its last one, because the leading digits contain none. */
  lemma NameInjective(a: BundleMatch, b: BundleMatch)
    requires AllDigits(a.coarse) && AllDigits(b.coarse)
    ensures a.Name() == b.Name() <==> a.base == b.base && a.coarse == b.coarse
  {
    if a.Name() == b.Name() {
      var n := a.Name();
      if |b.base| < |a.base| {
        UnderscoreAt(a);
        DigitAfterUnderscore(b, |a.base|);
        assert false;
      } else if |a.base| < |b.base| {
        UnderscoreAt(b);
        DigitAfterUnderscore(a, |b.base|);
        assert false;
      }
      assert a.base == n[..|a.base|] == b.base;
      assert a.coarse == n[|a.base| + 1..] == b.coarse;
    }
  }

  /** The base is as long as possible: an earlier brace group becomes part
      of it. */
  lemma ExampleGreedyBase()
    ensures ParseBundleName("a{1}.b{2}.c") == Some(BundleMatch("a{1}.b", "", 2))
  {
    assert WellFormedParts("a{1}.b", "2", "c");
    RoundTrip("a{1}.b", "2", "c");
    assert Compose("a{1}.b", "2", "c") == "a{1}.b{2}.c";
  }

  /** Two digits: the first names the bundle, the second is the index. */
  lemma ExampleTwoDigits()
    ensures ParseBundleName("trip{12}.jpg") == Some(BundleMatch("trip", "1", 2))
  {
    assert WellFormedParts("trip", "12", "jpg");
    RoundTrip("trip", "12", "jpg");
    assert Compose("trip", "12", "jpg") == "trip{12}.jpg";
    assert "12"[..1] == "1";
  }

  /** A brace group without digits does not match. */
  lemma ExampleNoDigits()
    ensures ParseBundleName("trip{}.jpg").None?
  {
    var t := "trip{}.jpg";
    forall k: nat | k <= |t| ensures !MatchesAt(t, k) {
      if k == 4 {
        assert DigitRunEnd(t, 5) == 5;
      } else if k < |t| {
        assert t[k] != '{';
      }
    }
    ParseBundleNameSpec(t);
  }
}
