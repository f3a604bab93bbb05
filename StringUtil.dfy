/** The parts of the JavaScript runtime's string, regular-expression and
    `path` semantics that the modelled code relies on. */
module StringUtil {
  import opened Wrappers

  /** Characters that `.` in a JavaScript regular expression does not match. */
  predicate IsLineTerminator(c: char) {
    c == '\n' || c == '\r' || c == '\U{2028}' || c == '\U{2029}'
  }

  predicate NoLineTerminator(s: string) {
    forall i :: 0 <= i < |s| ==> !IsLineTerminator(s[i])
  }

  /** The class `[0-9]`. */
  predicate IsDigit(c: char) {
    '0' <= c <= '9'
  }

  predicate AllDigits(s: string) {
    forall i :: 0 <= i < |s| ==> IsDigit(s[i])
  }

  /** The class `[a-zA-Z0-9]`. */
  predicate IsAsciiAlnum(c: char) {
    IsDigit(c) || 'a' <= c <= 'z' || 'A' <= c <= 'Z'
  }

  /** Numeric value of a decimal digit, as the unary `+` gives it. */
  function DigitValue(c: char): (d: nat)
    requires IsDigit(c)
    ensures d <= 9
  {
    c as int - '0' as int
  }

  /** `toLowerCase` restricted to ASCII letters. */
  function LowerChar(c: char): char {
    if 'A' <= c <= 'Z' then (c as int - 'A' as int + 'a' as int) as char else c
  }

  function ToLower(s: string): (r: string)
    ensures |r| == |s|
    ensures forall i :: 0 <= i < |s| ==> r[i] == LowerChar(s[i])
  {
    if s == [] then [] else [LowerChar(s[0])] + ToLower(s[1..])
  }

  /** `s` contains `sub` as a contiguous piece. */
  predicate HasSubstring(s: string, sub: string) {
    exists i {:trigger s[i..]} :: 0 <= i <= |s| - |sub| && s[i..][..|sub|] == sub
  }

  /** Index of the last occurrence of `c` in `s`. */
  function LastIndexOf(s: string, c: char): (r: Option<nat>)
    ensures r.Some? ==> r.value < |s| && s[r.value] == c
    ensures r.Some? ==> forall j :: r.value < j < |s| ==> s[j] != c
    ensures r.None? ==> forall j :: 0 <= j < |s| ==> s[j] != c
  {
    if s == [] then None
    else if s[|s| - 1] == c then Some(|s| - 1)
    else LastIndexOf(s[..|s| - 1], c)
  }

  /** `path.extname` of a single path segment (a name with no '/'): from the
      last '.' to the end, or "" when there is no '.', when the only candidate
      '.' starts the name, or for the name "..". */
  function ExtName(name: string): (r: string)
    ensures r == "" || (r[0] == '.' && |r| <= |name| && r == name[|name| - |r|..])
    ensures r != "" ==> forall j :: 1 <= j < |r| ==> r[j] != '.'
  {
    match LastIndexOf(name, '.')
    case None => ""
    case Some(d) => if d == 0 || name == ".." then "" else name[d..]
  }

  /** A name that ends in an extension `ext` (a '.' followed by no further
      '.') after a non-empty stem has exactly that extension. */
  lemma {:induction false} ExtNameOfSuffix(stem: string, ext: string)
    requires |stem| > 0 && |ext| > 1 && ext[0] == '.'
    requires forall j :: 1 <= j < |ext| ==> ext[j] != '.'
    ensures ExtName(stem + ext) == ext
  {
    var name := stem + ext;
    var d := |stem|;
    assert name[d] == '.';
    assert forall j :: d < j < |name| ==> name[j] == ext[j - d];
    var li := LastIndexOf(name, '.');
    assert li == Some(d);
    assert name != "..";
    assert name[d..] == ext;
  }

  /** `path.basename` of a path without a trailing '/': everything after the
      last '/'. */
  function BaseName(path: string): (r: string)
    ensures |r| <= |path| && r == path[|path| - |r|..]
    ensures forall j :: 0 <= j < |r| ==> r[j] != '/'
  {
    match LastIndexOf(path, '/')
    case None => path
    case Some(d) => path[d + 1..]
  }

  /** `a` sorts strictly before `b`, character by character by code point.
      The default string comparison uses UTF-16 code units instead, which
      agrees on strings without characters from U+E000 up. */
  predicate LexLess(a: string, b: string) {
    |b| > 0 && (|a| == 0 || a[0] < b[0] || (a[0] == b[0] && LexLess(a[1..], b[1..])))
  }

  /** A proper prefix sorts first. */
  lemma {:induction false} PrefixLexLess(a: string, t: string)
    requires |t| > 0
    ensures LexLess(a, a + t)
  {
    if |a| > 0 {
      assert (a + t)[1..] == a[1..] + t;
      PrefixLexLess(a[1..], t);
    }
  }

  /** The order is asymmetric. */
  lemma {:induction false} LexLessAsymmetric(a: string, b: string)
    requires LexLess(a, b)
    ensures !LexLess(b, a)
  {
    if |a| > 0 && a[0] == b[0] {
      LexLessAsymmetric(a[1..], b[1..]);
    }
  }

  /** Concatenation regroups freely; stated once so that proofs about long
      concatenations need not rediscover it. */
  lemma AppendAssoc<T>(x: seq<T>, y: seq<T>, z: seq<T>)
    ensures x + y + z == x + (y + z)
  {
  }
}
