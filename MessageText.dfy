/** The text helpers of core/assembler/build-messages.js: the parse mode a
    text or caption file gets from its extension, and the MarkdownV2
    escaper `mdV2Escape`, a single global regular-expression replacement. */
module MessageText {
  import opened Wrappers
  import opened MediaTypes
  import opened InputMediaModels

  /** `getParseMode`: `.md` is MarkdownV2, `.htm` and `.html` are HTML,
      anything else (and no file at all) has no parse mode. The comparison
      is exact, so the extension must already be lower case to match. */
  function GetParseMode(ext: Option<string>): (r: Option<ParseMode>)
    ensures ext.None? ==> r.None?
  {
    match ext
    case None => None
    case Some(e) =>
      if e == ExtMd then Some(MarkdownV2)
      else if e == ExtHtm || e == ExtHtml then Some(Html)
      else None
  }

  /** Only text extensions of the media table get a parse mode, and among
      them exactly `.txt` gets none. */
  lemma GetParseModeText(e: string)
    ensures GetParseMode(Some(e)).Some? ==> LookupKind(e) == Some(Text)
    ensures LookupKind(e) == Some(Text) ==> (GetParseMode(Some(e)).None? <==> e == ExtTxt)
    ensures GetParseMode(Some(e)) == Some(MarkdownV2) <==> e == ExtMd
    ensures GetParseMode(Some(e)) == Some(Html) <==> e == ExtHtm || e == ExtHtml
  {
    TextExtensions(e);
  }

  /** The characters the escaper puts a backslash in front of. */
  predicate Special(c: char) {
    c == '>' || c == '#' || c == '+' || c == '-' || c == '=' || c == '|'
    || c == '{' || c == '}' || c == '.' || c == '!'
  }

  /** `mdV2Escape`: the global replacement of `([^\\])(special)` by
      `$1\\$2`. The scan tries a match at each position from the left; a
      match consumes two characters, so the scan resumes after the special
      one. The class `[^\\]` also matches line terminators. */
  function MdV2Escape(s: string): (r: string)
    ensures |r| >= |s|
  {
    if |s| < 2 then s
    else if s[0] != '\\' && Special(s[1]) then [s[0], '\\', s[1]] + MdV2Escape(s[2..])
    else [s[0]] + MdV2Escape(s[1..])
  }

  /** Whether the character at `i` receives a backslash: it is special, its
      predecessor is not a backslash, and that predecessor was not itself
      consumed as the special character of the previous match. */
  predicate Marked(s: string, i: nat)
    requires i < |s|
    decreases i
  {
    i >= 1 && Special(s[i]) && s[i - 1] != '\\' && !Marked(s, i - 1)
  }

  /** `s` from position `i` on, with a backslash before every marked
      character. */
  function Render(s: string, i: nat): string
    requires i <= |s|
    decreases |s| - i
  {
    if i == |s| then []
    else (if Marked(s, i) then ['\\', s[i]] else [s[i]]) + Render(s, i + 1)
  }

  lemma {:induction false} EscapeSuffix(s: string, k: nat)
    requires k <= |s|
    requires k == |s| || !Marked(s, k)
    ensures MdV2Escape(s[k..]) == Render(s, k)
    decreases |s| - k
  {
    if |s| - k < 2 {
      if k < |s| {
        assert s[k..] == [s[k]];
      }
    } else if s[k] != '\\' && Special(s[k + 1]) {
      assert Marked(s, k + 1);
      assert s[k..][2..] == s[k + 2..];
      EscapeSuffix(s, k + 2);
      assert Render(s, k) == [s[k]] + ['\\', s[k + 1]] + Render(s, k + 2);
    } else {
      assert !Marked(s, k + 1);
      assert s[k..][1..] == s[k + 1..];
      EscapeSuffix(s, k + 1);
    }
  }

  /** The escaper puts a backslash exactly before the marked characters and
      changes nothing else. */
  lemma EscapeIsRender(s: string)
    ensures MdV2Escape(s) == Render(s, 0)
  {
    assert s[0..] == s;
    EscapeSuffix(s, 0);
  }

  /** The first character is never escaped, a backslash-preceded character
      never is, and of two neighbouring characters at most one is. */
  lemma MarkedFacts(s: string, i: nat)
    requires i < |s|
    ensures Marked(s, i) ==> i >= 1 && Special(s[i]) && s[i - 1] != '\\'
    ensures i + 1 < |s| && Marked(s, i) ==> !Marked(s, i + 1)
  {
  }

  /** A special character whose predecessor is neither a backslash nor
      special is always escaped. */
  lemma IsolatedSpecialMarked(s: string, i: nat)
    requires 1 <= i < |s| && Special(s[i]) && s[i - 1] != '\\' && !Special(s[i - 1])
    ensures Marked(s, i)
  {
  }

  /** Worked cases: a run of two specials gets only its first escaped,
      backslashes protect, and a leading special stays as it is. */
  lemma EscapeExamples()
    ensures MdV2Escape("a..") == "a\\.."
    ensures MdV2Escape("a\\.") == "a\\."
    ensures MdV2Escape(".a") == ".a"
    ensures MdV2Escape("Hi!") == "Hi\\!"
  {
    assert "a.."[2..] == ".";
    assert "a\\."[1..] == "\\.";
    assert "a\\."[1..][1..] == ".";
    assert ".a"[1..] == "a";
    assert "Hi!"[1..] == "i!";
    assert "Hi!"[1..][2..] == "";
  }
}
