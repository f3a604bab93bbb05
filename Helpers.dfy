/** The helpers of util/helpers.js: `arrayDiff`, `escapeRegex` and
    `flattenFileObject`. */
module Helpers {
  import opened Wrappers
  import opened FetchContent
  import opened ParseFiles
  import opened BuildMessages

  // ---------------------------------------------------------------------
  // arrayDiff

  /** The items of `a` that are not in `b`, in the order of `a`. */
  function Diff<T(==)>(a: seq<T>, b: seq<T>): seq<T> {
    if a == [] then []
    else Diff(a[..|a| - 1], b) + (if a[|a| - 1] in b then [] else [a[|a| - 1]])
  }

  /** `arrayDiff`: a loop over `arrA` pushing each item `arrB` does not
      include. The inputs are values and stay as they are. */
  method ArrayDiff<T(==)>(arrA: seq<T>, arrB: seq<T>) returns (result: seq<T>)
    ensures result == Diff(arrA, arrB)
  {
    result := [];
    var i := 0;
    while i < |arrA|
      invariant 0 <= i <= |arrA|
      invariant result == Diff(arrA[..i], arrB)
    {
      assert arrA[..i + 1][..i] == arrA[..i];
      if arrA[i] !in arrB {
        result := result + [arrA[i]];
      }
      i := i + 1;
    }
    assert arrA[..i] == arrA;
  }

  /** The difference of a concatenation is the concatenation of the
      differences: the order of `a` is kept. */
  lemma {:induction false} DiffAppend<T>(a1: seq<T>, a2: seq<T>, b: seq<T>)
    ensures Diff(a1 + a2, b) == Diff(a1, b) + Diff(a2, b)
    decreases |a2|
  {
    if a2 == [] {
      assert a1 + a2 == a1;
    } else {
      var a2' := a2[..|a2| - 1];
      assert (a1 + a2)[..|a1 + a2| - 1] == a1 + a2';
      DiffAppend(a1, a2', b);
    }
  }

  /** Every occurrence in `a` of an item not in `b` is kept, duplicates
      included, and no occurrence of an item in `b` is. */
  lemma {:induction false} DiffCount<T>(a: seq<T>, b: seq<T>, x: T)
    ensures multiset(Diff(a, b))[x] == if x in b then 0 else multiset(a)[x]
    decreases |a|
  {
    if a != [] {
      var a' := a[..|a| - 1];
      DiffCount(a', b, x);
      assert a == a' + [a[|a| - 1]];
    }
  }

  /** An item is in the difference exactly when it is in `a` and not in
      `b`. */
  lemma DiffMember<T>(a: seq<T>, b: seq<T>, x: T)
    ensures x in Diff(a, b) <==> x in a && x !in b
  {
    DiffCount(a, b, x);
    assert x in Diff(a, b) <==> multiset(Diff(a, b))[x] > 0;
    assert x in a <==> multiset(a)[x] > 0;
  }

  /** Nothing to remove leaves `a` as it is. */
  lemma {:induction false} DiffNothing<T>(a: seq<T>)
    ensures Diff(a, []) == a
    decreases |a|
  {
    if a != [] {
      DiffNothing(a[..|a| - 1]);
    }
  }

  /** Removing everything of `a` leaves nothing. */
  lemma DiffSelf<T>(a: seq<T>)
    ensures Diff(a, a) == []
  {
    if Diff(a, a) != [] {
      DiffMember(a, a, Diff(a, a)[0]);
    }
  }

  // ---------------------------------------------------------------------
  // escapeRegex

  /** The class `[-\/\\^$*+?.()|[\]{}]`. */
  predicate RegexSpecial(c: char) {
    c == '-' || c == '/' || c == '\\' || c == '^' || c == '$' || c == '*' || c == '+' || c == '?'
    || c == '.' || c == '(' || c == ')' || c == '|' || c == '[' || c == ']' || c == '{' || c == '}'
  }

  /** `escapeRegex`: a backslash before every character of the class. */
  function EscapeRegex(s: string): (r: string)
    ensures |r| >= |s|
  {
    if s == [] then []
    else (if RegexSpecial(s[0]) then ['\\', s[0]] else [s[0]]) + EscapeRegex(s[1..])
  }

  /** Reading an escaped string back: a backslash takes the next character
      literally. */
  function UnescapeRegex(r: string): string
    decreases |r|
  {
    if r == [] then []
    else if r[0] == '\\' && |r| >= 2 then [r[1]] + UnescapeRegex(r[2..])
    else [r[0]] + UnescapeRegex(r[1..])
  }

  /** Escaping loses nothing: reading the pattern back gives the string. */
  lemma {:induction false} EscapeRoundTrip(s: string)
    ensures UnescapeRegex(EscapeRegex(s)) == s
    decreases |s|
  {
    if s != [] {
      EscapeRoundTrip(s[1..]);
      var rest := EscapeRegex(s[1..]);
      if RegexSpecial(s[0]) {
        assert EscapeRegex(s) == ['\\', s[0]] + rest;
        assert (['\\', s[0]] + rest)[2..] == rest;
      } else {
        assert EscapeRegex(s) == [s[0]] + rest;
        assert ([s[0]] + rest)[1..] == rest;
      }
    }
  }

  /** Escaping works character by character. */
  lemma {:induction false} EscapeAppend(s: string, t: string)
    ensures EscapeRegex(s + t) == EscapeRegex(s) + EscapeRegex(t)
    decreases |s|
  {
    if s == [] {
      assert s + t == t;
    } else {
      assert (s + t)[1..] == s[1..] + t;
      EscapeAppend(s[1..], t);
    }
  }

  /** A string without special characters is left as it is. */
  lemma {:induction false} EscapePlain(s: string)
    requires forall i :: 0 <= i < |s| ==> !RegexSpecial(s[i])
    ensures EscapeRegex(s) == s
    decreases |s|
  {
    if s != [] {
      EscapePlain(s[1..]);
    }
  }

  // ---------------------------------------------------------------------
  // flattenFileObject

  /** The property flattened by; `path` unless another one is asked for. */
  datatype Prop = PathProp | NameProp | ExtProp

  function RecordProp(r: FileRecord, prop: Prop): string {
    match prop
    case PathProp => r.path
    case NameProp => r.name
    case ExtProp => r.ext
  }

  function FileProp(f: ParsedFile, prop: Prop): string {
    match prop
    case PathProp => f.path
    case NameProp => f.name
    case ExtProp => f.ext
  }

  /** A file's property, then its thumbnail's and its caption's when it has
      them. */
  function Triple(f: ParsedFile, prop: Prop): (r: seq<string>)
    ensures 1 <= |r| <= 3 && r[0] == FileProp(f, prop)
  {
    [FileProp(f, prop)]
    + (match f.thumb case None => [] case Some(t) => [RecordProp(t, prop)])
    + (match f.caption case None => [] case Some(c) => [RecordProp(c, prop)])
  }

  /** The triples of some files, one after the other. */
  function Triples(fs: seq<ParsedFile>, prop: Prop): seq<string> {
    if fs == [] then [] else Triples(fs[..|fs| - 1], prop) + Triple(fs[|fs| - 1], prop)
  }

  lemma TriplesSnoc(fs: seq<ParsedFile>, f: ParsedFile, prop: Prop)
    ensures Triples(fs + [f], prop) == Triples(fs, prop) + Triple(f, prop)
  {
    assert (fs + [f])[..|fs + [f]| - 1] == fs;
  }

  /** `filter(f => f)` on strings: the empty string is falsy. */
  function NonEmpty(s: seq<string>): seq<string> {
    if s == [] then [] else NonEmpty(s[..|s| - 1]) + (if s[|s| - 1] == "" then [] else [s[|s| - 1]])
  }

  /** The values `flattenFileObject` collects before filtering: the triples
      of the bundle members, if any, then the object's own. */
  function Unfiltered(m: Message, prop: Prop): seq<string> {
    (if m.head.Some? then Triples(BundleMembers(m), prop) else []) + Triple(m.file, prop)
  }

  /** `flattenFileObject`. */
  method FlattenFileObject(fObj: Message, prop: Prop := PathProp) returns (result: seq<string>)
    ensures result == NonEmpty(Unfiltered(fObj, prop))
  {
    var raw: seq<string> := [];
    if fObj.head.Some? {
      var members := BundleMembers(fObj);
      var i := 0;
      while i < |members|
        invariant 0 <= i <= |members|
        invariant raw == Triples(members[..i], prop)
      {
        raw := PushTriple(raw, members[i], prop);
        assert members[..i + 1] == members[..i] + [members[i]];
        TriplesSnoc(members[..i], members[i], prop);
        i := i + 1;
      }
      assert members[..i] == members;
    }
    raw := PushTriple(raw, fObj.file, prop);
    result := FilterTruthy(raw);
  }

  /** The pushes for one file: its property, then its thumbnail's and its
      caption's when it has them. */
  method PushTriple(raw: seq<string>, f: ParsedFile, prop: Prop) returns (raw': seq<string>)
    ensures raw' == raw + Triple(f, prop)
  {
    raw' := raw + [FileProp(f, prop)];
    if f.thumb.Some? {
      raw' := raw' + [RecordProp(f.thumb.value, prop)];
    }
    if f.caption.Some? {
      raw' := raw' + [RecordProp(f.caption.value, prop)];
    }
  }

  /** `result.filter(f => f)`. */
  method FilterTruthy(raw: seq<string>) returns (result: seq<string>)
    ensures result == NonEmpty(raw)
  {
    result := [];
    var j := 0;
    while j < |raw|
      invariant 0 <= j <= |raw|
      invariant result == NonEmpty(raw[..j])
    {
      assert raw[..j + 1][..j] == raw[..j];
      if raw[j] != "" {
        result := result + [raw[j]];
      }
      j := j + 1;
    }
    assert raw[..j] == raw;
  }

  /** Filtering distributes over concatenation. */
  lemma {:induction false} NonEmptyAppend(s: seq<string>, t: seq<string>)
    ensures NonEmpty(s + t) == NonEmpty(s) + NonEmpty(t)
    decreases |t|
  {
    if t == [] {
      assert s + t == s;
    } else {
      var t' := t[..|t| - 1];
      assert (s + t)[..|s + t| - 1] == s + t';
      NonEmptyAppend(s, t');
    }
  }

  /** The filter keeps exactly the non-empty values, in order. */
  lemma {:induction false} NonEmptyMember(s: seq<string>, x: string)
    ensures x in NonEmpty(s) <==> x in s && x != ""
    decreases |s|
  {
    if s != [] {
      NonEmptyMember(s[..|s| - 1], x);
      assert s == s[..|s| - 1] + [s[|s| - 1]];
    }
  }

  /** Without bundle members the result is the object's property, its
      thumbnail's and its caption's, dropping empty values; a bundle head
      lists its members first, itself among them, and then itself again. */
  lemma FlattenShape(m: Message, prop: Prop)
    ensures m.head.None? ==> NonEmpty(Unfiltered(m, prop)) == NonEmpty(Triple(m.file, prop))
    ensures m.head.Some? ==>
              && |Triple(m.file, prop)| <= |Triples(BundleMembers(m), prop)|
              && NonEmpty(Unfiltered(m, prop)) == NonEmpty(Triples(BundleMembers(m), prop)) + NonEmpty(Triple(m.file, prop))
              && Triples(BundleMembers(m), prop)[..|Triple(m.file, prop)|] == Triple(m.file, prop)
  {
    if m.head.Some? {
      NonEmptyAppend(Triples(BundleMembers(m), prop), Triple(m.file, prop));
      TriplesFirst(BundleMembers(m), prop);
    } else {
      assert Unfiltered(m, prop) == Triple(m.file, prop);
    }
  }

  /** The triples of a list start with the triple of its first file. */
  lemma {:induction false} TriplesFirst(fs: seq<ParsedFile>, prop: Prop)
    requires fs != []
    ensures |Triple(fs[0], prop)| <= |Triples(fs, prop)|
    ensures Triples(fs, prop)[..|Triple(fs[0], prop)|] == Triple(fs[0], prop)
    decreases |fs|
  {
    if |fs| > 1 {
      TriplesFirst(fs[..|fs| - 1], prop);
    }
  }

  /** Every result is non-empty, and a non-empty property of any listed
      file is in the result. */
  lemma FlattenComplete(m: Message, prop: Prop)
    ensures forall x :: x in NonEmpty(Unfiltered(m, prop)) ==> x != ""
    ensures FileProp(m.file, prop) != "" ==> FileProp(m.file, prop) in NonEmpty(Unfiltered(m, prop))
  {
    forall x | x in NonEmpty(Unfiltered(m, prop)) ensures x != "" {
      NonEmptyMember(Unfiltered(m, prop), x);
    }
    NonEmptyMember(Unfiltered(m, prop), FileProp(m.file, prop));
    assert Unfiltered(m, prop)[|Unfiltered(m, prop)| - |Triple(m.file, prop)|] == FileProp(m.file, prop);
  }
}
