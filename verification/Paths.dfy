/** Shared outcome type: `Err` carries the code of the `StoryError` the program raises. */
module Outcomes {
  datatype Code =
    | InvalidPath | InvalidRef | ImmutableRef | DuplicateRef | InvalidJson
    | OverlappingChanges | InvalidDraft | UnknownChange | FixedField | BaseConflict
    | InvalidOutline | UnexpectedOutline

  datatype Option<+T> = None | Some(value: T)

  datatype Result<+T> = Ok(value: T) | Err(code: Code) {
    predicate IsFailure() { Err? }
    function PropagateFailure<U>(): Result<U>
      requires Err?
    {
      Err(code)
    }
    function Extract(): T
      requires Ok?
    {
      value
    }
  }
}

/**
 Proposal field paths as text. A path prints as "/seg/seg/..." where '~' and '/' inside a
 segment are escaped as in sections 3 and 4 of RFC 6901, but a segment may not be empty.
 Escaping and unescaping are two successive textual replacements, as in the program.
 */
module Paths {
  import opened Outcomes

  type Path = seq<string>

  // part.replace(c, with)
  function ReplaceChar(s: string, c: char, with: string): string {
    if s == "" then "" else (if s[0] == c then with else [s[0]]) + ReplaceChar(s[1..], c, with)
  }

  // part.replace("~" + second, with): scans left to right, matches do not overlap
  function ReplacePair(s: string, second: char, with: char): string {
    if s == "" then ""
    else if |s| >= 2 && s[0] == '~' && s[1] == second then [with] + ReplacePair(s[2..], second, with)
    else [s[0]] + ReplacePair(s[1..], second, with)
  }

  function Escape(part: string): string {
    ReplaceChar(ReplaceChar(part, '~', "~0"), '/', "~1")
  }

  function Unescape(part: string): string {
    ReplacePair(ReplacePair(part, '1', '/'), '0', '~')
  }

  // Every '~' is followed by '0' or '1'.
  predicate WellEscaped(s: string) {
    forall i :: 0 <= i < |s| && s[i] == '~' ==> i + 1 < |s| && (s[i + 1] == '0' || s[i + 1] == '1')
  }

  // path.split("/")
  function Split(s: string): (parts: seq<string>)
    ensures |parts| >= 1
  {
    if s == "" then [""]
    else
      var rest := Split(s[1..]);
      if s[0] == '/' then [""] + rest else [[s[0]] + rest[0]] + rest[1..]
  }

  function UnescapeAll(parts: seq<string>): seq<string> {
    if parts == [] then [] else [Unescape(parts[0])] + UnescapeAll(parts[1..])
  }

  function EscapeAll(parts: seq<string>): seq<string> {
    if parts == [] then [] else [Escape(parts[0])] + EscapeAll(parts[1..])
  }

  predicate Named(parts: Path) {
    parts != [] && forall i :: 0 <= i < |parts| ==> parts[i] != ""
  }

  function Parse(path: string): Result<Path> {
    if path == "" || path[0] != '/' || !WellEscaped(path) then Err(InvalidPath)
    else
      var parts := UnescapeAll(Split(path[1..]));
      if "" in parts then Err(InvalidPath) else Ok(parts)
  }

  function Print(parts: Path): string {
    if parts == [] then "" else "/" + Escape(parts[0]) + Print(parts[1..])
  }

  // a == b or a.startswith(b + "/") or b.startswith(a + "/")
  predicate Overlap(a: string, b: string) {
    a == b || b + "/" <= a || a + "/" <= b
  }

  // One path addresses the other's value or something inside it.
  predicate Comparable(p: Path, q: Path) {
    p <= q || q <= p
  }

  // ---- the escape is a bijection onto well-escaped, slash-free text ----

  function EscapeOne(c: char): string {
    if c == '~' then "~0" else if c == '/' then "~1" else [c]
  }

  lemma EscapeStep(s: string)
    requires s != ""
    ensures Escape(s) == EscapeOne(s[0]) + Escape(s[1..])
  {
    var t := ReplaceChar(s[1..], '~', "~0");
    if s[0] == '~' {
      assert ReplaceChar(s, '~', "~0") == "~0" + t;
      ReplaceCharConcat("~0", t, '/', "~1");
      assert ReplaceChar("~0", '/', "~1") == "~" + ReplaceChar("0", '/', "~1");
    } else {
      assert ReplaceChar(s, '~', "~0") == [s[0]] + t;
      assert ([s[0]] + t)[1..] == t;
    }
  }

  lemma {:induction false} ReplaceCharConcat(a: string, b: string, c: char, with: string)
    ensures ReplaceChar(a + b, c, with) == ReplaceChar(a, c, with) + ReplaceChar(b, c, with)
  {
    if a == "" {
      assert a + b == b;
    } else {
      assert (a + b)[1..] == a[1..] + b;
      ReplaceCharConcat(a[1..], b, c, with);
    }
  }

  lemma {:induction false} EscapeShape(s: string)
    ensures WellEscaped(Escape(s)) && '/' !in Escape(s) && (s != "" ==> Escape(s) != "")
  {
    if s != "" {
      EscapeStep(s);
      EscapeShape(s[1..]);
    }
  }

  // Unescaping well-escaped text reads one character or one "~0"/"~1" pair at a time.
  lemma UnescapeStep(s: string)
    requires WellEscaped(s) && s != ""
    ensures s[0] != '~' ==> Unescape(s) == [s[0]] + Unescape(s[1..])
    ensures s[0] == '~' ==> |s| >= 2 && Unescape(s) == [if s[1] == '0' then '~' else '/'] + Unescape(s[2..])
  {
    if s[0] == '~' {
      var t := ReplacePair(s[2..], '1', '/');
      if s[1] == '0' {
        assert s[1..][1..] == s[2..];
        assert ReplacePair(s[1..], '1', '/') == ['0'] + t;
        var u := ['~', '0'] + t;
        assert ReplacePair(s, '1', '/') == ['~'] + (['0'] + t) == u;
        assert u[2..] == t;
      } else {
        assert ReplacePair(s, '1', '/') == ['/'] + t;
        assert (['/'] + t)[1..] == t;
      }
    } else {
      var t := ReplacePair(s[1..], '1', '/');
      assert ReplacePair(s, '1', '/') == [s[0]] + t;
      assert ([s[0]] + t)[1..] == t;
    }
  }

  lemma {:induction false} UnescapeEscape(s: string)
    ensures Unescape(Escape(s)) == s
  {
    if s != "" {
      EscapeShape(s);
      EscapeStep(s);
      var e := Escape(s);
      UnescapeStep(e);
      UnescapeEscape(s[1..]);
      assert e[|EscapeOne(s[0])|..] == Escape(s[1..]);
    }
  }

  lemma {:induction false} EscapeUnescape(s: string)
    requires WellEscaped(s) && '/' !in s
    ensures Escape(Unescape(s)) == s
    ensures s != "" ==> Unescape(s) != ""
    decreases |s|
  {
    if s != "" {
      UnescapeStep(s);
      var n := if s[0] == '~' then 2 else 1;
      var rest := s[n..];
      WellEscapedDrop(s, n);
      EscapeUnescape(rest);
      EscapeStep(Unescape(s));
      assert Unescape(s)[1..] == Unescape(rest);
      assert s == s[..n] + rest;
    }
  }

  // ---- printing and parsing are inverse ----

  lemma {:induction false} SplitHead(a: string, rest: string)
    requires '/' !in a
    ensures Split(a) == [a]
    ensures Split(a + "/" + rest) == [a] + Split(rest)
  {
    var s := a + "/" + rest;
    if a == "" {
      assert s[1..] == rest;
    } else {
      SplitHead(a[1..], rest);
      assert s[1..] == a[1..] + "/" + rest;
      assert a == [a[0]] + a[1..];
    }
  }

  lemma {:induction false} PrintTail(parts: Path)
    requires parts != []
    ensures Print(parts)[0] == '/'
    ensures Print(parts)[1..] == Escape(parts[0]) + Print(parts[1..])
  {
  }

  lemma AtSlash(a: string, s: string)
    requires s != "" && s[0] == '/'
    ensures a + s == a + "/" + s[1..]
    ensures "/" + a + s == "/" + (a + "/" + s[1..])
  {
    assert s == "/" + s[1..];
  }

  lemma {:induction false} PrintSplits(parts: Path)
    requires parts != []
    ensures Print(parts)[0] == '/'
    ensures Split(Print(parts)[1..]) == EscapeAll(parts)
  {
    var e := Escape(parts[0]);
    EscapeShape(parts[0]);
    PrintTail(parts);
    if |parts| == 1 {
      assert Print(parts)[1..] == e;
      SplitHead(e, "");
      assert EscapeAll(parts) == [e];
    } else {
      PrintSplits(parts[1..]);
      var more := Print(parts[1..]);
      AtSlash(e, more);
      SplitHead(e, more[1..]);
    }
  }

  lemma WellEscapedConcat(a: string, b: string)
    requires WellEscaped(a) && WellEscaped(b)
    ensures WellEscaped(a + b)
  {
  }

  lemma {:induction false} PrintWellEscaped(parts: Path)
    ensures WellEscaped(Print(parts))
  {
    if parts != [] {
      PrintWellEscaped(parts[1..]);
      EscapeShape(parts[0]);
      WellEscapedConcat("/", Escape(parts[0]));
      WellEscapedConcat("/" + Escape(parts[0]), Print(parts[1..]));
    }
  }

  lemma {:induction false} UnescapeEscapeAll(parts: Path)
    ensures UnescapeAll(EscapeAll(parts)) == parts
  {
    if parts != [] {
      UnescapeEscape(parts[0]);
      UnescapeEscapeAll(parts[1..]);
    }
  }

  lemma {:induction false} ParsePrint(parts: Path)
    requires parts != []
    ensures Named(parts) ==> Parse(Print(parts)) == Ok(parts)
    ensures !Named(parts) ==> Parse(Print(parts)) == Err(InvalidPath)
  {
    PrintSplits(parts);
    PrintWellEscaped(parts);
    UnescapeEscapeAll(parts);
  }

  lemma WellEscapedDrop(s: string, n: nat)
    requires WellEscaped(s) && n <= |s|
    ensures WellEscaped(s[n..])
  {
    forall i | 0 <= i < |s| - n && s[n..][i] == '~'
      ensures i + 1 < |s| - n && (s[n..][i + 1] == '0' || s[n..][i + 1] == '1')
    {
      assert s[i + n] == '~';
    }
  }

  lemma WellEscapedTake(s: string, n: nat)
    requires WellEscaped(s) && n <= |s| && (n < |s| ==> s[n] == '/')
    ensures WellEscaped(s[..n])
  {
    forall i | 0 <= i < n && s[..n][i] == '~'
      ensures i + 1 < n && (s[..n][i + 1] == '0' || s[..n][i + 1] == '1')
    {
      assert s[i] == '~';
    }
  }

  lemma {:induction false} SplitJoins(s: string)
    requires WellEscaped(s)
    ensures Print(UnescapeAll(Split(s))) == "/" + s
    decreases |s|
  {
    var n := FirstSlash(s);
    var a := s[..n];
    WellEscapedTake(s, n);
    if n == |s| {
      SplitHead(a, "");
      assert a == s;
      PrintUnescaped(a, []);
      assert [a] + [] == Split(s);
    } else {
      var rest := s[n + 1..];
      assert s == a + "/" + rest;
      SplitHead(a, rest);
      WellEscapedDrop(s, n + 1);
      SplitJoins(rest);
      PrintUnescaped(a, Split(rest));
      AtSlash(a, "/" + rest);
      assert ("/" + rest)[1..] == rest;
    }
  }

  lemma {:induction false} PrintUnescaped(a: string, parts: seq<string>)
    requires WellEscaped(a) && '/' !in a
    ensures Print(UnescapeAll([a] + parts)) == "/" + a + Print(UnescapeAll(parts))
  {
    EscapeUnescape(a);
    var u, us := Unescape(a), UnescapeAll(parts);
    assert ([a] + parts)[1..] == parts;
    assert UnescapeAll([a] + parts) == [u] + us;
    assert ([u] + us)[1..] == us;
  }

  ghost function FirstSlash(s: string): (n: nat)
    ensures n <= |s| && '/' !in s[..n] && (n < |s| ==> s[n] == '/')
  {
    if s == "" || s[0] == '/' then 0
    else
      var n := FirstSlash(s[1..]) + 1;
      assert s[..n] == [s[0]] + s[1..][..n - 1];
      n
  }

  lemma PrintParse(path: string)
    requires Parse(path).Ok?
    ensures Named(Parse(path).value) && Print(Parse(path).value) == path
  {
    WellEscapedDrop(path, 1);
    SplitJoins(path[1..]);
  }

  // ---- the textual overlap test is comparability of the parsed paths ----

  lemma {:induction false} PrintConcat(p: Path, q: Path)
    ensures Print(p + q) == Print(p) + Print(q)
  {
    if p == [] {
      assert p + q == q;
    } else {
      assert (p + q)[1..] == p[1..] + q;
      PrintConcat(p[1..], q);
    }
  }

  lemma SlashFollows(a: string, b: string)
    requires b != "" && b[0] == '/'
    ensures a + "/" <= a + b
  {
    assert a + b == (a + "/") + b[1..];
  }

  lemma {:induction false} PrefixPrints(p: Path, q: Path)
    requires p <= q
    ensures Print(p) == Print(q) || Print(p) + "/" <= Print(q)
  {
    var rest := q[|p|..];
    assert q == p + rest;
    if p != q {
      PrintConcat(p, rest);
      SlashFollows(Print(p), Print(rest));
    }
  }

  lemma {:induction false} PrintPrefix(p: Path, q: Path)
    requires Print(p) + "/" <= Print(q) + "/"
    ensures p <= q
  {
    if p != [] {
      var e, x := Escape(p[0]), Print(p[1..]) + "/";
      assert Print(p) + "/" == "/" + e + x;
      assert |Print(q)| >= 1;
      var f, y := Escape(q[0]), Print(q[1..]) + "/";
      assert Print(q) + "/" == "/" + f + y;
      EscapeShape(p[0]);
      EscapeShape(q[0]);
      assert x[0] == '/' && y[0] == '/';
      SegmentPrefix(e, x, f, y);
      UnescapeEscape(p[0]);
      UnescapeEscape(q[0]);
      PrintPrefix(p[1..], q[1..]);
      assert p == [p[0]] + p[1..] && q == [q[0]] + q[1..];
    }
  }

  lemma SlashFree(e: string, x: string, i: nat)
    requires '/' !in e
    ensures i < |e| ==> ("/" + e + x)[1 + i] != '/'
  {
    if i < |e| {
      assert ("/" + e + x)[1 + i] == e[i];
    }
  }

  // A slash-free head is determined by the first slash after it.
  lemma SegmentPrefix(e: string, x: string, f: string, y: string)
    requires '/' !in e && '/' !in f && x != "" && y != "" && x[0] == '/' && y[0] == '/'
    requires "/" + e + x <= "/" + f + y
    ensures e == f && x <= y
  {
    var s, t := "/" + e + x, "/" + f + y;
    assert s[1 + |e|] == '/' == t[1 + |e|] && t[1 + |f|] == '/';
    SlashFree(e, x, |f|);
    SlashFree(f, y, |e|);
    assert |f| < |s| - 1 ==> s[1 + |f|] == t[1 + |f|];
    assert e == s[1..1 + |e|] == t[1..1 + |f|] == f;
    assert x == s[1 + |e|..] && y == t[1 + |f|..];
  }

  lemma OverlapIsComparable(a: string, b: string)
    requires Parse(a).Ok? && Parse(b).Ok?
    ensures Overlap(a, b) <==> Comparable(Parse(a).value, Parse(b).value)
  {
    var p, q := Parse(a).value, Parse(b).value;
    PrintParse(a);
    PrintParse(b);
    if p <= q { PrefixPrints(p, q); }
    if q <= p { PrefixPrints(q, p); }
    if a + "/" <= b { assert a + "/" <= b + "/"; PrintPrefix(p, q); }
    if b + "/" <= a { assert b + "/" <= a + "/"; PrintPrefix(q, p); }
  }
}
