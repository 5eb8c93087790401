/**
The part of Go's `strings` package that the components build on, over text as a
sequence of characters: splitting on newlines and joining again, trimming white
space, and looking for characters and substrings.
*/
module GoStrings {
  import opened Wrappers

  // ---------- Split and Join ----------

  /** strings.Split(s, "\n"). */
  function Split(s: string): (lines: seq<string>)
    ensures |lines| >= 1
  {
    if s == "" then [""] else Cons(s[0], Split(s[1..]))
  }

  /** The lines of a text from its first character and the lines of the rest. */
  function Cons(c: char, lines: seq<string>): (r: seq<string>)
    requires |lines| >= 1
    ensures |r| >= 1
  {
    if c == '\n' then [""] + lines else [[c] + lines[0]] + lines[1..]
  }

  /** strings.Join(lines, "\n"). */
  function Join(lines: seq<string>): string {
    if |lines| == 0 then ""
    else if |lines| == 1 then lines[0]
    else lines[0] + "\n" + Join(lines[1..])
  }

  predicate SingleLine(s: string) {
    '\n' !in s
  }

  lemma {:induction false} SplitLinesAreSingle(s: string)
    ensures forall l :: l in Split(s) ==> SingleLine(l)
  {
    if s != "" {
      SplitLinesAreSingle(s[1..]);
      var rest := Split(s[1..]);
      assert rest[0] in rest;
      assert forall l :: l in rest[1..] ==> l in rest;
    }
  }

  lemma {:induction false} JoinSplit(s: string)
    ensures Join(Split(s)) == s
  {
    if s != "" {
      JoinSplit(s[1..]);
      JoinCons(s[0], Split(s[1..]));
    }
  }

  lemma JoinCons(c: char, lines: seq<string>)
    requires |lines| >= 1
    ensures Join(Cons(c, lines)) == [c] + Join(lines)
  {
    if c == '\n' {
      JoinFront("", lines);
      assert "" + ("\n" + Join(lines)) == [c] + Join(lines);
    } else if |lines| > 1 {
      var tail := "\n" + Join(lines[1..]);
      JoinFront([c] + lines[0], lines[1..]);
      JoinFront(lines[0], lines[1..]);
      assert lines == [lines[0]] + lines[1..];
      AppendIsAssociative([c], lines[0], tail);
    }
  }

  lemma JoinFront(line: string, lines: seq<string>)
    requires |lines| >= 1
    ensures Join([line] + lines) == line + ("\n" + Join(lines))
  {
    var all := [line] + lines;
    assert all[0] == line && all[1..] == lines;
    AppendIsAssociative(line, "\n", Join(lines));
  }

  lemma AppendIsAssociative(x: string, y: string, z: string)
    ensures x + (y + z) == (x + y) + z
  {
  }

  lemma {:induction false} SplitSingle(l: string)
    requires SingleLine(l)
    ensures Split(l) == [l]
  {
    if l != "" {
      SplitSingle(l[1..]);
      assert [l[0]] + l[1..] == l;
    }
  }

  /** Two line lists as they meet in a concatenation: the last line of one runs on into the first of the other. */
  function Glue(x: seq<string>, y: seq<string>): (z: seq<string>)
    requires |x| >= 1 && |y| >= 1
    ensures |z| == |x| + |y| - 1
  {
    x[..|x| - 1] + [x[|x| - 1] + y[0]] + y[1..]
  }

  lemma GlueCons(c: char, x: seq<string>, y: seq<string>)
    requires |x| >= 1 && |y| >= 1
    ensures Glue(Cons(c, x), y) == Cons(c, Glue(x, y))
  {
    if c != '\n' && |x| == 1 {
      assert ([c] + x[0]) + y[0] == [c] + (x[0] + y[0]);
    }
  }

  lemma {:induction false} SplitConcat(a: string, b: string)
    ensures Split(a + b) == Glue(Split(a), Split(b))
  {
    if a == "" {
      assert a + b == b;
      assert "" + Split(b)[0] == Split(b)[0];
    } else {
      assert (a + b)[1..] == a[1..] + b;
      SplitConcat(a[1..], b);
      GlueCons(a[0], Split(a[1..]), Split(b));
    }
  }

  lemma {:induction false} SplitJoin(lines: seq<string>)
    requires |lines| >= 1
    requires forall l :: l in lines ==> SingleLine(l)
    ensures Split(Join(lines)) == lines
  {
    assert lines[0] in lines;
    SplitSingle(lines[0]);
    if |lines| > 1 {
      SplitJoin(lines[1..]);
      assert lines == [lines[0]] + lines[1..];
      JoinFront(lines[0], lines[1..]);
      AppendIsAssociative(lines[0], "\n", Join(lines[1..]));
      SplitAtNewline(lines[0], Join(lines[1..]));
    }
  }

  /** A newline ends one list of lines and begins another. */
  lemma SplitAtNewline(a: string, b: string)
    ensures Split(a + "\n" + b) == Split(a) + Split(b)
  {
    var x, y := Split(a), Split(b);
    SplitConcat(a, "\n" + b);
    assert a + "\n" + b == a + ("\n" + b) && ("\n" + b)[1..] == b;
    assert Split("\n" + b) == [""] + y;
    assert x[|x| - 1] + "" == x[|x| - 1];
    assert x == x[..|x| - 1] + [x[|x| - 1]];
  }

  predicate EndsLine(s: string) {
    s != "" && s[|s| - 1] == '\n'
  }

  /** What stands between two line ends is a line. */
  lemma LineBetween(a: string, l: string, b: string)
    requires SingleLine(l) && (a == "" || EndsLine(a))
    ensures l in Split(a + l + "\n" + b)
  {
    SplitAtNewline(a + l, b);
    if a == "" {
      assert a + l == l;
    } else {
      assert a + l == a[..|a| - 1] + "\n" + l;
      SplitAtNewline(a[..|a| - 1], l);
    }
    SplitSingle(l);
  }

  // ---------- White space ----------

  /** unicode.IsSpace. */
  predicate IsSpace(c: char) {
    '\t' <= c <= '\r' || c == ' ' || c == '\U{85}' || c == '\U{A0}' || c == '\U{1680}' ||
    '\U{2000}' <= c <= '\U{200A}' || c == '\U{2028}' || c == '\U{2029}' || c == '\U{202F}' ||
    c == '\U{205F}' || c == '\U{3000}'
  }

  /** No white space at either end. */
  predicate Trimmed(s: string) {
    s == "" || (!IsSpace(s[0]) && !IsSpace(s[|s| - 1]))
  }

  function TrimLeft(s: string): string {
    if s != "" && IsSpace(s[0]) then TrimLeft(s[1..]) else s
  }

  function TrimRight(s: string): string {
    if s != "" && IsSpace(s[|s| - 1]) then TrimRight(s[..|s| - 1]) else s
  }

  /** strings.TrimSpace. */
  function TrimSpace(s: string): string {
    TrimRight(TrimLeft(s))
  }

  lemma {:induction false} TrimLeftFacts(s: string)
    ensures var r := TrimLeft(s); |r| <= |s| && r == s[|s| - |r|..] && (r == "" || !IsSpace(r[0]))
  {
    if s != "" && IsSpace(s[0]) {
      TrimLeftFacts(s[1..]);
    }
  }

  lemma {:induction false} TrimRightFacts(s: string)
    ensures var r := TrimRight(s); |r| <= |s| && r == s[..|r|] && (r == "" || !IsSpace(r[|r| - 1]))
  {
    if s != "" && IsSpace(s[|s| - 1]) {
      TrimRightFacts(s[..|s| - 1]);
    }
  }

  /** What is left is trimmed, comes from the text, and is the text itself when that was trimmed already. */
  lemma TrimSpaceFacts(s: string)
    ensures Trimmed(TrimSpace(s))
    ensures Trimmed(s) ==> TrimSpace(s) == s
    ensures forall c :: c in TrimSpace(s) ==> c in s
  {
    TrimLeftFacts(s);
    TrimRightFacts(TrimLeft(s));
  }

  predicate AllSpace(s: string) {
    forall c :: c in s ==> IsSpace(c)
  }

  lemma {:induction false} TrimLeftDropsSpace(s: string) returns (a: string)
    ensures AllSpace(a) && s == a + TrimLeft(s)
  {
    a := "";
    if s != "" && IsSpace(s[0]) {
      a := TrimLeftDropsSpace(s[1..]);
      a := [s[0]] + a;
    }
  }

  lemma {:induction false} TrimRightDropsSpace(s: string) returns (b: string)
    ensures AllSpace(b) && s == TrimRight(s) + b
  {
    b := "";
    if s != "" && IsSpace(s[|s| - 1]) {
      b := TrimRightDropsSpace(s[..|s| - 1]);
      b := b + [s[|s| - 1]];
    }
  }

  lemma {:induction false} TrimLeftOf(a: string, t: string)
    requires AllSpace(a) && (t == "" || !IsSpace(t[0]))
    ensures TrimLeft(a + t) == t
  {
    if a == "" {
      assert a + t == t;
    } else {
      assert a[0] in a && (a + t)[1..] == a[1..] + t;
      TrimLeftOf(a[1..], t);
    }
  }

  lemma {:induction false} TrimRightOf(t: string, b: string)
    requires AllSpace(b) && (t == "" || !IsSpace(t[|t| - 1]))
    ensures TrimRight(t + b) == t
  {
    if b == "" {
      assert t + b == t;
    } else {
      assert b[|b| - 1] in b && (t + b)[..|t + b| - 1] == t + b[..|b| - 1];
      TrimRightOf(t, b[..|b| - 1]);
    }
  }

  /** `t` with white space around it. */
  ghost predicate Surrounded(s: string, t: string) {
    exists a, b :: AllSpace(a) && AllSpace(b) && s == a + t + b
  }

  /** Trimming gives the one trimmed text that white space surrounds. */
  lemma TrimSpaceIs(s: string, t: string)
    ensures TrimSpace(s) == t <==> Trimmed(t) && Surrounded(s, t)
  {
    if TrimSpace(s) == t {
      TrimSpaceFacts(s);
      var a := TrimLeftDropsSpace(s);
      var b := TrimRightDropsSpace(TrimLeft(s));
      AppendIsAssociative(a, t, b);
    } else if Trimmed(t) && Surrounded(s, t) {
      var a, b :| AllSpace(a) && AllSpace(b) && s == a + t + b;
      TrimSurrounded(a, t, b);
    }
  }

  lemma TrimSurrounded(a: string, t: string, b: string)
    requires AllSpace(a) && AllSpace(b) && Trimmed(t)
    ensures TrimSpace(a + t + b) == t
  {
    if t == "" {
      assert a + t + b == (a + b) + "" && AllSpace(a + b);
      TrimLeftOf(a + b, "");
    } else {
      assert a + t + b == a + (t + b) && (t + b)[0] == t[0];
      TrimLeftOf(a, t + b);
      TrimRightOf(t, b);
    }
  }

  /** len(s) - len(strings.TrimLeft(s, " ")). */
  function Indent(s: string): (n: nat)
    ensures n <= |s|
  {
    if s != "" && s[0] == ' ' then 1 + Indent(s[1..]) else 0
  }

  /** The indentation is the number of leading spaces. */
  lemma {:induction false} IndentIs(s: string, n: nat)
    ensures Indent(s) == n <==> n <= |s| && (forall i :: 0 <= i < n ==> s[i] == ' ') && (n < |s| ==> s[n] != ' ')
  {
    if s != "" && s[0] == ' ' && n > 0 {
      IndentIs(s[1..], n - 1);
      assert forall i :: 1 <= i < n <= |s| ==> s[i] == s[1..][i - 1];
    }
  }

  // ---------- Searching ----------

  predicate HasPrefix(s: string, p: string) {
    p <= s
  }

  predicate HasSuffix(s: string, p: string) {
    |p| <= |s| && s[|s| - |p|..] == p
  }

  /** strings.TrimSuffix. */
  function TrimSuffix(s: string, p: string): string {
    if HasSuffix(s, p) then s[..|s| - |p|] else s
  }

  /** Occurrence of `t` in `s` at position `i`. */
  predicate At(s: string, t: string, i: int) {
    0 <= i && i + |t| <= |s| && s[i..i + |t|] == t
  }

  /** strings.Contains. */
  predicate Contains(s: string, t: string) {
    exists i :: 0 <= i <= |s| && At(s, t, i)
  }

  lemma ContainsPart(x: string, t: string, y: string)
    ensures Contains(x + t + y, t)
  {
    assert At(x + t + y, t, |x|);
  }

  lemma ContainsWithin(x: string, s: string, y: string, t: string)
    requires Contains(s, t)
    ensures Contains(x + s + y, t)
  {
    var i :| 0 <= i <= |s| && At(s, t, i);
    assert (x + s + y)[|x| + i..|x| + i + |t|] == s[i..i + |t|];
    assert At(x + s + y, t, |x| + i);
  }

  lemma CoveredIsMember(s: string, t: string, i: int, n: int)
    requires At(s, t, i) && i <= n < i + |t|
    ensures s[n] in t
  {
    assert s[i..i + |t|][n - i] == s[n];
  }

  /** strings.Replace(s, old, new, 1). */
  function ReplaceFirst(s: string, old': string, new': string): string {
    if old' <= s then new' + s[|old'|..]
    else if s == "" then s
    else [s[0]] + ReplaceFirst(s[1..], old', new')
  }

  /** One replacement, seen as a seam in the text. */
  lemma {:induction false} ReplaceFirstSeam(s: string, old': string, new': string)
    returns (found: bool, a: string, b: string)
    ensures found <==> Contains(s, old')
    ensures found ==> s == a + old' + b && ReplaceFirst(s, old', new') == a + new' + b
    ensures found ==> forall q :: 0 <= q < |a| ==> !At(s, old', q)
    ensures !found ==> ReplaceFirst(s, old', new') == s
  {
    found, a, b := false, "", "";
    if old' <= s {
      found, b := true, s[|old'|..];
      assert At(s, old', 0);
      assert "" + old' + b == s && "" + new' + b == new' + b;
    } else if s != "" {
      found, a, b := ReplaceFirstSeam(s[1..], old', new');
      ContainsInTail(s, old');
      NoneBefore(s, old', if found then |a| else 0);
      assert s == [s[0]] + s[1..];
      PrependSeam(s[0], a, old', b);
      PrependSeam(s[0], a, new', b);
      a := [s[0]] + a;
    }
  }

  lemma NoneBefore(s: string, t: string, n: nat)
    requires s != "" && !(t <= s) && forall q :: 0 <= q < n ==> !At(s[1..], t, q)
    ensures forall q :: 0 <= q < n + 1 ==> !At(s, t, q)
  {
    forall q | 0 <= q < n + 1 ensures !At(s, t, q) {
      if q > 0 {
        ShiftedOccurrence(s, t, q);
      }
    }
  }

  lemma ShiftedOccurrence(s: string, t: string, q: int)
    requires s != "" && q > 0
    ensures At(s, t, q) <==> At(s[1..], t, q - 1)
  {
    if q + |t| <= |s| {
      assert s[1..][q - 1..q - 1 + |t|] == s[q..q + |t|];
    }
  }

  lemma PrependSeam(c: char, a: string, mid: string, b: string)
    ensures [c] + (a + mid + b) == ([c] + a) + mid + b
  {
  }

  lemma ContainsInTail(s: string, t: string)
    requires s != "" && !(t <= s)
    ensures Contains(s, t) <==> Contains(s[1..], t)
  {
    forall i | 0 < i <= |s| ensures At(s, t, i) <==> At(s[1..], t, i - 1) {
      if i + |t| <= |s| {
        assert s[1..][i - 1..i - 1 + |t|] == s[i..i + |t|];
      }
    }
    if i :| 0 <= i <= |s| && At(s, t, i) {
      assert At(s[1..], t, i - 1);
    }
    if i :| 0 <= i <= |s[1..]| && At(s[1..], t, i) {
      assert At(s, t, i + 1);
    }
  }

  /** The position of the first `c` in `s`, as strings.Index gives it for a one-character needle. */
  function IndexOf(s: string, c: char): Option<nat> {
    if s == "" then None
    else if s[0] == c then Some(0)
    else match IndexOf(s[1..], c)
      case None => None
      case Some(k) => Some(k + 1)
  }

  lemma {:induction false} IndexOfFacts(s: string, c: char)
    ensures IndexOf(s, c).None? <==> c !in s
    ensures IndexOf(s, c).Some? ==>
      IndexOf(s, c).value < |s| && s[IndexOf(s, c).value] == c && c !in s[..IndexOf(s, c).value]
  {
    if s != "" && s[0] != c {
      IndexOfFacts(s[1..], c);
      if IndexOf(s, c).Some? {
        var k := IndexOf(s, c).value;
        assert s[..k] == [s[0]] + s[1..][..k - 1];
      }
    }
  }

  lemma {:induction false} IndexOfFirst(a: string, c: char, b: string)
    requires c !in a
    ensures IndexOf(a + [c] + b, c) == Some(|a|)
  {
    if a != "" {
      IndexOfFirst(a[1..], c, b);
      assert (a + [c] + b)[1..] == a[1..] + [c] + b;
    }
  }

  /** strings.ToLower on ASCII letters. */
  function ToLower(s: string): string {
    if s == "" then ""
    else [if 'A' <= s[0] <= 'Z' then s[0] - 'A' + 'a' else s[0]] + ToLower(s[1..])
  }

  /** ASCII capitals become small letters, in place; all else stays. */
  lemma {:induction false} ToLowerIs(s: string)
    ensures |ToLower(s)| == |s|
    ensures forall i :: 0 <= i < |s| ==>
      ToLower(s)[i] == if 'A' <= s[i] <= 'Z' then s[i] + ('a' - 'A') else s[i]
  {
    if s != "" {
      ToLowerIs(s[1..]);
    }
  }
}
