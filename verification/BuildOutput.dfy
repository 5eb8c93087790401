/**
Output of a build command: it arrives in arbitrary pieces, is masked piece by
piece, cut into lines and passed on to the log. Characters stand for bytes here.
*/
module BuildOutput {
  import opened GoStrings

  // ---------- Masking ----------

  /** strings.ReplaceAll with a non-empty needle: leftmost occurrences, left to right, not overlapping. */
  function ReplaceAll(s: string, old': string, new': string): string
    requires old' != ""
  {
    if s == "" then ""
    else if old' <= s then new' + ReplaceAll(s[|old'|..], old', new')
    else [s[0]] + ReplaceAll(s[1..], old', new')
  }

  const STARS := "***"

  function MaskToken(s: string, token: string): string {
    if token == "" then s else ReplaceAll(s, token, STARS)
  }

  /** What the replacement does, one step after the other: it copies a character or puts in the mask. */
  datatype Sym = Copy(c: char) | Mask

  function Trace(s: string, token: string): seq<Sym>
    requires token != ""
  {
    if s == "" then []
    else if token <= s then [Mask] + Trace(s[|token|..], token)
    else [Copy(s[0])] + Trace(s[1..], token)
  }

  function Show(trace: seq<Sym>): string {
    if trace == [] then "" else (if trace[0].Mask? then STARS else [trace[0].c]) + Show(trace[1..])
  }

  lemma {:induction false} MaskedIsShown(s: string, token: string)
    requires token != ""
    ensures MaskToken(s, token) == Show(Trace(s, token))
    decreases |s|
  {
    if s != "" {
      MaskedIsShown(s[if token <= s then |token| else 1..], token);
    }
  }

  function Copies(s: string): (r: seq<Sym>)
    ensures |r| == |s| && forall i :: 0 <= i < |s| ==> r[i] == Copy(s[i])
  {
    seq(|s|, i requires 0 <= i < |s| => Copy(s[i]))
  }

  /** From step `i` on the token is copied character by character. */
  predicate CopiedAt(trace: seq<Sym>, token: string, i: int) {
    0 <= i && i + |token| <= |trace| && forall k :: 0 <= k < |token| ==> trace[i + k] == Copy(token[k])
  }

  /** The masks cannot take part in the token, neither as a whole nor at its ends. */
  predicate Unforgeable(token: string) {
    token != "" && token[0] != '*' && token[|token| - 1] != '*' && !Contains(token, STARS)
  }

  lemma OccurrenceShifts(pre: string, r: string, t: string, p: int)
    requires p >= |pre|
    ensures At(pre + r, t, p) <==> At(r, t, p - |pre|)
  {
  }

  /** A beginning of the shown text in which no mask takes part was copied. */
  lemma {:induction false} PrefixIsCopied(trace: seq<Sym>, t: string)
    requires t <= Show(trace) && (t == "" || t[|t| - 1] != '*') && !Contains(t, STARS)
    ensures CopiedAt(trace, t, 0)
  {
    if t != "" {
      if trace[0].Mask? {
        MaskIsNoPart(t, Show(trace[1..]));
      } else {
        assert Show(trace) == [trace[0].c] + Show(trace[1..]);
        assert t[1..] <= Show(trace)[1..];
        TailHasNoStars(t);
        PrefixIsCopied(trace[1..], t[1..]);
        forall k | 0 <= k < |t| ensures trace[0 + k] == Copy(t[k]) {
          assert k > 0 ==> trace[1..][0 + (k - 1)] == Copy(t[1..][k - 1]);
        }
      }
    }
  }

  lemma MaskIsNoPart(t: string, rest: string)
    requires t != "" && t <= STARS + rest
    ensures t[|t| - 1] == '*' || Contains(t, STARS)
  {
    if |t| >= 3 {
      assert t[..3] == (STARS + rest)[..3];
      assert At(t, STARS, 0);
    } else {
      assert t[|t| - 1] == (STARS + rest)[|t| - 1];
    }
  }

  lemma TailHasNoStars(t: string)
    requires t != "" && !Contains(t, STARS)
    ensures !Contains(t[1..], STARS)
  {
    if i :| 0 <= i <= |t[1..]| && At(t[1..], STARS, i) {
      assert t[1 + i..1 + i + 3] == t[1..][i..i + 3];
      assert At(t, STARS, i + 1);
    }
  }

  /** Where an unforgeable token is seen, it was copied. */
  lemma {:induction false} SeenIsCopied(trace: seq<Sym>, token: string, p: int) returns (i: int)
    requires Unforgeable(token) && At(Show(trace), token, p)
    ensures CopiedAt(trace, token, i)
  {
    assert trace != [];
    var first := if trace[0].Mask? then STARS else [trace[0].c];
    assert Show(trace) == first + Show(trace[1..]);
    if p >= |first| {
      OccurrenceShifts(first, Show(trace[1..]), token, p);
      i := SeenIsCopied(trace[1..], token, p - |first|);
      CopiedShifts(trace, token, i);
      i := i + 1;
    } else {
      SeenAtStart(first, Show(trace[1..]), token, p);
      PrefixIsCopied(trace, token);
      i := 0;
    }
  }

  lemma CopiedShifts(trace: seq<Sym>, token: string, i: int)
    requires trace != [] && i >= 0
    ensures CopiedAt(trace[1..], token, i) <==> CopiedAt(trace, token, i + 1)
  {
    if CopiedAt(trace[1..], token, i) {
      forall k | 0 <= k < |token| ensures trace[i + 1 + k] == Copy(token[k]) {
        assert trace[1..][i + k] == Copy(token[k]);
      }
    } else if CopiedAt(trace, token, i + 1) {
      forall k | 0 <= k < |token| ensures trace[1..][i + k] == Copy(token[k]) {
        assert trace[i + 1 + k] == Copy(token[k]);
      }
    }
  }

  lemma SeenAtStart(first: string, rest: string, token: string, p: int)
    requires token != "" && token[0] != '*' && At(first + rest, token, p) && p < |first|
    requires first == STARS || |first| == 1
    ensures p == 0 && token <= first + rest
  {
    assert (first + rest)[p..p + |token|][0] == first[p];
  }

  lemma {:induction false} CopiedIsSeen(trace: seq<Sym>, token: string, i: int)
    requires token != "" && CopiedAt(trace, token, i)
    ensures Contains(Show(trace), token)
  {
    ShowConcat(trace[..i], trace[i..]);
    ShowConcat(trace[i..i + |token|], trace[i + |token|..]);
    assert trace == trace[..i] + trace[i..] && trace[i..] == trace[i..i + |token|] + trace[i + |token|..];
    assert trace[i..i + |token|] == Copies(token);
    ShowCopies(token);
    var a, b := Show(trace[..i]), Show(trace[i + |token|..]);
    assert Show(trace) == a + token + b;
    ContainsPart(a, token, b);
  }

  lemma {:induction false} ShowConcat(a: seq<Sym>, b: seq<Sym>)
    ensures Show(a + b) == Show(a) + Show(b)
  {
    if a == [] {
      assert a + b == b;
    } else {
      assert (a + b)[1..] == a[1..] + b;
      ShowConcat(a[1..], b);
    }
  }

  lemma {:induction false} ShowCopies(s: string)
    ensures Show(Copies(s)) == s
  {
    if s != "" {
      assert Copies(s)[1..] == Copies(s[1..]);
      ShowCopies(s[1..]);
    }
  }

  /** The scan copies no occurrence of the token: it would have replaced it. */
  lemma {:induction false} TokenIsNeverCopied(s: string, token: string, i: int)
    requires token != ""
    ensures !CopiedAt(Trace(s, token), token, i)
    decreases |s|
  {
    if CopiedAt(Trace(s, token), token, i) {
      if i > 0 {
        CopiedShifts(Trace(s, token), token, i - 1);
        TokenIsNeverCopied(s[if token <= s then |token| else 1..], token, i - 1);
      } else {
        assert Trace(s, token)[0 + 0] == Copy(token[0]);
        CopiedPrefix(s, token, token);
      }
    }
  }

  lemma {:induction false} CopiedPrefix(s: string, token: string, t: string)
    requires token != "" && CopiedAt(Trace(s, token), t, 0)
    ensures t <= s
  {
    if t != "" {
      var trace := Trace(s, token);
      assert trace[0 + 0] == Copy(t[0]);
      forall k | 0 <= k < |t[1..]| ensures trace[1..][0 + k] == Copy(t[1..][k]) {
        assert trace[0 + (k + 1)] == Copy(t[k + 1]);
      }
      CopiedPrefix(s[1..], token, t[1..]);
    }
  }

  /** An unforgeable token occurs nowhere in the masked text. */
  lemma MaskedHasNoToken(s: string, token: string)
    requires Unforgeable(token)
    ensures !Contains(MaskToken(s, token), token)
  {
    MaskedIsShown(s, token);
    if p :| 0 <= p <= |MaskToken(s, token)| && At(MaskToken(s, token), token, p) {
      var i := SeenIsCopied(Trace(s, token), token, p);
      TokenIsNeverCopied(s, token, i);
    }
  }

  lemma MaskHit(token: string, b: string)
    requires token != ""
    ensures MaskToken(token + b, token) == STARS + MaskToken(b, token)
  {
    assert (token + b)[|token|..] == b;
  }

  lemma MaskMiss(c: char, rest: string, token: string)
    requires token != "" && !(token <= [c] + rest)
    ensures MaskToken([c] + rest, token) == [c] + MaskToken(rest, token)
  {
    assert ([c] + rest)[1..] == rest;
  }

  /** Without an occurrence nothing is replaced; with MaskFirst this says what masking is. */
  lemma {:induction false} MaskNothing(s: string, token: string)
    requires token != "" && !Contains(s, token)
    ensures MaskToken(s, token) == s
  {
    if s != "" {
      PrefixIsAt(s, token);
      ContainsInTail(s, token);
      MaskNothing(s[1..], token);
    }
  }

  lemma PrefixIsAt(s: string, t: string)
    ensures t <= s <==> At(s, t, 0)
  {
  }

  /** The replacement up to and including the first occurrence. */
  lemma {:induction false} MaskFirst(a: string, token: string, b: string)
    requires token != "" && forall q :: 0 <= q < |a| ==> !At(a + (token + b), token, q)
    ensures MaskToken(a + (token + b), token) == a + (STARS + MaskToken(b, token))
    decreases |a|
  {
    if a == "" {
      assert a + (token + b) == token + b;
      MaskHit(token, b);
    } else {
      var rest := a[1..] + (token + b);
      assert a + (token + b) == [a[0]] + rest;
      forall q | 0 <= q < |a[1..]| ensures !At(rest, token, q) {
        OccurrenceShifts([a[0]], rest, token, q + 1);
      }
      PrefixIsAt(a + (token + b), token);
      MaskMiss(a[0], rest, token);
      MaskFirst(a[1..], token, b);
      AppendIsAssociative([a[0]], a[1..], STARS + MaskToken(b, token));
      assert [a[0]] + a[1..] == a;
    }
  }

  /** A token that begins with a star grows back from the end of a mask. */
  lemma FirstStarSurvives(token: string)
    requires token != "" && token[0] == '*'
    ensures Contains(MaskToken(token + token[1..], token), token)
  {
    var s := token + token[1..];
    assert s[..|token|] == token && s[|token|..] == token[1..];
    ShortIsUnmasked(token[1..], token);
    assert MaskToken(s, token) == STARS + token[1..] == "**" + token + "";
    ContainsPart("**", token, "");
  }

  lemma OverlapStartsWithLast(token: string, q: nat)
    requires token != "" && q < |token| - 1 && At(token[..|token| - 1] + token, token, q)
    ensures token[0] == token[|token| - 1]
  {
    var n, s := |token| - 1, token[..|token| - 1] + token;
    assert s[q..q + |token|][0] == s[q] == token[q];
    assert s[q..q + |token|][n] == s[n + q] == token[q];
  }

  /** A token that ends with a star grows back into the beginning of a mask. */
  lemma LastStarSurvives(token: string)
    requires token != "" && token[0] != '*' && token[|token| - 1] == '*'
    ensures Contains(MaskToken(token[..|token| - 1] + token, token), token)
  {
    var u := token[..|token| - 1];
    assert u + (token + "") == u + token;
    forall q | 0 <= q < |u| ensures !At(u + (token + ""), token, q) {
      if At(u + token, token, q) {
        OverlapStartsWithLast(token, q);
      }
    }
    MaskFirst(u, token, "");
    assert u + (STARS + "") == "" + token + "**";
    ContainsPart("", token, "**");
  }

  lemma OverlapHasEarlierStars(token: string, k: nat, v: string, q: nat)
    requires At(token, STARS, k) && q < k && At(token[..k] + (token + v), token, q)
    ensures At(token, STARS, q)
  {
    var s := token[..k] + (token + v);
    assert token[k..k + 3] == s[q..q + |token|][k..k + 3];
    assert s[q..q + |token|][k..k + 3] == s[q + k..q + k + 3];
    assert s[q + k..q + k + 3] == token[q..q + 3];
  }

  lemma SplitAround(token: string, k: nat)
    requires At(token, STARS, k)
    ensures token == token[..k] + (STARS + token[k + 3..])
  {
    assert token == token[..k] + (token[k..k + 3] + token[k + 3..]);
  }

  /** A token with three stars inside grows back around a mask. */
  lemma InnerStarsSurvive(token: string, k: nat)
    requires At(token, STARS, k) && forall q :: 0 <= q < k ==> !At(token, STARS, q)
    ensures MaskToken(token[..k] + (token + token[k + 3..]), token) == token
  {
    var u, v := token[..k], token[k + 3..];
    forall q | 0 <= q < |u| ensures !At(u + (token + v), token, q) {
      if At(u + (token + v), token, q) {
        OverlapHasEarlierStars(token, k, v, q);
      }
    }
    MaskFirst(u, token, v);
    ShortIsUnmasked(v, token);
    SplitAround(token, k);
  }

  lemma {:induction false} FirstOccurrence(s: string, t: string, n: nat) returns (k: nat)
    requires At(s, t, n)
    ensures At(s, t, k) && forall q :: 0 <= q < k ==> !At(s, t, q)
  {
    if q :| 0 <= q < n && At(s, t, q) {
      k := FirstOccurrence(s, t, q);
    } else {
      k := n;
    }
  }

  /** Each other token survives in some text. */
  lemma Survivor(token: string) returns (s: string)
    requires token != "" && !Unforgeable(token)
    ensures Contains(MaskToken(s, token), token)
  {
    if token[0] == '*' {
      s := token + token[1..];
      FirstStarSurvives(token);
    } else if token[|token| - 1] == '*' {
      s := token[..|token| - 1] + token;
      LastStarSurvives(token);
    } else {
      var n :| 0 <= n <= |token| && At(token, STARS, n);
      var k := FirstOccurrence(token, STARS, n);
      s := token[..k] + (token + token[k + 3..]);
      InnerStarsSurvive(token, k);
      PrefixIsAt(token, token);
    }
  }

  /** Masking keeps its promise for every text exactly when the token is unforgeable. */
  lemma MaskingIsSafe(token: string)
    requires token != ""
    ensures (forall s :: !Contains(MaskToken(s, token), token)) <==> Unforgeable(token)
  {
    if Unforgeable(token) {
      forall s ensures !Contains(MaskToken(s, token), token) {
        MaskedHasNoToken(s, token);
      }
    } else {
      var s := Survivor(token);
    }
  }

  // ---------- Masking piece by piece ----------

  function Concat(parts: seq<string>): string {
    if parts == [] then "" else parts[0] + Concat(parts[1..])
  }

  function MaskEach(pieces: seq<string>, token: string): (r: seq<string>)
    ensures |r| == |pieces|
  {
    if pieces == [] then [] else [MaskToken(pieces[0], token)] + MaskEach(pieces[1..], token)
  }

  /** The left-to-right replacement of `s` has position `n` between two of its steps. */
  predicate Boundary(s: string, token: string, n: nat)
    requires token != "" && n <= |s|
    decreases |s|
  {
    n == 0 ||
    if token <= s then |token| <= n && Boundary(s[|token|..], token, n - |token|)
    else Boundary(s[1..], token, n - 1)
  }

  /** No replacement of the whole output runs across a cut between two pieces. */
  predicate Aligned(pieces: seq<string>, token: string)
    requires token != ""
  {
    pieces == [] || (Boundary(Concat(pieces), token, |pieces[0]|) && Aligned(pieces[1..], token))
  }

  /** One step of the replacement of `a + b` that falls within `a`: an occurrence, or a single character. */
  lemma HitInFirst(a: string, b: string, token: string)
    requires token != "" && token <= a + b && |token| <= |a|
    ensures Trace(a + b, token) == [Mask] + Trace(a[|token|..] + b, token)
    ensures Trace(a, token) == [Mask] + Trace(a[|token|..], token)
    ensures Boundary(a + b, token, |a|) <==> Boundary(a[|token|..] + b, token, |a| - |token|)
  {
    assert (a + b)[..|token|] == a[..|token|] && (a + b)[|token|..] == a[|token|..] + b;
  }

  lemma MissInFirst(a: string, b: string, token: string)
    requires token != "" && a != "" && !(token <= a + b)
    ensures Trace(a + b, token) == [Copy(a[0])] + Trace(a[1..] + b, token)
    ensures Trace(a, token) == [Copy(a[0])] + Trace(a[1..], token)
    ensures Boundary(a + b, token, |a|) <==> Boundary(a[1..] + b, token, |a| - 1)
  {
    assert (a + b)[1..] == a[1..] + b;
    assert |token| <= |a| ==> (a + b)[..|token|] == a[..|token|];
  }

  lemma {:induction false} TraceAtBoundary(a: string, b: string, token: string)
    requires token != "" && Boundary(a + b, token, |a|)
    ensures Trace(a + b, token) == Trace(a, token) + Trace(b, token)
    decreases |a|
  {
    if a == "" {
      assert a + b == b;
    } else if token <= a + b {
      HitInFirst(a, b, token);
      TraceAtBoundary(a[|token|..], b, token);
    } else {
      MissInFirst(a, b, token);
      TraceAtBoundary(a[1..], b, token);
    }
  }

  /** Across a replacement the first piece takes another step than the whole, whatever follows it. */
  lemma {:induction false} StraddleTakesOtherSteps(a: string, b: string, token: string, x: seq<Sym>)
    requires token != "" && !Boundary(a + b, token, |a|)
    ensures Trace(a + b, token) != Trace(a, token) + x
    decreases |a|
  {
    if token <= a + b && |token| > |a| {
      assert Trace(a + b, token)[0] == Mask;
      assert (Trace(a, token) + x)[0] == Copy(a[0]);
    } else if token <= a + b {
      HitInFirst(a, b, token);
      StraddleTakesOtherSteps(a[|token|..], b, token, x);
      SameFirstStep(Mask, Trace(a[|token|..] + b, token), Trace(a[|token|..], token), x);
    } else {
      MissInFirst(a, b, token);
      StraddleTakesOtherSteps(a[1..], b, token, x);
      SameFirstStep(Copy(a[0]), Trace(a[1..] + b, token), Trace(a[1..], token), x);
    }
  }

  lemma SameFirstStep(first: Sym, whole: seq<Sym>, part: seq<Sym>, x: seq<Sym>)
    ensures [first] + whole == [first] + part + x ==> whole == part + x
  {
    assert ([first] + whole)[1..] == whole && ([first] + part + x)[1..] == part + x;
  }

  lemma MaskAtBoundary(a: string, b: string, token: string)
    requires token != "" && Boundary(a + b, token, |a|)
    ensures MaskToken(a + b, token) == MaskToken(a, token) + MaskToken(b, token)
  {
    TraceAtBoundary(a, b, token);
    ShowConcat(Trace(a, token), Trace(b, token));
    MaskedIsShown(a + b, token);
    MaskedIsShown(a, token);
    MaskedIsShown(b, token);
  }

  lemma {:induction false} ShortIsUnmasked(s: string, token: string)
    requires |s| < |token|
    ensures MaskToken(s, token) == s
  {
    if s != "" {
      ShortIsUnmasked(s[1..], token);
    }
  }

  /** Across a replacement the first piece cannot be masked on its own, whatever follows it. */
  lemma {:induction false} StraddleShows(a: string, b: string, token: string, x: string)
    requires token != "" && token[0] != '*' && !Boundary(a + b, token, |a|)
    ensures MaskToken(a + b, token) != MaskToken(a, token) + x
    decreases |a|
  {
    if token <= a + b && |token| > |a| {
      CutTokenShows(a, b, token, x);
    } else if token <= a + b {
      HitInFirst(a, b, token);
      StraddleShows(a[|token|..], b, token, x);
      DifferenceStays(a, b, |token|, token, Mask, x);
    } else {
      MissInFirst(a, b, token);
      StraddleShows(a[1..], b, token, x);
      DifferenceStays(a, b, 1, token, Copy(a[0]), x);
    }
  }

  lemma CutTokenShows(a: string, b: string, token: string, x: string)
    requires token != "" && token[0] != '*' && a != "" && token <= a + b && |token| > |a|
    ensures MaskToken(a + b, token) != MaskToken(a, token) + x
  {
    ShortIsUnmasked(a, token);
    assert token[0] == (a + b)[0] == a[0] == (a + x)[0];
    assert MaskToken(a + b, token)[0] == '*';
  }

  lemma DifferenceStays(a: string, b: string, n: nat, token: string, step: Sym, x: string)
    requires token != "" && 0 < n <= |a|
    requires Trace(a + b, token) == [step] + Trace(a[n..] + b, token) &&
      Trace(a, token) == [step] + Trace(a[n..], token)
    requires MaskToken(a[n..] + b, token) != MaskToken(a[n..], token) + x
    ensures MaskToken(a + b, token) != MaskToken(a, token) + x
  {
    var first := MasksGoOn(a, b, n, token, step);
    var whole, part := MaskToken(a[n..] + b, token), MaskToken(a[n..], token);
    SameFirstPart(first, whole, part, x);
  }

  /** After a first step that both take, the masked texts go on alike. */
  lemma MasksGoOn(a: string, b: string, n: nat, token: string, step: Sym) returns (first: string)
    requires token != "" && 0 < n <= |a|
    requires Trace(a + b, token) == [step] + Trace(a[n..] + b, token) &&
      Trace(a, token) == [step] + Trace(a[n..], token)
    ensures MaskToken(a + b, token) == first + MaskToken(a[n..] + b, token)
    ensures MaskToken(a, token) == first + MaskToken(a[n..], token)
  {
    first := Show([step]);
    MaskedIsShown(a + b, token);
    MaskedIsShown(a[n..] + b, token);
    MaskedIsShown(a, token);
    MaskedIsShown(a[n..], token);
    ShowConcat([step], Trace(a[n..] + b, token));
    ShowConcat([step], Trace(a[n..], token));
  }

  lemma SameFirstPart(first: string, whole: string, part: string, x: string)
    ensures first + whole == first + part + x ==> whole == part + x
  {
    assert first + part + x == first + (part + x);
    DropEqualPrefix(first, whole, part + x);
  }

  lemma DropEqualPrefix(p: string, x: string, y: string)
    ensures p + x == p + y ==> x == y
  {
    assert (p + x)[|p|..] == x && (p + y)[|p|..] == y;
  }

  /** The steps of masking the pieces one by one. */
  function TraceEach(pieces: seq<string>, token: string): seq<Sym>
    requires token != ""
  {
    if pieces == [] then [] else Trace(pieces[0], token) + TraceEach(pieces[1..], token)
  }

  lemma {:induction false} OutputIsShown(pieces: seq<string>, token: string)
    requires token != ""
    ensures Concat(MaskEach(pieces, token)) == Show(TraceEach(pieces, token))
  {
    if pieces != [] {
      assert MaskEach(pieces, token)[1..] == MaskEach(pieces[1..], token);
      MaskedIsShown(pieces[0], token);
      OutputIsShown(pieces[1..], token);
      ShowConcat(Trace(pieces[0], token), TraceEach(pieces[1..], token));
    }
  }

  /**
  Whatever the token: masking the pieces one by one takes the steps of masking the whole exactly when no
  replacement runs across a cut.
  */
  lemma {:induction false} PiecewiseSteps(pieces: seq<string>, token: string)
    requires token != ""
    ensures TraceEach(pieces, token) == Trace(Concat(pieces), token) <==> Aligned(pieces, token)
  {
    if pieces != [] {
      var a, b, rest := pieces[0], Concat(pieces[1..]), TraceEach(pieces[1..], token);
      PiecewiseSteps(pieces[1..], token);
      if Boundary(a + b, token, |a|) {
        TraceAtBoundary(a, b, token);
        assert (Trace(a, token) + rest)[|Trace(a, token)|..] == rest;
        assert (Trace(a, token) + Trace(b, token))[|Trace(a, token)|..] == Trace(b, token);
      } else {
        StraddleTakesOtherSteps(a, b, token, rest);
      }
    }
  }

  /** Then both give the same text. */
  lemma AlignedMasking(pieces: seq<string>, token: string)
    requires token != "" && Aligned(pieces, token)
    ensures Concat(MaskEach(pieces, token)) == MaskToken(Concat(pieces), token)
  {
    PiecewiseSteps(pieces, token);
    OutputIsShown(pieces, token);
    MaskedIsShown(Concat(pieces), token);
  }

  /** And otherwise another one, unless the token begins like a mask. */
  lemma {:induction false} PiecewiseMasking(pieces: seq<string>, token: string)
    requires token != "" && token[0] != '*'
    ensures Concat(MaskEach(pieces, token)) == MaskToken(Concat(pieces), token) <==> Aligned(pieces, token)
  {
    if pieces != [] {
      var a, b, rest := pieces[0], Concat(pieces[1..]), Concat(MaskEach(pieces[1..], token));
      assert MaskEach(pieces, token)[1..] == MaskEach(pieces[1..], token);
      PiecewiseMasking(pieces[1..], token);
      if Boundary(a + b, token, |a|) {
        MaskAtBoundary(a, b, token);
        DropEqualPrefix(MaskToken(a, token), rest, MaskToken(b, token));
      } else {
        StraddleShows(a, b, token, rest);
      }
    }
  }

  /** A token that begins with a star can give the same text although a replacement runs across the cut. */
  lemma StarTokenMayAgree()
    ensures Concat(MaskEach(["*", "**"], "**")) == "****" == MaskToken(Concat(["*", "**"]), "**")
    ensures !Aligned(["*", "**"], "**")
  {
    var whole := "*" + "**";
    assert "**" + "" == "**" && "**"[2..] == "" && whole == "**" + "*" && whole[2..] == "*";
    TwoPieces("*", "**", "**");
    assert Concat(["*", "**"]) == "*" + Concat(["**"]) == whole;
    ShortIsUnmasked("*", "**");
    assert MaskToken("**", "**") == STARS;
    assert MaskToken(whole, "**") == STARS + "*";
    assert !Boundary(whole, "**", 1);
  }

  /** No occurrence of the token, replaced or not, lies across a cut. */
  ghost predicate NoStraddle(pieces: seq<string>, token: string) {
    forall k, p {:trigger At(Concat(pieces), token, p), Concat(pieces[..k])} ::
      0 <= k <= |pieces| && At(Concat(pieces), token, p) ==> !(p < |Concat(pieces[..k])| < p + |token|)
  }

  lemma {:induction false} NoStraddleIsBoundary(s: string, token: string, n: nat)
    requires token != "" && n <= |s|
    requires forall p :: At(s, token, p) ==> !(p < n < p + |token|)
    ensures Boundary(s, token, n)
    decreases |s|
  {
    if n > 0 {
      var step := if token <= s then |token| else 1;
      assert token <= s ==> At(s, token, 0);
      forall p | At(s[step..], token, p) ensures !(p < n - step < p + |token|) {
        OccurrenceShifts(s[..step], s[step..], token, p + step);
        assert s[..step] + s[step..] == s;
        assert At(s, token, p + step);
      }
      NoStraddleIsBoundary(s[step..], token, n - step);
    }
  }

  lemma {:induction false} NoStraddleIsAligned(pieces: seq<string>, token: string)
    requires token != "" && NoStraddle(pieces, token)
    ensures Aligned(pieces, token)
  {
    if pieces != [] {
      var whole, first, rest := Concat(pieces), pieces[0], Concat(pieces[1..]);
      assert pieces[..1] == [first] && Concat(pieces[..1]) == first + "" == first;
      NoStraddleIsBoundary(whole, token, |first|);
      forall k, p | 0 <= k <= |pieces[1..]| && At(rest, token, p)
        ensures !(p < |Concat(pieces[1..][..k])| < p + |token|)
      {
        OccurrenceShifts(first, rest, token, p + |first|);
        assert At(whole, token, p + |first|);
        assert pieces[..k + 1][1..] == pieces[1..][..k];
        assert |Concat(pieces[..k + 1])| == |first| + |Concat(pieces[1..][..k])|;
      }
      NoStraddleIsAligned(pieces[1..], token);
    }
  }

  /** Whatever the token: when none of its occurrences is cut, masking the pieces masks the whole output. */
  lemma UncutTokenMasksAlike(pieces: seq<string>, token: string)
    requires token != "" && NoStraddle(pieces, token)
    ensures Concat(MaskEach(pieces, token)) == MaskToken(Concat(pieces), token)
  {
    NoStraddleIsAligned(pieces, token);
    AlignedMasking(pieces, token);
  }

  lemma TwoPieces(a: string, b: string, token: string)
    ensures Concat(MaskEach([a, b], token)) == MaskToken(a, token) + MaskToken(b, token)
  {
    assert [a, b][1..] == [b];
    assert MaskEach([a, b], token)[1..] == MaskEach([b], token) == [MaskToken(b, token)];
    assert Concat([MaskToken(b, token)]) == MaskToken(b, token) + "";
  }

  /** A token cut anywhere between its characters comes through in full. */
  lemma CutTokenLeaks(token: string, k: nat)
    requires 0 < k < |token|
    ensures Concat(MaskEach([token[..k], token[k..]], token)) == token
  {
    ShortIsUnmasked(token[..k], token);
    ShortIsUnmasked(token[k..], token);
    TwoPieces(token[..k], token[k..], token);
  }

  // ---------- Lines ----------

  function NonEmpty(lines: seq<string>): seq<string> {
    if lines == [] then []
    else NonEmpty(lines[..|lines| - 1]) + if lines[|lines| - 1] != "" then [lines[|lines| - 1]] else []
  }

  lemma {:induction false} NonEmptyConcat(a: seq<string>, b: seq<string>)
    ensures NonEmpty(a + b) == NonEmpty(a) + NonEmpty(b)
    ensures forall l :: NonEmpty([l]) == if l != "" then [l] else []
  {
    if b == [] {
      assert a + b == a;
    } else {
      assert (a + b)[..|a + b| - 1] == a + b[..|b| - 1];
      NonEmptyConcat(a, b[..|b| - 1]);
    }
  }

  function Last(lines: seq<string>): string
    requires lines != []
  {
    lines[|lines| - 1]
  }

  function Front(lines: seq<string>): seq<string>
    requires lines != []
  {
    lines[..|lines| - 1]
  }

  lemma GlueFront(x: seq<string>, y: seq<string>)
    requires x != [] && y != []
    ensures Glue(x, y) == Front(x) + Glue([Last(x)], y)
  {
  }

  lemma SplitMore(out: string, chunk: string)
    ensures Split(out + chunk) == Front(Split(out)) + Split(Last(Split(out)) + chunk)
  {
    SplitLinesAreSingle(out);
    assert Last(Split(out)) in Split(out);
    SplitSingle(Last(Split(out)));
    SplitConcat(out, chunk);
    SplitConcat(Last(Split(out)), chunk);
    GlueFront(Split(out), Split(chunk));
  }

  /** Lines kept so far, and the unfinished line, after one more chunk. */
  lemma OneMoreChunk(out: string, chunk: string)
    ensures
      var before, combined, after := Split(out), Split(Last(Split(out)) + chunk), Split(out + chunk);
      Last(after) == Last(combined) && NonEmpty(Front(after)) == NonEmpty(Front(before)) + NonEmpty(Front(combined))
  {
    var before, combined := Split(out), Split(Last(Split(out)) + chunk);
    SplitMore(out, chunk);
    assert Front(Front(before) + combined) == Front(before) + Front(combined);
    NonEmptyConcat(Front(before), Front(combined));
  }

  /** The inner loop over the lines of the accumulated text: complete lines are logged, the last one is kept. */
  method LogLines(logged: seq<string>, lines: seq<string>) returns (logged': seq<string>, lineAccum: string)
    requires lines != []
    ensures logged' == logged + NonEmpty(Front(lines))
    ensures lineAccum == Last(lines)
  {
    logged', lineAccum := logged, "";
    for i := 0 to |lines|
      invariant logged' == logged + NonEmpty(lines[..if i < |lines| then i else |lines| - 1])
      invariant i == |lines| ==> lineAccum == Last(lines)
    {
      var line := lines[i];
      if i < |lines| - 1 {
        assert lines[..i + 1][..i] == lines[..i];
        if line != "" {
          logged' := logged' + [line];
        }
      } else {
        lineAccum := line;
      }
    }
  }

  lemma LastLine(lines: seq<string>)
    requires lines != []
    ensures NonEmpty(lines) == NonEmpty(Front(lines)) + if Last(lines) != "" then [Last(lines)] else []
  {
  }

  lemma {:induction false} ConcatMore(a: seq<string>, x: string)
    ensures Concat(a + [x]) == Concat(a) + x
  {
    if a == [] {
      assert Concat([x]) == x + "";
    } else {
      assert (a + [x])[1..] == a[1..] + [x];
      ConcatMore(a[1..], x);
    }
  }

  lemma {:induction false} MaskEachMore(pieces: seq<string>, r: nat, token: string)
    requires r < |pieces|
    ensures MaskEach(pieces[..r + 1], token) == MaskEach(pieces[..r], token) + [MaskToken(pieces[r], token)]
  {
    if r > 0 {
      assert pieces[..r + 1][1..] == pieces[1..][..r] && pieces[..r][1..] == pieces[1..][..r - 1];
      MaskEachMore(pieces[1..], r - 1, token);
    }
  }

  /** The reading loop of runHostCmd: the lines passed to appendLog, and the returned buffer. */
  method StreamOutput(pieces: seq<string>, token: string) returns (logged: seq<string>, outBuf: string)
    ensures outBuf == Concat(MaskEach(pieces, token))
    ensures logged == NonEmpty(Split(outBuf))
  {
    logged, outBuf := [], "";
    var lineAccum := "";
    for r := 0 to |pieces|
      invariant outBuf == Concat(MaskEach(pieces[..r], token))
      invariant lineAccum == Last(Split(outBuf))
      invariant logged == NonEmpty(Front(Split(outBuf)))
    {
      MaskEachMore(pieces, r, token);
      ConcatMore(MaskEach(pieces[..r], token), MaskToken(pieces[r], token));
      if |pieces[r]| > 0 {
        var chunk := MaskToken(pieces[r], token);
        OneMoreChunk(outBuf, chunk);
        outBuf := outBuf + chunk;
        var combined := lineAccum + chunk;
        logged, lineAccum := LogLines(logged, Split(combined));
      }
    }
    assert pieces[..|pieces|] == pieces;
    LastLine(Split(outBuf));
    if lineAccum != "" {
      logged := logged + [lineAccum];
    }
  }

  /** However the output is cut, with masking off the whole output is returned and its non-empty lines are logged. */
  lemma {:induction false} UnmaskedOutputIsWhole(pieces: seq<string>)
    ensures MaskEach(pieces, "") == pieces
  {
    if pieces != [] {
      UnmaskedOutputIsWhole(pieces[1..]);
    }
  }

  // ---------- Clean logs ----------

  lemma {:induction false} LineOccursInText(s: string, line: string, token: string)
    requires token != "" && line in Split(s) && Contains(line, token)
    ensures Contains(s, token)
  {
    var n :| 0 <= n < |Split(s)| && Split(s)[n] == line;
    var a, b := LinePosition(s, n);
    ContainsWithin(a, line, b, token);
  }

  /** What stands before and after the line; nothing stands before the first one. */
  lemma {:induction false} LinePosition(s: string, n: nat) returns (a: string, b: string)
    requires n < |Split(s)|
    ensures s == a + Split(s)[n] + b
    ensures n == 0 ==> a == ""
  {
    a, b := "", "";
    if s == "" {
    } else if s[0] == '\n' {
      if n == 0 {
        b := s;
      } else {
        a, b := LinePosition(s[1..], n - 1);
        Prepend(s, a, Split(s[1..])[n - 1], b);
        a := [s[0]] + a;
      }
    } else {
      a, b := LinePosition(s[1..], n);
      Prepend(s, a, Split(s[1..])[n], b);
      if n > 0 {
        a := [s[0]] + a;
      }
    }
  }

  lemma Prepend(s: string, a: string, line: string, b: string)
    requires s != "" && s[1..] == a + line + b
    ensures s == ([s[0]] + a) + line + b
    ensures a == "" ==> s == "" + ([s[0]] + line) + b
  {
    assert s == [s[0]] + s[1..];
  }

  lemma {:induction false} NonEmptyAreLines(lines: seq<string>)
    ensures forall l :: l in NonEmpty(lines) ==> l in lines
  {
    if lines != [] {
      NonEmptyAreLines(lines[..|lines| - 1]);
    }
  }

  /**
  The returned buffer shows an unforgeable token exactly when some occurrence of it is copied, piece by piece,
  in full.
  */
  lemma OutputLeaks(pieces: seq<string>, token: string)
    requires Unforgeable(token)
    ensures Contains(Concat(MaskEach(pieces, token)), token) <==>
      exists i :: CopiedAt(TraceEach(pieces, token), token, i)
  {
    var out, trace := Concat(MaskEach(pieces, token)), TraceEach(pieces, token);
    OutputIsShown(pieces, token);
    if Contains(out, token) {
      var p :| 0 <= p <= |out| && At(out, token, p);
      var i := SeenIsCopied(trace, token, p);
    } else if i :| CopiedAt(trace, token, i) {
      CopiedIsSeen(trace, token, i);
    }
  }

  /** With aligned pieces neither the returned buffer nor any logged line shows an unforgeable token. */
  lemma AlignedOutputIsClean(pieces: seq<string>, token: string, line: string)
    requires Unforgeable(token) && Aligned(pieces, token)
    ensures
      var out := Concat(MaskEach(pieces, token));
      !Contains(out, token) && (line in NonEmpty(Split(out)) ==> !Contains(line, token))
  {
    var out := Concat(MaskEach(pieces, token));
    AlignedMasking(pieces, token);
    MaskedHasNoToken(Concat(pieces), token);
    NonEmptyAreLines(Split(out));
    if line in Split(out) && Contains(line, token) {
      LineOccursInText(out, line, token);
    }
  }
}
