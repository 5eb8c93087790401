/**
The text transformation behind the service firewall: the router blocks of every
service that is not exposed are commented out of a YAML text, line by line.
*/
module FirewallText {
  import opened GoStrings

  const MARK := "#BLOCKED# "

  // ---------- Which router owns a line ----------

  /** What a line means to the scan, the tests taken in the order of the code. */
  datatype Kind = Header | Quiet | SectionEnd | Key(name: string, indent: nat) | Body(indent: nat)

  function Classify(line: string): Kind {
    var trimmed, indent := TrimSpace(line), Indent(line);
    if (trimmed == "routers:" || trimmed == "routers: {}") && indent <= 6 then Header
    else if trimmed == "" || HasPrefix(trimmed, "#") then Quiet
    else if HasSuffix(trimmed, ":") && indent <= 4 then SectionEnd
    else if HasSuffix(trimmed, ":") && indent <= 8 then Key(TrimSuffix(trimmed, ":"), indent)
    else Body(indent)
  }

  function Kinds(lines: seq<string>): (ks: seq<Kind>)
    ensures |ks| == |lines|
  {
    if lines == [] then [] else [Classify(lines[0])] + Kinds(lines[1..])
  }

  lemma {:induction false} KindAt(lines: seq<string>, i: nat)
    requires i < |lines|
    ensures Kinds(lines)[i] == Classify(lines[i])
  {
    if i > 0 {
      KindAt(lines[1..], i - 1);
    }
  }

  /** Line `i` is reached inside a routers section: a header precedes it and no section end lies between. */
  ghost predicate InRouters(ks: seq<Kind>, i: nat)
    requires i <= |ks|
  {
    exists h :: 0 <= h < i && ks[h].Header? && forall m :: h < m < i ==> !ks[m].SectionEnd?
  }

  /** A line of kind `k` that leaves the block of the router key `key` open. */
  predicate Continues(key: Kind, k: Kind)
    requires key.Key?
  {
    k.Quiet? || (k.Body? && k.indent > key.indent)
  }

  /** Key line `j` opens a router block that still stands when the lines before `i` have been read. */
  ghost predicate Open(ks: seq<Kind>, j: int, i: int) {
    0 <= j < i <= |ks| && ks[j].Key? && InRouters(ks, j) &&
    forall m :: j < m < i ==> Continues(ks[j], ks[m])
  }

  /** `key` names the router whose block line `i` belongs to. No set of blocked keys is mentioned here. */
  ghost predicate Owns(ks: seq<Kind>, key: string, i: int) {
    exists j :: Open(ks, j, i + 1) && ks[j].name == key
  }

  ghost predicate Blocked(ks: seq<Kind>, keys: set<string>, i: int) {
    exists key :: key in keys && Owns(ks, key, i)
  }

  /** Lines of the kinds `ks` with the mark put before those that a key of `keys` owns. */
  ghost function Marked(lines: seq<string>, ks: seq<Kind>, keys: set<string>): (r: seq<string>)
    requires |ks| == |lines|
    ensures |r| == |lines|
    ensures forall i :: 0 <= i < |lines| ==> r[i] == if Blocked(ks, keys, i) then MARK + lines[i] else lines[i]
  {
    seq(|lines|, i requires 0 <= i < |lines| => if Blocked(ks, keys, i) then MARK + lines[i] else lines[i])
  }

  ghost function Commented(lines: seq<string>, keys: set<string>): (r: seq<string>)
    ensures |r| == |lines|
  {
    Marked(lines, Kinds(lines), keys)
  }

  /** A block that stands at `i` is the only one. */
  lemma OpenIsUnique(ks: seq<Kind>, j: int, k: int, i: int)
    requires Open(ks, j, i) && Open(ks, k, i)
    ensures j == k
  {
  }

  /** Every line has at most one owner, so the lines commented out for different keys never meet. */
  lemma OwnerIsUnique(ks: seq<Kind>, key1: string, key2: string, i: int)
    requires Owns(ks, key1, i) && Owns(ks, key2, i)
    ensures key1 == key2
  {
  }

  // ---------- The same, read off the lines ----------

  /** A line that opens a routers section. */
  predicate IsHeaderLine(line: string) {
    (TrimSpace(line) == "routers:" || TrimSpace(line) == "routers: {}") && Indent(line) <= 6
  }

  predicate IsQuietLine(line: string) {
    TrimSpace(line) == "" || TrimSpace(line)[0] == '#'
  }

  predicate IsKeyLine(line: string) {
    HasSuffix(TrimSpace(line), ":") && !HasPrefix(TrimSpace(line), "#") && !IsHeaderLine(line)
  }

  /** A key line at four spaces or fewer ends a routers section; at five to eight it is taken for a router's. */
  predicate EndsSection(line: string) {
    IsKeyLine(line) && Indent(line) <= 4
  }

  predicate IsRouterKey(line: string) {
    IsKeyLine(line) && 4 < Indent(line) <= 8
  }

  function KeyName(line: string): string {
    TrimSuffix(TrimSpace(line), ":")
  }

  /** A routers section was opened above line `i` and not ended since. */
  ghost predicate InSectionOfLines(lines: seq<string>, i: nat)
    requires i <= |lines|
  {
    exists h :: 0 <= h < i && IsHeaderLine(lines[h]) && forall m :: h < m < i ==> !EndsSection(lines[m])
  }

  /** The line leaves the block of key line `key` open: blank, a comment, or deeper and neither a key nor a header. */
  predicate StaysInside(key: string, line: string) {
    IsQuietLine(line) ||
    (!IsHeaderLine(line) && !EndsSection(line) && !IsRouterKey(line) && Indent(line) > Indent(key))
  }

  /** The block of router key line `j` reaches down to just above line `i`. */
  ghost predicate BlockStands(lines: seq<string>, j: int, i: int) {
    0 <= j < i <= |lines| && IsRouterKey(lines[j]) && InSectionOfLines(lines, j) &&
    forall m :: j < m < i ==> StaysInside(lines[j], lines[m])
  }

  /** Line `i` stands in the block of a router of `keys`. */
  ghost predicate LineBlocked(lines: seq<string>, keys: set<string>, i: int) {
    exists j :: BlockStands(lines, j, i + 1) && KeyName(lines[j]) in keys
  }

  /** The kind says about the line what the line says itself. */
  predicate Fits(k: Kind, line: string) {
    (k.Header? <==> IsHeaderLine(line)) && (k.Quiet? <==> IsQuietLine(line)) &&
    (k.SectionEnd? <==> EndsSection(line)) && (k.Key? <==> IsRouterKey(line)) &&
    (k.Key? ==> k.name == KeyName(line)) && (k.Key? || k.Body? ==> k.indent == Indent(line))
  }

  lemma ClassifyFits(line: string)
    ensures Fits(Classify(line), line)
  {
    var trimmed := TrimSpace(line);
    assert "routers:"[0] == 'r' && "routers: {}"[0] == 'r';
    assert HasPrefix(trimmed, "#") <==> trimmed != "" && trimmed[0] == '#';
  }

  ghost predicate AllFit(ks: seq<Kind>, lines: seq<string>) {
    |ks| == |lines| && forall i :: 0 <= i < |lines| ==> Fits(ks[i], lines[i])
  }

  lemma KindsFit(lines: seq<string>)
    ensures AllFit(Kinds(lines), lines)
  {
    forall i | 0 <= i < |lines| ensures Fits(Kinds(lines)[i], lines[i]) {
      KindAt(lines, i);
      ClassifyFits(lines[i]);
    }
  }

  lemma FitInRouters(ks: seq<Kind>, lines: seq<string>, i: nat)
    requires AllFit(ks, lines) && i <= |lines|
    ensures InRouters(ks, i) <==> InSectionOfLines(lines, i)
  {
    if h :| 0 <= h < i && ks[h].Header? && forall m :: h < m < i ==> !ks[m].SectionEnd? {
      assert IsHeaderLine(lines[h]) && forall m :: h < m < i ==> !EndsSection(lines[m]);
    }
    if h :| 0 <= h < i && IsHeaderLine(lines[h]) && forall m :: h < m < i ==> !EndsSection(lines[m]) {
      assert ks[h].Header? && forall m :: h < m < i ==> !ks[m].SectionEnd?;
    }
  }

  lemma FitContinues(key: Kind, k: Kind, keyLine: string, line: string)
    requires key.Key? && Fits(key, keyLine) && Fits(k, line)
    ensures Continues(key, k) <==> StaysInside(keyLine, line)
  {
  }

  lemma FitOpen(ks: seq<Kind>, lines: seq<string>, j: int, i: int)
    requires AllFit(ks, lines)
    ensures Open(ks, j, i) <==> BlockStands(lines, j, i)
  {
    if 0 <= j < i <= |lines| && ks[j].Key? {
      FitInRouters(ks, lines, j);
      forall m | j < m < i ensures Continues(ks[j], ks[m]) <==> StaysInside(lines[j], lines[m]) {
        FitContinues(ks[j], ks[m], lines[j], lines[m]);
      }
    }
  }

  lemma FitName(k: Kind, line: string)
    requires Fits(k, line) && k.Key?
    ensures k.name == KeyName(line)
  {
  }

  lemma BlockedFits(ks: seq<Kind>, lines: seq<string>, keys: set<string>, i: int)
    requires AllFit(ks, lines) && Blocked(ks, keys, i)
    ensures LineBlocked(lines, keys, i)
  {
    var key :| key in keys && Owns(ks, key, i);
    var j :| Open(ks, j, i + 1) && ks[j].name == key;
    FitOpen(ks, lines, j, i + 1);
    FitName(ks[j], lines[j]);
  }

  lemma LineBlockedFits(ks: seq<Kind>, lines: seq<string>, keys: set<string>, i: int)
    requires AllFit(ks, lines) && LineBlocked(lines, keys, i)
    ensures Blocked(ks, keys, i)
  {
    var j :| BlockStands(lines, j, i + 1) && KeyName(lines[j]) in keys;
    FitOpen(ks, lines, j, i + 1);
    FitName(ks[j], lines[j]);
    assert Owns(ks, ks[j].name, i);
  }

  lemma FitBlocked(ks: seq<Kind>, lines: seq<string>, keys: set<string>, i: int)
    requires AllFit(ks, lines)
    ensures Blocked(ks, keys, i) <==> LineBlocked(lines, keys, i)
  {
    if Blocked(ks, keys, i) {
      BlockedFits(ks, lines, keys, i);
    }
    if LineBlocked(lines, keys, i) {
      LineBlockedFits(ks, lines, keys, i);
    }
  }

  /** What is commented out, said of the lines alone. */
  lemma CommentedLines(lines: seq<string>, keys: set<string>, i: int)
    requires 0 <= i < |lines|
    ensures Commented(lines, keys)[i] == if LineBlocked(lines, keys, i) then "#BLOCKED# " + lines[i] else lines[i]
  {
    KindsFit(lines);
    FitBlocked(Kinds(lines), lines, keys, i);
  }

  // ---------- The line automaton ----------

  /** The scan's view of a position: in a routers section or not, and the key line whose block stands, or -1. */
  function InSection(ks: seq<Kind>, i: nat): bool
    requires i <= |ks|
  {
    i > 0 && (ks[i - 1].Header? || (InSection(ks, i - 1) && !ks[i - 1].SectionEnd?))
  }

  function OpenKey(ks: seq<Kind>, i: nat): (key: int)
    requires i <= |ks|
    ensures key < i && (key >= 0 ==> ks[key].Key?)
  {
    if i == 0 then -1
    else
      var key := OpenKey(ks, i - 1);
      if key >= 0 && Continues(ks[key], ks[i - 1]) then key
      else if InSection(ks, i - 1) && ks[i - 1].Key? then i - 1
      else -1
  }

  lemma {:induction false} InSectionIsInRouters(ks: seq<Kind>, i: nat)
    requires i <= |ks|
    ensures InSection(ks, i) <==> InRouters(ks, i)
  {
    if i > 0 {
      InSectionIsInRouters(ks, i - 1);
      if InRouters(ks, i - 1) && !ks[i - 1].SectionEnd? {
        var h :| 0 <= h < i - 1 && ks[h].Header? && forall m :: h < m < i - 1 ==> !ks[m].SectionEnd?;
        assert forall m :: h < m < i ==> !ks[m].SectionEnd?;
      }
    }
  }

  ghost predicate OpenIs(ks: seq<Kind>, i: int, key: int) {
    if key < 0 then forall j {:trigger Open(ks, j, i)} :: !Open(ks, j, i) else Open(ks, key, i)
  }

  lemma {:induction false} OpenKeyIsOpen(ks: seq<Kind>, i: nat)
    requires i <= |ks|
    ensures OpenIs(ks, i, OpenKey(ks, i))
    ensures OpenKey(ks, i) >= 0 ==> InSection(ks, i)
  {
    if i > 0 {
      var key := OpenKey(ks, i - 1);
      OpenKeyIsOpen(ks, i - 1);
      InSectionIsInRouters(ks, i - 1);
      forall j {:trigger Open(ks, j, i)} | OpenKey(ks, i) < 0 && Open(ks, j, i) ensures false {
        if j < i - 1 {
          assert Open(ks, j, i - 1);
          OpenIsUnique(ks, j, key, i - 1);
        }
      }
    }
  }

  /** The scan's verdict on line `i`: the block that stands after it belongs to a key of `keys`. */
  predicate Hit(ks: seq<Kind>, keys: set<string>, i: nat)
    requires i < |ks|
  {
    var key := OpenKey(ks, i + 1);
    key >= 0 && ks[key].name in keys
  }

  lemma HitIsBlocked(ks: seq<Kind>, keys: set<string>, i: nat)
    requires i < |ks|
    ensures Hit(ks, keys, i) <==> Blocked(ks, keys, i)
  {
    var key := OpenKey(ks, i + 1);
    OpenKeyIsOpen(ks, i + 1);
    if Blocked(ks, keys, i) {
      var name :| name in keys && Owns(ks, name, i);
      var j :| Open(ks, j, i + 1) && ks[j].name == name;
      OpenIsUnique(ks, j, key, i + 1);
    } else if key >= 0 {
      assert Owns(ks, ks[key].name, i);
    }
  }

  /** The three variables before line `i`, read against the block that stands there. */
  predicate ScanState(ks: seq<Kind>, keys: set<string>, i: nat,
                      inRoutersSection: bool, blockingRouter: bool, routerIndent: nat)
    requires i <= |ks|
  {
    var key := OpenKey(ks, i);
    (inRoutersSection <==> InSection(ks, i)) &&
    (blockingRouter <==> key >= 0 && ks[key].name in keys) &&
    (blockingRouter ==> routerIndent == ks[key].indent)
  }

  /** What one line of kind `kind` does to the three variables. */
  predicate Moves(kind: Kind, keys: set<string>, inRouters: bool, blocking: bool, keyIndent: nat,
                  inRouters': bool, blocking': bool, keyIndent': nat)
  {
    var opens := inRouters && kind.Key? && kind.name in keys;
    var stays := blocking && (kind.Quiet? || (kind.Body? && kind.indent > keyIndent));
    (inRouters' <==> kind.Header? || (inRouters && !kind.SectionEnd?)) &&
    (inRouters ==> (blocking' <==> opens || stays)) &&
    (!inRouters && !blocking ==> !blocking') &&
    (inRouters && blocking' ==> keyIndent' == if opens then kind.indent else keyIndent)
  }

  lemma MovesKeepState(ks: seq<Kind>, keys: set<string>, i: nat,
                       inRouters: bool, blocking: bool, keyIndent: nat,
                       inRouters': bool, blocking': bool, keyIndent': nat)
    requires i < |ks|
    requires ScanState(ks, keys, i, inRouters, blocking, keyIndent)
    requires Moves(ks[i], keys, inRouters, blocking, keyIndent, inRouters', blocking', keyIndent')
    ensures ScanState(ks, keys, i + 1, inRouters', blocking', keyIndent')
    ensures Hit(ks, keys, i) <==> inRouters && blocking'
  {
    OpenKeyIsOpen(ks, i);
  }

  lemma HitsAreMarked(lines: seq<string>, ks: seq<Kind>, keys: set<string>, result: seq<string>)
    requires |result| == |ks| == |lines|
    requires forall n :: 0 <= n < |lines| ==> result[n] == if Hit(ks, keys, n) then MARK + lines[n] else lines[n]
    ensures result == Marked(lines, ks, keys)
  {
    forall n | 0 <= n < |lines| ensures Hit(ks, keys, n) <==> Blocked(ks, keys, n) {
      HitIsBlocked(ks, keys, n);
    }
  }

  /** One pass with three variables. */
  method CommentOut(lines: seq<string>, blockKeys: set<string>) returns (result: seq<string>)
    ensures result == Commented(lines, blockKeys)
    ensures |result| == |lines| && forall i :: 0 <= i < |lines| ==>
      result[i] == if LineBlocked(lines, blockKeys, i) then "#BLOCKED# " + lines[i] else lines[i]
  {
    result := [];
    var inRoutersSection, blockingRouter, routerIndent := false, false, 0;
    ghost var ks := Kinds(lines);
    for i := 0 to |lines|
      invariant |result| == i
      invariant forall n :: 0 <= n < i ==> result[n] == if Hit(ks, blockKeys, n) then MARK + lines[n] else lines[n]
      invariant ScanState(ks, blockKeys, i, inRoutersSection, blockingRouter, routerIndent)
    {
      var inRouters, blocking, indent, line :=
        ScanLine(lines, i, blockKeys, inRoutersSection, blockingRouter, routerIndent);
      MovesKeepState(ks, blockKeys, i, inRoutersSection, blockingRouter, routerIndent, inRouters, blocking, indent);
      inRoutersSection, blockingRouter, routerIndent := inRouters, blocking, indent;
      result := result + [line];
    }
    HitsAreMarked(lines, ks, blockKeys, result);
    forall i | 0 <= i < |lines|
      ensures result[i] == if LineBlocked(lines, blockKeys, i) then "#BLOCKED# " + lines[i] else lines[i]
    {
      CommentedLines(lines, blockKeys, i);
    }
  }

  /** The body of the scan's loop: the new values of the three variables, and the line to append. */
  method ScanLine(lines: seq<string>, i: nat, blockKeys: set<string>, inRouters: bool, blocking: bool, keyIndent: nat)
    returns (inRoutersSection: bool, blockingRouter: bool, routerIndent: nat, out: string)
    requires i < |lines|
    ensures Moves(Kinds(lines)[i], blockKeys, inRouters, blocking, keyIndent, inRoutersSection, blockingRouter,
                  routerIndent)
    ensures out == if inRouters && blockingRouter then MARK + lines[i] else lines[i]
  {
    KindAt(lines, i);
    var line := lines[i];
    inRoutersSection, blockingRouter, routerIndent := inRouters, blocking, keyIndent;
    var trimmed, indent := TrimSpace(line), Indent(line);
    if (trimmed == "routers:" || trimmed == "routers: {}") && indent <= 6 {
      return true, false, 0, line;
    }
    if inRoutersSection {
      if trimmed == "" || HasPrefix(trimmed, "#") {
        return inRoutersSection, blockingRouter, routerIndent, if blockingRouter then MARK + line else line;
      }
      if indent == 0 && HasSuffix(trimmed, ":") {
        return false, false, routerIndent, line;
      }
      if indent <= 4 && HasSuffix(trimmed, ":") && trimmed != "routers:" {
        return false, false, routerIndent, line;
      }
      if HasSuffix(trimmed, ":") && 4 <= indent <= 8 {
        var routerName := TrimSuffix(trimmed, ":");
        if routerName in blockKeys {
          return inRoutersSection, true, indent, MARK + line;
        } else {
          return inRoutersSection, false, routerIndent, line;
        }
      }
      if blockingRouter && indent > routerIndent {
        return inRoutersSection, blockingRouter, routerIndent, MARK + line;
      }
      blockingRouter := false;
    }
    out := line;
  }

  // ---------- The whole text ----------

  /** The text that is installed when the routers named in `keys` are blocked. */
  ghost function Render(base: string, keys: set<string>): string {
    Join(Commented(Split(base), keys))
  }

  lemma MarkedLinesAreSingle(lines: seq<string>, ks: seq<Kind>, keys: set<string>)
    requires |ks| == |lines| >= 1
    requires forall l :: l in lines ==> SingleLine(l)
    ensures Split(Join(Marked(lines, ks, keys))) == Marked(lines, ks, keys)
  {
    forall l | l in Marked(lines, ks, keys) ensures SingleLine(l) {
      var i :| 0 <= i < |lines| && l == Marked(lines, ks, keys)[i];
      assert lines[i] in lines;
    }
    SplitJoin(Marked(lines, ks, keys));
  }

  lemma SplitRender(base: string, keys: set<string>)
    ensures Split(Render(base, keys)) == Commented(Split(base), keys)
  {
    SplitLinesAreSingle(base);
    MarkedLinesAreSingle(Split(base), Kinds(Split(base)), keys);
  }

  /** With nothing blocked the general loop gives what the early return gives: the base itself. */
  lemma NothingBlocked(base: string)
    ensures Render(base, {}) == base
  {
    assert Commented(Split(base), {}) == Split(base);
    JoinSplit(base);
  }

  /** Commenting is a union of what the single keys comment out: additive, monotone, and disjoint for disjoint sets. */
  lemma BlockingIsAdditive(ks: seq<Kind>, a: set<string>, b: set<string>, i: int)
    ensures Blocked(ks, a + b, i) <==> Blocked(ks, a, i) || Blocked(ks, b, i)
    ensures a <= b && Blocked(ks, a, i) ==> Blocked(ks, b, i)
    ensures a !! b ==> !(Blocked(ks, a, i) && Blocked(ks, b, i))
  {
  }

  function Unmark(line: string): string {
    if HasPrefix(line, MARK) then line[|MARK|..] else line
  }

  function Unmarked(lines: seq<string>): (r: seq<string>)
    ensures |r| == |lines|
    ensures forall i :: 0 <= i < |lines| ==> r[i] == Unmark(lines[i])
  {
    seq(|lines|, i requires 0 <= i < |lines| => Unmark(lines[i]))
  }

  /** Deletes the mark from every line that has one. */
  function Erase(text: string): string {
    Join(Unmarked(Split(text)))
  }

  lemma UnmarkUndoesMark(lines: seq<string>, ks: seq<Kind>, keys: set<string>)
    requires |ks| == |lines|
    ensures Unmarked(Marked(lines, ks, keys)) == lines <==>
      forall i :: 0 <= i < |lines| && HasPrefix(lines[i], MARK) ==> Blocked(ks, keys, i)
  {
  }

  lemma UnmarkedLinesAreSingle(lines: seq<string>)
    requires forall l :: l in lines ==> SingleLine(l)
    ensures forall l :: l in Unmarked(lines) ==> SingleLine(l)
  {
    forall l | l in Unmarked(lines) ensures SingleLine(l) {
      var i :| 0 <= i < |lines| && l == Unmark(lines[i]);
      assert lines[i] in lines;
    }
  }

  /** Erasing undoes the transformation exactly when every base line that already carries the mark is a blocked one. */
  lemma EraseUndoesRender(base: string, keys: set<string>)
    ensures Erase(Render(base, keys)) == base <==>
      forall i :: 0 <= i < |Split(base)| && HasPrefix(Split(base)[i], MARK) ==> Blocked(Kinds(Split(base)), keys, i)
  {
    var lines, out := Split(base), Commented(Split(base), keys);
    SplitRender(base, keys);
    UnmarkUndoesMark(lines, Kinds(lines), keys);
    SplitLinesAreSingle(Render(base, keys));
    UnmarkedLinesAreSingle(out);
    SplitJoin(Unmarked(out));
    JoinSplit(base);
  }

  /** Lines owned by a router on which two sets of keys agree look the same, whatever else is blocked. */
  lemma RenderIsLocal(base: string, a: set<string>, b: set<string>, i: int)
    requires 0 <= i < |Split(base)|
    requires forall key :: Owns(Kinds(Split(base)), key, i) ==> (key in a <==> key in b)
    ensures |Split(Render(base, a))| == |Split(Render(base, b))| == |Split(base)|
    ensures Split(Render(base, a))[i] == Split(Render(base, b))[i]
  {
    SplitRender(base, a);
    SplitRender(base, b);
    assert Blocked(Kinds(Split(base)), a, i) <==> Blocked(Kinds(Split(base)), b, i);
  }

  /** After a section end nobody owns a line until the next routers header. */
  lemma NothingOwnedAfterSectionEnd(ks: seq<Kind>, e: nat, i: nat, key: string)
    requires e <= i < |ks| && ks[e].SectionEnd?
    requires forall h :: e < h <= i ==> !ks[h].Header?
    ensures !Owns(ks, key, i)
  {
  }

  /**
  A router key written at four spaces or fewer is not a key to the scan but a section
  end: its own block, and every router after it in the section, stays in force whatever is blocked.
  */
  lemma ShallowKeysAreNeverBlocked(lines: seq<string>, e: nat, i: nat, keys: set<string>)
    requires e <= i < |lines| && EndsSection(lines[e])
    requires forall h :: e < h <= i ==> !IsHeaderLine(lines[h])
    ensures Commented(lines, keys)[i] == lines[i]
  {
    var ks := Kinds(lines);
    KindsFit(lines);
    assert Fits(ks[e], lines[e]);
    forall h | e < h <= i ensures !ks[h].Header? {
      assert Fits(ks[h], lines[h]);
    }
    forall key | key in keys ensures !Owns(ks, key, i) {
      NothingOwnedAfterSectionEnd(ks, e, i, key);
    }
  }

  /** A line that is no inside of a block is blocked exactly when it is a key of `keys` in a section. */
  lemma BlockedKey(ks: seq<Kind>, keys: set<string>, e: nat)
    requires e < |ks| && !ks[e].Quiet? && !ks[e].Body?
    ensures Blocked(ks, keys, e) <==> ks[e].Key? && ks[e].name in keys && InRouters(ks, e)
  {
    if ks[e].Key? && InRouters(ks, e) {
      assert Open(ks, e, e + 1);
      assert Owns(ks, ks[e].name, e);
    }
  }

  /**
  A line inside a block is blocked exactly when the block that stands above it, less deep, is a router's of
  `keys`.
  */
  lemma BlockedBody(ks: seq<Kind>, keys: set<string>, e: nat)
    requires e < |ks| && ks[e].Body?
    ensures Blocked(ks, keys, e) <==> StandsUnder(ks, keys, e, ks[e].indent)
  {
    if j :| Open(ks, j, e) && ks[j].indent < ks[e].indent && ks[j].name in keys {
      assert Open(ks, j, e + 1);
      assert Owns(ks, ks[j].name, e);
    } else if Blocked(ks, keys, e) {
      var key :| key in keys && Owns(ks, key, e);
      var j :| Open(ks, j, e + 1) && ks[j].name == key;
      assert Open(ks, j, e);
    }
  }

  /** The block that stands at line `e` is one of `keys`, and its key line stands less deep than `indent`. */
  ghost predicate StandsUnder(ks: seq<Kind>, keys: set<string>, e: nat, indent: nat) {
    exists j :: Open(ks, j, e) && ks[j].indent < indent && ks[j].name in keys
  }

  /** The same of the lines: the block that stands at line `e` is a less deep one of `keys`. */
  ghost predicate InsideOne(lines: seq<string>, keys: set<string>, e: nat)
    requires e < |lines|
  {
    exists j :: BlockStands(lines, j, e) && Indent(lines[j]) < Indent(lines[e]) && KeyName(lines[j]) in keys
  }

  lemma FitStandsUnder(ks: seq<Kind>, lines: seq<string>, keys: set<string>, e: nat)
    requires AllFit(ks, lines) && e < |lines|
    ensures StandsUnder(ks, keys, e, Indent(lines[e])) <==> InsideOne(lines, keys, e)
  {
    if j :| Open(ks, j, e) && ks[j].indent < Indent(lines[e]) && ks[j].name in keys {
      FitOpen(ks, lines, j, e);
      assert Fits(ks[j], lines[j]);
    }
    if j :| BlockStands(lines, j, e) && Indent(lines[j]) < Indent(lines[e]) && KeyName(lines[j]) in keys {
      FitOpen(ks, lines, j, e);
      assert Fits(ks[j], lines[j]);
    }
  }

  /**
  The key line of a blocked router is commented out exactly when it stands at five to eight spaces in a
  routers section, or deeper and then only inside a blocked router's block.
  */
  lemma KeyLineIsMarked(lines: seq<string>, e: nat, keys: set<string>)
    requires e < |lines| && IsKeyLine(lines[e]) && KeyName(lines[e]) in keys
    ensures Commented(lines, keys)[e] == "#BLOCKED# " + lines[e] <==>
      (4 < Indent(lines[e]) <= 8 && InSectionOfLines(lines, e)) || (Indent(lines[e]) > 8 && InsideOne(lines, keys, e))
  {
    var ks := Kinds(lines);
    KindsFit(lines);
    FitKey(ks[e], lines[e]);
    FitInRouters(ks, lines, e);
    FitStandsUnder(ks, lines, keys, e);
    KeyLineIsBlocked(ks, e, keys, KeyName(lines[e]), Indent(lines[e]));
    MarkedWhereBlocked(lines, ks, keys, e, e);
  }

  lemma FitKey(k: Kind, line: string)
    requires Fits(k, line) && IsKeyLine(line)
    ensures k == if Indent(line) <= 4 then SectionEnd
                 else if Indent(line) <= 8 then Key(KeyName(line), Indent(line)) else Body(Indent(line))
  {
    assert HasPrefix(TrimSpace(line), "#") <==> TrimSpace(line) != "" && TrimSpace(line)[0] == '#';
  }

  lemma KeyLineIsBlocked(ks: seq<Kind>, e: nat, keys: set<string>, name: string, indent: nat)
    requires e < |ks| && name in keys
    requires ks[e] == if indent <= 4 then SectionEnd else if indent <= 8 then Key(name, indent) else Body(indent)
    ensures Blocked(ks, keys, e) <==>
      (4 < indent <= 8 && InRouters(ks, e)) || (indent > 8 && StandsUnder(ks, keys, e, indent))
  {
    if indent <= 8 {
      BlockedKey(ks, keys, e);
    } else {
      BlockedBody(ks, keys, e);
    }
  }

  /** Lines that YAML reads as the block of line `j`: blank ones, comments, and all that stand deeper. */
  predicate IsBlock(lines: seq<string>, j: nat, e: nat)
    requires j <= e < |lines|
  {
    forall m :: j < m <= e ==> IsQuietLine(lines[m]) || Indent(lines[m]) > Indent(lines[j])
  }

  /** A line inside a block that the scan takes for something else: another key, or a routers header. */
  predicate IsIntruder(line: string) {
    IsRouterKey(line) || IsHeaderLine(line)
  }

  predicate Intruder(k: Kind) {
    k.Key? || k.Header?
  }

  lemma FitInside(key: Kind, k: Kind, keyLine: string, line: string)
    requires key.Key? && Fits(key, keyLine) && Fits(k, line)
    requires IsQuietLine(line) || Indent(line) > Indent(keyLine)
    ensures Continues(key, k) || Intruder(k)
  {
  }

  /** Key line `k` is the nearest above line `m`. */
  predicate NearestKey(ks: seq<Kind>, k: int, m: int) {
    0 <= k < m < |ks| && ks[k].Key? && forall n :: k < n < m ==> !ks[n].Key?
  }

  ghost predicate Uniform(ks: seq<Kind>, j: nat, e: nat, keys: set<string>)
    requires e < |ks|
  {
    forall m :: j < m <= e ==>
      !ks[m].Header? && (ks[m].Key? ==> ks[m].name in keys) &&
      (ks[m].Body? ==> forall k :: j <= k && NearestKey(ks, k, m) ==> ks[m].indent > ks[k].indent)
  }

  /** Line `k` is the nearest router key line above line `m`. */
  predicate NearestKeyLine(lines: seq<string>, k: int, m: int) {
    0 <= k < m < |lines| && IsRouterKey(lines[k]) && forall n :: k < n < m ==> !IsRouterKey(lines[n])
  }

  /**
  Inside the block of line `j` no header stands, every further key line names a blocked router too,
  and no line but blanks and comments falls back to the indentation of the key line nearest above it.
  */
  ghost predicate UniformBlock(lines: seq<string>, j: nat, e: nat, keys: set<string>)
    requires e < |lines|
  {
    forall m :: j < m <= e ==>
      !IsHeaderLine(lines[m]) && (IsRouterKey(lines[m]) ==> KeyName(lines[m]) in keys) &&
      (IsQuietLine(lines[m]) || IsRouterKey(lines[m]) || EndsSection(lines[m]) ||
       forall k :: j <= k && NearestKeyLine(lines, k, m) ==> Indent(lines[m]) > Indent(lines[k]))
  }

  lemma FitNearest(ks: seq<Kind>, lines: seq<string>, k: int, m: int)
    requires AllFit(ks, lines)
    ensures NearestKey(ks, k, m) <==> NearestKeyLine(lines, k, m)
  {
    if 0 <= k < m < |lines| {
      assert forall n :: k <= n < m ==> Fits(ks[n], lines[n]);
    }
  }

  /** Line `m` does not fall back, by kinds and by lines. */
  lemma FitDeeper(ks: seq<Kind>, lines: seq<string>, j: nat, m: nat)
    requires AllFit(ks, lines) && m < |lines| && ks[m].Body?
    ensures (forall k :: j <= k && NearestKey(ks, k, m) ==> ks[m].indent > ks[k].indent) <==>
            (forall k :: j <= k && NearestKeyLine(lines, k, m) ==> Indent(lines[m]) > Indent(lines[k]))
  {
    assert Fits(ks[m], lines[m]);
    forall k ensures NearestKey(ks, k, m) <==> NearestKeyLine(lines, k, m) {
      FitNearest(ks, lines, k, m);
    }
    forall k | NearestKey(ks, k, m) ensures ks[k].indent == Indent(lines[k]) {
      assert Fits(ks[k], lines[k]);
    }
  }

  lemma FitUniform(ks: seq<Kind>, lines: seq<string>, j: nat, e: nat, keys: set<string>)
    requires AllFit(ks, lines) && e < |lines|
    ensures Uniform(ks, j, e, keys) <==> UniformBlock(lines, j, e, keys)
  {
    forall m | j < m <= e
      ensures
        (!ks[m].Header? && (ks[m].Key? ==> ks[m].name in keys) &&
         (ks[m].Body? ==> forall k :: j <= k && NearestKey(ks, k, m) ==> ks[m].indent > ks[k].indent)) <==>
        (!IsHeaderLine(lines[m]) && (IsRouterKey(lines[m]) ==> KeyName(lines[m]) in keys) &&
         (IsQuietLine(lines[m]) || IsRouterKey(lines[m]) || EndsSection(lines[m]) ||
          forall k :: j <= k && NearestKeyLine(lines, k, m) ==> Indent(lines[m]) > Indent(lines[k])))
    {
      assert Fits(ks[m], lines[m]);
      if ks[m].Body? {
        FitDeeper(ks, lines, j, m);
      }
    }
  }

  /**
  The block of a blocked router is commented out as a whole exactly when it is uniform to the scan. An inner
  line such as "tls:" at eight spaces or fewer reads as a key of its own, and leaves the rest in force.
  */
  lemma BlockIsMarked(lines: seq<string>, j: nat, e: nat, keys: set<string>)
    requires j <= e < |lines| && IsBlock(lines, j, e)
    requires IsRouterKey(lines[j]) && InSectionOfLines(lines, j) && KeyName(lines[j]) in keys
    ensures (forall m :: j <= m <= e ==> Commented(lines, keys)[m] == "#BLOCKED# " + lines[m]) <==>
      UniformBlock(lines, j, e, keys)
  {
    var ks := Kinds(lines);
    KindsFit(lines);
    FitInRouters(ks, lines, j);
    FitUniform(ks, lines, j, e, keys);
    InsideOrIntruder(ks, lines, j, e);
    BlockOfKinds(ks, j, e, keys);
    MarkedWhereBlocked(lines, ks, keys, j, e);
  }

  lemma InsideOrIntruder(ks: seq<Kind>, lines: seq<string>, j: nat, e: nat)
    requires AllFit(ks, lines) && j <= e < |lines| && IsBlock(lines, j, e) && IsRouterKey(lines[j])
    ensures ks[j].Key? && ks[j].name == KeyName(lines[j])
    ensures forall m :: j < m <= e ==> Continues(ks[j], ks[m]) || Intruder(ks[m])
  {
    assert Fits(ks[j], lines[j]);
    forall m | j < m <= e ensures Continues(ks[j], ks[m]) || Intruder(ks[m]) {
      FitInside(ks[j], ks[m], lines[j], lines[m]);
    }
  }

  /**
  The same for every key line of a blocked router, also one that the scan does not take for a key: at four
  spaces or fewer no block is commented out, and at nine or more all of it or nothing, as the block around it is.
  */
  lemma RouterIsMarked(lines: seq<string>, j: nat, e: nat, keys: set<string>)
    requires j <= e < |lines| && IsBlock(lines, j, e)
    requires IsKeyLine(lines[j]) && KeyName(lines[j]) in keys
    ensures (forall m :: j <= m <= e ==> Commented(lines, keys)[m] == "#BLOCKED# " + lines[m]) <==>
      (4 < Indent(lines[j]) <= 8 && InSectionOfLines(lines, j) && UniformBlock(lines, j, e, keys)) ||
      (Indent(lines[j]) > 8 && InsideOne(lines, keys, j))
  {
    KeyLineIsMarked(lines, j, keys);
    if 4 < Indent(lines[j]) <= 8 && InSectionOfLines(lines, j) {
      BlockIsMarked(lines, j, e, keys);
    } else if Indent(lines[j]) > 8 && InsideOne(lines, keys, j) {
      DeepBlockIsMarked(lines, j, e, keys);
    }
  }

  lemma DeepBlockIsMarked(lines: seq<string>, j: nat, e: nat, keys: set<string>)
    requires j <= e < |lines| && IsBlock(lines, j, e)
    requires IsKeyLine(lines[j]) && Indent(lines[j]) > 8 && InsideOne(lines, keys, j)
    ensures forall m :: j <= m <= e ==> Commented(lines, keys)[m] == "#BLOCKED# " + lines[m]
  {
    var ks := Kinds(lines);
    KindsFit(lines);
    FitStandsUnder(ks, lines, keys, j);
    forall m | j <= m <= e ensures DeepKind(ks[m], Indent(lines[j])) {
      FitDeep(ks[m], lines[m], Indent(lines[j]));
    }
    FitKey(ks[j], lines[j]);
    DeepBlockIsBlocked(ks, j, e, keys);
    MarkedWhereBlocked(lines, ks, keys, j, e);
  }

  predicate DeepKind(k: Kind, indent: nat) {
    k.Quiet? || (k.Body? && k.indent >= indent)
  }

  lemma FitDeep(k: Kind, line: string, atLeast: nat)
    requires Fits(k, line) && atLeast > 8 && (IsQuietLine(line) || Indent(line) >= atLeast)
    ensures DeepKind(k, atLeast)
  {
  }

  lemma DeepBlockIsBlocked(ks: seq<Kind>, j: nat, e: nat, keys: set<string>)
    requires j <= e < |ks| && ks[j].Body? && StandsUnder(ks, keys, j, ks[j].indent)
    requires forall m :: j <= m <= e ==> DeepKind(ks[m], ks[j].indent)
    ensures forall m :: j <= m <= e ==> Blocked(ks, keys, m)
  {
    var k :| Open(ks, k, j) && ks[k].indent < ks[j].indent && ks[k].name in keys;
    forall m | j <= m <= e ensures Blocked(ks, keys, m) {
      assert Open(ks, k, m + 1);
      assert Owns(ks, ks[k].name, m);
    }
  }

  /** When no inner key line names a blocked router, that means that there is no inner key line and no header. */
  lemma OrdinaryBlockIsMarked(lines: seq<string>, j: nat, e: nat, keys: set<string>)
    requires j <= e < |lines| && IsBlock(lines, j, e)
    requires IsRouterKey(lines[j]) && InSectionOfLines(lines, j) && KeyName(lines[j]) in keys
    requires forall m :: j < m <= e && IsRouterKey(lines[m]) ==> KeyName(lines[m]) !in keys
    ensures (forall m :: j <= m <= e ==> Commented(lines, keys)[m] == "#BLOCKED# " + lines[m]) <==>
            (forall m :: j < m <= e ==> !IsIntruder(lines[m]))
  {
    var ks := Kinds(lines);
    KindsFit(lines);
    InsideOrIntruder(ks, lines, j, e);
    FitIntruders(ks, lines, j, e, keys);
    OrdinaryIsUniform(ks, j, e, keys);
    FitUniform(ks, lines, j, e, keys);
    BlockIsMarked(lines, j, e, keys);
  }

  lemma FitIntruders(ks: seq<Kind>, lines: seq<string>, j: nat, e: nat, keys: set<string>)
    requires AllFit(ks, lines) && j <= e < |lines|
    ensures forall m :: j < m <= e ==> (Intruder(ks[m]) <==> IsIntruder(lines[m]))
    ensures forall m :: j < m <= e && ks[m].Key? ==> IsRouterKey(lines[m]) && ks[m].name == KeyName(lines[m])
  {
    assert forall m :: j < m <= e ==> Fits(ks[m], lines[m]);
  }

  lemma OrdinaryIsUniform(ks: seq<Kind>, j: nat, e: nat, keys: set<string>)
    requires j <= e < |ks| && ks[j].Key?
    requires forall m :: j < m <= e ==> Continues(ks[j], ks[m]) || Intruder(ks[m])
    requires forall m :: j < m <= e && ks[m].Key? ==> ks[m].name !in keys
    ensures Uniform(ks, j, e, keys) <==> forall m :: j < m <= e ==> !Intruder(ks[m])
  {
    if forall m :: j < m <= e ==> !Intruder(ks[m]) {
      forall m, k | j < m <= e && j <= k && NearestKey(ks, k, m) ensures k == j {
        assert !Intruder(ks[k]) || k == j;
      }
    }
  }

  lemma MarkedWhereBlocked(lines: seq<string>, ks: seq<Kind>, keys: set<string>, j: nat, e: nat)
    requires |ks| == |lines| && j <= e < |lines|
    ensures (forall m :: j <= m <= e ==> Marked(lines, ks, keys)[m] == MARK + lines[m]) <==>
            (forall m :: j <= m <= e ==> Blocked(ks, keys, m))
  {
    forall m | j <= m <= e ensures Marked(lines, ks, keys)[m] == MARK + lines[m] <==> Blocked(ks, keys, m) {
      assert |MARK + lines[m]| > |lines[m]|;
    }
  }

  lemma {:induction false} NearestKeyAtOrAbove(ks: seq<Kind>, j: nat, m: nat) returns (k: nat)
    requires j <= m < |ks| && ks[j].Key?
    ensures j <= k <= m && ks[k].Key? && forall n :: k < n <= m ==> !ks[n].Key?
  {
    k := m;
    if !ks[m].Key? {
      k := NearestKeyAtOrAbove(ks, j, m - 1);
    }
  }

  lemma UniformIsBlocked(ks: seq<Kind>, j: nat, e: nat, keys: set<string>, m: nat)
    requires j <= m <= e < |ks| && ks[j].Key? && InRouters(ks, j) && ks[j].name in keys
    requires forall n :: j < n <= e ==> Continues(ks[j], ks[n]) || Intruder(ks[n])
    requires Uniform(ks, j, e, keys)
    ensures Blocked(ks, keys, m)
  {
    var k := NearestKeyAtOrAbove(ks, j, m);
    InRoutersGoesOn(ks, j, k);
    forall n | k < n <= m ensures Continues(ks[k], ks[n]) {
      assert NearestKey(ks, k, n);
    }
    assert Open(ks, k, m + 1);
    assert Owns(ks, ks[k].name, m);
  }

  lemma InRoutersGoesOn(ks: seq<Kind>, j: nat, k: nat)
    requires j <= k < |ks| && InRouters(ks, j) && forall n :: j <= n < k ==> !ks[n].SectionEnd?
    ensures InRouters(ks, k)
  {
    var h :| 0 <= h < j && ks[h].Header? && forall m :: h < m < j ==> !ks[m].SectionEnd?;
    assert forall m :: h < m < k ==> !ks[m].SectionEnd?;
  }

  lemma BlockOfKinds(ks: seq<Kind>, j: nat, e: nat, keys: set<string>)
    requires j <= e < |ks| && ks[j].Key? && InRouters(ks, j) && ks[j].name in keys
    requires forall m :: j < m <= e ==> Continues(ks[j], ks[m]) || Intruder(ks[m])
    ensures (forall m :: j <= m <= e ==> Blocked(ks, keys, m)) <==> Uniform(ks, j, e, keys)
  {
    if Uniform(ks, j, e, keys) {
      forall m | j <= m <= e ensures Blocked(ks, keys, m) {
        UniformIsBlocked(ks, j, e, keys, m);
      }
    } else if forall m :: j <= m <= e ==> Blocked(ks, keys, m) {
      forall m | j < m <= e ensures !ks[m].Header? && (ks[m].Key? ==> ks[m].name in keys) {
        if !ks[m].Quiet? && !ks[m].Body? {
          BlockedKey(ks, keys, m);
        }
      }
      forall m, k | j < m <= e && ks[m].Body? && NearestKey(ks, k, m) ensures ks[m].indent > ks[k].indent {
        BodyIsDeeper(ks, keys, k, m);
      }
      assert false;
    }
  }

  lemma BodyIsDeeper(ks: seq<Kind>, keys: set<string>, k: int, m: int)
    requires NearestKey(ks, k, m) && ks[m].Body? && Blocked(ks, keys, m)
    ensures ks[m].indent > ks[k].indent
  {
    var key :| key in keys && Owns(ks, key, m);
    var j :| Open(ks, j, m + 1) && ks[j].name == key;
    assert j == k;
  }
}
