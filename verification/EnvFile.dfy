/**
The .env file: the parser behind every configuration read, and the writer that
merges a map of settings into an existing text.
*/
module EnvFile {
  import opened Wrappers
  import opened GoStrings

  type Env = map<string, string>

  // ---------- One line ----------

  /** The key and value that a line sets; None for a blank line, a comment, or a line without `=` behind a key. */
  function Entry(line: string): Option<(string, string)> {
    var trimmed := TrimSpace(line);
    if trimmed == "" || HasPrefix(trimmed, "#") then None
    else match IndexOf(trimmed, '=')
      case None => None
      case Some(idx) =>
        if 0 < idx < |trimmed| then Some((TrimSpace(trimmed[..idx]), TrimSpace(trimmed[idx + 1..]))) else None
  }

  predicate GoodKey(k: string) {
    k != "" && Trimmed(k) && '=' !in k && k[0] != '#' && SingleLine(k)
  }

  predicate GoodEnv(env: Env) {
    forall k :: k in env ==> GoodKey(k) && Trimmed(env[k]) && SingleLine(env[k])
  }

  function Print(k: string, v: string): string {
    k + "=" + v
  }

  /** A printed entry parses back to itself exactly when its key and value are well formed. */
  lemma PrintThenParse(k: string, v: string)
    requires SingleLine(k) && SingleLine(v)
    ensures Entry(Print(k, v)) == Some((k, v)) <==> GoodKey(k) && Trimmed(v)
  {
    var line := Print(k, v);
    var trimmed := TrimSpace(line);
    if GoodKey(k) && Trimmed(v) {
      assert Trimmed(line) by {
        assert line[0] == k[0] && line[|line| - 1] == if v == "" then '=' else v[|v| - 1];
      }
      TrimSpaceFacts(line);
      IndexOfFirst(k, '=', v);
      assert line[..|k|] == k && line[|k| + 1..] == v;
      TrimSpaceFacts(k);
      TrimSpaceFacts(v);
    }
    if Entry(line) == Some((k, v)) {
      var idx := IndexOf(trimmed, '=').value;
      IndexOfFacts(trimmed, '=');
      TrimSpaceFacts(line);
      TrimSpaceFacts(trimmed[idx + 1..]);
      KeyOfTrimmedLine(trimmed, idx);
    }
  }

  lemma KeyOfTrimmedLine(trimmed: string, idx: nat)
    requires Trimmed(trimmed) && trimmed != "" && trimmed[0] != '#'
    requires 0 < idx < |trimmed| && '=' !in trimmed[..idx]
    ensures var k := TrimSpace(trimmed[..idx]); k != "" && Trimmed(k) && '=' !in k && k[0] != '#'
  {
    var k := trimmed[..idx];
    TrimSpaceFacts(k);
    assert TrimLeft(k) == k;
    TrimRightFacts(k);
    TrimRightKeepsFirst(k);
  }

  lemma {:induction false} TrimRightKeepsFirst(s: string)
    requires s != "" && !IsSpace(s[0])
    ensures TrimRight(s) != "" && TrimRight(s)[0] == s[0]
  {
    if IsSpace(s[|s| - 1]) {
      TrimRightKeepsFirst(s[..|s| - 1]);
    }
  }

  /** What a single line sets is well formed. */
  lemma EntryIsGood(line: string)
    requires SingleLine(line)
    ensures Entry(line).Some? ==>
      GoodKey(Entry(line).value.0) && Trimmed(Entry(line).value.1) && SingleLine(Entry(line).value.1)
  {
    var trimmed := TrimSpace(line);
    if Entry(line).Some? {
      var idx := IndexOf(trimmed, '=').value;
      IndexOfFacts(trimmed, '=');
      TrimSpaceFacts(line);
      TrimSpaceFacts(trimmed[..idx]);
      TrimSpaceFacts(trimmed[idx + 1..]);
      KeyOfTrimmedLine(trimmed, idx);
    }
  }

  /** The line is `k`, `=` and `v` with white space around both, and `k` is a proper key. */
  ghost predicate Sets(line: string, k: string, v: string) {
    GoodKey(k) && Trimmed(v) && exists a, b, c, d {:trigger Spaced(line, k, v, a, b, c, d)} ::
      Spaced(line, k, v, a, b, c, d)
  }

  predicate Spaced(line: string, k: string, v: string, a: string, b: string, c: string, d: string) {
    AllSpace(a) && AllSpace(b) && AllSpace(c) && AllSpace(d) && line == a + (k + b) + "=" + c + v + d
  }

  lemma TrimmedEntry(line: string, left: string, right: string)
    requires TrimSpace(line) == left + "=" + right && left != "" && '=' !in left && left[0] != '#'
    ensures Entry(line) == Some((TrimSpace(left), TrimSpace(right)))
  {
    var trimmed := left + "=" + right;
    assert trimmed[0] == left[0];
    IndexOfFirst(left, '=', right);
    assert trimmed[..|left|] == left && trimmed[|left| + 1..] == right;
  }

  lemma LeftPart(k: string, b: string)
    requires GoodKey(k) && AllSpace(b)
    ensures TrimSpace(k + b) == k && '=' !in k + b && k + b != "" && (k + b)[0] == k[0]
  {
    TrimSurrounded("", k, b);
    assert "" + k + b == k + b;
  }

  lemma SpacedSets(line: string, k: string, v: string, a: string, b: string, c: string, d: string)
    requires Spaced(line, k, v, a, b, c, d) && GoodKey(k) && Trimmed(v)
    ensures Entry(line) == Some((k, v))
  {
    LeftPart(k, b);
    if v == "" {
      EmptyValue(line, k + b, a, c, d);
      TrimmedEntry(line, k + b, "");
    } else {
      WithValue(line, k + b, v, a, c, d);
      TrimmedEntry(line, k + b, c + v);
    }
  }

  lemma EmptyValue(line: string, left: string, a: string, c: string, d: string)
    requires AllSpace(a) && AllSpace(c) && AllSpace(d) && left != "" && !IsSpace(left[0])
    requires line == a + left + "=" + c + "" + d
    ensures TrimSpace(line) == left + "=" + ""
  {
    assert a + left + "=" + c + "" + d == a + (left + "=") + (c + d);
    assert (left + "=")[0] == left[0] && left + "=" + "" == left + "=";
    TrimSurrounded(a, left + "=", c + d);
  }

  lemma WithValue(line: string, left: string, v: string, a: string, c: string, d: string)
    requires AllSpace(a) && AllSpace(c) && AllSpace(d) && left != "" && !IsSpace(left[0]) && v != "" && Trimmed(v)
    requires line == a + left + "=" + c + v + d
    ensures TrimSpace(line) == left + "=" + (c + v) && TrimSpace(c + v) == v
  {
    var trimmed := left + "=" + (c + v);
    assert line == a + trimmed + d;
    assert trimmed[0] == left[0] && trimmed[|trimmed| - 1] == v[|v| - 1];
    TrimSurrounded(a, trimmed, d);
    TrimSurrounded(c, v, "");
    assert c + v + "" == c + v;
  }

  lemma SurroundedBy(s: string) returns (a: string, b: string)
    ensures AllSpace(a) && AllSpace(b) && s == a + TrimSpace(s) + b
  {
    TrimSpaceIs(s, TrimSpace(s));
    a, b :| AllSpace(a) && AllSpace(b) && s == a + TrimSpace(s) + b;
  }

  lemma EntryIsSpaced(line: string)
    requires Entry(line).Some?
    ensures var (k, v) := Entry(line).value;
      exists a, b, c, d {:trigger Spaced(line, k, v, a, b, c, d)} :: Spaced(line, k, v, a, b, c, d)
  {
    var trimmed := TrimSpace(line);
    var (k, v) := Entry(line).value;
    var idx := IndexOf(trimmed, '=').value;
    IndexOfFacts(trimmed, '=');
    var left, right := trimmed[..idx], trimmed[idx + 1..];
    assert trimmed == left + "=" + right;
    var a, z := SurroundedBy(line);
    var x, b := SurroundedBy(left);
    var c, y := SurroundedBy(right);
    Regroup(a, x, k, b, c, v, y, z);
    assert Spaced(line, k, v, a + x, b, c, y + z);
  }

  lemma Regroup(a: string, x: string, k: string, b: string, c: string, v: string, y: string, z: string)
    ensures a + ((x + k + b) + "=" + (c + v + y)) + z == (a + x) + (k + b) + "=" + c + v + (y + z)
  {
  }

  /** A single line sets a key to a value exactly when that is what stands there. */
  lemma EntryIs(line: string, k: string, v: string)
    requires SingleLine(line)
    ensures Entry(line) == Some((k, v)) <==> Sets(line, k, v)
  {
    if Entry(line) == Some((k, v)) {
      EntryIsGood(line);
      EntryIsSpaced(line);
    } else if Sets(line, k, v) {
      var a, b, c, d :| Spaced(line, k, v, a, b, c, d);
      SpacedSets(line, k, v, a, b, c, d);
    }
  }

  /** A blank line or a comment sets nothing. */
  lemma QuietLineSetsNothing(line: string)
    requires SingleLine(line) && (TrimSpace(line) == "" || TrimSpace(line)[0] == '#')
    ensures Entry(line).None?
    ensures forall k :: !SetsKey(line, k)
  {
    forall k, v ensures !Sets(line, k, v) {
      EntryIs(line, k, v);
    }
  }

  // ---------- Lists of lines ----------

  type Setting = Option<(string, string)>

  function Entries(lines: seq<string>): (es: seq<Setting>)
    ensures |es| == |lines|
  {
    if lines == [] then [] else [Entry(lines[0])] + Entries(lines[1..])
  }

  lemma {:induction false} EntryAt(lines: seq<string>, i: nat)
    requires i < |lines|
    ensures Entries(lines)[i] == Entry(lines[i])
  {
    if i > 0 {
      EntryAt(lines[1..], i - 1);
    }
  }

  lemma EntriesAre(lines: seq<string>, es: seq<Setting>)
    requires |es| == |lines| && forall i :: 0 <= i < |lines| ==> Entry(lines[i]) == es[i]
    ensures Entries(lines) == es
  {
    forall i | 0 <= i < |lines| ensures Entries(lines)[i] == es[i] {
      EntryAt(lines, i);
    }
  }

  /** The settings made by the lines of a file in turn: of two for the same key the later one counts. */
  function Collect(es: seq<Setting>): Env {
    if es == [] then map[]
    else
      var last := |es| - 1;
      match es[last]
      case None => Collect(es[..last])
      case Some((k, v)) => Collect(es[..last])[k := v]
  }

  function Parse(text: string): Env {
    Collect(Entries(Split(text)))
  }

  /** Of the lines that set this key, the last one sets it to this value. */
  ghost predicate LastSets(lines: seq<string>, k: string, v: string) {
    exists i :: 0 <= i < |lines| && Sets(lines[i], k, v) && NoneSets(lines, i + 1, k)
  }

  ghost predicate SetsKey(line: string, k: string) {
    exists u :: Sets(line, k, u)
  }

  /** No line from `from` on sets the key. */
  ghost predicate NoneSets(lines: seq<string>, from: nat, k: string) {
    forall j :: from <= j < |lines| ==> !SetsKey(lines[j], k)
  }

  lemma NoneSetsMore(front: seq<string>, last: string, from: nat, k: string)
    requires from <= |front|
    ensures NoneSets(front + [last], from, k) <==> NoneSets(front, from, k) && !SetsKey(last, k)
  {
    var lines := front + [last];
    assert lines[|front|] == last;
    assert forall j :: 0 <= j < |front| ==> lines[j] == front[j];
  }

  predicate Has(env: Env, k: string, v: string) {
    k in env && env[k] == v
  }

  lemma {:induction false} CollectsLast(lines: seq<string>, k: string, v: string)
    requires forall l :: l in lines ==> SingleLine(l)
    ensures Has(Collect(Entries(lines)), k, v) <==> LastSets(lines, k, v)
    decreases |lines|
  {
    if lines != [] {
      var front, last := lines[..|lines| - 1], lines[|lines| - 1];
      assert last in lines && forall l :: l in front ==> l in lines;
      EntriesMore(front, last);
      assert lines == front + [last];
      CollectsLast(front, k, v);
      LastSetsMore(front, last, k, v);
      forall u ensures Entry(last) == Some((k, u)) <==> Sets(last, k, u) {
        EntryIs(last, k, u);
      }
    }
  }

  lemma EntriesMore(front: seq<string>, last: string)
    ensures Entries(front + [last]) == Entries(front) + [Entry(last)]
    ensures Collect(Entries(front + [last])) ==
      match Entry(last) case None => Collect(Entries(front)) case Some((k, v)) => Collect(Entries(front))[k := v]
  {
    EntriesConcat(front, [last]);
    assert (Entries(front) + [Entry(last)])[..|front|] == Entries(front);
  }

  lemma LastSetsMore(front: seq<string>, last: string, k: string, v: string)
    ensures LastSets(front + [last], k, v) <==> Sets(last, k, v) || (LastSets(front, k, v) && !SetsKey(last, k))
  {
    var lines := front + [last];
    assert lines[|front|] == last && NoneSets(lines, |lines|, k);
    if i :| 0 <= i < |lines| && Sets(lines[i], k, v) && NoneSets(lines, i + 1, k) {
      if i < |front| {
        NoneSetsMore(front, last, i + 1, k);
        assert front[i] == lines[i];
      }
    }
    if i :| 0 <= i < |front| && Sets(front[i], k, v) && NoneSets(front, i + 1, k) {
      NoneSetsMore(front, last, i + 1, k);
      assert front[i] == lines[i];
    }
  }

  /** readEnvFile; an unreadable file is None. */
  method ReadEnvFile(data: Option<string>) returns (env: Env)
    ensures env == if data.None? then map[] else Parse(data.value)
    ensures data.Some? ==> forall k, v :: Has(env, k, v) <==> LastSets(Split(data.value), k, v)
  {
    env := map[];
    if data.None? {
      return;
    }
    var lines := Split(data.value);
    ghost var es := Entries(lines);
    for i := 0 to |lines|
      invariant env == Collect(es[..i])
    {
      assert es[..i + 1][..i] == es[..i];
      EntryAt(lines, i);
      env := ReadLine(lines[i], env);
    }
    assert es[..|lines|] == es;
    SplitLinesAreSingle(data.value);
    forall k, v ensures Has(env, k, v) <==> LastSets(lines, k, v) {
      CollectsLast(lines, k, v);
    }
  }

  /** The body of the reader's loop. */
  method ReadLine(raw: string, env: Env) returns (env': Env)
    ensures env' == if Entry(raw).Some? then env[Entry(raw).value.0 := Entry(raw).value.1] else env
  {
    var line := TrimSpace(raw);
    if line == "" || HasPrefix(line, "#") {
      return env;
    }
    var idx := IndexOf(line, '=');
    IndexOfFacts(line, '=');
    if idx.Some? && idx.value > 0 {
      return env[TrimSpace(line[..idx.value]) := TrimSpace(line[idx.value + 1..])];
    }
    return env;
  }

  // ---------- Writing ----------

  predicate Overrides(env: Env, e: Setting) {
    e.Some? && e.value.0 in env
  }

  /** The lines, those for a setting of `env` replaced by the setting printed. */
  function Rewritten(lines: seq<string>, es: seq<Setting>, env: Env): (r: seq<string>)
    requires |es| == |lines|
    ensures |r| == |lines|
    ensures forall i :: 0 <= i < |lines| ==> r[i] == Rewrite(lines[i], es[i], env)
  {
    seq(|lines|, i requires 0 <= i < |lines| => Rewrite(lines[i], es[i], env))
  }

  /** A line of setting `e` after the merge of `env`. */
  function Rewrite(line: string, e: Setting, env: Env): string {
    if Overrides(env, e) then Print(e.value.0, env[e.value.0]) else line
  }

  function Printed(order: seq<string>, env: Env): (r: seq<string>)
    requires forall k :: k in order ==> k in env
    ensures |r| == |order|
    ensures forall i :: 0 <= i < |order| ==> r[i] == Print(order[i], env[order[i]])
  {
    seq(|order|, i requires 0 <= i < |order| => Print(order[i], env[order[i]]))
  }

  /** `order` lists, each once, the settings that no line mentions. */
  ghost predicate Missing(order: seq<string>, es: seq<Setting>, env: Env) {
    (forall k :: k in order <==> k in env && k !in Collect(es)) &&
    forall i, j :: 0 <= i < j < |order| ==> order[i] != order[j]
  }

  /** `merged` is `env` merged into `text`: the rewritten lines, then the missing settings in some order. */
  ghost predicate IsMerge(text: string, env: Env, merged: string) {
    var lines := Split(text);
    var es := Entries(lines);
    exists order :: Missing(order, es, env) && merged == Join(Rewritten(lines, es, env) + Printed(order, env))
  }

  /** WriteEnvFile: the text written back. The appended settings come in map order, which is arbitrary. */
  method WriteEnvFile(existing: string, env: Env) returns (text: string)
    ensures IsMerge(existing, env, text)
  {
    var lines := Split(existing);
    ghost var es := Entries(lines);
    var result, written := RewriteLines(lines, env);
    ghost var kept := result;
    result := AppendMissing(result, env, written);
    ghost var order :| ListsRest(order, env, written) && result == kept + Printed(order, env);
    text := Join(result);
    assert Missing(order, es, env);
  }

  /** The writer's first loop, over the existing lines. */
  method RewriteLines(lines: seq<string>, env: Env) returns (result: seq<string>, written: set<string>)
    ensures result == Rewritten(lines, Entries(lines), env)
    ensures written == env.Keys * Collect(Entries(lines)).Keys
  {
    result, written := [], {};
    ghost var es := Entries(lines);
    for i := 0 to |lines|
      invariant |result| == i
      invariant forall n :: 0 <= n < i ==> result[n] == Rewrite(lines[n], es[n], env)
      invariant written == env.Keys * Collect(es[..i]).Keys
    {
      var out, key := RewriteLine(lines, i, env);
      CollectStep(es, i, env.Keys);
      result := result + [out];
      written := written + if key.Some? then {key.value} else {};
    }
    assert es[..|lines|] == es;
    RewrittenIs(lines, es, env, result);
  }

  lemma RewrittenIs(lines: seq<string>, es: seq<Setting>, env: Env, result: seq<string>)
    requires |result| == |es| == |lines| && forall n :: 0 <= n < |lines| ==> result[n] == Rewrite(lines[n], es[n], env)
    ensures result == Rewritten(lines, es, env)
  {
  }

  lemma CollectStep(es: seq<Setting>, i: nat, keys: set<string>)
    requires i < |es|
    ensures keys * Collect(es[..i + 1]).Keys ==
      keys * Collect(es[..i]).Keys + if es[i].Some? && es[i].value.0 in keys then {es[i].value.0} else {}
  {
    assert es[..i + 1][..i] == es[..i];
  }

  /** The body of the writer's first loop: the line to keep, and the key marked as written. */
  method RewriteLine(lines: seq<string>, i: nat, env: Env) returns (out: string, key: Option<string>)
    requires i < |lines|
    ensures var e := Entries(lines)[i];
      out == Rewrite(lines[i], e, env) && key == if Overrides(env, e) then Some(e.value.0) else None
  {
    EntryAt(lines, i);
    var line := lines[i];
    var trimmed := TrimSpace(line);
    if trimmed == "" || HasPrefix(trimmed, "#") {
      return line, None;
    }
    var idx := IndexOf(trimmed, '=');
    IndexOfFacts(trimmed, '=');
    if idx.Some? && idx.value > 0 {
      var k := TrimSpace(trimmed[..idx.value]);
      if k in env {
        return Print(k, env[k]), Some(k);
      }
    }
    return line, None;
  }

  /** `order` lists each setting of `env` outside `written` once. */
  ghost predicate ListsRest(order: seq<string>, env: Env, written: set<string>) {
    (forall k :: k in order <==> k in env && k !in written) &&
    forall i, j :: 0 <= i < j < |order| ==> order[i] != order[j]
  }

  /** The writer's second loop, over the map. */
  method AppendMissing(kept: seq<string>, env: Env, written: set<string>) returns (result: seq<string>)
    ensures exists order :: ListsRest(order, env, written) && result == kept + Printed(order, env)
  {
    result := kept;
    var rest := env.Keys;
    ghost var order: seq<string> := [];
    while rest != {}
      invariant rest <= env.Keys
      invariant ListsRest(order, env, written + rest)
      invariant result == kept + Printed(order, env)
      decreases rest
    {
      var k :| k in rest;
      rest := rest - {k};
      if k !in written {
        assert Printed(order + [k], env) == Printed(order, env) + [Print(k, env[k])];
        order := order + [k];
        result := result + [Print(k, env[k])];
      }
    }
    assert written + rest == written;
  }

  // ---------- Settings under a merge ----------

  /** What a rewriting does to the settings of the lines. */
  function Overridden(es: seq<Setting>, env: Env): (r: seq<Setting>)
    ensures |r| == |es|
  {
    seq(|es|, i requires 0 <= i < |es| =>
      if Overrides(env, es[i]) then Some((es[i].value.0, env[es[i].value.0])) else es[i])
  }

  function Settings(order: seq<string>, env: Env): (r: seq<Setting>)
    requires forall k :: k in order ==> k in env
    ensures |r| == |order|
  {
    seq(|order|, i requires 0 <= i < |order| => Some((order[i], env[order[i]])))
  }

  lemma {:induction false} CollectConcat(a: seq<Setting>, b: seq<Setting>)
    ensures Collect(a + b) == Collect(a) + Collect(b)
  {
    if b == [] {
      assert a + b == a;
    } else {
      assert (a + b)[..|a + b| - 1] == a + b[..|b| - 1];
      CollectConcat(a, b[..|b| - 1]);
    }
  }

  /** Overriding replaces the settings that are there and adds none. */
  lemma {:induction false} CollectOverridden(es: seq<Setting>, env: Env)
    ensures Collect(Overridden(es, env)) == map k | k in Collect(es) :: if k in env then env[k] else Collect(es)[k]
  {
    if es != [] {
      assert Overridden(es, env)[..|es| - 1] == Overridden(es[..|es| - 1], env);
      CollectOverridden(es[..|es| - 1], env);
    }
  }

  lemma {:induction false} CollectSettings(order: seq<string>, env: Env)
    requires forall k :: k in order ==> k in env
    ensures Collect(Settings(order, env)) == map k | k in order :: env[k]
  {
    if order != [] {
      var last := |order| - 1;
      assert Settings(order, env)[..last] == Settings(order[..last], env);
      CollectSettings(order[..last], env);
      assert forall k :: k in order <==> k in order[..last] || k == order[last];
    }
  }

  /** The lines of a merged text and what they set. */
  lemma MergeLines(text: string, env: Env, merged: string) returns (order: seq<string>)
    requires GoodEnv(env) && IsMerge(text, env, merged)
    ensures Missing(order, Entries(Split(text)), env)
    ensures Split(merged) == Rewritten(Split(text), Entries(Split(text)), env) + Printed(order, env)
    ensures Entries(Split(merged)) == Overridden(Entries(Split(text)), env) + Settings(order, env)
  {
    var lines := Split(text);
    var es := Entries(lines);
    order :| Missing(order, es, env) && merged == Join(Rewritten(lines, es, env) + Printed(order, env));
    SplitLinesAreSingle(text);
    MergeLinesAreSingle(lines, es, env, order);
    SplitJoin(Rewritten(lines, es, env) + Printed(order, env));
    EntriesConcat(Rewritten(lines, es, env), Printed(order, env));
    EntriesOfRewritten(lines, es, env);
    EntriesOfPrinted(order, env);
  }

  lemma MergeLinesAreSingle(lines: seq<string>, es: seq<Setting>, env: Env, order: seq<string>)
    requires |es| == |lines|
    requires GoodEnv(env) && forall k :: k in order ==> k in env
    requires forall l :: l in lines ==> SingleLine(l)
    ensures forall l :: l in Rewritten(lines, es, env) + Printed(order, env) ==> SingleLine(l)
  {
  }

  lemma {:induction false} EntriesConcat(a: seq<string>, b: seq<string>)
    ensures Entries(a + b) == Entries(a) + Entries(b)
  {
    if a == [] {
      assert a + b == b;
    } else {
      assert (a + b)[1..] == a[1..] + b;
      EntriesConcat(a[1..], b);
    }
  }

  lemma EntriesOfRewritten(lines: seq<string>, es: seq<Setting>, env: Env)
    requires GoodEnv(env) && es == Entries(lines)
    ensures Entries(Rewritten(lines, es, env)) == Overridden(es, env)
  {
    var a := Rewritten(lines, es, env);
    forall i | 0 <= i < |lines| ensures Entry(a[i]) == Overridden(es, env)[i] {
      EntryAt(lines, i);
      if Overrides(env, es[i]) {
        PrintThenParse(es[i].value.0, env[es[i].value.0]);
      }
    }
    EntriesAre(a, Overridden(es, env));
  }

  lemma EntriesOfPrinted(order: seq<string>, env: Env)
    requires GoodEnv(env) && forall k :: k in order ==> k in env
    ensures Entries(Printed(order, env)) == Settings(order, env)
  {
    forall i | 0 <= i < |order| ensures Entry(Printed(order, env)[i]) == Settings(order, env)[i] {
      assert order[i] in order;
      PrintThenParse(order[i], env[order[i]]);
    }
    EntriesAre(Printed(order, env), Settings(order, env));
  }

  /** The rewritten lines and the appended settings together set what the file set, overridden by `env`. */
  lemma MergeCollects(es: seq<Setting>, env: Env, order: seq<string>)
    requires Missing(order, es, env)
    ensures Collect(Overridden(es, env) + Settings(order, env)) == Collect(es) + env
  {
    CollectConcat(Overridden(es, env), Settings(order, env));
    CollectOverridden(es, env);
    CollectSettings(order, env);
  }

  // ---------- The laws ----------

  lemma {:induction false} CollectedIsGood(es: seq<Setting>)
    requires forall e :: e in es && e.Some? ==> GoodKey(e.value.0) && Trimmed(e.value.1) && SingleLine(e.value.1)
    ensures GoodEnv(Collect(es))
  {
    if es != [] {
      var last := |es| - 1;
      assert es[last] in es;
      CollectedIsGood(es[..last]);
    }
  }

  /** Whatever the text, what is read from it is well formed. */
  lemma ParsedIsGood(text: string)
    ensures GoodEnv(Parse(text))
  {
    var lines := Split(text);
    SplitLinesAreSingle(text);
    forall e | e in Entries(lines) && e.Some?
      ensures GoodKey(e.value.0) && Trimmed(e.value.1) && SingleLine(e.value.1)
    {
      var i :| 0 <= i < |lines| && Entries(lines)[i] == e;
      EntryAt(lines, i);
      assert lines[i] in lines;
      EntryIsGood(lines[i]);
    }
    CollectedIsGood(Entries(lines));
  }

  /**
  What is read after a write is what was read before, overridden by the settings written, exactly when these are
  well formed.
  */
  lemma ReadAfterWrite(text: string, env: Env, merged: string)
    requires IsMerge(text, env, merged)
    ensures Parse(merged) == Parse(text) + env <==> GoodEnv(env)
  {
    if GoodEnv(env) {
      var order := MergeLines(text, env, merged);
      MergeCollects(Entries(Split(text)), env, order);
    }
    if Parse(merged) == Parse(text) + env {
      ParsedIsGood(merged);
      assert forall k :: k in env ==> k in Parse(merged) && Parse(merged)[k] == env[k];
    }
  }

  /**
  Line by line: what sets a key that is written becomes that key with its new value, and every other line,
  blank ones and comments among them, keeps text and position.
  */
  lemma WriteLineByLine(text: string, env: Env, merged: string, i: int)
    requires GoodEnv(env) && IsMerge(text, env, merged) && 0 <= i < |Split(text)|
    ensures i < |Split(merged)|
    ensures forall k, v :: k in env && Sets(Split(text)[i], k, v) ==> Split(merged)[i] == k + "=" + env[k]
    ensures (forall k :: k in env ==> !SetsKey(Split(text)[i], k)) ==> Split(merged)[i] == Split(text)[i]
  {
    var order := MergeLines(text, env, merged);
    var line := Split(text)[i];
    EntryAt(Split(text), i);
    SplitLinesAreSingle(text);
    assert line in Split(text);
    forall k, v ensures Entry(line) == Some((k, v)) <==> Sets(line, k, v) {
      EntryIs(line, k, v);
    }
    if Overrides(env, Entry(line)) {
      assert Sets(line, Entry(line).value.0, Entry(line).value.1);
    }
  }

  /** Blank lines, comments and lines for settings that are not written keep text and position. */
  lemma WriteKeepsOtherLines(text: string, env: Env, merged: string, i: int)
    requires GoodEnv(env) && IsMerge(text, env, merged) && 0 <= i < |Split(text)|
    requires var t := TrimSpace(Split(text)[i]);
      t == "" || t[0] == '#' || forall k :: k in env ==> !SetsKey(Split(text)[i], k)
    ensures i < |Split(merged)| && Split(merged)[i] == Split(text)[i]
  {
    var line := Split(text)[i];
    SplitLinesAreSingle(text);
    assert line in Split(text);
    if TrimSpace(line) == "" || TrimSpace(line)[0] == '#' {
      QuietLineSetsNothing(line);
    }
    WriteLineByLine(text, env, merged, i);
  }

  /** No line of the text sets this key. */
  ghost predicate Unmentioned(text: string, k: string) {
    NoneSets(Split(text), 0, k)
  }

  lemma {:induction false} CollectsNone(lines: seq<string>, k: string)
    requires forall l :: l in lines ==> SingleLine(l)
    ensures k in Collect(Entries(lines)) <==> !NoneSets(lines, 0, k)
    decreases |lines|
  {
    if lines != [] {
      var front, last := lines[..|lines| - 1], lines[|lines| - 1];
      assert last in lines && forall l :: l in front ==> l in lines;
      EntriesMore(front, last);
      assert lines == front + [last];
      CollectsNone(front, k);
      forall u ensures Entry(last) == Some((k, u)) <==> Sets(last, k, u) {
        EntryIs(last, k, u);
      }
      NoneSetsMore(front, last, 0, k);
    }
  }

  /**
  Behind the old lines stands, once each and in some order, every written setting that no line sets, and nothing
  else.
  */
  lemma WriteAppendsMissing(text: string, env: Env, merged: string) returns (order: seq<string>)
    requires GoodEnv(env) && IsMerge(text, env, merged)
    ensures forall k :: k in order <==> k in env && Unmentioned(text, k)
    ensures forall i, j :: 0 <= i < j < |order| ==> order[i] != order[j]
    ensures |Split(merged)| == |Split(text)| + |order|
    ensures forall i :: 0 <= i < |order| ==>
      order[i] in env && Split(merged)[|Split(text)| + i] == order[i] + "=" + env[order[i]]
  {
    order := MergeLines(text, env, merged);
    SplitLinesAreSingle(text);
    forall k ensures k in Collect(Entries(Split(text))) <==> !Unmentioned(text, k) {
      CollectsNone(Split(text), k);
    }
    forall i | 0 <= i < |order| ensures order[i] in env {
      assert order[i] in order;
    }
  }

  /** Writing the same settings a second time changes nothing. */
  lemma WriteIsIdempotent(text: string, env: Env, once: string, twice: string)
    requires GoodEnv(env) && IsMerge(text, env, once) && IsMerge(once, env, twice)
    ensures twice == once
  {
    var order1 := MergeLines(text, env, once);
    var order2 := MergeLines(once, env, twice);
    NothingMissing(Entries(Split(text)), env, order1, order2);
    RewriteTwice(Split(text), Entries(Split(text)), env, order1);
    assert Rewritten(Split(once), Entries(Split(once)), env) + Printed([], env) == Split(once);
    JoinSplit(once);
    JoinSplit(twice);
  }

  lemma MembersOnly(order: seq<string>, keys: set<string>)
    requires forall k :: k in order ==> k in keys
    ensures keys == {} ==> order == []
  {
    assert order == [] || order[0] in order;
  }

  /** After a merge no setting is missing any more. */
  lemma NothingMissing(es: seq<Setting>, env: Env, order1: seq<string>, order2: seq<string>)
    requires Missing(order1, es, env)
    requires Missing(order2, Overridden(es, env) + Settings(order1, env), env)
    ensures order2 == []
  {
    MergeCollects(es, env, order1);
    MembersOnly(order2, env.Keys - Collect(Overridden(es, env) + Settings(order1, env)).Keys);
  }

  lemma RewriteTwice(lines: seq<string>, es: seq<Setting>, env: Env, order: seq<string>)
    requires |es| == |lines| && forall k :: k in order ==> k in env
    ensures
      var once, es' := Rewritten(lines, es, env) + Printed(order, env), Overridden(es, env) + Settings(order, env);
      Rewritten(once, es', env) == once
  {
  }
}
