/**
The editor of Prometheus' alert rule file: rules are created, updated and deleted by
group name and alert name.
*/
module AlertRules {
  datatype Rule = Rule(alert: string, expr: string, duration: string, labels: map<string, string>,
                       annotations: map<string, string>)

  datatype Group = Group(name: string, rules: seq<Rule>)

  type File = seq<Group>

  // ---------- The edits ----------

  /** `i` is where the code stops looking for a group: the first of that name. */
  predicate IsFirst(f: File, name: string, i: int) {
    0 <= i < |f| && f[i].name == name && forall k :: 0 <= k < i ==> f[k].name != name
  }

  predicate Absent(f: File, name: string) {
    forall k :: 0 <= k < |f| ==> f[k].name != name
  }

  predicate HasAlert(rules: seq<Rule>, alert: string) {
    exists k :: 0 <= k < |rules| && rules[k].alert == alert
  }

  function Without(rules: seq<Rule>, alert: string): seq<Rule> {
    if rules == [] then []
    else
      var last := |rules| - 1;
      Without(rules[..last], alert) + if rules[last].alert == alert then [] else [rules[last]]
  }

  datatype Status = Done | BadRequest | NotFound | Conflict | ServerError

  predicate IsFirstRule(rules: seq<Rule>, alert: string, r: int) {
    0 <= r < |rules| && rules[r].alert == alert && forall k :: 0 <= k < r ==> rules[k].alert != alert
  }

  /** The file after creating a rule, or why it is refused. */
  ghost predicate Creates(f: File, group: string, rule: Rule, status: Status, g: File) {
    if group == "" || rule.alert == "" then status == BadRequest && g == f
    else if Absent(f, group) then status == Done && g == f + [Group(group, [rule])]
    else exists i :: IsFirst(f, group, i) && CreatesIn(f, i, rule, status, g)
  }

  predicate CreatesIn(f: File, i: int, rule: Rule, status: Status, g: File)
    requires 0 <= i < |f|
  {
    if HasAlert(f[i].rules, rule.alert) then status == Conflict && g == f
    else status == Done && g == f[i := Group(f[i].name, f[i].rules + [rule])]
  }

  /** A rule sent without a name keeps the name it replaces. */
  function Named(rule: Rule, alert: string): Rule {
    if rule.alert == "" then rule.(alert := alert) else rule
  }

  /** The file after replacing the first rule of that name in the first group of that name. */
  ghost predicate Updates(f: File, group: string, alert: string, rule: Rule, status: Status, g: File) {
    if Absent(f, group) then status == NotFound && g == f
    else exists i :: IsFirst(f, group, i) && UpdatesIn(f, i, alert, rule, status, g)
  }

  ghost predicate UpdatesIn(f: File, i: int, alert: string, rule: Rule, status: Status, g: File)
    requires 0 <= i < |f|
  {
    if !HasAlert(f[i].rules, alert) then status == NotFound && g == f
    else status == Done && exists r :: IsFirstRule(f[i].rules, alert, r) && g == Replaced(f, i, r, Named(rule, alert))
  }

  function Replaced(f: File, i: int, r: int, rule: Rule): File
    requires 0 <= i < |f| && 0 <= r < |f[i].rules|
  {
    f[i := Group(f[i].name, f[i].rules[r := rule])]
  }

  /**
  The file after deleting the rules of that name from the first group of that name, and the group if it is empty
  then.
  */
  ghost predicate Deletes(f: File, group: string, alert: string, status: Status, g: File) {
    if Absent(f, group) then status == NotFound && g == f
    else exists i :: IsFirst(f, group, i) && DeletesIn(f, i, alert, status, g)
  }

  predicate DeletesIn(f: File, i: int, alert: string, status: Status, g: File)
    requires 0 <= i < |f|
  {
    if HasAlert(f[i].rules, alert) then status == Done && g == Reduced(f, i, Without(f[i].rules, alert))
    else status == NotFound && g == f
  }

  function Reduced(f: File, i: int, rules: seq<Rule>): File
    requires 0 <= i < |f|
  {
    if rules == [] then f[..i] + f[i + 1..] else f[i := Group(f[i].name, rules)]
  }

  // ---------- The handlers ----------

  /** Every handler reads the file, edits its copy, and writes it back; either transfer may fail. */
  class Store {
    var file: File

    constructor (file: File)
      ensures this.file == file
    {
      this.file := file;
    }

    method Create(group: string, rule: Rule, readOk: bool, writeOk: bool) returns (status: Status)
      modifies this
      ensures if status == ServerError then file == old(file) && (!readOk || !writeOk)
              else Creates(old(file), group, rule, status, file)
      ensures status == Done ==> readOk && writeOk
    {
      if group == "" || rule.alert == "" {
        return BadRequest;
      }
      if !readOk {
        return ServerError;
      }
      var groups, found := file, false;
      for i := 0 to |groups|
        invariant forall k :: 0 <= k < i ==> groups[k].name != group
        invariant !found && groups == file
      {
        if groups[i].name == group {
          assert IsFirst(file, group, i);
          for r := 0 to |groups[i].rules|
            invariant forall k :: 0 <= k < r ==> groups[i].rules[k].alert != rule.alert
          {
            if groups[i].rules[r].alert == rule.alert {
              return Conflict;
            }
          }
          groups := groups[i := Group(group, groups[i].rules + [rule])];
          found := true;
          break;
        }
      }
      if !found {
        groups := groups + [Group(group, [rule])];
      }
      if !writeOk {
        return ServerError;
      }
      file := groups;
      return Done;
    }

    method Update(group: string, alert: string, rule: Rule, readOk: bool, writeOk: bool) returns (status: Status)
      modifies this
      ensures if status == ServerError then file == old(file) && (!readOk || !writeOk)
              else Updates(old(file), group, alert, rule, status, file)
      ensures status == Done ==> readOk && writeOk
    {
      if !readOk {
        return ServerError;
      }
      var groups, updated := file, false;
      for i := 0 to |groups|
        invariant forall k :: 0 <= k < i ==> groups[k].name != group
        invariant !updated && groups == file
      {
        if groups[i].name == group {
          assert IsFirst(file, group, i);
          for r := 0 to |groups[i].rules|
            invariant forall k :: 0 <= k < r ==> groups[i].rules[k].alert != alert
            invariant !updated && groups == file
          {
            if groups[i].rules[r].alert == alert {
              groups := groups[i := Group(group, groups[i].rules[r := Named(rule, alert)])];
              updated := true;
              assert IsFirstRule(file[i].rules, alert, r);
              assert UpdatesIn(file, i, alert, rule, Done, groups);
              break;
            }
          }
          break;
        }
      }
      if !updated {
        return NotFound;
      }
      if !writeOk {
        return ServerError;
      }
      file := groups;
      return Done;
    }

    method Delete(group: string, alert: string, readOk: bool, writeOk: bool) returns (status: Status)
      modifies this
      ensures if status == ServerError then file == old(file) && (!readOk || !writeOk)
              else Deletes(old(file), group, alert, status, file)
      ensures status == Done ==> readOk && writeOk
    {
      if !readOk {
        return ServerError;
      }
      var groups, deleted := file, false;
      for i := 0 to |groups|
        invariant forall k :: 0 <= k < i ==> groups[k].name != group
        invariant !deleted && groups == file
      {
        if groups[i].name == group {
          assert IsFirst(file, group, i);
          var newRules;
          newRules, deleted := WithoutRules(groups[i].rules, alert);
          groups := if newRules == [] then groups[..i] + groups[i + 1..] else groups[i := Group(group, newRules)];
          break;
        }
      }
      if !deleted {
        return NotFound;
      }
      if !writeOk {
        return ServerError;
      }
      file := groups;
      return Done;
    }

    /** The inner loop of the deletion. */
    static method WithoutRules(rules: seq<Rule>, alert: string) returns (newRules: seq<Rule>, deleted: bool)
      ensures newRules == Without(rules, alert) && (deleted <==> HasAlert(rules, alert))
    {
      newRules, deleted := [], false;
      for r := 0 to |rules|
        invariant newRules == Without(rules[..r], alert)
        invariant deleted <==> HasAlert(rules[..r], alert)
      {
        assert rules[..r + 1][..r] == rules[..r];
        if rules[r].alert == alert {
          assert rules[..r + 1][r].alert == alert;
          deleted := true;
          continue;
        }
        newRules := newRules + [rules[r]];
      }
      assert rules[..|rules|] == rules;
    }
  }

  // ---------- Create, then delete ----------

  lemma AbsentInFront(rules: seq<Rule>, alert: string)
    requires rules != [] && !HasAlert(rules, alert)
    ensures !HasAlert(rules[..|rules| - 1], alert) && rules[|rules| - 1].alert != alert
  {
    var front := rules[..|rules| - 1];
    forall k | 0 <= k < |front| ensures front[k].alert != alert {
      assert rules[k].alert != alert;
    }
  }

  lemma {:induction false} WithoutAbsent(rules: seq<Rule>, alert: string)
    requires !HasAlert(rules, alert)
    ensures Without(rules, alert) == rules
  {
    if rules != [] {
      AbsentInFront(rules, alert);
      WithoutAbsent(rules[..|rules| - 1], alert);
    }
  }

  lemma WithoutLast(rules: seq<Rule>, rule: Rule)
    requires !HasAlert(rules, rule.alert)
    ensures Without(rules + [rule], rule.alert) == rules && HasAlert(rules + [rule], rule.alert)
  {
    var more := rules + [rule];
    assert more[..|rules|] == rules && more[|rules|] == rule;
    WithoutAbsent(rules, rule.alert);
    assert rules + [] == rules;
  }

  lemma FirstIsOne(f: File, name: string, i: int, j: int)
    requires IsFirst(f, name, i) && IsFirst(f, name, j)
    ensures i == j
  {
  }

  /** The new rule is found where it was put, and taking it out leaves the old rules. */
  lemma DeleteUndoesAppend(f: File, i: int, group: string, rules: seq<Rule>, rule: Rule, status: Status, h: File)
    requires IsFirst(f, group, i) && f[i].rules == rules + [rule] && !HasAlert(rules, rule.alert)
    requires Deletes(f, group, rule.alert, status, h)
    ensures status == Done && h == Reduced(f, i, rules)
  {
    var j :| IsFirst(f, group, j) && DeletesIn(f, j, rule.alert, status, h);
    FirstIsOne(f, group, i, j);
    WithoutLast(rules, rule);
  }

  /** Creating a rule and deleting it again restores the file exactly when the group was absent or not empty. */
  lemma CreateThenDelete(f: File, group: string, rule: Rule, g: File, status: Status, h: File)
    requires Creates(f, group, rule, Done, g) && Deletes(g, group, rule.alert, status, h)
    ensures status == Done
    ensures h == f <==> forall i :: IsFirst(f, group, i) ==> f[i].rules != []
  {
    if Absent(f, group) {
      assert IsFirst(g, group, |f|);
      DeleteUndoesAppend(g, |f|, group, [], rule, status, h);
      assert g[..|f|] + g[|f| + 1..] == f;
    } else {
      var i :| IsFirst(f, group, i) && CreatesIn(f, i, rule, Done, g);
      assert IsFirst(g, group, i);
      DeleteUndoesAppend(g, i, group, f[i].rules, rule, status, h);
      forall k | IsFirst(f, group, k) ensures k == i {
        FirstIsOne(f, group, i, k);
      }
      if f[i].rules == [] {
        assert |h| < |f|;
      } else {
        assert h == f;
      }
    }
  }

  // ---------- Uniqueness ----------

  predicate UniqueAlerts(rules: seq<Rule>) {
    forall i, j :: 0 <= i < j < |rules| ==> rules[i].alert != rules[j].alert
  }

  /** No two groups of a name, and no two rules of a name in a group. */
  predicate Unique(f: File) {
    (forall i, j :: 0 <= i < j < |f| ==> f[i].name != f[j].name) &&
    forall i :: 0 <= i < |f| ==> UniqueAlerts(f[i].rules)
  }

  lemma {:induction false} WithoutKeepsUnique(rules: seq<Rule>, alert: string)
    requires UniqueAlerts(rules)
    ensures UniqueAlerts(Without(rules, alert))
    ensures forall x :: x in Without(rules, alert) ==> x in rules
  {
    if rules != [] {
      var last := |rules| - 1;
      WithoutKeepsUnique(rules[..last], alert);
      var w := Without(rules[..last], alert);
      forall k | 0 <= k < |w| ensures w[k].alert != rules[last].alert {
        assert w[k] in rules[..last];
      }
    }
  }

  lemma CreateKeepsUnique(f: File, group: string, rule: Rule, status: Status, g: File)
    requires Unique(f) && Creates(f, group, rule, status, g)
    ensures Unique(g)
  {
  }

  lemma DeleteKeepsUnique(f: File, group: string, alert: string, status: Status, g: File)
    requires Unique(f) && Deletes(f, group, alert, status, g)
    ensures Unique(g)
  {
    if !Absent(f, group) {
      var i :| IsFirst(f, group, i) && DeletesIn(f, i, alert, status, g);
      WithoutKeepsUnique(f[i].rules, alert);
    }
  }

  /** An update keeps uniqueness exactly when the new name is the old one or new to the group. */
  lemma UpdateKeepsUnique(f: File, group: string, alert: string, rule: Rule, g: File, i: int)
    requires Unique(f) && Updates(f, group, alert, rule, Done, g) && IsFirst(f, group, i)
    ensures Unique(g) <==> Named(rule, alert).alert == alert || !HasAlert(f[i].rules, rule.alert)
  {
    var j :| IsFirst(f, group, j) && UpdatesIn(f, j, alert, rule, Done, g);
    assert j == i;
    var rules, name := f[i].rules, Named(rule, alert).alert;
    var r :| IsFirstRule(rules, alert, r) && g == Replaced(f, i, r, Named(rule, alert));
    var changed := rules[r := Named(rule, alert)];
    assert g[i].rules == changed;
    if name != alert && HasAlert(rules, rule.alert) {
      var k :| 0 <= k < |rules| && rules[k].alert == rule.alert;
      assert k != r && changed[k].alert == changed[r].alert;
      assert !UniqueAlerts(changed);
    } else {
      assert UniqueAlerts(changed);
    }
  }

  // ---------- Other rules ----------

  /** The rules of a file with their group names, in order, without those of one group and alert name. */
  function Others(f: File, group: string, alert: string): seq<(string, Rule)> {
    if f == [] then [] else OthersIn(f[0].name, f[0].rules, group, alert) + Others(f[1..], group, alert)
  }

  function OthersIn(name: string, rules: seq<Rule>, group: string, alert: string): seq<(string, Rule)> {
    if rules == [] then []
    else
      var last := |rules| - 1;
      OthersIn(name, rules[..last], group, alert) +
      if name == group && rules[last].alert == alert then [] else [(name, rules[last])]
  }

  lemma {:induction false} OthersConcat(f: File, g: File, group: string, alert: string)
    ensures Others(f + g, group, alert) == Others(f, group, alert) + Others(g, group, alert)
  {
    if f == [] {
      assert f + g == g;
    } else {
      assert (f + g)[1..] == f[1..] + g;
      OthersConcat(f[1..], g, group, alert);
    }
  }

  lemma OthersAround(before: File, g: Group, after: File, group: string, alert: string)
    ensures Others(before + [g] + after, group, alert) ==
      Others(before, group, alert) + OthersIn(g.name, g.rules, group, alert) + Others(after, group, alert)
  {
    OthersOne(g, group, alert);
    OthersConcat(before, [g], group, alert);
    OthersConcat(before + [g], after, group, alert);
  }

  lemma OthersSplit(f: File, i: int, group: string, alert: string)
    requires 0 <= i < |f|
    ensures Others(f, group, alert) ==
      Others(f[..i], group, alert) + OthersIn(f[i].name, f[i].rules, group, alert) + Others(f[i + 1..], group, alert)
  {
    assert f[..i] + [f[i]] + f[i + 1..] == f;
    OthersAround(f[..i], f[i], f[i + 1..], group, alert);
  }

  /** A group may be replaced by one with the same other rules. */
  lemma OthersReplaced(f: File, i: int, rules: seq<Rule>, group: string, alert: string)
    requires 0 <= i < |f|
    requires OthersIn(f[i].name, rules, group, alert) == OthersIn(f[i].name, f[i].rules, group, alert)
    ensures Others(f[i := Group(f[i].name, rules)], group, alert) == Others(f, group, alert)
  {
    var g := f[i := Group(f[i].name, rules)];
    assert g[..i] == f[..i] && g[i + 1..] == f[i + 1..];
    OthersSplit(f, i, group, alert);
    OthersSplit(g, i, group, alert);
  }

  /** A group may be dropped if it has no other rules. */
  lemma OthersDropped(f: File, i: int, group: string, alert: string)
    requires 0 <= i < |f| && OthersIn(f[i].name, f[i].rules, group, alert) == []
    ensures Others(f[..i] + f[i + 1..], group, alert) == Others(f, group, alert)
  {
    OthersSplit(f, i, group, alert);
    OthersConcat(f[..i], f[i + 1..], group, alert);
    assert Others(f[..i], group, alert) + [] == Others(f[..i], group, alert);
  }

  lemma OthersOne(g: Group, group: string, alert: string)
    ensures Others([g], group, alert) == OthersIn(g.name, g.rules, group, alert)
  {
  }

  lemma {:induction false} OthersInWithout(name: string, rules: seq<Rule>, alert: string)
    ensures OthersIn(name, Without(rules, alert), name, alert) == OthersIn(name, rules, name, alert)
  {
    if rules != [] {
      var last := |rules| - 1;
      var w := Without(rules[..last], alert);
      OthersInWithout(name, rules[..last], alert);
      if rules[last].alert != alert {
        assert Without(rules, alert)[..|w|] == w;
      } else {
        assert Without(rules, alert) == w;
      }
    }
  }

  lemma {:induction false} OthersInReplaced(name: string, rules: seq<Rule>, r: nat, rule: Rule)
    requires r < |rules| && rules[r].alert == rule.alert
    ensures OthersIn(name, rules[r := rule], name, rule.alert) == OthersIn(name, rules, name, rule.alert)
  {
    var last := |rules| - 1;
    if r == last {
      assert rules[r := rule][..last] == rules[..last];
    } else {
      assert rules[r := rule][..last] == rules[..last][r := rule];
      OthersInReplaced(name, rules[..last], r, rule);
    }
  }

  /** Creating leaves every other rule of the file as it is and in its place. */
  lemma CreateKeepsOthers(f: File, group: string, rule: Rule, status: Status, g: File)
    requires Creates(f, group, rule, status, g)
    ensures Others(g, group, rule.alert) == Others(f, group, rule.alert)
  {
    if g != f {
      if Absent(f, group) {
        OthersConcat(f, [Group(group, [rule])], group, rule.alert);
        OthersOne(Group(group, [rule]), group, rule.alert);
        assert [rule][..0] == [];
      } else {
        var i :| IsFirst(f, group, i) && CreatesIn(f, i, rule, status, g);
        assert (f[i].rules + [rule])[..|f[i].rules|] == f[i].rules;
        OthersReplaced(f, i, f[i].rules + [rule], group, rule.alert);
      }
    }
  }

  /** So does deleting. */
  lemma DeleteKeepsOthers(f: File, group: string, alert: string, status: Status, g: File)
    requires Deletes(f, group, alert, status, g)
    ensures Others(g, group, alert) == Others(f, group, alert)
  {
    if g != f {
      var i :| IsFirst(f, group, i) && DeletesIn(f, i, alert, status, g);
      OthersInWithout(group, f[i].rules, alert);
      if Without(f[i].rules, alert) == [] {
        OthersDropped(f, i, group, alert);
      } else {
        OthersReplaced(f, i, Without(f[i].rules, alert), group, alert);
      }
    }
  }

  /** And so does an update that keeps the name. */
  lemma UpdateKeepsOthers(f: File, group: string, alert: string, rule: Rule, status: Status, g: File)
    requires Updates(f, group, alert, rule, status, g) && Named(rule, alert).alert == alert
    ensures Others(g, group, alert) == Others(f, group, alert)
  {
    if g != f {
      var i :| IsFirst(f, group, i) && UpdatesIn(f, i, alert, rule, status, g);
      var r :| IsFirstRule(f[i].rules, alert, r) && g == Replaced(f, i, r, Named(rule, alert));
      OthersInReplaced(group, f[i].rules, r, Named(rule, alert));
      OthersReplaced(f, i, f[i].rules[r := Named(rule, alert)], group, alert);
    }
  }

  /** The others are exactly the rules, under their groups' names, that do not have both names. */
  lemma {:induction false} OthersAre(f: File, group: string, alert: string, n: string, x: Rule)
    ensures (n, x) in Others(f, group, alert) <==>
      !(n == group && x.alert == alert) && exists i :: 0 <= i < |f| && f[i].name == n && x in f[i].rules
  {
    if f != [] {
      OthersAre(f[1..], group, alert, n, x);
      OthersInAre(f[0].name, f[0].rules, group, alert, n, x);
      assert f == [f[0]] + f[1..];
      if i :| 0 <= i < |f| && f[i].name == n && x in f[i].rules {
        assert i > 0 ==> f[1..][i - 1] == f[i];
      }
      if i :| 0 <= i < |f[1..]| && f[1..][i].name == n && x in f[1..][i].rules {
        assert f[i + 1] == f[1..][i];
      }
    }
  }

  lemma {:induction false} OthersInAre(name: string, rules: seq<Rule>, group: string, alert: string, n: string, x: Rule)
    ensures (n, x) in OthersIn(name, rules, group, alert) <==>
      n == name && x in rules && !(n == group && x.alert == alert)
  {
    if rules != [] {
      var last := |rules| - 1;
      OthersInAre(name, rules[..last], group, alert, n, x);
      assert rules == rules[..last] + [rules[last]];
    }
  }

  // ---------- What each edit brings about ----------

  /** What is left are the rules of other names. */
  lemma {:induction false} WithoutIs(rules: seq<Rule>, alert: string, x: Rule)
    ensures x in Without(rules, alert) <==> x in rules && x.alert != alert
  {
    if rules != [] {
      var last := |rules| - 1;
      WithoutIs(rules[..last], alert, x);
      assert rules == rules[..last] + [rules[last]];
    }
  }

  /** Some group of this name has a rule of this alert name. */
  ghost predicate HasRule(f: File, group: string, alert: string) {
    exists i :: 0 <= i < |f| && f[i].name == group && HasAlert(f[i].rules, alert)
  }

  /**
  With unique group names a deletion finds its rule if there is one, and then the rule is gone, and no empty
  group left of it.
  */
  lemma DeleteRemoves(f: File, group: string, alert: string, status: Status, g: File)
    requires Deletes(f, group, alert, status, g) && Unique(f)
    ensures status == Done <==> HasRule(f, group, alert)
    ensures status == Done ==> !HasRule(g, group, alert)
    ensures status == Done ==> forall i :: 0 <= i < |g| && g[i].name == group ==> g[i].rules != []
    ensures status != Done ==> status == NotFound && g == f
  {
    if !Absent(f, group) {
      var i :| IsFirst(f, group, i) && DeletesIn(f, i, alert, status, g);
      assert forall k :: 0 <= k < |f| && f[k].name == group ==> k == i;
      if HasAlert(f[i].rules, alert) {
        ReducedLacks(f, i, alert);
      }
    }
  }

  lemma ReducedLacks(f: File, i: int, alert: string)
    requires Unique(f) && 0 <= i < |f|
    ensures
      var g := Reduced(f, i, Without(f[i].rules, alert));
      !HasRule(g, f[i].name, alert) && forall k :: 0 <= k < |g| && g[k].name == f[i].name ==> g[k].rules != []
  {
    var rules := Without(f[i].rules, alert);
    var g := Reduced(f, i, rules);
    NoneOfThatName(f[i].rules, alert);
    if rules == [] {
      forall k | 0 <= k < |g| ensures g[k].name != f[i].name {
        assert g[k] == if k < i then f[k] else f[k + 1];
      }
    } else {
      forall k | 0 <= k < |g| ensures g[k].name == f[i].name ==> g[k].rules == rules {
        assert k != i ==> g[k] == f[k];
      }
    }
  }

  lemma NoneOfThatName(rules: seq<Rule>, alert: string)
    ensures !HasAlert(Without(rules, alert), alert)
  {
    var w := Without(rules, alert);
    forall k | 0 <= k < |w| ensures w[k].alert != alert {
      WithoutIs(rules, alert, w[k]);
    }
  }

  /** A rule that is created stands last in a group of its name, and was not there before. */
  lemma CreatePuts(f: File, group: string, rule: Rule, status: Status, g: File)
    requires Creates(f, group, rule, status, g) && Unique(f)
    ensures status == Done <==> group != "" && rule.alert != "" && !HasRule(f, group, rule.alert)
    ensures status == Done ==>
      exists i :: 0 <= i < |g| && g[i].name == group && g[i].rules != [] && g[i].rules[|g[i].rules| - 1] == rule
  {
    if group != "" && rule.alert != "" {
      if Absent(f, group) {
        assert g[|f|] == Group(group, [rule]);
      } else {
        var i :| IsFirst(f, group, i) && CreatesIn(f, i, rule, status, g);
        assert forall k :: 0 <= k < |f| && f[k].name == group ==> k == i;
        assert status == Done ==> g[i] == Group(group, f[i].rules + [rule]);
      }
    }
  }

  /**
  A rule that is updated stands where the old one stood, under its own name, or under the old one if it brings
  none.
  */
  lemma UpdatePuts(f: File, group: string, alert: string, rule: Rule, status: Status, g: File)
    requires Updates(f, group, alert, rule, status, g) && Unique(f)
    ensures status == Done <==> HasRule(f, group, alert)
    ensures status == Done ==>
      exists i, r :: 0 <= i < |f| == |g| && f[i].name == group == g[i].name &&
                     0 <= r < |f[i].rules| == |g[i].rules| && f[i].rules[r].alert == alert &&
                     g[i].rules[r] == if rule.alert == "" then rule.(alert := alert) else rule
  {
    if !Absent(f, group) {
      var i :| IsFirst(f, group, i) && UpdatesIn(f, i, alert, rule, status, g);
      assert forall k :: 0 <= k < |f| && f[k].name == group ==> k == i;
      if HasAlert(f[i].rules, alert) {
        var r :| IsFirstRule(f[i].rules, alert, r) && g == Replaced(f, i, r, Named(rule, alert));
        assert g[i].rules[r] == Named(rule, alert);
      }
    }
  }

  // ---------- Runs ----------

  datatype Edit =
    | Create(group: string, rule: Rule)
    | Update(group: string, alert: string, rule: Rule)
    | Delete(group: string, alert: string)

  ghost predicate Answers(f: File, e: Edit, status: Status, g: File) {
    match e
    case Create(group, rule) => Creates(f, group, rule, status, g)
    case Update(group, alert, rule) => Updates(f, group, alert, rule, status, g)
    case Delete(group, alert) => Deletes(f, group, alert, status, g)
  }

  /** An edit that is answered, or one that fails on reading or writing the file. */
  ghost predicate Step(f: File, e: Edit, g: File) {
    g == f || exists status :: Answers(f, e, status, g)
  }

  predicate KeepsName(e: Edit) {
    e.Update? ==> Named(e.rule, e.alert).alert == e.alert
  }

  /** Uniqueness survives every sequence of creates, deletes and name-keeping updates, carried out or refused. */
  lemma {:induction false} RunKeepsUnique(trace: seq<File>, edits: seq<Edit>, n: nat)
    requires |trace| == |edits| + 1 && n < |trace|
    requires forall k :: 0 <= k < |edits| ==> Step(trace[k], edits[k], trace[k + 1]) && KeepsName(edits[k])
    requires Unique(trace[0])
    ensures Unique(trace[n])
  {
    if n > 0 {
      RunKeepsUnique(trace, edits, n - 1);
      StepKeepsUnique(trace[n - 1], edits[n - 1], trace[n]);
    }
  }

  lemma StepKeepsUnique(f: File, e: Edit, g: File)
    requires Unique(f) && Step(f, e, g) && KeepsName(e)
    ensures Unique(g)
  {
    if g != f {
      var status :| Answers(f, e, status, g);
      match e
      case Create(group, rule) => CreateKeepsUnique(f, group, rule, status, g);
      case Delete(group, alert) => DeleteKeepsUnique(f, group, alert, status, g);
      case Update(group, alert, rule) =>
        var i :| IsFirst(f, group, i) && UpdatesIn(f, i, alert, rule, status, g);
        UpdateKeepsUnique(f, group, alert, rule, g, i);
    }
  }
}
