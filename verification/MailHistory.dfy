/**
The mail history: delivery log lines folded into one item per queued message,
ingest lines with duplicates dropped, and the paging of the resulting list.
*/
module MailHistory {
  import opened Wrappers
  import opened GoStrings

  /** Queue ids are matched as \d+ by both line patterns. */
  type Digits = s: string | forall c :: c in s ==> '0' <= c <= '9' witness "0"

  /** A log line that one of the two patterns matched. The delivery pattern has no message id: it is "". */
  datatype Line = Line(timestamp: string, event: string, queueId: Digits, from: string, to: seq<string>, size: int,
                       messageId: string)

  datatype Status = Pending | Failed | Completed | Ham | Spam

  datatype Item = Item(timestamp: string, from: string, to: seq<string>, size: int, messageId: string,
                       queueId: Digits, status: Option<Status>, event: string)

  // ---------- Delivery lines ----------

  /** The status that one line argues for. */
  function Implied(event: string): Status {
    if Contains(event, "completed") || Contains(event, "dsn-success") then Completed
    else if Contains(event, "dsn-fail") || Contains(event, "dsn-perm-fail") then Failed
    else Pending
  }

  function Rank(s: Status): nat {
    match s
    case Failed => 1
    case Completed => 2
    case _ => 0
  }

  /** The working entry of a queue id. */
  datatype Entry = Entry(item: Item, status: Status)

  function NewEntry(l: Line): Entry {
    Entry(Item(l.timestamp, l.from, l.to, l.size, "", l.queueId, None, l.event), Pending)
  }

  /** The switch over the event name. */
  function Update(e: Entry, l: Line): Entry {
    match Implied(l.event)
    case Completed => Entry(e.item.(status := Some(Completed)), Completed)
    case Failed => if e.status.Completed? then e else Entry(e.item.(status := Some(Failed)), Failed)
    case _ =>
      if Contains(l.event, "queue-message") && e.status.Pending?
      then e.(item := e.item.(timestamp := l.timestamp, event := l.event)) else e
  }

  /** What the lines of one queue id add up to. */
  function Fold(lines: seq<Line>, q: string): Option<Entry> {
    if lines == [] then None
    else
      var before, l := Fold(lines[..|lines| - 1], q), lines[|lines| - 1];
      if l.queueId != q then before
      else Some(Update(if before.Some? then before.value else NewEntry(l), l))
  }

  function Finish(e: Entry): Item {
    if e.item.status.None? then e.item.(status := Some(e.status)) else e.item
  }

  /** parseDeliveryLines; the entries are listed in map order, which is arbitrary. */
  method ParseDelivery(lines: seq<Line>) returns (items: seq<Item>)
    ensures forall it :: it in items ==> Fold(lines, it.queueId).Some? && it == Finish(Fold(lines, it.queueId).value)
    ensures forall l :: l in lines ==> exists i :: 0 <= i < |items| && items[i].queueId == l.queueId
    ensures forall i, j :: 0 <= i < j < |items| ==> items[i].queueId != items[j].queueId
  {
    var byQueue: map<string, Entry> := map[];
    for i := 0 to |lines|
      invariant forall q :: q in byQueue <==> Fold(lines[..i], q).Some?
      invariant forall q :: q in byQueue ==> byQueue[q] == Fold(lines[..i], q).value
    {
      assert lines[..i + 1][..i] == lines[..i];
      var l := lines[i];
      var e := if l.queueId in byQueue then byQueue[l.queueId] else NewEntry(l);
      if Contains(l.event, "completed") {
        e := Entry(e.item.(status := Some(Completed)), Completed);
      } else if Contains(l.event, "dsn-success") {
        e := Entry(e.item.(status := Some(Completed)), Completed);
      } else if Contains(l.event, "dsn-fail") || Contains(l.event, "dsn-perm-fail") {
        if e.status != Completed {
          e := Entry(e.item.(status := Some(Failed)), Failed);
        }
      } else if Contains(l.event, "queue-message") {
        if e.status == Pending {
          e := e.(item := e.item.(timestamp := l.timestamp, event := l.event));
        }
      }
      byQueue := byQueue[l.queueId := e];
    }
    assert lines[..|lines|] == lines;
    items := ListEntries(lines, byQueue);
    forall l | l in lines ensures exists i :: 0 <= i < |items| && items[i].queueId == l.queueId {
      FoldOfMember(lines, l);
      assert l.queueId in byQueue;
    }
  }

  method ListEntries(lines: seq<Line>, byQueue: map<string, Entry>) returns (items: seq<Item>)
    requires forall q :: q in byQueue ==> Fold(lines, q) == Some(byQueue[q])
    ensures forall it :: it in items ==> it.queueId in byQueue && it == Finish(byQueue[it.queueId])
    ensures forall q :: q in byQueue ==> exists i :: 0 <= i < |items| && items[i].queueId == q
    ensures forall i, j :: 0 <= i < j < |items| ==> items[i].queueId != items[j].queueId
  {
    items := [];
    var rest := byQueue.Keys;
    while rest != {}
      invariant rest <= byQueue.Keys
      invariant forall it :: it in items ==>
        it.queueId in byQueue && it.queueId !in rest && it == Finish(byQueue[it.queueId])
      invariant forall q :: q in byQueue && q !in rest ==> exists i :: 0 <= i < |items| && items[i].queueId == q
      invariant forall i, j :: 0 <= i < j < |items| ==> items[i].queueId != items[j].queueId
      decreases rest
    {
      var q :| q in rest;
      FoldKeepsQueue(lines, q);
      ghost var before := items;
      items := items + [Finish(byQueue[q])];
      rest := rest - {q};
      assert items[|before|].queueId == q;
      forall k | k in byQueue && k !in rest ensures exists i :: 0 <= i < |items| && items[i].queueId == k {
        if k != q {
          var i :| 0 <= i < |before| && before[i].queueId == k;
          assert items[i].queueId == k;
        }
      }
    }
  }

  lemma {:induction false} FoldKeepsQueue(lines: seq<Line>, q: string)
    ensures Fold(lines, q).Some? ==> Fold(lines, q).value.item.queueId == q
  {
    if lines != [] {
      FoldKeepsQueue(lines[..|lines| - 1], q);
    }
  }

  lemma {:induction false} FoldOfMember(lines: seq<Line>, l: Line)
    ensures l in lines ==> Fold(lines, l.queueId).Some?
  {
    if lines != [] {
      FoldOfMember(lines[..|lines| - 1], l);
    }
  }

  /** Sender, recipients and size of an item are those of the first line of its queue id. */
  lemma {:induction false} FoldKeepsFirst(lines: seq<Line>, q: string)
    requires Fold(lines, q).Some?
    ensures var it := Finish(Fold(lines, q).value);
      exists i :: 0 <= i < |lines| && IsFirstOf(lines, q, i) && it.from == lines[i].from && it.to == lines[i].to &&
                  it.size == lines[i].size
  {
    var last := |lines| - 1;
    if Fold(lines[..last], q).Some? {
      FoldKeepsFirst(lines[..last], q);
      var it := Finish(Fold(lines[..last], q).value);
      var i :| 0 <= i < last && IsFirstOf(lines[..last], q, i) &&
        it.from == lines[..last][i].from && it.to == lines[..last][i].to && it.size == lines[..last][i].size;
      assert IsFirstOf(lines, q, i);
    } else {
      FoldOfOthers(lines[..last], q);
      assert IsFirstOf(lines, q, last);
    }
  }

  predicate IsFirstOf(lines: seq<Line>, q: string, i: nat)
    requires i < |lines|
  {
    lines[i].queueId == q && forall k :: 0 <= k < i ==> lines[k].queueId != q
  }

  lemma {:induction false} FoldOfOthers(lines: seq<Line>, q: string)
    requires Fold(lines, q).None?
    ensures forall k :: 0 <= k < |lines| ==> lines[k].queueId != q
  {
    if lines != [] {
      FoldOfOthers(lines[..|lines| - 1], q);
    }
  }

  /** `s` is the highest status that a line of the queue id argues for: pending < failed < completed. */
  ghost predicate IsFinal(lines: seq<Line>, q: string, s: Status) {
    (exists l :: l in lines && l.queueId == q && Implied(l.event) == s) &&
    forall l :: l in lines && l.queueId == q ==> Rank(Implied(l.event)) <= Rank(s)
  }

  /** The working status is a delivery status, and the item shows it unless it is still pending. */
  predicate Sound(e: Entry) {
    (e.status.Pending? && e.item.status.None?) ||
    ((e.status.Failed? || e.status.Completed?) && e.item.status == Some(e.status))
  }

  lemma UpdateTakesTheHigher(e: Entry, l: Line)
    requires Sound(e)
    ensures Sound(Update(e, l))
    ensures Update(e, l).status == if Rank(Implied(l.event)) > Rank(e.status) then Implied(l.event) else e.status
  {
  }

  lemma {:induction false} FoldIsFinal(lines: seq<Line>, q: string)
    ensures Fold(lines, q).Some? <==> exists l :: l in lines && l.queueId == q
    ensures Fold(lines, q).Some? ==> Sound(Fold(lines, q).value) && IsFinal(lines, q, Fold(lines, q).value.status)
  {
    if lines != [] {
      var front, l := lines[..|lines| - 1], lines[|lines| - 1];
      FoldIsFinal(front, q);
      assert forall k :: k in lines <==> k in front || k == l;
      var before := Fold(front, q);
      UpdateTakesTheHigher(if before.Some? then before.value else NewEntry(l), l);
      if before.Some? {
        var w :| w in front && w.queueId == q && Implied(w.event) == before.value.status;
        assert w in lines;
      }
    }
  }

  /** The final status of a queue id does not depend on the order of the log. */
  lemma StatusIgnoresOrder(a: seq<Line>, b: seq<Line>, q: string)
    requires multiset(a) == multiset(b)
    ensures Fold(a, q).Some? <==> Fold(b, q).Some?
    ensures Fold(a, q).Some? ==>
      var s := Finish(Fold(a, q).value).status;
      s == Finish(Fold(b, q).value).status && s.Some? && IsFinal(a, q, s.value) && IsFinal(b, q, s.value)
  {
    FoldIsFinal(a, q);
    FoldIsFinal(b, q);
    assert forall l :: l in a <==> l in multiset(a);
    assert forall l :: l in b <==> l in multiset(b);
  }

  /** The event names a delivery that came through, or one that failed. */
  predicate SaysCompleted(event: string) {
    Contains(event, "completed") || Contains(event, "dsn-success")
  }

  predicate SaysFailed(event: string) {
    Contains(event, "dsn-fail") || Contains(event, "dsn-perm-fail")
  }

  /** Some line of the queue id, among the first `n`, says so. */
  predicate AnyCompleted(lines: seq<Line>, q: string, n: nat)
    requires n <= |lines|
  {
    exists k :: 0 <= k < n && lines[k].queueId == q && SaysCompleted(lines[k].event)
  }

  predicate AnyFailed(lines: seq<Line>, q: string, n: nat)
    requires n <= |lines|
  {
    exists k :: 0 <= k < n && lines[k].queueId == q && SaysFailed(lines[k].event)
  }

  /** A message is completed if a line says so, failed if a line says that and none the other, and else pending. */
  lemma StatusIs(lines: seq<Line>, q: string)
    requires Fold(lines, q).Some?
    ensures
      var s := if AnyCompleted(lines, q, |lines|) then Completed else if AnyFailed(lines, q, |lines|) then Failed
        else Pending;
      Fold(lines, q).value.status == s && Finish(Fold(lines, q).value).status == Some(s)
  {
    FoldIsFinal(lines, q);
    var s := Fold(lines, q).value.status;
    var w :| w in lines && w.queueId == q && Implied(w.event) == s;
    var n :| 0 <= n < |lines| && lines[n] == w;
    forall k | 0 <= k < |lines| && lines[k].queueId == q ensures Rank(Implied(lines[k].event)) <= Rank(s) {
      assert lines[k] in lines;
    }
  }

  /** Line `k` is a queue message of an id about which nothing was decided up to then. */
  predicate Refreshes(lines: seq<Line>, q: string, k: nat)
    requires k < |lines|
  {
    lines[k].queueId == q && Contains(lines[k].event, "queue-message") &&
    !AnyCompleted(lines, q, k + 1) && !AnyFailed(lines, q, k + 1)
  }

  /** The line whose time and event an item shows: the last one that refreshes it, or else the first of the queue id. */
  ghost predicate IsShown(lines: seq<Line>, q: string, m: nat)
    requires m < |lines|
  {
    (Refreshes(lines, q, m) && forall k :: m < k < |lines| ==> !Refreshes(lines, q, k)) ||
    (IsFirstOf(lines, q, m) && forall k :: 0 <= k < |lines| ==> !Refreshes(lines, q, k))
  }

  lemma FrontRefreshes(lines: seq<Line>, q: string, k: nat)
    requires k < |lines| - 1
    ensures Refreshes(lines, q, k) <==> Refreshes(lines[..|lines| - 1], q, k)
  {
    var front := lines[..|lines| - 1];
    assert forall j :: 0 <= j <= k ==> front[j] == lines[j];
  }

  lemma LastRefreshes(lines: seq<Line>, q: string, e: Entry)
    requires lines != [] && lines[|lines| - 1].queueId == q
    requires Fold(lines, q) == Some(Update(e, lines[|lines| - 1])) && Sound(e)
    requires e.status.Pending? <==> !AnyCompleted(lines, q, |lines| - 1) && !AnyFailed(lines, q, |lines| - 1)
    ensures
      var l, it := lines[|lines| - 1], Fold(lines, q).value.item;
      if Refreshes(lines, q, |lines| - 1) then it.timestamp == l.timestamp && it.event == l.event
      else it.timestamp == e.item.timestamp && it.event == e.item.event
  {
    var l := lines[|lines| - 1];
    assert AnyCompleted(lines, q, |lines|) <==> AnyCompleted(lines, q, |lines| - 1) || SaysCompleted(l.event);
    assert AnyFailed(lines, q, |lines|) <==> AnyFailed(lines, q, |lines| - 1) || SaysFailed(l.event);
  }

  /** Time and event of an item are those of the line shown. */
  lemma {:induction false} FoldShows(lines: seq<Line>, q: string) returns (m: nat)
    requires Fold(lines, q).Some?
    ensures m < |lines| && IsShown(lines, q, m)
    ensures var it := Finish(Fold(lines, q).value);
      it.timestamp == lines[m].timestamp && it.event == lines[m].event
  {
    var last := |lines| - 1;
    var front, l := lines[..last], lines[last];
    forall k | 0 <= k < last ensures Refreshes(lines, q, k) <==> Refreshes(front, q, k) {
      FrontRefreshes(lines, q, k);
    }
    if Fold(front, q).None? {
      FoldOfOthers(front, q);
      m := last;
      assert IsFirstOf(lines, q, last);
      LastRefreshes(lines, q, NewEntry(l));
    } else {
      m := FoldShows(front, q);
      assert IsFirstOf(front, q, m) <==> IsFirstOf(lines, q, m);
      if l.queueId == q {
        FoldIsFinal(front, q);
        StatusIs(front, q);
        SameUpTo(front, lines, q);
        LastRefreshes(lines, q, Fold(front, q).value);
        if Refreshes(lines, q, last) {
          m := last;
        }
      }
    }
  }

  lemma SameUpTo(front: seq<Line>, lines: seq<Line>, q: string)
    requires front <= lines
    ensures AnyCompleted(lines, q, |front|) <==> AnyCompleted(front, q, |front|)
    ensures AnyFailed(lines, q, |front|) <==> AnyFailed(front, q, |front|)
  {
    assert forall k :: 0 <= k < |front| ==> front[k] == lines[k];
  }

  // ---------- Ingest lines ----------

  function IngestItem(l: Line): Item {
    Item(l.timestamp, l.from, l.to, l.size, l.messageId, l.queueId,
         Some(if HasSuffix(l.event, ".spam") then Spam else Ham), l.event)
  }

  function IngestItems(lines: seq<Line>): (items: seq<Item>)
    ensures |items| == |lines| && forall i :: 0 <= i < |lines| ==> items[i] == IngestItem(lines[i])
  {
    if lines == [] then [] else IngestItems(lines[..|lines| - 1]) + [IngestItem(lines[|lines| - 1])]
  }

  predicate SameMessage(a: Line, b: Line) {
    a.queueId == b.queueId && a.messageId == b.messageId
  }

  /** The lines that are the first for their queue id and message id, in order. */
  function Firsts(lines: seq<Line>): seq<Line> {
    if lines == [] then []
    else
      var front, l := lines[..|lines| - 1], lines[|lines| - 1];
      Firsts(front) + if exists k :: k in front && SameMessage(k, l) then [] else [l]
  }

  function SeenKey(l: Line): string {
    l.queueId + "|" + l.messageId
  }

  lemma SeenKeyIsInjective(a: Line, b: Line)
    ensures SeenKey(a) == SeenKey(b) <==> SameMessage(a, b)
  {
    assert '|' !in a.queueId && '|' !in b.queueId;
    IndexOfFirst(a.queueId, '|', a.messageId);
    IndexOfFirst(b.queueId, '|', b.messageId);
    if SeenKey(a) == SeenKey(b) {
      assert SeenKey(a)[..|a.queueId|] == a.queueId && SeenKey(b)[..|b.queueId|] == b.queueId;
      assert SeenKey(a)[|a.queueId| + 1..] == a.messageId && SeenKey(b)[|b.queueId| + 1..] == b.messageId;
    }
  }

  ghost predicate HasMessage(lines: seq<Line>, l: Line) {
    exists k :: k in lines && SameMessage(k, l)
  }

  predicate NoRepeats(lines: seq<Line>) {
    forall i, j :: 0 <= i < j < |lines| ==> !SameMessage(lines[i], lines[j])
  }

  lemma HasMessageMore(lines: seq<Line>, l: Line, x: Line)
    ensures HasMessage(lines + [x], l) <==> HasMessage(lines, l) || SameMessage(x, l)
    ensures NoRepeats(lines) && !HasMessage(lines, x) ==> NoRepeats(lines + [x])
  {
  }

  function SeenKeys(lines: seq<Line>): set<string> {
    if lines == [] then {} else SeenKeys(lines[..|lines| - 1]) + {SeenKey(lines[|lines| - 1])}
  }

  /** The key tells whether a message came before. */
  lemma {:induction false} SeenMeansHasMessage(lines: seq<Line>, l: Line)
    ensures SeenKey(l) in SeenKeys(lines) <==> HasMessage(lines, l)
  {
    if lines != [] {
      var front, last := lines[..|lines| - 1], lines[|lines| - 1];
      assert lines == front + [last];
      SeenMeansHasMessage(front, l);
      HasMessageMore(front, l, last);
      SeenKeyIsInjective(last, l);
    }
  }

  /** One more line, as the loop sees it. */
  lemma OneMoreLine(lines: seq<Line>, i: nat)
    requires i < |lines|
    ensures SeenKeys(lines[..i + 1]) == SeenKeys(lines[..i]) + {SeenKey(lines[i])}
    ensures IngestItems(Firsts(lines[..i + 1])) ==
      IngestItems(Firsts(lines[..i])) + if SeenKey(lines[i]) in SeenKeys(lines[..i]) then [] else [IngestItem(lines[i])]
  {
    var front, l := lines[..i], lines[i];
    assert lines[..i + 1] == front + [l] && lines[..i + 1][..i] == front;
    SeenMeansHasMessage(front, l);
    OneMoreFirst(front, l);
    OneMoreItem(Firsts(front), l);
    assert IngestItems(Firsts(front)) + [] == IngestItems(Firsts(front));
  }

  lemma OneMoreFirst(front: seq<Line>, l: Line)
    ensures Firsts(front + [l]) == if HasMessage(front, l) then Firsts(front) else Firsts(front) + [l]
  {
  }

  lemma OneMoreItem(lines: seq<Line>, l: Line)
    ensures IngestItems(lines + [l]) == IngestItems(lines) + [IngestItem(l)]
  {
  }

  /** parseIngestLines: the concatenated key stands for the pair without collisions. */
  method ParseIngest(lines: seq<Line>) returns (items: seq<Item>)
    ensures items == IngestItems(Firsts(lines))
    ensures |items| == |Firsts(lines)| && forall i :: 0 <= i < |items| ==>
      var it, l := items[i], Firsts(lines)[i];
      it.timestamp == l.timestamp && it.event == l.event && it.queueId == l.queueId && it.from == l.from &&
      it.to == l.to && it.size == l.size && it.messageId == l.messageId &&
      it.status == Some(if HasSuffix(l.event, ".spam") then Spam else Ham)
  {
    items := [];
    var seen: set<string> := {};
    for i := 0 to |lines|
      invariant items == IngestItems(Firsts(lines[..i]))
      invariant seen == SeenKeys(lines[..i])
    {
      var l := lines[i];
      OneMoreLine(lines, i);
      if SeenKey(l) in seen {
        continue;
      }
      seen := seen + {SeenKey(l)};
      items := items + [IngestItem(l)];
    }
    assert lines[..|lines|] == lines;
  }

  /** The first lines carry the messages of the log, all of them and none twice. */
  lemma {:induction false} EveryMessageOnce(lines: seq<Line>, l: Line)
    ensures HasMessage(Firsts(lines), l) <==> HasMessage(lines, l)
    ensures NoRepeats(Firsts(lines))
  {
    if lines != [] {
      var front, last := lines[..|lines| - 1], lines[|lines| - 1];
      assert lines == front + [last];
      EveryMessageOnce(front, l);
      EveryMessageOnce(front, last);
      HasMessageMore(front, l, last);
      HasMessageMore(Firsts(front), l, last);
      assert Firsts(lines) == Firsts(front) + if HasMessage(front, last) then [] else [last];
      assert Firsts(front) + [] == Firsts(front);
    }
  }

  /** And they are lines of the log in the order of the log, each the earliest with its message. */
  lemma {:induction false} FirstsAreEarliest(lines: seq<Line>, f: Line)
    requires f in Firsts(lines)
    ensures exists i :: 0 <= i < |lines| && lines[i] == f && !HasMessage(lines[..i], f)
  {
    var last := |lines| - 1;
    if f in Firsts(lines[..last]) {
      FirstsAreEarliest(lines[..last], f);
      var i :| 0 <= i < last && lines[..last][i] == f && !HasMessage(lines[..last][..i], f);
      assert lines[..last][..i] == lines[..i];
    }
  }

  // ---------- Sorting and paging ----------

  /** Go's string order. */
  predicate Less(a: string, b: string) {
    if b == "" then false
    else if a == "" then true
    else a[0] < b[0] || (a[0] == b[0] && Less(a[1..], b[1..]))
  }

  /** One text comes before another where they first differ, or where it ends. */
  lemma {:induction false} LessIs(a: string, b: string)
    ensures Less(a, b) <==> exists k :: 0 <= k <= |a| && k < |b| && a[..k] == b[..k] && (k == |a| || a[k] < b[k])
  {
    if a == "" && b != "" {
      assert a[..0] == b[..0];
    } else if a != "" && b != "" && a[0] == b[0] {
      LessIs(a[1..], b[1..]);
      var c, d := a[1..], b[1..];
      if k :| 0 <= k <= |c| && k < |d| && c[..k] == d[..k] && (k == |c| || c[k] < d[k]) {
        PrefixMore(a, b, k);
      }
      if k :| 0 <= k <= |a| && k < |b| && a[..k] == b[..k] && (k == |a| || a[k] < b[k]) {
        if k > 0 {
          PrefixMore(a, b, k - 1);
        }
      }
    } else if a != "" && b != "" {
      assert a[..0] == b[..0];
      forall k | 0 < k <= |a| && k < |b| ensures a[..k] != b[..k] {
        assert a[..k][0] == a[0] && b[..k][0] == b[0];
      }
    }
  }

  lemma PrefixMore(a: string, b: string, k: nat)
    requires a != "" && b != "" && a[0] == b[0] && k < |a| && k < |b|
    ensures a[1..][..k] == b[1..][..k] <==> a[..k + 1] == b[..k + 1]
  {
    assert a[..k + 1] == [a[0]] + a[1..][..k] && b[..k + 1] == [b[0]] + b[1..][..k];
  }

  lemma {:induction false} LessIsTotal(a: string, b: string)
    ensures a == b || Less(a, b) || Less(b, a)
  {
    if a != "" && b != "" && a[0] == b[0] {
      LessIsTotal(a[1..], b[1..]);
      assert a == [a[0]] + a[1..] && b == [b[0]] + b[1..];
    }
  }

  /** What sort.Slice guarantees: newest first, ties in any order. */
  ghost predicate NewestFirst(items: seq<Item>) {
    forall i, j :: 0 <= i < j < |items| ==> !Less(items[i].timestamp, items[j].timestamp)
  }

  /** Items side by side with the same timestamp are the same. */
  ghost predicate NoRealTies(items: seq<Item>) {
    forall i :: 0 < i < |items| && items[i - 1].timestamp == items[i].timestamp ==> items[i - 1] == items[i]
  }

  /** In a sorted list equal timestamps stand side by side. */
  lemma {:induction false} TiesAreEqual(items: seq<Item>, i: nat, j: nat)
    requires NewestFirst(items) && NoRealTies(items)
    requires i <= j < |items| && items[i].timestamp == items[j].timestamp
    ensures items[i] == items[j]
    decreases j
  {
    if i < j {
      LessIsTotal(items[i].timestamp, items[j - 1].timestamp);
      TiesAreEqual(items, i, j - 1);
    }
  }

  lemma SameNewest(a: seq<Item>, b: seq<Item>)
    requires a != [] && b != [] && a[0] in b && b[0] in a
    requires NewestFirst(a) && NewestFirst(b) && NoRealTies(a)
    ensures a[0] == b[0]
  {
    var i :| 0 <= i < |b| && b[i] == a[0];
    var j :| 0 <= j < |a| && a[j] == b[0];
    LessIsTotal(a[0].timestamp, b[0].timestamp);
    TiesAreEqual(a, 0, j);
  }

  lemma {:induction false} NoTiesNoChoice(a: seq<Item>, b: seq<Item>)
    requires multiset(a) == multiset(b) && NewestFirst(a) && NewestFirst(b) && NoRealTies(a)
    ensures a == b
    decreases |a|
  {
    SameHeads(a, b);
    if a != [] {
      SameNewest(a, b);
      SameTails(a, b);
      NoTiesNoChoice(a[1..], b[1..]);
      assert a == [a[0]] + a[1..] && b == [b[0]] + b[1..];
    }
  }

  /** The list with items `i - 1` and `i` changed over. */
  function Swapped(items: seq<Item>, i: nat): (r: seq<Item>)
    requires 0 < i < |items|
    ensures |r| == |items|
  {
    items[i - 1 := items[i]][i := items[i - 1]]
  }

  lemma SwapOfTieIsSorted(items: seq<Item>, i: nat)
    requires NewestFirst(items) && 0 < i < |items| && items[i - 1].timestamp == items[i].timestamp
    ensures NewestFirst(Swapped(items, i)) && multiset(Swapped(items, i)) == multiset(items)
  {
    LessIsIrreflexive(items[i].timestamp);
    var b := Swapped(items, i);
    assert forall k :: 0 <= k < |items| ==> b[k].timestamp == items[k].timestamp;
  }

  /** Every request sorts the items into the same list exactly when no two different items share a timestamp. */
  lemma SortingIsDetermined(a: seq<Item>)
    requires NewestFirst(a)
    ensures (forall b :: multiset(b) == multiset(a) && NewestFirst(b) ==> b == a) <==> NoRealTies(a)
  {
    if NoRealTies(a) {
      forall b | multiset(b) == multiset(a) && NewestFirst(b) ensures b == a {
        NoTiesNoChoice(a, b);
      }
    } else {
      var i :| 0 < i < |a| && a[i - 1].timestamp == a[i].timestamp && a[i - 1] != a[i];
      SwapOfTieIsSorted(a, i);
      assert Swapped(a, i)[i] != a[i];
    }
  }

  lemma SameHeads(a: seq<Item>, b: seq<Item>)
    requires multiset(a) == multiset(b)
    ensures |a| == |b| && (a != [] ==> a[0] in b && b[0] in a)
  {
    assert |a| == |multiset(a)| == |b|;
    if a != [] {
      assert a[0] in multiset(b) && b[0] in multiset(a);
    }
  }

  lemma SameTails(a: seq<Item>, b: seq<Item>)
    requires multiset(a) == multiset(b) && a != [] && b != [] && a[0] == b[0]
    ensures multiset(a[1..]) == multiset(b[1..])
  {
    assert a == [a[0]] + a[1..] && b == [b[0]] + b[1..];
    assert multiset(a[1..]) == multiset(a) - multiset{a[0]};
    assert multiset(b[1..]) == multiset(b) - multiset{b[0]};
  }

  const TWO_63 := 0x8000_0000_0000_0000

  /** Arithmetic on Go's int, 64 bits wide. */
  function Wrap(n: int): (r: int)
    ensures -TWO_63 <= r < TWO_63
    ensures -TWO_63 <= n < TWO_63 ==> r == n
  {
    (n + TWO_63) % (2 * TWO_63) - TWO_63
  }

  /** The query parameters; None when absent or not a number. */
  function Limit(param: Option<int>): (limit: int)
    ensures 0 < limit <= 500
  {
    if param.Some? && 0 < param.value <= 500 then param.value else 100
  }

  function PageNumber(param: Option<int>): (page: int)
    ensures page >= 1
  {
    if param.Some? && param.value > 1 then param.value else 1
  }

  /** A handler's answer; slicing outside the list panics. */
  datatype Answer = Items(items: seq<Item>) | Panic

  function Slice(items: seq<Item>, start: nat, limit: nat): seq<Item> {
    if start >= |items| then []
    else if start + limit <= |items| then items[start..start + limit]
    else items[start..]
  }

  function Start(page: int, limit: int): nat
    requires page >= 1 && limit > 0
  {
    (page - 1) * limit
  }

  /** What a page means, on unbounded numbers. */
  function Page(items: seq<Item>, page: int, limit: int): seq<Item>
    requires page >= 1 && limit > 0
  {
    Slice(items, Start(page, limit), limit)
  }

  /**
  The paging of mailHistoryHandler. It serves the page unless the start of the page wraps around into the list
  or below zero.
  */
  method Paginate(all: seq<Item>, pageParam: Option<int>, limitParam: Option<int>) returns (answer: Answer)
    requires |all| < TWO_63 - 500
    requires pageParam.Some? ==> pageParam.value < TWO_63
    ensures
      var page, limit := PageNumber(pageParam), Limit(limitParam);
      answer == Items(Page(all, page, limit)) <==> Start(page, limit) < TWO_63 || Wrap(Start(page, limit)) >= |all|
    ensures
      var limit := if limitParam.Some? && 1 <= limitParam.value <= 500 then limitParam.value else 100;
      var page := if pageParam.Some? && pageParam.value >= 2 then pageParam.value else 1;
      var start := (page - 1) * limit;
      start < 0x8000_0000_0000_0000 ==>
        answer == Items(if start >= |all| then []
                        else if start + limit <= |all| then all[start..start + limit] else all[start..])
  {
    var limit, page := Limit(limitParam), PageNumber(pageParam);
    answer := Cut(all, Start(page, limit), limit);
  }

  /** The slice expression, on a product that may not fit into an int. */
  method Cut(all: seq<Item>, product: nat, limit: nat) returns (answer: Answer)
    requires |all| < TWO_63 - 500 && 0 < limit <= 500
    ensures answer == Items(Slice(all, product, limit)) <==> product < TWO_63 || Wrap(product) >= |all|
  {
    var total := |all|;
    var start := Wrap(product);
    var end := Wrap(start + limit);
    if start >= total {
      answer := Items([]);
    } else {
      if end > total {
        end := total;
      }
      if 0 <= start <= end {
        answer := Items(all[start..end]);
        assert |all[start..end]| > 0;
      } else {
        answer := Panic;
      }
    }
  }

  /** Past the end of a list of fewer than 2^63 items, this page shows the beginning of the list again. */
  lemma PageCanWrapToTheBeginning(items: seq<Item>)
    requires items != []
    ensures
      var page, limit := 0x100_0000_0000_0000 + 1, 256;
      Wrap((page - 1) * limit) == 0 && (|items| < TWO_63 ==> Page(items, page, limit) == [])
  {
  }

  function Pages(items: seq<Item>, n: nat, limit: int): seq<Item>
    requires limit > 0
  {
    if n == 0 then [] else Pages(items, n - 1, limit) + Page(items, n, limit)
  }

  function Take(items: seq<Item>, n: nat): seq<Item> {
    if n <= |items| then items[..n] else items
  }

  lemma TakeMore(items: seq<Item>, start: nat, limit: nat)
    ensures Take(items, start) + Slice(items, start, limit) == Take(items, start + limit)
  {
  }

  lemma NextStart(n: nat, limit: int)
    requires n >= 1 && limit > 0
    ensures Start(n + 1, limit) == Start(n, limit) + limit
  {
  }

  /** The first pages together are the beginning of the list, without gap or overlap; all later pages are empty. */
  lemma {:induction false} PagesMakeUpTheList(items: seq<Item>, n: nat, limit: int)
    requires limit > 0
    ensures Pages(items, n, limit) == Take(items, Start(n + 1, limit))
    ensures Start(n + 1, limit) >= |items| ==> Pages(items, n, limit) == items && Page(items, n + 1, limit) == []
  {
    if n > 0 {
      PagesMakeUpTheList(items, n - 1, limit);
      NextStart(n, limit);
      TakeMore(items, Start(n, limit), limit);
    }
  }

  /**
  Wherever there is a tie, two requests for neighbouring pages may show one of its items twice and the other not
  at all.
  */
  lemma TiesCanRepeatAnItem(items: seq<Item>, i: nat)
    requires NewestFirst(items) && 0 < i < |items| && items[i - 1].timestamp == items[i].timestamp
    ensures NewestFirst(Swapped(items, i)) && multiset(Swapped(items, i)) == multiset(items)
    ensures Page(items, i, 1) == [items[i - 1]] == Page(Swapped(items, i), i + 1, 1)
  {
    SwapOfTieIsSorted(items, i);
  }

  lemma {:induction false} LessIsIrreflexive(a: string)
    ensures !Less(a, a)
  {
    if a != "" {
      LessIsIrreflexive(a[1..]);
    }
  }
}
