/**
The build log's publish/subscribe hub: subscribers own buffered channels, publishing
never blocks, and a full buffer drops the line.
*/
module LogFanOut {

  const CAPACITY := 100

  type Log = seq<(string, string)>

  /** The lines published on `key`, in order. */
  function LinesFor(log: Log, key: string): seq<string> {
    if log == [] then []
    else
      var last := log[|log| - 1];
      LinesFor(log[..|log| - 1], key) + if last.0 == key then [last.1] else []
  }

  lemma LinesForOneMore(log: Log, since: nat, key: string, line: string, k: string)
    requires since <= |log|
    ensures LinesFor((log + [(key, line)])[since..], k) == LinesFor(log[since..], k) + if key == k then [line] else []
  {
    assert (log + [(key, line)])[since..] == log[since..] + [(key, line)];
    assert (log[since..] + [(key, line)])[..|log[since..]|] == log[since..];
  }

  lemma LinesForOne(k: string, l: string, key: string)
    ensures LinesFor([(k, l)], key) == if k == key then [l] else []
  {
    assert [(k, l)][..0] == [];
  }

  /** Line by line: those of the key, and no others, in the order of the log. */
  lemma {:induction false} LinesForConcat(a: Log, b: Log, key: string)
    ensures LinesFor(a + b, key) == LinesFor(a, key) + LinesFor(b, key)
  {
    if b == [] {
      assert a + b == a;
    } else {
      var front := b[..|b| - 1];
      assert (a + b)[..|a + b| - 1] == a + front && (a + b)[|a + b| - 1] == b[|b| - 1];
      LinesForConcat(a, front, key);
    }
  }

  /** `a` is `b` with some lines left out. */
  predicate Subsequence(a: seq<string>, b: seq<string>) {
    if b == [] then a == []
    else
      var rest := b[..|b| - 1];
      Subsequence(a, rest) || (a != [] && a[|a| - 1] == b[|b| - 1] && Subsequence(a[..|a| - 1], rest))
  }

  /** Positions, one after the other, below `n`. */
  predicate Rising(at: seq<nat>, n: nat) {
    (forall i :: 0 <= i < |at| ==> at[i] < n) && forall i, j :: 0 <= i < j < |at| ==> at[i] < at[j]
  }

  /** The lines of `a` stand in `b` at these positions. */
  predicate StandsAt(a: seq<string>, b: seq<string>, at: seq<nat>) {
    |at| == |a| && Rising(at, |b|) && forall i :: 0 <= i < |a| ==> a[i] == b[at[i]]
  }

  lemma {:induction false} SubsequenceStands(a: seq<string>, b: seq<string>) returns (at: seq<nat>)
    requires Subsequence(a, b)
    ensures StandsAt(a, b, at)
    decreases |b|
  {
    at := [];
    if b != [] {
      var rest := b[..|b| - 1];
      if Subsequence(a, rest) {
        at := SubsequenceStands(a, rest);
      } else {
        var front := SubsequenceStands(a[..|a| - 1], rest);
        at := front + [|b| - 1];
      }
    }
  }

  lemma {:induction false} StandsIsSubsequence(a: seq<string>, b: seq<string>, at: seq<nat>)
    requires StandsAt(a, b, at)
    ensures Subsequence(a, b)
    decreases |b|
  {
    if b == [] {
      assert a == [];
    } else if a == [] || at[|a| - 1] < |b| - 1 {
      StandsIsSubsequence(a, b[..|b| - 1], at);
    } else {
      StandsIsSubsequence(a[..|a| - 1], b[..|b| - 1], at[..|a| - 1]);
    }
  }

  /** That is to say: its lines stand in `b`, in the same order. */
  lemma SubsequenceIs(a: seq<string>, b: seq<string>)
    ensures Subsequence(a, b) <==> exists at :: StandsAt(a, b, at)
  {
    if Subsequence(a, b) {
      var at := SubsequenceStands(a, b);
    }
    if at: seq<nat> :| StandsAt(a, b, at) {
      StandsIsSubsequence(a, b, at);
    }
  }

  lemma SubsequenceOneMore(a: seq<string>, b: seq<string>, x: string)
    requires Subsequence(a, b)
    ensures Subsequence(a, b + [x]) && Subsequence(a + [x], b + [x])
  {
  }

  /**
  What a subscriber got, against what it was offered: nothing invented or reordered, nothing lost unless a
  buffer was full.
  */
  predicate Keeps(got: seq<string>, offered: seq<string>, overflowed: bool) {
    Subsequence(got, offered) && (!overflowed ==> got == offered)
  }

  lemma KeepsOneMore(received: seq<string>, buffer: seq<string>, offered: seq<string>, overflowed: bool, line: string)
    requires Keeps(received + buffer, offered, overflowed)
    ensures Keeps(received + (buffer + [line]), offered + [line], overflowed)
    ensures Keeps(received + buffer, offered + [line], true)
  {
    SubsequenceOneMore(received + buffer, offered, line);
    assert received + (buffer + [line]) == (received + buffer) + [line];
  }

  /** The lines published on `key` from position `since` up to position `upTo`. */
  function Window(log: Log, since: nat, upTo: nat, key: string): seq<string> {
    if since <= upTo <= |log| then LinesFor(log[since..upTo], key) else []
  }

  lemma WindowOneMore(log: Log, since: nat, upTo: nat, key: string, line: string, k: string)
    requires since <= upTo <= |log|
    ensures
      var more := log + [(key, line)];
      Window(more, since, upTo, k) == Window(log, since, upTo, k) &&
      Window(more, since, |more|, k) == Window(log, since, |log|, k) + if key == k then [line] else []
  {
    var more := log + [(key, line)];
    assert more[since..upTo] == log[since..upTo];
    assert more[since..|more|] == more[since..] && log[since..|log|] == log[since..];
    LinesForOneMore(log, since, key, line, k);
  }

  /** A channel with room for CAPACITY lines, and the record of what became of it. */
  class Chan {
    var buffer: seq<string>
    var closed: bool
    ghost const key: string       // the build it was subscribed to
    ghost const since: nat        // how many lines had been published by then, on any key
    ghost var until: nat          // how many when it was closed
    ghost var received: seq<string>
    ghost var overflowed: bool    // some line of its build was published while the buffer was full

    constructor (ghost key: string, ghost since: nat)
      ensures buffer == received == [] && !closed && !overflowed
      ensures this.key == key && this.since == since
    {
      buffer, closed := [], false;
      this.key, this.since, until, received, overflowed := key, since, since, [], false;
    }

    /** The lines published on its key between subscription and close. */
    ghost function Offered(log: Log): seq<string>
      reads this
    {
      Window(log, since, if closed then until else |log|, key)
    }

    ghost predicate Faithful(log: Log)
      reads this
    {
      since <= |log| && (closed ==> since <= until <= |log|) && |buffer| <= CAPACITY &&
      Keeps(received + buffer, Offered(log), overflowed)
    }

    /** `select { case ch <- line: default: }`. Sending on a closed channel would panic. */
    method TrySend(line: string)
      requires !closed
      modifies this
      ensures buffer == if |old(buffer)| < CAPACITY then old(buffer) + [line] else old(buffer)
      ensures overflowed == (old(overflowed) || |old(buffer)| >= CAPACITY)
      ensures unchanged(this`closed, this`until, this`received)
    {
      if |buffer| < CAPACITY {
        buffer := buffer + [line];
      } else {
        overflowed := true;
      }
    }

    /** Closing a closed channel would panic. */
    method Close(ghost now: nat)
      requires !closed
      modifies this
      ensures closed && until == now
      ensures unchanged(this`buffer, this`received, this`overflowed)
    {
      closed := true;
      until := now;
    }
  }

  class LogStream {
    var subscribers: map<string, seq<Chan>>
    ghost var log: Log
    ghost var chans: set<Chan>    // every channel ever handed out

    /** Listed channels are open, distinct, and in the list of their own key; open channels are listed. */
    ghost predicate Listing()
      reads this, chans
    {
      (forall k, i :: k in subscribers && 0 <= i < |subscribers[k]| ==>
        subscribers[k][i] in chans && !subscribers[k][i].closed && subscribers[k][i].key == k) &&
      (forall k, i, j :: k in subscribers && 0 <= i < j < |subscribers[k]| ==>
       subscribers[k][i] != subscribers[k][j]) &&
      (forall c :: c in chans && !c.closed ==> c.key in subscribers && c in subscribers[c.key])
    }

    ghost predicate Valid()
      reads this, chans
    {
      Listing() && forall c :: c in chans ==> c.Faithful(log)
    }

    constructor ()
      ensures Valid() && log == [] && chans == {}
    {
      subscribers, log, chans := map[], [], {};
    }

    function Listed(key: string): seq<Chan>
      reads this
    {
      if key in subscribers then subscribers[key] else []
    }

    method Subscribe(key: string) returns (ch: Chan)
      requires Valid()
      modifies this
      ensures Valid() && fresh(ch) && ch.key == key && !ch.closed && ch.since == |log|
      ensures ch.buffer == ch.received == [] && !ch.overflowed
      ensures chans == old(chans) + {ch} && log == old(log)
      ensures subscribers == old(subscribers)[key := old(Listed(key)) + [ch]]
    {
      ch := new Chan(key, |log|);
      subscribers := subscribers[key := Listed(key) + [ch]];
      chans := chans + {ch};
      assert log[|log|..] == [];
      assert ch.Faithful(log);
    }

    /** The subscriber takes the next line; a closed channel can still be drained. */
    method Receive(ch: Chan) returns (line: string)
      requires Valid() && ch in chans && ch.buffer != []
      modifies ch
      ensures Valid() && ch.received == old(ch.received) + [line] && [line] + ch.buffer == old(ch.buffer)
      ensures unchanged(ch`closed, ch`until, ch`overflowed)
    {
      line := ch.buffer[0];
      ch.received, ch.buffer := ch.received + [line], ch.buffer[1..];
      assert ch.received + ch.buffer == old(ch.received + ch.buffer);
    }

    /**
    Takes the channel out of the list of `key` and closes it unless CloseAll did before.
    The hub stays sound exactly when an open channel is unsubscribed under its own key.
    */
    method Unsubscribe(key: string, ch: Chan)
      requires Valid() && ch in chans
      modifies this, ch
      ensures Valid() <==> ch.key == key || old(ch.closed)
      ensures ch.closed && log == old(log) && chans == old(chans)
      ensures ch.buffer == old(ch.buffer) && ch.received == old(ch.received) && ch.overflowed == old(ch.overflowed)
      ensures ch.until == if old(ch.closed) then old(ch.until) else |log|
      ensures forall k :: k != key ==> Listed(k) == old(Listed(k))
    {
      var rest, found := Without(Listed(key), ch);
      if found {
        subscribers := subscribers[key := rest];
      }
      if !ch.closed {
        ch.Close(|log|);
      }
      assert ch.Faithful(log);
      assert forall i :: 0 <= i < |rest| ==> rest[i] in rest;
      if ch.key == key || old(ch.closed) {
        assert Listing();
      } else {
        assert ch in Listed(ch.key);
      }
    }

    /** The search of Unsubscribe: the list without the channel. */
    static method Without(subs: seq<Chan>, ch: Chan) returns (rest: seq<Chan>, found: bool)
      requires forall i, j :: 0 <= i < j < |subs| ==> subs[i] != subs[j]
      ensures found <==> ch in subs
      ensures forall c :: c in rest <==> c in subs && c != ch
      ensures forall i, j :: 0 <= i < j < |rest| ==> rest[i] != rest[j]
    {
      for i := 0 to |subs|
        invariant ch !in subs[..i]
      {
        if subs[i] == ch {
          return subs[..i] + subs[i + 1..], true;
        }
      }
      return subs, false;
    }

    /** Offers the line to every listed channel of the build. */
    method Publish(key: string, line: string)
      requires Valid()
      modifies this, chans
      ensures Valid() && log == old(log) + [(key, line)]
      ensures chans == old(chans) && subscribers == old(subscribers)
      ensures forall c :: c in chans ==>
        c.received == old(c.received) && c.closed == old(c.closed) && c.until == old(c.until)
      ensures forall c :: c in chans ==> var takes := !c.closed && c.key == key && |old(c.buffer)| < 100;
        c.buffer == if takes then old(c.buffer) + [line] else old(c.buffer)
      ensures forall c :: c in chans ==>
        c.overflowed == (old(c.overflowed) || (!c.closed && c.key == key && |old(c.buffer)| >= 100))
    {
      Offer(Listed(key), line);
      log := log + [(key, line)];
      forall c | c in chans ensures c.Faithful(log) {
        assert old(c.Faithful(log));
        assert !c.closed && c.key == key <==> c in Listed(key);
        ghost var before := old(c.Offered(log));
        WindowOneMore(old(log), c.since, if c.closed then c.until else |old(log)|, key, line, c.key);
        if c in Listed(key) {
          KeepsOneMore(old(c.received), old(c.buffer), before, old(c.overflowed), line);
        } else {
          assert before + [] == before;
        }
        assert c.Offered(log) == if c in Listed(key) then before + [line] else before;
      }
    }

    /** The loop of Publish. */
    static method Offer(subs: seq<Chan>, line: string)
      requires forall i :: 0 <= i < |subs| ==> !subs[i].closed
      requires forall i, j :: 0 <= i < j < |subs| ==> subs[i] != subs[j]
      modifies subs
      ensures forall c :: c in subs ==>
        c.received == old(c.received) && !c.closed && c.until == old(c.until) &&
        c.buffer == (if |old(c.buffer)| < CAPACITY then old(c.buffer) + [line] else old(c.buffer)) &&
        c.overflowed == (old(c.overflowed) || |old(c.buffer)| >= CAPACITY)
    {
      for i := 0 to |subs|
        invariant forall n :: 0 <= n < |subs| ==>
          subs[n].received == old(subs[n].received) && !subs[n].closed && subs[n].until == old(subs[n].until)
        invariant forall n :: 0 <= n < i ==>
          subs[n].buffer == (if |old(subs[n].buffer)| < CAPACITY then old(subs[n].buffer) + [line]
                             else old(subs[n].buffer)) &&
          subs[n].overflowed == (old(subs[n].overflowed) || |old(subs[n].buffer)| >= CAPACITY)
        invariant forall n :: i <= n < |subs| ==>
          subs[n].buffer == old(subs[n].buffer) && subs[n].overflowed == old(subs[n].overflowed)
      {
        subs[i].TrySend(line);
      }
    }

    /** Closes every channel of the build and forgets the list. */
    method CloseAll(key: string)
      requires Valid()
      modifies this, chans
      ensures Valid() && log == old(log) && chans == old(chans)
      ensures subscribers == old(subscribers) - {key}
      ensures forall c :: c in chans ==>
        c.closed == (old(c.closed) || c.key == key) &&
        c.until == if !old(c.closed) && c.key == key then |log| else old(c.until)
      ensures forall c :: c in chans ==>
        c.buffer == old(c.buffer) && c.received == old(c.received) && c.overflowed == old(c.overflowed)
    {
      CloseEach(Listed(key), |log|);
      subscribers := subscribers - {key};
    }

    /** The loop of CloseAll. */
    static method CloseEach(subs: seq<Chan>, ghost now: nat)
      requires forall i :: 0 <= i < |subs| ==> !subs[i].closed
      requires forall i, j :: 0 <= i < j < |subs| ==> subs[i] != subs[j]
      modifies subs
      ensures forall c :: c in subs ==>
        c.closed && c.until == now && c.received == old(c.received) && c.buffer == old(c.buffer) &&
        c.overflowed == old(c.overflowed)
    {
      for i := 0 to |subs|
        invariant forall n :: 0 <= n < |subs| ==>
          subs[n].received == old(subs[n].received) && subs[n].buffer == old(subs[n].buffer) &&
          subs[n].overflowed == old(subs[n].overflowed)
        invariant forall n :: 0 <= n < i ==> subs[n].closed && subs[n].until == now
        invariant forall n :: i <= n < |subs| ==> !subs[n].closed
      {
        subs[i].Close(now);
      }
    }
  }
}
