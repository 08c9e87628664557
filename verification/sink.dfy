/** Fan-out of alerts to subscribers. Python iterates a set in an order it
    does not promise, so a broadcast is any sequence that reaches every
    subscriber exactly once. */
module Sink {
  import opened Alerts

  datatype Delivery<Id> = Delivery(dest: Id, alert: Alert)

  function Dests<Id>(block: seq<Delivery<Id>>): set<Id> {
    set k | 0 <= k < |block| :: block[k].dest
  }

  /** One alert, sent once to each subscriber and to nobody else. */
  predicate IsBroadcast<Id>(block: seq<Delivery<Id>>, a: Alert, subs: set<Id>) {
    && |block| == |subs|
    && Dests(block) == subs
    && (forall k :: 0 <= k < |block| ==> block[k].alert == a)
    && (forall k, l :: 0 <= k < l < |block| ==> block[k].dest != block[l].dest)
  }

  /** Every alert of the tick, in order, each broadcast to the subscribers. */
  predicate IsFanOut<Id>(sent: seq<Delivery<Id>>, alerts: seq<Alert>, subs: set<Id>)
    decreases |alerts|
  {
    if |alerts| == 0 then sent == []
    else
      && |sent| >= |subs|
      && IsBroadcast(sent[..|subs|], alerts[0], subs)
      && IsFanOut(sent[|subs|..], alerts[1..], subs)
  }

  lemma DestsSnoc<Id>(block: seq<Delivery<Id>>, x: Delivery<Id>)
    ensures Dests(block + [x]) == Dests(block) + {x.dest}
  {
    var b := block + [x];
    assert forall k :: 0 <= k < |block| ==> b[k] == block[k];
    assert b[|block|] == x;
  }

  /** One more delivery, to someone not yet reached, extends a broadcast
      to one more subscriber. */
  lemma BroadcastSnoc<Id>(block: seq<Delivery<Id>>, a: Alert, done: set<Id>, d: Id)
    requires IsBroadcast(block, a, done) && d !in done
    ensures IsBroadcast(block + [Delivery(d, a)], a, done + {d})
  {
    var b := block + [Delivery(d, a)];
    DestsSnoc(block, Delivery(d, a));
    assert forall k :: 0 <= k < |block| ==> b[k] == block[k];
    assert forall k :: 0 <= k < |block| ==> block[k].dest in Dests(block);
  }

  /** The loop over a subscriber set that sends one alert: every member is
      reached once, in whatever order the set yields them. */
  method Broadcast<Id>(subs: set<Id>, a: Alert) returns (block: seq<Delivery<Id>>)
    ensures IsBroadcast(block, a, subs)
  {
    block := [];
    var rest := subs;
    while rest != {}
      invariant rest <= subs
      invariant IsBroadcast(block, a, subs - rest)
      decreases |rest|
    {
      var d :| d in rest;
      BroadcastSnoc(block, a, subs - rest, d);
      block := block + [Delivery(d, a)];
      assert (subs - rest) + {d} == subs - (rest - {d});
      rest := rest - {d};
    }
    assert subs - rest == subs;
  }

  /** Sending one more alert after a fan-out extends the fan-out. */
  lemma {:induction false} FanOutSnoc<Id>(sent: seq<Delivery<Id>>, alerts: seq<Alert>,
                                          block: seq<Delivery<Id>>, a: Alert, subs: set<Id>)
    requires IsFanOut(sent, alerts, subs) && IsBroadcast(block, a, subs)
    ensures IsFanOut(sent + block, alerts + [a], subs)
    decreases |alerts|
  {
    var n := |subs|;
    if |alerts| == 0 {
      assert sent + block == block;
      assert block[..n] == block && block[n..] == [];
      assert (alerts + [a])[1..] == [];
    } else {
      FanOutSnoc(sent[n..], alerts[1..], block, a, subs);
      assert (sent + block)[..n] == sent[..n];
      assert (sent + block)[n..] == sent[n..] + block;
      assert (alerts + [a])[1..] == alerts[1..] + [a];
    }
  }

  lemma MulStep(i: int, n: int)
    ensures (i - 1) * n + n == i * n
    ensures (i + 1) * n == i * n + n
  {
  }

  /** Where block `i` of `m` blocks of `n` starts and ends. */
  lemma BlockBounds(i: int, m: int, n: nat)
    requires 0 <= i < m
    ensures 0 <= i * n && (i + 1) * n == i * n + n && i * n + n <= m * n
    ensures i > 0 ==> (i - 1) * n + n == i * n
  {
    MulStep(i, n);
    assert (i + 1) * n <= m * n by {
      var d := m - (i + 1);
      assert m * n == (i + 1) * n + d * n;
    }
  }

  /** A fan-out sends each alert once per subscriber: with nobody
      subscribed nothing is sent. */
  lemma {:induction false} FanOutLength<Id>(sent: seq<Delivery<Id>>, alerts: seq<Alert>, subs: set<Id>)
    requires IsFanOut(sent, alerts, subs)
    ensures |sent| == |alerts| * |subs|
    decreases |alerts|
  {
    if |alerts| > 0 {
      FanOutLength(sent[|subs|..], alerts[1..], subs);
      MulStep(|alerts|, |subs|);
    }
  }

  /** Block `i` of a fan-out occupies positions `i * |subs|` up to
      `(i + 1) * |subs|` and sends alert `i` once to every subscriber. */
  lemma {:induction false} FanOutBlock<Id>(sent: seq<Delivery<Id>>, alerts: seq<Alert>, subs: set<Id>, i: nat)
    requires IsFanOut(sent, alerts, subs) && i < |alerts|
    ensures 0 <= i * |subs| <= (i + 1) * |subs| <= |sent|
    ensures IsBroadcast(sent[i * |subs|..(i + 1) * |subs|], alerts[i], subs)
    decreases i
  {
    var n := |subs|;
    var lo, hi := i * n, (i + 1) * n;
    FanOutLength(sent, alerts, subs);
    BlockBounds(i, |alerts|, n);
    if i == 0 {
      assert lo == 0;
      assert sent[lo..hi] == sent[..n];
    } else {
      var rest := sent[n..];
      FanOutBlock(rest, alerts[1..], subs, i - 1);
      var lo' := (i - 1) * n;
      assert alerts[1..][i - 1] == alerts[i];
      BlockShifted(sent, n, lo', alerts[i], subs);
      assert sent[lo..hi] == sent[n + lo'..n + lo' + n];
    }
  }

  lemma BlockShifted<Id>(sent: seq<Delivery<Id>>, n: nat, lo: nat, a: Alert, subs: set<Id>)
    requires n <= |sent| && lo + n <= |sent| - n
    requires IsBroadcast(sent[n..][lo..lo + n], a, subs)
    ensures IsBroadcast(sent[n + lo..n + lo + n], a, subs)
  {
    assert sent[n..][lo..lo + n] == sent[n + lo..n + lo + n];
  }
}
