/**
Every single request ends, whatever else goes on: an endless run may post,
confirm, send and expire in any order, as long as the linker keeps taking
messages from its queue and keeps looking for expired ones.
*/
module Fairness {
  import opened Linker

  // ---------------------------------------------------------------------------
  // Endless runs
  // ---------------------------------------------------------------------------

  /** The state after n steps of an endless run. */
  ghost function At(c: Config, f: nat -> Step, n: nat): State {
    if n == 0 then EMPTY else Next(c, At(c, f, n - 1), f(n - 1))
  }

  ghost predicate TurnFrom(f: nat -> Step, n: nat) {
    exists m: nat :: n <= m && f(m).Turn?
  }

  ghost predicate ExpireFrom(f: nat -> Step, n: nat, time: nat) {
    exists m: nat :: n <= m && f(m).Expire? && time <= f(m).now
  }

  /** The loop never stops, and its clock passes every time. */
  ghost predicate Fair(f: nat -> Step) {
    (forall n: nat :: TurnFrom(f, n)) && (forall n: nat, time: nat :: ExpireFrom(f, n, time))
  }

  lemma {:induction false} AtInv(c: Config, f: nat -> Step, n: nat)
    ensures Inv(c, At(c, f, n))
  {
    hide Inv, Next;
    if n == 0 {
      EmptyInv(c);
    } else {
      AtInv(c, f, n - 1);
      StepKeeps(c, At(c, f, n - 1), f(n - 1));
    }
  }

  // ---------------------------------------------------------------------------
  // Where a request is
  // ---------------------------------------------------------------------------

  /** The place of a request in the queue, or the length of the queue. */
  function Index(q: seq<Produce>, i: nat): (n: nat)
    ensures n <= |q|
    ensures forall k :: 0 <= k < n ==> q[k].serial != i
    ensures n < |q| ==> q[n].serial == i
  {
    if q == [] || q[0].serial == i then 0 else 1 + Index(q[1..], i)
  }

  predicate Queued(s: State, i: nat) {
    Index(s.queue, i) < |s.queue|
  }

  predicate Gone(s: State, i: nat) {
    !Queued(s, i) && InMap(s.requests, i) == 0
  }

  lemma {:induction false} IndexCounts(q: seq<Produce>, i: nat)
    ensures Index(q, i) < |q| <==> InQueue(q, i) > 0
  {
    if q != [] {
      IndexCounts(q[1..], i);
    }
  }

  lemma {:induction false} IndexAppend(q: seq<Produce>, r: seq<Produce>, i: nat)
    requires Index(q, i) < |q|
    ensures Index(q + r, i) == Index(q, i)
  {
    if q[0].serial != i {
      assert (q + r)[1..] == q[1..] + r;
      IndexAppend(q[1..], r, i);
    }
  }

  lemma {:induction false} InMapIff(m: seq<Entry>, i: nat)
    ensures InMap(m, i) > 0 <==> exists e :: e in m && e.produce.serial == i
  {
    if m != [] {
      InMapIff(m[1..], i);
      assert forall e :: e in m <==> e == m[0] || e in m[1..];
    }
  }

  lemma {:induction false} OnlyEntry(m: seq<Entry>, i: nat, e: Entry, x: Entry)
    requires InMap(m, i) <= 1 && e in m && x in m && e.produce.serial == i && x.produce.serial == i
    ensures e == x
  {
    InMapIff(m[1..], i);
    if e != m[0] && x != m[0] {
      OnlyEntry(m[1..], i, e, x);
    }
  }

  lemma {:induction false} NotQueued(q: seq<Produce>, i: nat)
    requires forall p :: p in q ==> p.serial != i
    ensures Index(q, i) == |q|
  {
    if q != [] {
      NotQueued(q[1..], i);
    }
  }

  /** A request is in at most one place, and in none before it is posted. */
  lemma Placed(s: State, i: nat)
    requires OnePlace(s)
    ensures InQueue(s.queue, i) + InMap(s.requests, i) <= 1
    ensures Queued(s, i) ==> InMap(s.requests, i) == 0 && i < |s.posted|
    ensures InMap(s.requests, i) > 0 ==> !Queued(s, i) && i < |s.posted|
  {
    assert Places(s, i) == One(i < |s.posted|);
    IndexCounts(s.queue, i);
  }

  // ---------------------------------------------------------------------------
  // What is left to be done with a request
  // ---------------------------------------------------------------------------

  /** Two for every transmission that a request may still make, and one while it is in flight. */
  ghost function Rank(c: Config, s: State, i: nat): (r: nat)
    requires Inv(c, s)
  {
    if i < |s.posted| then 2 * (Budget(c, s.posted[i]) - TimesSent(s.log, i)) + One(InMap(s.requests, i) > 0) else 0
  }

  /** A step that leaves the map without new entries of a request takes at most away from it. */
  lemma MapShrinks(m: seq<Entry>, n: seq<Entry>, i: nat, e: Entry)
    requires InMap(m, i) <= 1 && e in m && e.produce.serial == i
    requires forall x :: x in n && x.produce.serial == i ==> x in m
    ensures e !in n ==> InMap(n, i) == 0
    ensures e in n ==> InMap(n, i) > 0
  {
    InMapIff(n, i);
    forall x | x in n && x.produce.serial == i ensures x == e {
      OnlyEntry(m, i, e, x);
    }
  }

  lemma NotInMapStays(m: seq<Entry>, n: seq<Entry>, i: nat)
    requires InMap(m, i) == 0 && forall x :: x in n && x.produce.serial == i ==> x in m
    ensures InMap(n, i) == 0
  {
    InMapIff(m, i);
    InMapIff(n, i);
  }

  lemma {:induction false} PutKeeps(m: seq<Entry>, e: Entry)
    ensures forall x :: x in m && x.expire != e.expire ==> x in Put(m, e)
  {
    if m != [] {
      PutKeeps(m[1..], e);
    }
  }

  /** What a step other than a turn does to a request: it may leave the map, and is not sent. */
  lemma QuietStep(c: Config, s: State, step: Step, i: nat)
    requires !step.Turn?
    ensures var t := Next(c, s, step);
      && TimesSent(t.log, i) == TimesSent(s.log, i)
      && (forall x :: x in t.requests ==> x in s.requests)
      && (Queued(s, i) ==> Queued(t, i) && Index(t.queue, i) == Index(s.queue, i))
      && s.posted <= t.posted
  {
    hide TimesSent, Find, UpperBound, Reposted, GivenUp, Index;
    match step {
      case Post(message) =>
        if Queued(s, i) {
          IndexAppend(s.queue, [Produce(|s.posted|, message, 0)], i);
        }
      case Confirm(reqId) => ConfirmedSent(c, s, reqId, i);
      case Expire(now) =>
        ExpiredSent(c, s, now, i);
        if Queued(s, i) {
          IndexAppend(s.queue, Reposted(c, s.requests[..UpperBound(s.requests, now)]), i);
        }
    }
  }

  /** What a turn does to a request that is not at the head of the queue: it moves one forward, or may leave the map. */
  lemma TurnPasses(c: Config, s: State, link: Link, at: nat, i: nat)
    requires OnePlace(s) && (s.queue != [] ==> s.queue[0].serial != i)
    ensures var t := Turning(c, s, link, at);
      && TimesSent(t.log, i) == TimesSent(s.log, i)
      && (forall x :: x in t.requests && x.produce.serial == i ==> x in s.requests)
      && (Queued(s, i) ==> Queued(t, i) && Index(t.queue, i) == Index(s.queue, i) - 1)
      && t.posted == s.posted
  {
    hide OnePlace, TimesSent, Put, Displaced, Produced;
    if s.queue != [] {
      var p := s.queue[0];
      ProducedSent(c, s.(queue := s.queue[1..]), p, link, at, i);
      PutFrom(s.requests, Entry(at + c.timeout * TIME_SECOND, p));
    }
  }

  /** The request at the head of the queue is sent, and tracked or not; or it is gone. */
  lemma TurnServes(c: Config, s: State, link: Link, at: nat)
    requires Inv(c, s) && s.queue != []
    ensures var i := s.queue[0].serial; var t := Turning(c, s, link, at);
      && !Queued(t, i) && i < |s.posted| && t.posted == s.posted
      && TimesSent(t.log, i) == TimesSent(s.log, i) + One(link.Sending?)
      && InMap(t.requests, i) <= One(link.Sending?)
  {
    hide OnePlace, Ordered, TimesSent, Budget, Put, Displaced, Produced, Index;
    var p, t := s.queue[0], Turning(c, s, link, at);
    StepKeepsOnePlace(c, s, Turn(link, at));
    Placed(s, p.serial);
    Placed(t, p.serial);
    Alone(s);
    assert Waiting(c, s, p);
    ProducedSent(c, s.(queue := s.queue[1..]), p, link, at, p.serial);
    assert t.queue == s.queue[1..];
    assert forall q :: q in t.queue ==> q in s.queue[1..] + s.orphans;
    NotQueued(t.queue, p.serial);
    if !link.Sending? {
      NotInMapStays(s.requests, t.requests, p.serial);
    }
  }

  /** A step with a queued request: it is dealt with, or stays, a turn bringing it one forward. */
  lemma QueuedStep(c: Config, s: State, step: Step, i: nat)
    requires Inv(c, s) && Queued(s, i)
    ensures var t := Next(c, s, step);
      && Inv(c, t)
      && (|| Gone(t, i)
          || Rank(c, t, i) < Rank(c, s, i)
          || (Rank(c, t, i) == Rank(c, s, i) && Queued(t, i)
              && Index(t.queue, i) == Index(s.queue, i) - One(step.Turn?)))
  {
    hide OnePlace, Ordered, Waiting, InFlight, TimesSent, Budget, Posting, Turning, Confirming, Expiring, Index;
    var t := Next(c, s, step);
    StepKeeps(c, s, step);
    Placed(s, i);
    if step.Turn? && s.queue[0].serial == i {
      TurnServes(c, s, step.link, step.at);
    } else {
      if step.Turn? {
        TurnPasses(c, s, step.link, step.at, i);
      } else {
        QuietStep(c, s, step, i);
      }
      NotInMapStays(s.requests, t.requests, i);
      assert t.posted[i] == s.posted[i];
    }
  }

  /** What is in the map after an expiry has not expired. */
  lemma ExpiredLeaves(c: Config, s: State, now: nat, e: Entry)
    requires c.enableConfirm && Ordered(s.requests) && e.expire <= now
    ensures e !in Expiring(c, s, now).requests
  {
    hide UpperBound, Reposted, GivenUp;
    var n := UpperBound(s.requests, now);
    assert forall k :: n <= k < |s.requests| ==> s.requests[n].expire <= s.requests[k].expire;
  }

  /** A step with a request in flight: it leaves the map, as it does on an expiry after its time, or stays as it is. */
  lemma MapStep(c: Config, s: State, step: Step, i: nat, e: Entry)
    requires Inv(c, s) && e in s.requests && e.produce.serial == i
    ensures var t := Next(c, s, step);
      && Inv(c, t)
      && (|| Rank(c, t, i) < Rank(c, s, i)
          || (Rank(c, t, i) == Rank(c, s, i) && e in t.requests && !(step.Expire? && e.expire <= step.now)))
  {
    hide OnePlace, Ordered, Waiting, TimesSent, Budget, Posting, Turning, Confirming, Expiring, Index;
    var t := Next(c, s, step);
    StepKeeps(c, s, step);
    InMapIff(s.requests, i);
    Placed(s, i);
    if step.Turn? {
      if s.queue != [] {
        Alone(s);
      }
      TurnPasses(c, s, step.link, step.at, i);
    } else {
      QuietStep(c, s, step, i);
      if step.Expire? && e.expire <= step.now {
        assert InFlight(c, s, e.produce);
        ExpiredLeaves(c, s, step.now, e);
      }
    }
    MapShrinks(s.requests, t.requests, i, e);
    assert t.posted[i] == s.posted[i];
  }

  // ---------------------------------------------------------------------------
  // Every request ends
  // ---------------------------------------------------------------------------

  /** A step that is bound to deal with a request where it is: a turn for the queue, a late expiry for the map. */
  ghost predicate Serves(s: State, step: Step, i: nat) {
    && (Queued(s, i) ==> step.Turn?)
    && (InMap(s.requests, i) > 0 ==>
          step.Expire? && forall e :: e in s.requests && e.produce.serial == i ==> e.expire <= step.now)
  }

  /** There is always one to come. */
  lemma Await(c: Config, f: nat -> Step, n: nat, i: nat) returns (m: nat)
    requires Fair(f)
    ensures n <= m && Serves(At(c, f, n), f(m), i)
  {
    hide At, Inv, Index;
    var s := At(c, f, n);
    AtInv(c, f, n);
    assert OnePlace(s) by { InvPlaces(c, s); }
    Placed(s, i);
    InMapIff(s.requests, i);
    if InMap(s.requests, i) > 0 {
      var e :| e in s.requests && e.produce.serial == i;
      assert ExpireFrom(f, n, e.expire);
      m :| n <= m && f(m).Expire? && e.expire <= f(m).now;
      forall x | x in s.requests && x.produce.serial == i ensures x.expire <= f(m).now {
        OnlyEntry(s.requests, i, e, x);
      }
    } else {
      assert TurnFrom(f, n);
      m :| n <= m && f(m).Turn?;
    }
  }

  lemma InvPlaces(c: Config, s: State)
    requires Inv(c, s)
    ensures OnePlace(s)
  {
  }

  ghost function Ahead(s: State, i: nat): nat {
    if Queued(s, i) then Index(s.queue, i) else 0
  }

  /** The request is followed from step to step: it is dealt with, moves forward, or waits for a step that serves it. */
  lemma {:induction false} GoneBy(c: Config, f: nat -> Step, n: nat, i: nat, m: nat) returns (k: nat)
    requires Fair(f) && n <= m && Inv(c, At(c, f, n)) && Serves(At(c, f, n), f(m), i)
    ensures n <= k && Gone(At(c, f, k), i)
    decreases Rank(c, At(c, f, n), i), Ahead(At(c, f, n), i), m - n
  {
    hide Fair, Inv, Rank, Index, Next;
    var s := At(c, f, n);
    if Gone(s, i) {
      return n;
    }
    var t := At(c, f, n + 1);
    assert t == Next(c, s, f(n));
    AtInv(c, f, n + 1);
    InvPlaces(c, s);
    Placed(s, i);
    var e: Entry;
    if Queued(s, i) {
      QueuedStep(c, s, f(n), i);
    } else {
      InMapIff(s.requests, i);
      e :| e in s.requests && e.produce.serial == i;
      MapStep(c, s, f(n), i, e);
    }
    if Gone(t, i) {
      return n + 1;
    }
    if Rank(c, t, i) < Rank(c, s, i) || (Queued(s, i) && f(n).Turn?) {
      var m' := Await(c, f, n + 1, i);
      k := GoneBy(c, f, n + 1, i, m');
    } else {
      InvPlaces(c, t);
      Placed(t, i);
      InMapIff(t.requests, i);
      if !Queued(s, i) {
        forall x | x in t.requests && x.produce.serial == i ensures x == e {
          OnlyEntry(t.requests, i, e, x);
        }
      }
      k := GoneBy(c, f, n + 1, i, m);
    }
  }

  /** Ended, or out of reach since its entry was overwritten. */
  ghost predicate Over(s: State, i: nat) {
    Endings(s.log, i) + InQueue(s.orphans, i) == 1
  }

  lemma OrphansGrow(c: Config, s: State, step: Step, i: nat)
    ensures InQueue(Next(c, s, step).orphans, i) >= InQueue(s.orphans, i)
  {
    hide InQueue, Find, UpperBound, Put, Displaced, Produced, GivenUp, Reposted;
    var t := Next(c, s, step);
    assert t.orphans == s.orphans + t.orphans[|s.orphans|..];
    InQueueAppend(s.orphans, t.orphans[|s.orphans|..], i);
  }

  lemma OverMeansGone(s: State, i: nat)
    requires OnePlace(s) && i < |s.posted|
    ensures Over(s, i) <==> Gone(s, i)
  {
    hide InQueue, InMap, Endings, Index;
    assert Places(s, i) == One(i < |s.posted|);
    IndexCounts(s.queue, i);
  }

  lemma OverNext(c: Config, s: State, step: Step, i: nat)
    requires OnePlace(s) && Over(s, i)
    ensures OnePlace(Next(c, s, step)) && Over(Next(c, s, step), i)
  {
    hide InQueue, InMap, Endings, Next;
    StepKeepsOnePlace(c, s, step);
    StepGrows(c, s, step, i);
    OrphansGrow(c, s, step, i);
    assert Places(Next(c, s, step), i) == One(i < |Next(c, s, step).posted|);
  }

  /** What is over stays over. */
  lemma {:induction false} OverStays(c: Config, f: nat -> Step, k: nat, m: nat, i: nat)
    requires k <= m && Over(At(c, f, k), i)
    ensures Over(At(c, f, m), i)
    decreases m
  {
    hide Over, Next, Inv;
    if k < m {
      OverStays(c, f, k, m - 1, i);
      AtInv(c, f, m - 1);
      InvPlaces(c, At(c, f, m - 1));
      OverNext(c, At(c, f, m - 1), f(m - 1), i);
    }
  }

  /** In every fair run, whatever is posted, answered, sent or lost besides, each posted request is over in the end:
      from some step on it is neither in the queue nor in the map. */
  lemma EveryRequestEnds(c: Config, f: nat -> Step, n: nat, i: nat) returns (k: nat)
    requires Fair(f) && i < |At(c, f, n).posted|
    ensures n <= k && forall m :: k <= m ==> Gone(At(c, f, m), i) && Over(At(c, f, m), i)
  {
    hide Fair, Inv, At, Index, Over, Gone;
    AtInv(c, f, n);
    var w := Await(c, f, n, i);
    k := GoneBy(c, f, n, i, w);
    forall m | k <= m ensures Gone(At(c, f, m), i) && Over(At(c, f, m), i) {
      AtInv(c, f, k);
      InvPlaces(c, At(c, f, k));
      PostedGrows(c, f, n, k);
      OverMeansGone(At(c, f, k), i);
      OverStays(c, f, k, m, i);
      AtInv(c, f, m);
      InvPlaces(c, At(c, f, m));
      PostedGrows(c, f, n, m);
      OverMeansGone(At(c, f, m), i);
    }
  }

  lemma {:induction false} PostedGrows(c: Config, f: nat -> Step, n: nat, k: nat)
    requires n <= k
    ensures At(c, f, n).posted <= At(c, f, k).posted
    decreases k
  {
    hide Next;
    if n < k {
      PostedGrows(c, f, n, k - 1);
      PostedNext(c, At(c, f, k - 1), f(k - 1));
    }
  }

  lemma PostedNext(c: Config, s: State, step: Step)
    ensures s.posted <= Next(c, s, step).posted
  {
    hide Put, Displaced, Produced, Find, UpperBound, Reposted, GivenUp;
  }

  /** The loop of a gateway that posts a message before every turn. */
  function Busy(message: Message): nat -> Step {
    (n: nat) => if n % 3 == 0 then Post(message) else if n % 3 == 1 then Expire(n) else Step.Turn(Sending, n)
  }

  lemma BusyIsFair(message: Message)
    ensures Fair(Busy(message))
  {
    var f := Busy(message);
    forall n: nat ensures TurnFrom(f, n) {
      assert f(3 * n + 2).Turn?;
    }
    forall n: nat, time: nat ensures ExpireFrom(f, n, time) {
      assert f(3 * (n + time) + 1).Expire?;
    }
  }
}
