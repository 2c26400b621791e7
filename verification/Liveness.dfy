/**
No request of the linker stays for ever: how much work is left, how fast it
goes when the loop keeps turning, and what becomes of every single request
while others keep coming.
*/
module Liveness {
  import opened Arithmetic
  import opened Linker

  // ---------------------------------------------------------------------------
  // Every request is dropped in the end
  // ---------------------------------------------------------------------------

  /** What is left to be done with a request in flight: two steps for each retransmission, and the last expiry. */
  function Weight(c: Config, p: Produce): nat {
    2 * (if p.count < c.retransmissions then c.retransmissions - p.count else 0) + 1
  }

  function QueueWork(c: Config, q: seq<Produce>): nat {
    if q == [] then 0 else Weight(c, q[0]) + 1 + QueueWork(c, q[1..])
  }

  function MapWork(c: Config, m: seq<Entry>): nat {
    if m == [] then 0 else Weight(c, m[0].produce) + MapWork(c, m[1..])
  }

  function Work(c: Config, s: State): nat {
    QueueWork(c, s.queue) + MapWork(c, s.requests)
  }

  /** Whether a step deals with a request. */
  predicate Effective(c: Config, s: State, step: Step) {
    match step
    case Post(_) => false
    case Turn(_, _) => s.queue != []
    case Confirm(reqId) => c.enableConfirm && Find(s.requests, reqId) < |s.requests|
    case Expire(now) => c.enableConfirm && UpperBound(s.requests, now) > 0
  }

  lemma {:induction false} QueueWorkAppend(c: Config, q: seq<Produce>, r: seq<Produce>)
    ensures QueueWork(c, q + r) == QueueWork(c, q) + QueueWork(c, r)
  {
    if q == [] {
      assert q + r == r;
    } else {
      assert (q + r)[1..] == q[1..] + r;
      QueueWorkAppend(c, q[1..], r);
    }
  }

  lemma {:induction false} MapWorkAppend(c: Config, m: seq<Entry>, n: seq<Entry>)
    ensures MapWork(c, m + n) == MapWork(c, m) + MapWork(c, n)
  {
    if m == [] {
      assert m + n == n;
    } else {
      assert (m + n)[1..] == m[1..] + n;
      MapWorkAppend(c, m[1..], n);
    }
  }

  lemma {:induction false} PutWork(c: Config, m: seq<Entry>, e: Entry)
    ensures MapWork(c, Put(m, e)) <= MapWork(c, m) + Weight(c, e.produce)
  {
    if m != [] && e.expire > m[0].expire {
      PutWork(c, m[1..], e);
    }
  }

  lemma {:induction false} RepostedWork(c: Config, m: seq<Entry>)
    ensures QueueWork(c, Reposted(c, m)) + |m| <= MapWork(c, m)
  {
    if m != [] {
      var p := m[0].produce;
      RepostedWork(c, m[1..]);
      if Retried(c, p) {
        QueueWorkAppend(c, [p.(count := p.count + 1)], Reposted(c, m[1..]));
      } else {
        assert Reposted(c, m) == Reposted(c, m[1..]);
      }
    }
  }

  lemma ConfirmWork(c: Config, s: State, reqId: string)
    ensures Work(c, Confirming(c, s, reqId)) + One(Effective(c, s, Confirm(reqId))) <= Work(c, s)
  {
    hide Find;
    var n := Find(s.requests, reqId);
    if n < |s.requests| {
      var rest := [s.requests[n]] + s.requests[n + 1..];
      assert s.requests == s.requests[..n] + rest && rest[1..] == s.requests[n + 1..];
      MapWorkAppend(c, s.requests[..n], rest);
      MapWorkAppend(c, s.requests[..n], s.requests[n + 1..]);
    }
  }

  lemma ExpireWork(c: Config, s: State, now: nat)
    ensures Work(c, Expiring(c, s, now)) + One(Effective(c, s, Expire(now))) <= Work(c, s)
  {
    hide UpperBound, GivenUp, Reposted, Weight, QueueWork, MapWork;
    var n := UpperBound(s.requests, now);
    assert s.requests == s.requests[..n] + s.requests[n..];
    MapWorkAppend(c, s.requests[..n], s.requests[n..]);
    RepostedWork(c, s.requests[..n]);
    QueueWorkAppend(c, s.queue, Reposted(c, s.requests[..n]));
  }

  /** Every step that deals with a request uses up work; only posting adds to it. */
  lemma StepWork(c: Config, s: State, step: Step)
    ensures Work(c, Next(c, s, step)) + One(Effective(c, s, step))
         <= Work(c, s) + if step.Post? then 2 * c.retransmissions + 2 else 0
  {
    hide Put, Displaced, Confirming, Expiring, Find, UpperBound, Produced;
    match step {
      case Post(message) => QueueWorkAppend(c, s.queue, [Produce(|s.posted|, message, 0)]);
      case Turn(link, at) =>
        if s.queue != [] {
          PutWork(c, s.requests, Entry(at + c.timeout * TIME_SECOND, s.queue[0]));
        }
      case Confirm(reqId) => ConfirmWork(c, s, reqId);
      case Expire(now) => ExpireWork(c, s, now);
    }
  }

  function Posts(steps: seq<Step>): nat {
    if steps == [] then 0 else One(steps[0].Post?) + Posts(steps[1..])
  }

  function EffectiveSteps(c: Config, s: State, steps: seq<Step>): nat
    decreases |steps|
  {
    if steps == [] then 0 else One(Effective(c, s, steps[0])) + EffectiveSteps(c, Next(c, s, steps[0]), steps[1..])
  }

  /** Over every run, a posted message pays for all the steps that will ever deal with it. */
  lemma {:induction false} RunWork(c: Config, s: State, steps: seq<Step>)
    ensures Work(c, Run(c, s, steps)) + EffectiveSteps(c, s, steps)
         <= Work(c, s) + Posts(steps) * (2 * c.retransmissions + 2)
    decreases |steps|
  {
    hide Work, Effective, Next;
    if steps != [] {
      StepWork(c, s, steps[0]);
      RunWork(c, Next(c, s, steps[0]), steps[1..]);
    }
  }

  /** One turn of the linker's own loop: expired requests first, then one message; and what comes in besides. */
  datatype Round = Round(now: nat, link: Link, at: nat, others: seq<Step>)

  /** Messages are posted and answers come in. */
  predicate Others(steps: seq<Step>) {
    forall step :: step in steps ==> step.Post? || step.Confirm?
  }

  predicate AllOthers(rounds: seq<Round>) {
    forall r :: r in rounds ==> Others(r.others)
  }

  function RoundSteps(r: Round): seq<Step> {
    [Expire(r.now), Turn(r.link, r.at)] + r.others
  }

  function Rounds(rounds: seq<Round>): seq<Step> {
    if rounds == [] then [] else RoundSteps(rounds[0]) + Rounds(rounds[1..])
  }

  /** The clock of the rounds does not go back. */
  predicate Steady(rounds: seq<Round>, clock: nat) {
    rounds != [] ==> clock <= rounds[0].now <= rounds[0].at && Steady(rounds[1..], rounds[0].at)
  }

  /** How many timeouts pass: the rounds that begin at least a gap after the end of the last round counted. */
  function Ticks(rounds: seq<Round>, last: nat, gap: nat): nat {
    if rounds == [] then 0
    else if last + gap <= rounds[0].now then 1 + Ticks(rounds[1..], rounds[0].at, gap)
    else Ticks(rounds[1..], last, gap)
  }

  /** How many timeouts pass while there is work to be done. */
  function BusyTicks(c: Config, s: State, rounds: seq<Round>, last: nat): nat
    decreases |rounds|
  {
    if rounds == [] then 0
    else
      var t := Run(c, s, RoundSteps(rounds[0]));
      if last + c.timeout * TIME_SECOND <= rounds[0].now
      then One(Work(c, s) > 0) + BusyTicks(c, t, rounds[1..], rounds[0].at)
      else BusyTicks(c, t, rounds[1..], last)
  }

  /** Everything in flight has expired by a time. */
  predicate ExpiredBy(s: State, time: nat) {
    forall e :: e in s.requests ==> e.expire <= time
  }

  /** Without confirms nothing is tracked. */
  predicate MapUsed(c: Config, s: State) {
    c.enableConfirm || s.requests == []
  }

  /** Whether a round deals with a request. */
  predicate Acts(c: Config, s: State, r: Round) {
    Effective(c, s, Expire(r.now)) || Effective(c, Expiring(c, s, r.now), Turn(r.link, r.at))
  }

  lemma RunNone(c: Config, s: State)
    ensures Run(c, s, []) == s && Rounds([]) == []
  {
  }

  lemma {:induction false} RunAppend(c: Config, s: State, a: seq<Step>, b: seq<Step>)
    ensures Run(c, s, a + b) == Run(c, Run(c, s, a), b)
    decreases |a|
  {
    hide Next;
    if a == [] {
      assert a + b == b;
    } else {
      assert (a + b)[1..] == a[1..] + b;
      RunAppend(c, Next(c, s, a[0]), a[1..], b);
    }
  }

  /** Answers only take away, and posts add to the queue. */
  lemma {:induction false} OthersWork(c: Config, s: State, steps: seq<Step>)
    requires Others(steps)
    ensures var t := Run(c, s, steps);
      && Work(c, t) <= Work(c, s) + Posts(steps) * (2 * c.retransmissions + 2)
      && |t.requests| <= |s.requests|
      && forall e :: e in t.requests ==> e in s.requests
    decreases |steps|
  {
    hide Work, Find;
    if steps != [] {
      assert steps[0] in steps;
      StepWork(c, s, steps[0]);
      OthersWork(c, Next(c, s, steps[0]), steps[1..]);
    }
  }

  lemma RoundRun(c: Config, s: State, r: Round)
    ensures Run(c, s, RoundSteps(r)) == Run(c, Turning(c, Expiring(c, s, r.now), r.link, r.at), r.others)
    ensures Posts(RoundSteps(r)) == Posts(r.others)
  {
    hide Expiring, Turning;
    var steps := RoundSteps(r);
    assert steps[1..][1..] == r.others;
    assert steps[0] == Expire(r.now) && steps[1..][0] == Turn(r.link, r.at);
  }

  /** What is in the map after a turn. */
  lemma TurnMap(c: Config, s: State, link: Link, at: nat)
    ensures var t := Turning(c, s, link, at);
      && (forall e :: e in t.requests ==> e in s.requests || e.expire == at + c.timeout * TIME_SECOND)
      && (s.queue == [] ==> t == s)
      && (MapUsed(c, s) ==> MapUsed(c, t))
  {
    hide Put, Displaced, Produced;
    if s.queue != [] {
      PutFrom(s.requests, Entry(at + c.timeout * TIME_SECOND, s.queue[0]));
    }
  }

  lemma {:induction false} AllExpired(m: seq<Entry>, now: nat)
    requires forall e :: e in m ==> e.expire <= now
    ensures UpperBound(m, now) == |m|
  {
    if m != [] {
      assert m[0] in m;
      AllExpired(m[1..], now);
    }
  }

  /** What expiry leaves of the map. */
  lemma ExpireMap(c: Config, s: State, now: nat, time: nat)
    requires MapUsed(c, s) && ExpiredBy(s, time)
    ensures MapUsed(c, Expiring(c, s, now)) && ExpiredBy(Expiring(c, s, now), time)
    ensures !Effective(c, s, Expire(now)) ==>
      Expiring(c, s, now).queue == s.queue && Expiring(c, s, now).requests == s.requests &&
      (time <= now ==> s.requests == [])
  {
    hide UpperBound, GivenUp;
    var n := UpperBound(s.requests, now);
    if n == 0 {
      assert s.requests[..n] == [] && s.requests[n..] == s.requests;
      assert s.queue + [] == s.queue;
    }
    if time <= now {
      AllExpired(s.requests, now);
    }
  }

  /** One round: it uses up work if it deals with a request, and adds to the map only then. */
  lemma RoundWork(c: Config, s: State, r: Round, time: nat)
    requires MapUsed(c, s) && ExpiredBy(s, time) && Others(r.others)
    ensures var t := Run(c, s, RoundSteps(r));
      && MapUsed(c, t)
      && Work(c, t) + One(Acts(c, s, r)) <= Work(c, s) + Posts(r.others) * (2 * c.retransmissions + 2)
      && (!Acts(c, s, r) ==> ExpiredBy(t, time))
      && (time <= r.at + c.timeout * TIME_SECOND ==> ExpiredBy(t, r.at + c.timeout * TIME_SECOND))
      && (time <= r.now && !Acts(c, s, r) ==> Work(c, s) == 0)
  {
    hide Turning, Expiring, Work, UpperBound, RoundSteps;
    var u := Expiring(c, s, r.now);
    var v := Turning(c, u, r.link, r.at);
    StepWork(c, s, Expire(r.now));
    StepWork(c, u, Turn(r.link, r.at));
    ExpireMap(c, s, r.now, time);
    TurnMap(c, u, r.link, r.at);
    OthersWork(c, v, r.others);
    RoundRun(c, s, r);
    NoWork(c, s);
  }

  lemma {:induction false} PostsAppend(a: seq<Step>, b: seq<Step>)
    ensures Posts(a + b) == Posts(a) + Posts(b)
  {
    if a == [] {
      assert a + b == b;
    } else {
      assert (a + b)[1..] == a[1..] + b;
      PostsAppend(a[1..], b);
    }
  }

  lemma RoundsFirst(c: Config, s: State, rounds: seq<Round>)
    requires rounds != []
    ensures Run(c, s, Rounds(rounds)) == Run(c, Run(c, s, RoundSteps(rounds[0])), Rounds(rounds[1..]))
    ensures Posts(Rounds(rounds)) == Posts(rounds[0].others) + Posts(Rounds(rounds[1..]))
  {
    hide RoundSteps, Posts;
    RunAppend(c, s, RoundSteps(rounds[0]), Rounds(rounds[1..]));
    PostsAppend(RoundSteps(rounds[0]), Rounds(rounds[1..]));
    RoundRun(c, s, rounds[0]);
  }

  /** The work left falls with every timeout that passes while there is any, however often the loop turns, and only
      posting adds to it. Moved says that a request has been dealt with since the last timeout counted. */
  lemma {:induction false} TicksWork(c: Config, s: State, rounds: seq<Round>, last: nat, clock: nat, moved: bool)
    requires MapUsed(c, s) && Steady(rounds, clock) && AllOthers(rounds) && last <= clock
    requires ExpiredBy(s, clock + c.timeout * TIME_SECOND) && (!moved ==> ExpiredBy(s, last + c.timeout * TIME_SECOND))
    ensures Work(c, Run(c, s, Rounds(rounds))) + BusyTicks(c, s, rounds, last)
      <= Work(c, s) + Posts(Rounds(rounds)) * (2 * c.retransmissions + 2) + One(moved)
    decreases |rounds|
  {
    hide Acts, Work, ExpiredBy, MapUsed, RoundSteps, Others, Posts, Run;
    if rounds == [] {
      RunNone(c, s);
    } else {
      var gap, r, unit := c.timeout * TIME_SECOND, rounds[0], 2 * c.retransmissions + 2;
      var t, acts := Run(c, s, RoundSteps(r)), Acts(c, s, r);
      assert r in rounds;
      RoundsFirst(c, s, rounds);
      var p, q := Posts(r.others), Posts(Rounds(rounds[1..]));
      assert (p + q) * unit == p * unit + q * unit;
      RoundWork(c, s, r, clock + gap);
      if !moved {
        RoundWork(c, s, r, last + gap);
      }
      if last + gap <= r.now {
        TicksWork(c, t, rounds[1..], r.at, r.at, false);
      } else {
        TicksWork(c, t, rounds[1..], last, r.at, moved || acts);
      }
    }
  }

  /** Every round ends at most a period after the one before. */
  predicate Polled(rounds: seq<Round>, clock: nat, period: nat) {
    rounds != [] ==> rounds[0].at <= clock + period && Polled(rounds[1..], rounds[0].at, period)
  }

  function EndOf(rounds: seq<Round>, clock: nat): nat {
    if rounds == [] then clock else EndOf(rounds[1..], rounds[0].at)
  }

  /** A loop that keeps turning counts at least one timeout in each timeout and two periods. */
  lemma {:induction false} TicksPass(rounds: seq<Round>, last: nat, clock: nat, gap: nat, period: nat)
    requires Steady(rounds, clock) && Polled(rounds, clock, period) && last <= clock <= last + gap + period
    ensures EndOf(rounds, clock) <= last + Ticks(rounds, last, gap) * (gap + 2 * period) + gap + period
    decreases |rounds|
  {
    if rounds == [] {
    } else if last + gap <= rounds[0].now {
      TicksPass(rounds[1..], rounds[0].at, rounds[0].at, gap, period);
      var k := Ticks(rounds[1..], rounds[0].at, gap);
      assert (1 + k) * (gap + 2 * period) == (gap + 2 * period) + k * (gap + 2 * period);
    } else {
      TicksPass(rounds[1..], last, rounds[0].at, gap, period);
    }
  }

  /** Whether nothing is left to be done before some round, or after the last. */
  ghost predicate IdleSometime(c: Config, s: State, rounds: seq<Round>) {
    exists k :: 0 <= k <= |rounds| && Work(c, Run(c, s, Rounds(rounds[..k]))) == 0
  }

  /** If there is always work, every timeout is a busy one. */
  lemma {:induction false} AlwaysBusy(c: Config, s: State, rounds: seq<Round>, last: nat)
    requires !IdleSometime(c, s, rounds)
    ensures BusyTicks(c, s, rounds, last) == Ticks(rounds, last, c.timeout * TIME_SECOND)
    decreases |rounds|
  {
    hide Work, RoundSteps, Run;
    if rounds != [] {
      var t := Run(c, s, RoundSteps(rounds[0]));
      assert rounds[..0] == [];
      RunNone(c, s);
      assert Work(c, Run(c, s, Rounds(rounds[..0]))) > 0;
      forall k | 0 <= k <= |rounds[1..]| ensures Work(c, Run(c, t, Rounds(rounds[1..][..k]))) > 0 {
        var first := rounds[..k + 1];
        assert first[0] == rounds[0] && first[1..] == rounds[1..][..k];
        RoundsFirst(c, s, first);
      }
      AlwaysBusy(c, t, rounds[1..], last);
      AlwaysBusy(c, t, rounds[1..], rounds[0].at);
    }
  }

  /** Unanswered requests do not stay: whatever the period of the loop, and whatever comes in meanwhile, the queue and
      the map have been empty at some time once each piece of work, present or posted, has had a timeout and two
      periods. */
  lemma Drains(c: Config, s: State, rounds: seq<Round>, clock: nat, period: nat)
    requires MapUsed(c, s) && ExpiredBy(s, clock + c.timeout * TIME_SECOND)
    requires Steady(rounds, clock) && AllOthers(rounds) && Polled(rounds, clock, period) && period > 0
    requires EndOf(rounds, clock) >= clock
      + (Work(c, s) + Posts(Rounds(rounds)) * (2 * c.retransmissions + 2)) * (c.timeout * TIME_SECOND + 2 * period)
    ensures IdleSometime(c, s, rounds)
  {
    hide MapUsed, ExpiredBy, Steady, AllOthers, Polled, EndOf, Work, Run, Posts, Ticks, BusyTicks;
    var gap := c.timeout * TIME_SECOND;
    var work, ticks := Work(c, s) + Posts(Rounds(rounds)) * (2 * c.retransmissions + 2), Ticks(rounds, clock, gap);
    if !IdleSometime(c, s, rounds) {
      hide IdleSometime;
      AlwaysBusy(c, s, rounds, clock);
      TicksWork(c, s, rounds, clock, clock, false);
      TicksPass(rounds, clock, clock, gap, period);
      MoreTicks(ticks, work, gap, period);
      LastIsIdle(c, s, rounds);
    }
  }

  lemma LastIsIdle(c: Config, s: State, rounds: seq<Round>)
    ensures Work(c, Run(c, s, Rounds(rounds))) == 0 ==> IdleSometime(c, s, rounds)
  {
    hide Work, Run;
    assert rounds[..|rounds|] == rounds;
  }

  lemma MoreTicks(ticks: nat, work: nat, gap: nat, period: nat)
    requires work * (gap + 2 * period) <= ticks * (gap + 2 * period) + gap + period && period > 0
    ensures ticks >= work
  {
    var unit := gap + 2 * period;
    assert (work - ticks) * unit == work * unit - ticks * unit;
    MulAtLeast(work - ticks, unit);
  }

  lemma NoWork(c: Config, s: State)
    ensures Work(c, s) == 0 <==> s.queue == [] && s.requests == []
  {
  }

  function ClockAfter(steps: seq<Step>, clock: nat): nat {
    if steps == [] then clock else ClockAfter(steps[1..], After(steps[0], clock))
  }

  lemma StepExpires(c: Config, s: State, step: Step, clock: nat)
    requires MapUsed(c, s) && ExpiredBy(s, clock + c.timeout * TIME_SECOND) && clock <= After(step, clock)
    ensures MapUsed(c, Next(c, s, step)) && ExpiredBy(Next(c, s, step), After(step, clock) + c.timeout * TIME_SECOND)
  {
    hide Turning, UpperBound, Reposted, GivenUp, Find;
    if step.Turn? {
      TurnMap(c, s, step.link, step.at);
    }
  }

  lemma {:induction false} RunExpires(c: Config, s: State, steps: seq<Step>, clock: nat)
    requires MapUsed(c, s) && ExpiredBy(s, clock + c.timeout * TIME_SECOND) && Clocked(steps, clock)
    ensures MapUsed(c, Run(c, s, steps))
    ensures ExpiredBy(Run(c, s, steps), ClockAfter(steps, clock) + c.timeout * TIME_SECOND)
    decreases |steps|
  {
    hide MapUsed, ExpiredBy, Next, After;
    if steps != [] {
      StepExpires(c, s, steps[0], clock);
      RunExpires(c, Next(c, s, steps[0]), steps[1..], After(steps[0], clock));
    }
  }

  /** After any run, the queue and the map have been empty at some time once each message posted before or meanwhile
      has had, for every retransmission and once more, two timeouts and four periods. */
  lemma EveryRunDrains(c: Config, steps: seq<Step>, rounds: seq<Round>, period: nat)
    requires Clocked(steps, 0) && period > 0 && AllOthers(rounds)
    requires Steady(rounds, ClockAfter(steps, 0)) && Polled(rounds, ClockAfter(steps, 0), period)
    requires EndOf(rounds, ClockAfter(steps, 0)) >= ClockAfter(steps, 0)
      + (Posts(steps) + Posts(Rounds(rounds))) * (2 * c.retransmissions + 2) * (c.timeout * TIME_SECOND + 2 * period)
    ensures IdleSometime(c, Run(c, EMPTY, steps), rounds)
  {
    var s, clock := Run(c, EMPTY, steps), ClockAfter(steps, 0);
    var unit, p, q := 2 * c.retransmissions + 2, Posts(steps), Posts(Rounds(rounds));
    hide Run, Clocked, ClockAfter, Steady, Polled, EndOf, Rounds, AllOthers, IdleSometime;
    RunExpires(c, EMPTY, steps, 0);
    RunWork(c, EMPTY, steps);
    hide Work, Posts;
    Enough(Work(c, s), p, q, unit, c.timeout * TIME_SECOND + 2 * period);
    Drains(c, s, rounds, clock, period);
  }

  lemma Enough(work: nat, p: nat, q: nat, unit: nat, time: nat)
    requires work <= p * unit
    ensures (work + q * unit) * time <= (p + q) * unit * time
  {
    assert (p + q) * unit == p * unit + q * unit;
    MulMonotone(work + q * unit, (p + q) * unit, time);
  }

  /** When nothing more is posted, what has been empty stays empty. */
  lemma QuietStaysIdle(c: Config, s: State, rounds: seq<Round>)
    requires IdleSometime(c, s, rounds) && AllOthers(rounds) && Posts(Rounds(rounds)) == 0
    ensures var t := Run(c, s, Rounds(rounds)); t.queue == [] && t.requests == []
  {
    hide Work, Posts, Run;
    var k :| 0 <= k <= |rounds| && Work(c, Run(c, s, Rounds(rounds[..k]))) == 0;
    RoundsSplit(rounds, k);
    RunAppend(c, s, Rounds(rounds[..k]), Rounds(rounds[k..]));
    PostsAppend(Rounds(rounds[..k]), Rounds(rounds[k..]));
    RunWork(c, Run(c, s, Rounds(rounds[..k])), Rounds(rounds[k..]));
    NoWork(c, Run(c, s, Rounds(rounds)));
  }

  lemma {:induction false} RoundsSplit(rounds: seq<Round>, k: nat)
    requires k <= |rounds|
    ensures Rounds(rounds) == Rounds(rounds[..k]) + Rounds(rounds[k..])
    decreases k
  {
    hide RoundSteps;
    if k > 0 {
      RoundsSplit(rounds[1..], k - 1);
      assert rounds[..k][1..] == rounds[1..][..k - 1];
    }
  }
}
