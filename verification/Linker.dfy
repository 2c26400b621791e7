/**
The request protocol of the server linker: messages wait in a queue, are sent
on the up link, and are kept, ordered by the time at which they expire, until
they are confirmed; requests that expire go back to the queue until their
retransmissions are used up.
*/
module Linker {

  const TIME_SECOND := 1_000_000
  const REQUEST_TIMEOUT_SEC := 5
  const RETRANSMISSION_COUNT_MAX := 5
  const CONFIRM := "confirm"
  const KEEP_ALIVE := "keep_alive"

  datatype Message = Message(msgId: string, msgType: string)

  /** A posted message. The serial number stands for the identity of the object. */
  datatype Produce = Produce(serial: nat, message: Message, count: nat)

  /** An entry of the request map: a request in flight and the time at which it expires. */
  datatype Entry = Entry(expire: nat, produce: Produce)

  /** What becomes of a message that is handed to the up link of its topic. */
  datatype Link = Missing | Failing | Sending

  datatype Ending = Unsent | Untracked | Confirmed | Expired

  datatype Event = Sent(serial: nat, at: nat) | Finished(serial: nat, ending: Ending)

  datatype Config = Config(enableConfirm: bool, timeout: nat, retransmissions: nat)

  /** Orphans are requests whose entry in the map was overwritten; nothing reaches them any more. */
  datatype State = State(queue: seq<Produce>, requests: seq<Entry>, orphans: seq<Produce>,
                         posted: seq<Message>, log: seq<Event>)

  const EMPTY := State([], [], [], [], [])

  datatype Step = Post(message: Message) | Turn(link: Link, at: nat) | Confirm(reqId: string) | Expire(now: nat)

  // ---------------------------------------------------------------------------
  // The request map
  // ---------------------------------------------------------------------------

  predicate Ordered(m: seq<Entry>) {
    forall i, j :: 0 <= i < j < |m| ==> m[i].expire < m[j].expire
  }

  /** Assignment to a key: an entry of that key is overwritten. */
  function Put(m: seq<Entry>, e: Entry): seq<Entry> {
    if m == [] || e.expire < m[0].expire then [e] + m
    else if e.expire == m[0].expire then [e] + m[1..]
    else [m[0]] + Put(m[1..], e)
  }

  /** The request that an assignment to this key overwrites, if any. */
  function Displaced(m: seq<Entry>, key: nat): seq<Produce> {
    if m == [] || key < m[0].expire then []
    else if key == m[0].expire then [m[0].produce]
    else Displaced(m[1..], key)
  }

  /** The number of entries that have expired. */
  function UpperBound(m: seq<Entry>, now: nat): (n: nat)
    ensures n <= |m|
    ensures forall i :: 0 <= i < n ==> m[i].expire <= now
    ensures n < |m| ==> m[n].expire > now
  {
    if m == [] || m[0].expire > now then 0 else 1 + UpperBound(m[1..], now)
  }

  /** The position of the first request with this message id, or the size of the map. */
  function Find(m: seq<Entry>, msgId: string): (n: nat)
    ensures n <= |m|
    ensures forall i :: 0 <= i < n ==> m[i].produce.message.msgId != msgId
    ensures n < |m| ==> m[n].produce.message.msgId == msgId
  {
    if m == [] || m[0].produce.message.msgId == msgId then 0 else 1 + Find(m[1..], msgId)
  }

  lemma {:induction false} PutOrdered(m: seq<Entry>, e: Entry)
    requires Ordered(m)
    ensures Ordered(Put(m, e))
    ensures forall x :: x in Put(m, e) ==> x == e || x in m
  {
    if m != [] && e.expire > m[0].expire {
      PutOrdered(m[1..], e);
      assert forall x :: x in m[1..] ==> m[0].expire < x.expire;
    }
  }

  lemma {:induction false} DisplacedFrom(m: seq<Entry>, key: nat)
    ensures forall x :: x in Displaced(m, key) ==> exists y :: y in m && y.produce == x && y.expire == key
  {
    if m != [] && key > m[0].expire {
      DisplacedFrom(m[1..], key);
    }
  }

  // ---------------------------------------------------------------------------
  // Steps
  // ---------------------------------------------------------------------------

  predicate Retried(c: Config, p: Produce) {
    p.message.msgType != KEEP_ALIVE && p.count < c.retransmissions
  }

  /** Expired requests that are posted again. */
  function Reposted(c: Config, m: seq<Entry>): seq<Produce> {
    if m == [] then []
    else
      var p := m[0].produce;
      (if Retried(c, p) then [p.(count := p.count + 1)] else []) + Reposted(c, m[1..])
  }

  /** Expired requests that are given up. */
  function GivenUp(c: Config, m: seq<Entry>): seq<Event> {
    if m == [] then []
    else (if Retried(c, m[0].produce) then [] else [Finished(m[0].produce.serial, Expired)]) + GivenUp(c, m[1..])
  }

  predicate Tracked(c: Config, message: Message) {
    c.enableConfirm && message.msgType != CONFIRM
  }

  function Posting(s: State, message: Message): State {
    s.(queue := s.queue + [Produce(|s.posted|, message, 0)], posted := s.posted + [message])
  }

  /** What is done with a request that leaves the queue. */
  function Produced(c: Config, p: Produce, link: Link, at: nat): seq<Event> {
    if !link.Sending? then [Finished(p.serial, Unsent)]
    else [Sent(p.serial, at)] + if Tracked(c, p.message) then [] else [Finished(p.serial, Untracked)]
  }

  function Producing(c: Config, s: State, p: Produce, link: Link, at: nat): State {
    var t := s.(log := s.log + Produced(c, p, link, at));
    if link.Sending? && Tracked(c, p.message) then
      var e := Entry(at + c.timeout * TIME_SECOND, p);
      t.(requests := Put(s.requests, e), orphans := s.orphans + Displaced(s.requests, e.expire))
    else
      t
  }

  function Turning(c: Config, s: State, link: Link, at: nat): State {
    if s.queue == [] then s else Producing(c, s.(queue := s.queue[1..]), s.queue[0], link, at)
  }

  function Confirming(c: Config, s: State, reqId: string): State {
    var n := Find(s.requests, reqId);
    if !c.enableConfirm || n == |s.requests| then s
    else s.(requests := s.requests[..n] + s.requests[n + 1..],
            log := s.log + [Finished(s.requests[n].produce.serial, Confirmed)])
  }

  function Expiring(c: Config, s: State, now: nat): State {
    var n := UpperBound(s.requests, now);
    if !c.enableConfirm then s
    else s.(queue := s.queue + Reposted(c, s.requests[..n]), requests := s.requests[n..],
            log := s.log + GivenUp(c, s.requests[..n]))
  }

  function Next(c: Config, s: State, step: Step): State {
    match step
    case Post(message) => Posting(s, message)
    case Turn(link, at) => Turning(c, s, link, at)
    case Confirm(reqId) => Confirming(c, s, reqId)
    case Expire(now) => Expiring(c, s, now)
  }

  function Run(c: Config, s: State, steps: seq<Step>): State
    decreases |steps|
  {
    if steps == [] then s else Run(c, Next(c, s, steps[0]), steps[1..])
  }

  // ---------------------------------------------------------------------------
  // Counting
  // ---------------------------------------------------------------------------

  function One(b: bool): nat { if b then 1 else 0 }

  function InQueue(q: seq<Produce>, i: nat): nat {
    if q == [] then 0 else One(q[0].serial == i) + InQueue(q[1..], i)
  }

  function InMap(m: seq<Entry>, i: nat): nat {
    if m == [] then 0 else One(m[0].produce.serial == i) + InMap(m[1..], i)
  }

  function Endings(log: seq<Event>, i: nat): nat {
    if log == [] then 0 else One(log[0].Finished? && log[0].serial == i) + Endings(log[1..], i)
  }

  function TimesSent(log: seq<Event>, i: nat): nat {
    if log == [] then 0 else One(log[0].Sent? && log[0].serial == i) + TimesSent(log[1..], i)
  }

  /** In how many places a request is. */
  function Places(s: State, i: nat): nat {
    InQueue(s.queue, i) + InMap(s.requests, i) + InQueue(s.orphans, i) + Endings(s.log, i)
  }

  lemma {:induction false} InQueueAppend(q: seq<Produce>, r: seq<Produce>, i: nat)
    ensures InQueue(q + r, i) == InQueue(q, i) + InQueue(r, i)
  {
    if q == [] {
      assert q + r == r;
    } else {
      assert (q + r)[1..] == q[1..] + r;
      InQueueAppend(q[1..], r, i);
    }
  }

  lemma {:induction false} InMapAppend(m: seq<Entry>, n: seq<Entry>, i: nat)
    ensures InMap(m + n, i) == InMap(m, i) + InMap(n, i)
  {
    if m == [] {
      assert m + n == n;
    } else {
      assert (m + n)[1..] == m[1..] + n;
      InMapAppend(m[1..], n, i);
    }
  }

  lemma {:induction false} LogAppend(log: seq<Event>, more: seq<Event>, i: nat)
    ensures Endings(log + more, i) == Endings(log, i) + Endings(more, i)
    ensures TimesSent(log + more, i) == TimesSent(log, i) + TimesSent(more, i)
  {
    if log == [] {
      assert log + more == more;
    } else {
      assert (log + more)[1..] == log[1..] + more;
      LogAppend(log[1..], more, i);
    }
  }

  lemma {:induction false} PutCounts(m: seq<Entry>, e: Entry, i: nat)
    ensures InMap(Put(m, e), i) + InQueue(Displaced(m, e.expire), i) == InMap(m, i) + One(e.produce.serial == i)
  {
    if m != [] && e.expire > m[0].expire {
      PutCounts(m[1..], e, i);
    }
  }

  lemma {:induction false} ExpiredCounts(c: Config, m: seq<Entry>, i: nat)
    ensures InQueue(Reposted(c, m), i) + Endings(GivenUp(c, m), i) == InMap(m, i)
    ensures TimesSent(GivenUp(c, m), i) == 0
  {
    if m != [] {
      var p := m[0].produce;
      ExpiredCounts(c, m[1..], i);
      InQueueAppend([p.(count := p.count + 1)], Reposted(c, m[1..]), i);
      LogAppend([Finished(p.serial, Expired)], GivenUp(c, m[1..]), i);
      assert Retried(c, p) ==> GivenUp(c, m) == GivenUp(c, m[1..]);
      assert !Retried(c, p) ==> Reposted(c, m) == Reposted(c, m[1..]);
    }
  }

  lemma ProducedLog(c: Config, p: Produce, link: Link, at: nat, i: nat)
    ensures Endings(Produced(c, p, link, at), i) == One(p.serial == i && !(link.Sending? && Tracked(c, p.message)))
    ensures TimesSent(Produced(c, p, link, at), i) == One(p.serial == i && link.Sending?)
  {
    LogAppend([Sent(p.serial, at)], if Tracked(c, p.message) then [] else [Finished(p.serial, Untracked)], i);
  }

  lemma {:induction false} NotInQueue(q: seq<Produce>, i: nat)
    requires InQueue(q, i) == 0
    ensures forall p :: p in q ==> p.serial != i
  {
    if q != [] {
      NotInQueue(q[1..], i);
    }
  }

  lemma {:induction false} NotInMap(m: seq<Entry>, i: nat)
    requires InMap(m, i) == 0
    ensures forall e :: e in m ==> e.produce.serial != i
  {
    if m != [] {
      NotInMap(m[1..], i);
    }
  }

  // ---------------------------------------------------------------------------
  // Every request is in exactly one place
  // ---------------------------------------------------------------------------

  ghost predicate OnePlace(s: State) {
    forall i: nat :: Places(s, i) == One(i < |s.posted|)
  }

  lemma TurnPlaces(c: Config, s: State, link: Link, at: nat, i: nat)
    ensures Places(Turning(c, s, link, at), i) == Places(s, i)
  {
    hide Put, Displaced, Produced;
    if s.queue != [] {
      var p := s.queue[0];
      ProducedLog(c, p, link, at, i);
      LogAppend(s.log, Produced(c, p, link, at), i);
      if link.Sending? && Tracked(c, p.message) {
        var e := Entry(at + c.timeout * TIME_SECOND, p);
        PutCounts(s.requests, e, i);
        InQueueAppend(s.orphans, Displaced(s.requests, e.expire), i);
      }
    }
  }

  lemma ConfirmPlaces(c: Config, s: State, reqId: string, i: nat)
    ensures Places(Confirming(c, s, reqId), i) == Places(s, i)
  {
    hide Find;
    var n := Find(s.requests, reqId);
    if c.enableConfirm && n < |s.requests| {
      MapSplit(s.requests, n, i);
      LogAppend(s.log, [Finished(s.requests[n].produce.serial, Confirmed)], i);
    }
  }

  lemma ExpirePlaces(c: Config, s: State, now: nat, i: nat)
    ensures Places(Expiring(c, s, now), i) == Places(s, i)
  {
    hide UpperBound, Reposted, GivenUp;
    var n := UpperBound(s.requests, now);
    assert s.requests == s.requests[..n] + s.requests[n..];
    InMapAppend(s.requests[..n], s.requests[n..], i);
    ExpiredCounts(c, s.requests[..n], i);
    InQueueAppend(s.queue, Reposted(c, s.requests[..n]), i);
    LogAppend(s.log, GivenUp(c, s.requests[..n]), i);
  }

  lemma StepPlaces(c: Config, s: State, step: Step, i: nat)
    ensures Places(Next(c, s, step), i) == Places(s, i) + One(step.Post? && i == |s.posted|)
  {
    match step {
      case Post(message) => InQueueAppend(s.queue, [Produce(|s.posted|, message, 0)], i);
      case Turn(link, at) => TurnPlaces(c, s, link, at, i);
      case Confirm(reqId) => ConfirmPlaces(c, s, reqId, i);
      case Expire(now) => ExpirePlaces(c, s, now, i);
    }
  }

  lemma MapSplit(m: seq<Entry>, n: nat, i: nat)
    requires n < |m|
    ensures InMap(m[..n] + m[n + 1..], i) + One(m[n].produce.serial == i) == InMap(m, i)
  {
    assert m == m[..n] + ([m[n]] + m[n + 1..]);
    InMapAppend(m[..n], [m[n]] + m[n + 1..], i);
    InMapAppend(m[..n], m[n + 1..], i);
  }

  lemma StepKeepsOnePlace(c: Config, s: State, step: Step)
    requires OnePlace(s)
    ensures OnePlace(Next(c, s, step))
  {
    hide Places;
    forall i: nat ensures Places(Next(c, s, step), i) == One(i < |Next(c, s, step).posted|) {
      StepPlaces(c, s, step, i);
    }
  }

  // ---------------------------------------------------------------------------
  // Nothing is sent more often than its budget allows
  // ---------------------------------------------------------------------------

  /** How often a message may be sent. */
  function Budget(c: Config, message: Message): nat {
    if Tracked(c, message) && message.msgType != KEEP_ALIVE then 1 + c.retransmissions else 1
  }

  predicate Known(s: State, p: Produce) {
    p.serial < |s.posted| && p.message == s.posted[p.serial]
  }

  predicate Waiting(c: Config, s: State, p: Produce) {
    Known(s, p) && TimesSent(s.log, p.serial) == p.count < Budget(c, p.message)
  }

  predicate InFlight(c: Config, s: State, p: Produce) {
    Known(s, p) && Tracked(c, p.message) && TimesSent(s.log, p.serial) == p.count + 1 <= Budget(c, p.message)
  }

  ghost predicate WithinBudget(c: Config, s: State) {
    forall i: nat :: TimesSent(s.log, i) <= if i < |s.posted| then Budget(c, s.posted[i]) else 0
  }

  ghost predicate Inv(c: Config, s: State) {
    && OnePlace(s)
    && Ordered(s.requests)
    && (forall p :: p in s.queue ==> Waiting(c, s, p))
    && (forall e :: e in s.requests ==> InFlight(c, s, e.produce))
    && (forall p :: p in s.orphans ==> InFlight(c, s, p))
    && WithinBudget(c, s)
  }

  lemma EmptyInv(c: Config)
    ensures Inv(c, EMPTY)
  {
  }

  /** The request at the head of the queue is nowhere else. */
  lemma Alone(s: State)
    requires OnePlace(s) && s.queue != []
    ensures forall p :: p in s.queue[1..] + s.orphans ==> p.serial != s.queue[0].serial
    ensures forall e :: e in s.requests ==> e.produce.serial != s.queue[0].serial
    ensures Endings(s.log, s.queue[0].serial) == 0
  {
    var i := s.queue[0].serial;
    assert Places(s, i) == One(i < |s.posted|);
    NotInQueue(s.queue[1..], i);
    NotInQueue(s.orphans, i);
    NotInMap(s.requests, i);
  }

  lemma PostKeeps(c: Config, s: State, message: Message)
    requires Inv(c, s)
    ensures Inv(c, Posting(s, message))
  {
    hide Budget, Tracked, OnePlace, Ordered, TimesSent;
    StepKeepsOnePlace(c, s, Post(message));
    var t := Posting(s, message);
    assert TimesSent(s.log, |s.posted|) == 0;
    BudgetPositive(c, message);
    assert Waiting(c, t, t.queue[|s.queue|]);
    assert t.log == s.log;
  }

  lemma BudgetPositive(c: Config, message: Message)
    ensures Budget(c, message) > 0
  {
  }

  lemma ProducedSent(c: Config, s: State, p: Produce, link: Link, at: nat, i: nat)
    ensures TimesSent(Producing(c, s, p, link, at).log, i) == TimesSent(s.log, i) + One(i == p.serial && link.Sending?)
  {
    hide Put, Displaced, Produced;
    ProducedLog(c, p, link, at, i);
    LogAppend(s.log, Produced(c, p, link, at), i);
  }

  lemma TurnKeeps(c: Config, s: State, link: Link, at: nat)
    requires Inv(c, s)
    ensures Inv(c, Turning(c, s, link, at))
  {
    hide OnePlace, Ordered, TimesSent, Put, Displaced, Produced, Budget;
    StepKeepsOnePlace(c, s, Turn(link, at));
    if s.queue != [] {
      Alone(s);
      var t, p := Turning(c, s, link, at), s.queue[0];
      assert Waiting(c, s, p);
      var e := Entry(at + c.timeout * TIME_SECOND, p);
      forall i: nat ensures TimesSent(t.log, i) == TimesSent(s.log, i) + One(i == p.serial && link.Sending?) {
        ProducedSent(c, s.(queue := s.queue[1..]), p, link, at, i);
      }
      PutOrdered(s.requests, e);
      DisplacedFrom(s.requests, e.expire);
      forall q | q in t.queue ensures Waiting(c, t, q) {
        assert Waiting(c, s, q);
      }
      forall x | x in t.requests ensures InFlight(c, t, x.produce) {
        assert x in s.requests ==> InFlight(c, s, x.produce);
      }
      forall q | q in t.orphans ensures InFlight(c, t, q) {
        if q in s.orphans {
          assert InFlight(c, s, q);
        } else {
          var x :| x in s.requests && x.produce == q;
          assert InFlight(c, s, x.produce);
        }
      }
    }
  }

  lemma ConfirmKeeps(c: Config, s: State, reqId: string)
    requires Inv(c, s)
    ensures Inv(c, Confirming(c, s, reqId))
  {
    hide OnePlace, TimesSent, Budget, Find, Waiting, InFlight;
    StepKeepsOnePlace(c, s, Confirm(reqId));
    var n, t := Find(s.requests, reqId), Confirming(c, s, reqId);
    if c.enableConfirm && n < |s.requests| {
      FinishedNotSent(s.requests[n].produce.serial, Confirmed);
      SameSent(c, s, t, [Finished(s.requests[n].produce.serial, Confirmed)]);
    }
  }

  lemma FinishedNotSent(serial: nat, ending: Ending)
    ensures forall i: nat :: TimesSent([Finished(serial, ending)], i) == 0
  {
  }

  /** Ending requests changes nothing for the others. */
  lemma SameSent(c: Config, s: State, t: State, more: seq<Event>)
    requires t.log == s.log + more && t.posted == s.posted
    requires forall i: nat :: TimesSent(more, i) == 0
    ensures forall i: nat :: TimesSent(t.log, i) == TimesSent(s.log, i)
    ensures forall p :: Waiting(c, s, p) ==> Waiting(c, t, p)
    ensures forall p :: InFlight(c, s, p) ==> InFlight(c, t, p)
  {
    hide TimesSent;
    forall i: nat ensures TimesSent(t.log, i) == TimesSent(s.log, i) {
      LogAppend(s.log, more, i);
    }
  }

  lemma {:induction false} RepostedFrom(c: Config, m: seq<Entry>)
    ensures forall p :: p in Reposted(c, m) ==>
      exists e :: e in m && Retried(c, e.produce) && p == e.produce.(count := e.produce.count + 1)
  {
    if m != [] {
      RepostedFrom(c, m[1..]);
      forall p | p in Reposted(c, m)
        ensures exists e :: e in m && Retried(c, e.produce) && p == e.produce.(count := e.produce.count + 1)
      {
        if p !in Reposted(c, m[1..]) {
          assert m[0] in m && Retried(c, m[0].produce);
        }
      }
    }
  }

  lemma ExpireKeeps(c: Config, s: State, now: nat)
    requires Inv(c, s)
    ensures Inv(c, Expiring(c, s, now))
  {
    hide OnePlace, TimesSent, UpperBound, Reposted, GivenUp;
    StepKeepsOnePlace(c, s, Expire(now));
    var n, t := UpperBound(s.requests, now), Expiring(c, s, now);
    if c.enableConfirm {
      var gone := s.requests[..n];
      forall i: nat ensures TimesSent(GivenUp(c, gone), i) == 0 {
        ExpiredCounts(c, gone, i);
      }
      SameSent(c, s, t, GivenUp(c, gone));
      RepostedFrom(c, gone);
      forall p | p in Reposted(c, gone) ensures Waiting(c, t, p) {
        var e :| e in gone && Retried(c, e.produce) && p == e.produce.(count := e.produce.count + 1);
        assert e in s.requests && InFlight(c, s, e.produce);
      }
    }
  }

  lemma StepKeeps(c: Config, s: State, step: Step)
    requires Inv(c, s)
    ensures Inv(c, Next(c, s, step))
  {
    hide Inv, Posting, Turning, Confirming, Expiring;
    match step {
      case Post(message) => PostKeeps(c, s, message);
      case Turn(link, at) => TurnKeeps(c, s, link, at);
      case Confirm(reqId) => ConfirmKeeps(c, s, reqId);
      case Expire(now) => ExpireKeeps(c, s, now);
    }
  }

  lemma {:induction false} RunKeeps(c: Config, s: State, steps: seq<Step>)
    requires Inv(c, s)
    ensures Inv(c, Run(c, s, steps))
    decreases |steps|
  {
    hide Inv, Next;
    if steps != [] {
      StepKeeps(c, s, steps[0]);
      RunKeeps(c, Next(c, s, steps[0]), steps[1..]);
    }
  }

  /** The first transmission of a message and, if it is tracked and no keep-alive, its retransmissions. */
  function MostSent(c: Config, message: Message): nat {
    if c.enableConfirm && message.msgType != "confirm" && message.msgType != "keep_alive"
    then 1 + c.retransmissions else 1
  }

  /** Over every run: each posted request is in exactly one place, no request is sent more often than allowed,
      and the map holds only messages that may be tracked, each sent once more than it was reposted. */
  lemma EveryRun(c: Config, steps: seq<Step>, i: nat)
    ensures var s := Run(c, EMPTY, steps);
      && Places(s, i) == One(i < |s.posted|)
      && TimesSent(s.log, i) <= (if i < |s.posted| then MostSent(c, s.posted[i]) else 0)
      && (forall e :: e in s.requests ==>
            && c.enableConfirm && e.produce.message.msgType != "confirm"
            && TimesSent(s.log, e.produce.serial) == e.produce.count + 1)
  {
    hide TimesSent, Run, Places;
    EmptyInv(c);
    RunKeeps(c, EMPTY, steps);
  }

  // ---------------------------------------------------------------------------
  // First transmissions are made in the order of posting
  // ---------------------------------------------------------------------------

  /** Whether an event is the first transmission of its request. */
  predicate FirstSent(log: seq<Event>, k: nat)
    requires k < |log|
  {
    log[k].Sent? && forall j :: 0 <= j < k && log[j].Sent? ==> log[j].serial != log[k].serial
  }

  /** Whatever was sent before the first transmission of a request was posted before it. */
  predicate FirstsInOrder(log: seq<Event>) {
    forall j, k :: 0 <= j < k < |log| && log[j].Sent? && FirstSent(log, k) ==> log[j].serial < log[k].serial
  }

  /** Whatever has been sent was posted before a request. */
  predicate SentEarlier(log: seq<Event>, serial: nat) {
    forall j :: 0 <= j < |log| && log[j].Sent? ==> log[j].serial < serial
  }

  /** Requests that have not been sent yet stand in the queue in the order in which they were posted, behind all that
      have been sent. */
  ghost predicate InOrder(s: State) {
    && (forall i, j :: 0 <= i < j < |s.queue| && s.queue[i].count == 0 && s.queue[j].count == 0 ==>
          s.queue[i].serial < s.queue[j].serial)
    && (forall p :: p in s.queue && p.count == 0 ==> SentEarlier(s.log, p.serial))
    && FirstsInOrder(s.log)
  }

  lemma {:induction false} SentSomewhere(log: seq<Event>, i: nat)
    ensures TimesSent(log, i) > 0 <==> exists k :: 0 <= k < |log| && log[k].Sent? && log[k].serial == i
  {
    if log != [] {
      SentSomewhere(log[1..], i);
      assert forall k :: 0 < k < |log| ==> log[k] == log[1..][k - 1];
      if TimesSent(log[1..], i) > 0 {
        var k :| 0 <= k < |log[1..]| && log[1..][k].Sent? && log[1..][k].serial == i;
        assert log[k + 1] == log[1..][k];
      }
    }
  }

  lemma EndingsKeepOrder(log: seq<Event>, more: seq<Event>)
    requires forall k :: 0 <= k < |more| ==> more[k].Finished?
    ensures FirstsInOrder(log) ==> FirstsInOrder(log + more)
    ensures forall i :: SentEarlier(log, i) ==> SentEarlier(log + more, i)
  {
    var t := log + more;
    assert forall k :: 0 <= k < |log| ==> t[k] == log[k];
    assert forall k :: |log| <= k < |t| ==> t[k] == more[k - |log|];
    assert forall k :: 0 <= k < |log| ==> FirstSent(t, k) == FirstSent(log, k);
  }

  lemma SendingKeepsOrder(log: seq<Event>, serial: nat, at: nat)
    requires FirstsInOrder(log) && (TimesSent(log, serial) == 0 ==> SentEarlier(log, serial))
    ensures FirstsInOrder(log + [Sent(serial, at)])
    ensures forall i :: SentEarlier(log, i) && serial < i ==> SentEarlier(log + [Sent(serial, at)], i)
  {
    var t := log + [Sent(serial, at)];
    SentSomewhere(log, serial);
    assert forall k :: 0 <= k < |log| ==> t[k] == log[k];
    assert forall k :: 0 <= k < |log| ==> FirstSent(t, k) == FirstSent(log, k);
    assert FirstSent(t, |log|) ==> SentEarlier(log, serial);
  }

  lemma TurnInOrder(c: Config, s: State, link: Link, at: nat)
    requires Inv(c, s) && InOrder(s)
    ensures InOrder(Turning(c, s, link, at))
  {
    hide OnePlace, WithinBudget, Ordered, InFlight, Budget, Tracked, TimesSent, Put, Displaced;
    hide FirstsInOrder, SentEarlier;
    if s.queue != [] {
      var p, t := s.queue[0], Turning(c, s, link, at);
      assert Waiting(c, s, p);
      if link.Sending? {
        var sent := s.log + [Sent(p.serial, at)];
        SendingKeepsOrder(s.log, p.serial, at);
        EndingsKeepOrder(sent, [Finished(p.serial, Untracked)]);
        assert t.log == sent || t.log == sent + [Finished(p.serial, Untracked)];
        forall q | q in t.queue && q.count == 0 ensures SentEarlier(sent, q.serial) {
          assert p.serial < q.serial by { Behind(c, s, q); }
        }
      } else {
        EndingsKeepOrder(s.log, [Finished(p.serial, Unsent)]);
      }
    }
  }

  /** A request that has not been sent yet was posted after the head of the queue. */
  lemma Behind(c: Config, s: State, q: Produce)
    requires Inv(c, s) && InOrder(s) && s.queue != [] && q in s.queue[1..] && q.count == 0
    ensures s.queue[0].serial < q.serial
  {
    hide OnePlace, WithinBudget, Ordered, InFlight, Budget, TimesSent, FirstsInOrder;
    var p := s.queue[0];
    assert Waiting(c, s, p);
    if p.count > 0 {
      SentSomewhere(s.log, p.serial);
      assert SentEarlier(s.log, q.serial);
    } else {
      var i :| 0 <= i < |s.queue[1..]| && s.queue[1..][i] == q;
      assert s.queue[i + 1] == q;
    }
  }

  lemma PostInOrder(c: Config, s: State, message: Message)
    requires Inv(c, s) && InOrder(s)
    ensures InOrder(Posting(s, message))
  {
    hide OnePlace, Ordered, InFlight, Budget, TimesSent, FirstsInOrder;
    forall k | 0 <= k < |s.log| && s.log[k].Sent? ensures s.log[k].serial < |s.posted| {
      SentSomewhere(s.log, s.log[k].serial);
    }
    assert forall i :: 0 <= i < |s.queue| ==> s.queue[i] in s.queue && Waiting(c, s, s.queue[i]);
  }

  lemma ExpireInOrder(c: Config, s: State, now: nat)
    requires InOrder(s)
    ensures InOrder(Expiring(c, s, now))
  {
    hide FirstsInOrder, SentEarlier, UpperBound, Reposted, GivenUp;
    var gone := s.requests[..UpperBound(s.requests, now)];
    RepostedFrom(c, gone);
    GivenUpFinished(c, gone);
    EndingsKeepOrder(s.log, GivenUp(c, gone));
    forall i | 0 <= i < |Reposted(c, gone)| ensures Reposted(c, gone)[i].count > 0 {
      assert Reposted(c, gone)[i] in Reposted(c, gone);
    }
  }

  lemma ConfirmInOrder(c: Config, s: State, reqId: string)
    requires InOrder(s)
    ensures InOrder(Confirming(c, s, reqId))
  {
    hide FirstsInOrder, SentEarlier, Find;
    var n := Find(s.requests, reqId);
    if n < |s.requests| {
      EndingsKeepOrder(s.log, [Finished(s.requests[n].produce.serial, Confirmed)]);
    }
  }

  lemma {:induction false} RunInOrder(c: Config, s: State, steps: seq<Step>)
    requires Inv(c, s) && InOrder(s)
    ensures InOrder(Run(c, s, steps))
    decreases |steps|
  {
    hide Inv, Posting, Turning, Confirming, Expiring, InOrder;
    if steps != [] {
      StepKeeps(c, s, steps[0]);
      match steps[0] {
        case Post(message) => PostInOrder(c, s, message);
        case Turn(link, at) => TurnInOrder(c, s, link, at);
        case Confirm(reqId) => ConfirmInOrder(c, s, reqId);
        case Expire(now) => ExpireInOrder(c, s, now);
      }
      RunInOrder(c, Next(c, s, steps[0]), steps[1..]);
    }
  }

  /** Over every run: when a request is sent for the first time, whatever has been sent before was posted before. */
  lemma EveryRunInOrder(c: Config, steps: seq<Step>, j: nat, k: nat)
    requires j < k < |Run(c, EMPTY, steps).log|
    ensures var log := Run(c, EMPTY, steps).log;
      log[j].Sent? && FirstSent(log, k) ==> log[j].serial < log[k].serial
  {
    EmptyInv(c);
    RunInOrder(c, EMPTY, steps);
  }

  // ---------------------------------------------------------------------------
  // A request that has ended is never sent again
  // ---------------------------------------------------------------------------

  lemma EndedStep(c: Config, s: State, step: Step, i: nat)
    requires OnePlace(s) && Endings(s.log, i) == 1
    ensures Endings(Next(c, s, step).log, i) == 1 && TimesSent(Next(c, s, step).log, i) == TimesSent(s.log, i)
  {
    hide TimesSent, Endings, Confirming, Expiring, Producing, InQueue;
    var t := Next(c, s, step);
    StepPlaces(c, s, step, i);
    assert Places(s, i) == One(i < |s.posted|);
    StepGrows(c, s, step, i);
    match step {
      case Post(message) =>
      case Turn(link, at) =>
        if s.queue != [] {
          Alone(s);
          ProducedSent(c, s.(queue := s.queue[1..]), s.queue[0], link, at, i);
        }
      case Confirm(reqId) => ConfirmedSent(c, s, reqId, i);
      case Expire(now) => ExpiredSent(c, s, now, i);
    }
  }

  lemma StepGrows(c: Config, s: State, step: Step, i: nat)
    ensures Endings(Next(c, s, step).log, i) >= Endings(s.log, i)
  {
    hide Endings, Find, UpperBound, Put, Displaced, Produced, GivenUp, Reposted;
    var t := Next(c, s, step);
    assert t.log == s.log + t.log[|s.log|..];
    LogAppend(s.log, t.log[|s.log|..], i);
  }

  lemma ConfirmedSent(c: Config, s: State, reqId: string, i: nat)
    ensures TimesSent(Confirming(c, s, reqId).log, i) == TimesSent(s.log, i)
  {
    hide TimesSent, Find;
    var n := Find(s.requests, reqId);
    if c.enableConfirm && n < |s.requests| {
      FinishedNotSent(s.requests[n].produce.serial, Confirmed);
      LogAppend(s.log, [Finished(s.requests[n].produce.serial, Confirmed)], i);
    }
  }

  lemma ExpiredSent(c: Config, s: State, now: nat, i: nat)
    ensures TimesSent(Expiring(c, s, now).log, i) == TimesSent(s.log, i)
  {
    hide TimesSent, UpperBound, GivenUp, Reposted;
    var gone := s.requests[..UpperBound(s.requests, now)];
    ExpiredCounts(c, gone, i);
    LogAppend(s.log, GivenUp(c, gone), i);
  }

  lemma {:induction false} EndedForever(c: Config, s: State, steps: seq<Step>, i: nat)
    requires OnePlace(s) && Endings(s.log, i) == 1
    ensures Endings(Run(c, s, steps).log, i) == 1 && TimesSent(Run(c, s, steps).log, i) == TimesSent(s.log, i)
    decreases |steps|
  {
    hide OnePlace, Endings, TimesSent, Next;
    if steps != [] {
      EndedStep(c, s, steps[0], i);
      StepKeepsOnePlace(c, s, steps[0]);
      EndedForever(c, Next(c, s, steps[0]), steps[1..], i);
    }
  }

  /** A confirm whose request id is in the map ends the transmissions of the first such request, for good. */
  lemma ConfirmEnds(c: Config, s: State, reqId: string, more: seq<Step>)
    requires Inv(c, s) && c.enableConfirm && exists e :: e in s.requests && e.produce.message.msgId == reqId
    ensures var n := Find(s.requests, reqId);
      && n < |s.requests| && s.requests[n].produce.message.msgId == reqId
      && var i := s.requests[n].produce.serial;
         TimesSent(Run(c, s, [Confirm(reqId)] + more).log, i) == TimesSent(s.log, i)
  {
    hide OnePlace, TimesSent, Endings, InMap, InQueue, Find;
    var n := Find(s.requests, reqId);
    var i, t := s.requests[n].produce.serial, Confirming(c, s, reqId);
    StepKeepsOnePlace(c, s, Confirm(reqId));
    ConfirmedSent(c, s, reqId, i);
    EndedByConfirm(c, s, reqId);
    EndedForever(c, t, more, i);
    assert ([Confirm(reqId)] + more)[1..] == more;
  }

  lemma EndedByConfirm(c: Config, s: State, reqId: string)
    requires OnePlace(s) && c.enableConfirm && Find(s.requests, reqId) < |s.requests|
    ensures Endings(Confirming(c, s, reqId).log, s.requests[Find(s.requests, reqId)].produce.serial) == 1
  {
    hide InMap, InQueue, Find;
    var p, t := s.requests[Find(s.requests, reqId)].produce, Confirming(c, s, reqId);
    LogAppend(s.log, [Finished(p.serial, Confirmed)], p.serial);
    StepKeepsOnePlace(c, s, Confirm(reqId));
    assert Places(t, p.serial) == One(p.serial < |t.posted|);
  }

  // ---------------------------------------------------------------------------
  // What has been done for a request when it ends
  // ---------------------------------------------------------------------------

  /** How often a message has been sent when it ends in one way or another: one that expires has been sent as often as
      it may be, one that is not tracked once, and one that could not be sent may have been sent before. */
  predicate Concluded(c: Config, message: Message, sent: nat, ending: Ending) {
    var tracked := c.enableConfirm && message.msgType != "confirm";
    match ending
    case Expired => tracked && sent == MostSent(c, message)
    case Untracked => !tracked && sent == 1
    case Confirmed => tracked && 1 <= sent <= MostSent(c, message)
    case Unsent => sent < MostSent(c, message)
  }

  predicate ConcludedAt(c: Config, s: State, event: Event) {
    event.Finished? ==>
      && event.serial < |s.posted|
      && Concluded(c, s.posted[event.serial], TimesSent(s.log, event.serial), event.ending)
  }

  ghost predicate AllConcluded(c: Config, s: State) {
    forall event :: event in s.log ==> ConcludedAt(c, s, event)
  }

  lemma {:induction false} EndedSomewhere(log: seq<Event>, event: Event)
    requires event in log && event.Finished?
    ensures Endings(log, event.serial) > 0
  {
    if event != log[0] {
      EndedSomewhere(log[1..], event);
    }
  }

  lemma PostedStays(c: Config, s: State, step: Step)
    ensures s.posted <= Next(c, s, step).posted && s.log <= Next(c, s, step).log
  {
    hide Put, Displaced, Produced, Find, UpperBound, Reposted, GivenUp;
  }

  lemma ConcludedStays(c: Config, s: State, step: Step, event: Event)
    requires OnePlace(s) && event in s.log && ConcludedAt(c, s, event)
    ensures ConcludedAt(c, Next(c, s, step), event)
  {
    hide Next, TimesSent, Endings, InQueue, InMap, Concluded;
    PostedStays(c, s, step);
    if event.Finished? {
      EndedSomewhere(s.log, event);
      assert Places(s, event.serial) == One(event.serial < |s.posted|);
      EndedStep(c, s, step, event.serial);
    }
  }

  lemma {:induction false} GivenUpFrom(c: Config, m: seq<Entry>, event: Event)
    requires event in GivenUp(c, m)
    ensures exists e :: e in m && !Retried(c, e.produce) && event == Finished(e.produce.serial, Expired)
  {
    if event in GivenUp(c, m[1..]) {
      GivenUpFrom(c, m[1..], event);
    } else {
      assert m[0] in m && !Retried(c, m[0].produce) && event == Finished(m[0].produce.serial, Expired);
    }
  }

  lemma TurnConcludes(c: Config, s: State, link: Link, at: nat, event: Event)
    requires Inv(c, s) && s.queue != [] && event in Produced(c, s.queue[0], link, at)
    ensures ConcludedAt(c, Turning(c, s, link, at), event)
  {
    hide OnePlace, Ordered, InFlight, WithinBudget, TimesSent, Put, Displaced;
    var p := s.queue[0];
    assert Waiting(c, s, p);
    ProducedSent(c, s.(queue := s.queue[1..]), p, link, at, p.serial);
  }

  lemma ConfirmConcludes(c: Config, s: State, reqId: string)
    requires Inv(c, s) && c.enableConfirm && Find(s.requests, reqId) < |s.requests|
    ensures var p := s.requests[Find(s.requests, reqId)].produce;
            ConcludedAt(c, Confirming(c, s, reqId), Finished(p.serial, Confirmed))
  {
    hide OnePlace, Ordered, Waiting, WithinBudget, TimesSent, Find;
    var p := s.requests[Find(s.requests, reqId)].produce;
    assert InFlight(c, s, p);
    ConfirmedSent(c, s, reqId, p.serial);
  }

  lemma ExpireConcludes(c: Config, s: State, now: nat, event: Event)
    requires Inv(c, s) && event in GivenUp(c, s.requests[..UpperBound(s.requests, now)]) && c.enableConfirm
    ensures ConcludedAt(c, Expiring(c, s, now), event)
  {
    hide OnePlace, Ordered, Waiting, WithinBudget, TimesSent, UpperBound, GivenUp, Reposted;
    var gone := s.requests[..UpperBound(s.requests, now)];
    GivenUpFrom(c, gone, event);
    var e :| e in gone && !Retried(c, e.produce) && event == Finished(e.produce.serial, Expired);
    assert e in s.requests && InFlight(c, s, e.produce);
    ExpiredSent(c, s, now, e.produce.serial);
  }

  lemma StepConcludes(c: Config, s: State, step: Step)
    requires Inv(c, s) && AllConcluded(c, s)
    ensures AllConcluded(c, Next(c, s, step))
  {
    hide OnePlace, Ordered, Waiting, InFlight, WithinBudget, ConcludedAt;
    hide Put, Displaced, Produced, Find, UpperBound, GivenUp, Reposted;
    var t := Next(c, s, step);
    forall event | event in t.log ensures ConcludedAt(c, t, event) {
      if event in s.log {
        ConcludedStays(c, s, step, event);
      } else {
        match step {
          case Post(_) =>
          case Turn(link, at) => TurnConcludes(c, s, link, at, event);
          case Confirm(reqId) => ConfirmConcludes(c, s, reqId);
          case Expire(now) => ExpireConcludes(c, s, now, event);
        }
      }
    }
  }

  lemma {:induction false} RunConcludes(c: Config, s: State, steps: seq<Step>)
    requires Inv(c, s) && AllConcluded(c, s)
    ensures AllConcluded(c, Run(c, s, steps))
    decreases |steps|
  {
    hide Inv, AllConcluded, Next;
    if steps != [] {
      StepKeeps(c, s, steps[0]);
      StepConcludes(c, s, steps[0]);
      RunConcludes(c, Next(c, s, steps[0]), steps[1..]);
    }
  }

  /** Over every run, how a request has ended says how often it has been sent. In particular one that has expired has
      been sent as often as it may be, no less. */
  lemma EveryEnding(c: Config, steps: seq<Step>, i: nat, ending: Ending)
    requires Finished(i, ending) in Run(c, EMPTY, steps).log
    ensures var s := Run(c, EMPTY, steps);
      i < |s.posted| && Concluded(c, s.posted[i], TimesSent(s.log, i), ending)
  {
    hide Run, Concluded, TimesSent;
    EmptyInv(c);
    RunConcludes(c, EMPTY, steps);
    var s := Run(c, EMPTY, steps);
    assert ConcludedAt(c, s, Finished(i, ending));
  }

  lemma {:induction false} RepostedInOrder(c: Config, m: seq<Entry>, i: nat, j: nat) returns (k: nat, l: nat)
    requires i < j < |m| && Retried(c, m[i].produce) && Retried(c, m[j].produce)
    ensures k < l < |Reposted(c, m)|
    ensures Reposted(c, m)[k] == m[i].produce.(count := m[i].produce.count + 1)
    ensures Reposted(c, m)[l] == m[j].produce.(count := m[j].produce.count + 1)
    decreases |m|
  {
    hide Retried;
    var rest := m[1..];
    var first := if Retried(c, m[0].produce) then 1 else 0;
    assert forall x :: 0 < x < |m| ==> m[x] == rest[x - 1];
    if i == 0 {
      var n := RepostedSomewhere(c, rest, j - 1);
      k, l := 0, n + 1;
    } else {
      k, l := RepostedInOrder(c, rest, i - 1, j - 1);
      k, l := k + first, l + first;
    }
  }

  /** Requests that expire together go back to the queue behind what waits there, in the order of their expiry, each
      with one more transmission counted. */
  lemma ExpiredGoBack(c: Config, s: State, now: nat, i: nat, j: nat) returns (k: nat, l: nat)
    requires c.enableConfirm && Ordered(s.requests) && i < j < |s.requests| && s.requests[j].expire <= now
    requires var p := s.requests[i].produce; p.message.msgType != "keep_alive" && p.count < c.retransmissions
    requires var p := s.requests[j].produce; p.message.msgType != "keep_alive" && p.count < c.retransmissions
    ensures var t := Expiring(c, s, now); var p, q := s.requests[i].produce, s.requests[j].produce;
      && t.queue[..|s.queue|] == s.queue && |s.queue| <= k < l < |t.queue|
      && t.queue[k] == p.(count := p.count + 1) && t.queue[l] == q.(count := q.count + 1)
  {
    hide Reposted, GivenUp, UpperBound;
    var n := UpperBound(s.requests, now);
    assert n < |s.requests| ==> s.requests[n].expire > now;
    k, l := RepostedInOrder(c, s.requests[..n], i, j);
    k, l := k + |s.queue|, l + |s.queue|;
  }

  lemma {:induction false} RepostedSomewhere(c: Config, m: seq<Entry>, j: nat) returns (l: nat)
    requires j < |m| && Retried(c, m[j].produce)
    ensures l < |Reposted(c, m)| && Reposted(c, m)[l] == m[j].produce.(count := m[j].produce.count + 1)
    decreases |m|
  {
    hide Retried;
    if j == 0 {
      l := 0;
    } else {
      assert m[j] == m[1..][j - 1];
      l := RepostedSomewhere(c, m[1..], j - 1);
      l := l + if Retried(c, m[0].produce) then 1 else 0;
    }
  }

  // ---------------------------------------------------------------------------
  // Colliding expiry times
  // ---------------------------------------------------------------------------

  lemma {:induction false} DisplacedIff(m: seq<Entry>, key: nat)
    requires Ordered(m)
    ensures Displaced(m, key) != [] <==> exists e :: e in m && e.expire == key
  {
    if m != [] {
      DisplacedIff(m[1..], key);
      assert forall x :: x in m <==> x == m[0] || x in m[1..];
      assert forall x :: x in m[1..] ==> m[0].expire < x.expire;
    }
  }

  /** A request is orphaned exactly when another one is sent that expires at the same microsecond. */
  lemma OrphanedIff(c: Config, s: State, link: Link, at: nat)
    requires Ordered(s.requests)
    ensures Turning(c, s, link, at).orphans != s.orphans
       <==> (s.queue != [] && link.Sending? && Tracked(c, s.queue[0].message)
             && exists e :: e in s.requests && e.expire == at + c.timeout * TIME_SECOND)
  {
    hide Put, Displaced, Tracked, Produced;
    DisplacedIff(s.requests, at + c.timeout * TIME_SECOND);
  }

  /** No two turns of the queue fall into the same microsecond. */
  predicate Ticking(steps: seq<Step>, last: int) {
    steps != [] ==>
      if steps[0].Turn? then last < steps[0].at && Ticking(steps[1..], steps[0].at) else Ticking(steps[1..], last)
  }

  lemma {:induction false} NoOrphans(c: Config, s: State, steps: seq<Step>, last: int)
    requires Inv(c, s) && Ticking(steps, last) && s.orphans == []
    requires forall e :: e in s.requests ==> e.expire <= last + c.timeout * TIME_SECOND
    ensures Run(c, s, steps).orphans == []
    decreases |steps|
  {
    hide OnePlace, InFlight, Waiting, WithinBudget, Put, Displaced, Find, UpperBound, GivenUp, Reposted;
    hide Produced, Posting;
    if steps != [] {
      var t := Next(c, s, steps[0]);
      StepKeeps(c, s, steps[0]);
      match steps[0] {
        case Turn(link, at) =>
          OrphanedIff(c, s, link, at);
          if s.queue != [] {
            PutOrdered(s.requests, Entry(at + c.timeout * TIME_SECOND, s.queue[0]));
          }
          NoOrphans(c, t, steps[1..], at);
        case Post(message) =>
          PostingKeepsMap(s, message);
          NoOrphans(c, t, steps[1..], last);
        case Confirm(_) => NoOrphans(c, t, steps[1..], last);
        case Expire(_) => NoOrphans(c, t, steps[1..], last);
      }
    }
  }

  lemma PostingKeepsMap(s: State, message: Message)
    ensures Posting(s, message).requests == s.requests && Posting(s, message).orphans == s.orphans
  {
  }

  /** Over every run in which no two turns coincide, no request is orphaned. */
  lemma EveryRunKeepsAll(c: Config, steps: seq<Step>)
    requires Ticking(steps, -1)
    ensures Run(c, EMPTY, steps).orphans == []
  {
    EmptyInv(c);
    NoOrphans(c, EMPTY, steps, -1);
  }

  // ---------------------------------------------------------------------------
  // Retransmissions keep their distance
  // ---------------------------------------------------------------------------

  /** Every transmission of a request lies at least a gap before a time. */
  predicate SentBefore(log: seq<Event>, serial: nat, gap: nat, time: nat) {
    forall k :: 0 <= k < |log| && log[k].Sent? && log[k].serial == serial ==> log[k].at + gap <= time
  }

  /** Transmissions of the same request are at least a gap apart. */
  predicate Spaced(log: seq<Event>, gap: nat) {
    forall j, k :: 0 <= j < k < |log| && log[j].Sent? && log[k].Sent? && log[j].serial == log[k].serial ==>
      log[j].at + gap <= log[k].at
  }

  ghost predicate Timed(c: Config, s: State, clock: nat) {
    var gap := c.timeout * TIME_SECOND;
    && (forall p :: p in s.queue ==> SentBefore(s.log, p.serial, gap, clock))
    && (forall e :: e in s.requests ==> SentBefore(s.log, e.produce.serial, gap, e.expire))
    && Spaced(s.log, gap)
  }

  function After(step: Step, clock: nat): nat {
    match step
    case Turn(_, at) => at
    case Expire(now) => now
    case _ => clock
  }

  /** The clock of a run does not go back. */
  predicate Clocked(steps: seq<Step>, clock: nat) {
    steps != [] ==> clock <= After(steps[0], clock) && Clocked(steps[1..], After(steps[0], clock))
  }

  lemma EndingsKeepTimes(log: seq<Event>, more: seq<Event>, gap: nat)
    requires forall k :: 0 <= k < |more| ==> more[k].Finished?
    ensures Spaced(log, gap) ==> Spaced(log + more, gap)
    ensures forall i, t :: SentBefore(log, i, gap, t) ==> SentBefore(log + more, i, gap, t)
  {
  }

  lemma SendingKeepsTimes(log: seq<Event>, serial: nat, gap: nat, at: nat)
    requires Spaced(log, gap) && SentBefore(log, serial, gap, at)
    ensures Spaced(log + [Sent(serial, at)], gap)
    ensures SentBefore(log + [Sent(serial, at)], serial, gap, at + gap)
    ensures forall i, t :: i != serial && SentBefore(log, i, gap, t) ==> SentBefore(log + [Sent(serial, at)], i, gap, t)
  {
  }

  lemma {:induction false} GivenUpFinished(c: Config, m: seq<Entry>)
    ensures forall k :: 0 <= k < |GivenUp(c, m)| ==> GivenUp(c, m)[k].Finished?
  {
    if m != [] {
      GivenUpFinished(c, m[1..]);
    }
  }

  lemma TurnTimed(c: Config, s: State, link: Link, at: nat, clock: nat)
    requires OnePlace(s) && Ordered(s.requests) && Timed(c, s, clock) && clock <= at
    ensures Timed(c, Turning(c, s, link, at), at)
  {
    hide OnePlace, Put, Displaced, Tracked, SentBefore, Spaced;
    var gap, t := c.timeout * TIME_SECOND, Turning(c, s, link, at);
    Later(s.log, gap, clock, at);
    if s.queue != [] {
      Alone(s);
      var p := s.queue[0];
      assert SentBefore(s.log, p.serial, gap, at);
      PutOrdered(s.requests, Entry(at + gap, p));
      if link.Sending? {
        var sent := s.log + [Sent(p.serial, at)];
        SendingKeepsTimes(s.log, p.serial, gap, at);
        EndingsKeepTimes(sent, [Finished(p.serial, Untracked)], gap);
        assert t.log == sent || t.log == sent + [Finished(p.serial, Untracked)];
      } else {
        EndingsKeepTimes(s.log, [Finished(p.serial, Unsent)], gap);
      }
    }
  }

  lemma Later(log: seq<Event>, gap: nat, clock: nat, time: nat)
    requires clock <= time
    ensures forall i :: SentBefore(log, i, gap, clock) ==> SentBefore(log, i, gap, time)
  {
  }

  lemma ExpireTimed(c: Config, s: State, now: nat, clock: nat)
    requires Timed(c, s, clock) && clock <= now
    ensures Timed(c, Expiring(c, s, now), now)
  {
    hide SentBefore, Spaced, UpperBound, GivenUp, Reposted;
    var gap, n := c.timeout * TIME_SECOND, UpperBound(s.requests, now);
    Later(s.log, gap, clock, now);
    if c.enableConfirm {
      var gone := s.requests[..n];
      GivenUpFinished(c, gone);
      EndingsKeepTimes(s.log, GivenUp(c, gone), gap);
      RepostedFrom(c, gone);
      forall p | p in Reposted(c, gone) ensures SentBefore(s.log, p.serial, gap, now) {
        var e :| e in gone && Retried(c, e.produce) && p == e.produce.(count := e.produce.count + 1);
        var k :| 0 <= k < n && gone[k] == e;
        assert e.expire <= now && e in s.requests;
        Later(s.log, gap, e.expire, now);
      }
    }
  }

  lemma ConfirmTimed(c: Config, s: State, reqId: string, clock: nat)
    requires Timed(c, s, clock)
    ensures Timed(c, Confirming(c, s, reqId), clock)
  {
    hide SentBefore, Spaced, Find;
    var n := Find(s.requests, reqId);
    if n < |s.requests| {
      EndingsKeepTimes(s.log, [Finished(s.requests[n].produce.serial, Confirmed)], c.timeout * TIME_SECOND);
    }
  }

  lemma {:induction false} NeverSentBefore(log: seq<Event>, serial: nat, gap: nat, time: nat)
    requires TimesSent(log, serial) == 0
    ensures SentBefore(log, serial, gap, time)
  {
    if log != [] {
      NeverSentBefore(log[1..], serial, gap, time);
      assert forall k :: 0 < k < |log| ==> log[k] == log[1..][k - 1];
    }
  }

  lemma StepTimed(c: Config, s: State, step: Step, clock: nat)
    requires Inv(c, s) && Timed(c, s, clock) && clock <= After(step, clock)
    ensures Timed(c, Next(c, s, step), After(step, clock))
  {
    hide OnePlace, Ordered, Waiting, InFlight, SentBefore, Spaced, TimesSent, Turning, Confirming, Expiring;
    match step {
      case Post(message) => NeverSentBefore(s.log, |s.posted|, c.timeout * TIME_SECOND, clock);
      case Turn(link, at) => TurnTimed(c, s, link, at, clock);
      case Confirm(reqId) => ConfirmTimed(c, s, reqId, clock);
      case Expire(now) => ExpireTimed(c, s, now, clock);
    }
  }

  /** In every run whose clock does not go back, transmissions of a request are at least the timeout apart. */
  lemma {:induction false} RetransmissionsSpaced(c: Config, s: State, steps: seq<Step>, clock: nat)
    requires Inv(c, s) && Timed(c, s, clock) && Clocked(steps, clock)
    ensures Spaced(Run(c, s, steps).log, c.timeout * TIME_SECOND)
    decreases |steps|
  {
    hide Inv, Next, Spaced, SentBefore, After;
    if steps != [] {
      StepKeeps(c, s, steps[0]);
      StepTimed(c, s, steps[0], clock);
      RetransmissionsSpaced(c, Next(c, s, steps[0]), steps[1..], After(steps[0], clock));
    }
  }

  lemma EveryRunSpaced(c: Config, steps: seq<Step>)
    requires Clocked(steps, 0)
    ensures Spaced(Run(c, EMPTY, steps).log, c.timeout * 1_000_000)
  {
    EmptyInv(c);
    RetransmissionsSpaced(c, EMPTY, steps, 0);
  }

  // ---------------------------------------------------------------------------
  // As written, the queue also deletes what it tracked
  // ---------------------------------------------------------------------------

  lemma {:induction false} PutFrom(m: seq<Entry>, e: Entry)
    ensures forall x :: x in Put(m, e) ==> x == e || x in m
  {
    if m != [] && e.expire > m[0].expire {
      PutFrom(m[1..], e);
    }
  }

  lemma {:induction false} PutHas(m: seq<Entry>, e: Entry)
    ensures e in Put(m, e)
  {
    if m != [] && e.expire > m[0].expire {
      PutHas(m[1..], e);
    }
  }

  /** Whether the map refers to the object with this serial number. */
  predicate Refers(m: seq<Entry>, serial: nat) {
    exists e :: e in m && e.produce.serial == serial
  }

  /** OnProduce always returns true, so that the queue deletes every request it hands over; the map is left with
      a reference to the deleted request exactly when the request was sent and is tracked. */
  lemma DanglingIff(c: Config, s: State, link: Link, at: nat)
    requires OnePlace(s) && Ordered(s.requests) && s.queue != []
    ensures Refers(Turning(c, s, link, at).requests, s.queue[0].serial)
       <==> (link.Sending? && Tracked(c, s.queue[0].message))
  {
    hide OnePlace, Put, Displaced, Produced, Tracked;
    Alone(s);
    PutHas(s.requests, Entry(at + c.timeout * TIME_SECOND, s.queue[0]));
  }

  /** The requests in the map that a step looks at: a confirm at all up to the one it finds, an expiry at those that
      have expired. */
  function Touched(c: Config, s: State, step: Step): seq<Entry> {
    if !c.enableConfirm then []
    else match step
      case Confirm(reqId) =>
        var n := Find(s.requests, reqId);
        if n < |s.requests| then s.requests[..n + 1] else s.requests
      case Expire(now) => s.requests[..UpperBound(s.requests, now)]
      case _ => []
  }

  /** Which steps look at nothing: a confirm if the map is empty, an expiry if nothing in the map has expired, and all
      others; and every step while confirms are off. */
  lemma TouchedNothingIff(c: Config, s: State, step: Step)
    requires Ordered(s.requests)
    ensures Touched(c, s, step) == [] <==>
      || !c.enableConfirm || step.Post? || step.Turn?
      || (step.Confirm? && s.requests == [])
      || (step.Expire? && forall e :: e in s.requests ==> e.expire > step.now)
  {
    hide Find, UpperBound;
    if step.Expire? && s.requests != [] {
      var n := UpperBound(s.requests, step.now);
      assert n == 0 ==> forall i :: 0 < i < |s.requests| ==> s.requests[0].expire < s.requests[i].expire;
      assert n > 0 ==> s.requests[0] in s.requests && s.requests[0].expire <= step.now;
    }
  }

  /** The request that the queue deletes in a step of the code as written. */
  function Popped(s: State, step: Step): set<nat> {
    if step.Turn? && s.queue != [] then {s.queue[0].serial} else {}
  }

  /** A run of the code as written goes on until a step looks at a request that has been deleted. */
  datatype Outcome = Alive(state: State, deleted: set<nat>) | UseAfterDelete

  ghost function Written(c: Config, s: State, deleted: set<nat>, steps: seq<Step>): Outcome
    decreases |steps|
  {
    if steps == [] then Alive(s, deleted)
    else if exists e :: e in Touched(c, s, steps[0]) && e.produce.serial in deleted then UseAfterDelete
    else Written(c, Next(c, s, steps[0]), deleted + Popped(s, steps[0]), steps[1..])
  }

  /** No confirm meets a request in the map, and no expiry an expired one. */
  predicate Calm(c: Config, s: State, steps: seq<Step>)
    decreases |steps|
  {
    steps == [] || (Touched(c, s, steps[0]) == [] && Calm(c, Next(c, s, steps[0]), steps[1..]))
  }

  ghost predicate AllDeleted(s: State, deleted: set<nat>) {
    forall e :: e in s.requests ==> e.produce.serial in deleted
  }

  lemma StepDeletes(c: Config, s: State, step: Step, deleted: set<nat>)
    requires AllDeleted(s, deleted)
    ensures AllDeleted(Next(c, s, step), deleted + Popped(s, step))
  {
    hide Put, Displaced, Find, UpperBound, GivenUp, Reposted, Produced;
    if step.Turn? && s.queue != [] {
      PutFrom(s.requests, Entry(step.at + c.timeout * TIME_SECOND, s.queue[0]));
    }
  }

  lemma TouchedDeleted(c: Config, s: State, step: Step, deleted: set<nat>)
    requires AllDeleted(s, deleted)
    ensures Touched(c, s, step) != [] <==> exists e :: e in Touched(c, s, step) && e.produce.serial in deleted
  {
    hide Find, UpperBound;
    var touched := Touched(c, s, step);
    assert forall e :: e in touched ==> e in s.requests;
    if touched != [] {
      assert touched[0] in touched;
    }
  }

  /** As written, a run is free of uses of deleted requests if and only if no confirm meets a request in the map and no
      expiry an expired one; until then it does what the intended protocol does, and everything in the map has been
      deleted. */
  lemma {:induction false} WrittenIff(c: Config, s: State, deleted: set<nat>, steps: seq<Step>)
    requires AllDeleted(s, deleted)
    ensures Written(c, s, deleted, steps).Alive? <==> Calm(c, s, steps)
    ensures var r := Written(c, s, deleted, steps);
            r.Alive? ==> r.state == Run(c, s, steps) && AllDeleted(r.state, r.deleted)
    decreases |steps|
  {
    hide AllDeleted, Touched, Popped, Next;
    if steps != [] {
      TouchedDeleted(c, s, steps[0], deleted);
      StepDeletes(c, s, steps[0], deleted);
      WrittenIff(c, Next(c, s, steps[0]), deleted + Popped(s, steps[0]), steps[1..]);
    }
  }

  /** The gateway never enables confirms, and then every run is free of such uses. */
  lemma {:induction false} CalmWithoutConfirms(c: Config, s: State, steps: seq<Step>)
    requires !c.enableConfirm
    ensures Calm(c, s, steps)
    decreases |steps|
  {
    hide Next;
    if steps != [] {
      CalmWithoutConfirms(c, Next(c, s, steps[0]), steps[1..]);
    }
  }

  /** With confirms on, the first answered request already is such a use: it is posted, sent, deleted by the queue, and
      then found in the map. */
  lemma AnswerUsesDeleted(c: Config, message: Message, at: nat)
    requires Tracked(c, message)
    ensures Written(c, EMPTY, {}, [Post(message), Turn(Sending, at), Confirm(message.msgId)]) == UseAfterDelete
  {
    var steps := [Post(message), Turn(Sending, at), Confirm(message.msgId)];
    var p := Produce(0, message, 0);
    var waiting := Posting(EMPTY, message);
    assert waiting.queue == [p];
    var sent := Turning(c, waiting, Sending, at);
    assert sent.requests == [Entry(at + c.timeout * TIME_SECOND, p)];
    assert p.serial in Popped(waiting, steps[1]);
    assert sent.requests[0] in Touched(c, sent, steps[2]);
    assert Written(c, sent, {p.serial}, steps[2..]) == UseAfterDelete;
    assert Written(c, waiting, {}, steps[1..]) == UseAfterDelete by {
      assert steps[1..][1..] == steps[2..];
      assert {} + Popped(waiting, steps[1]) == {p.serial};
    }
    assert {} + Popped(EMPTY, steps[0]) == {};
  }

  // ---------------------------------------------------------------------------
  // The linker
  // ---------------------------------------------------------------------------

  lemma {:induction false} RepostedAppend(c: Config, m: seq<Entry>, e: Entry)
    ensures Reposted(c, m + [e]) == Reposted(c, m) + Reposted(c, [e])
  {
    if m == [] {
      assert m + [e] == [e];
    } else {
      assert (m + [e])[1..] == m[1..] + [e];
      RepostedAppend(c, m[1..], e);
    }
  }

  lemma {:induction false} GivenUpAppend(c: Config, m: seq<Entry>, e: Entry)
    ensures GivenUp(c, m + [e]) == GivenUp(c, m) + GivenUp(c, [e])
  {
    if m == [] {
      assert m + [e] == [e];
    } else {
      assert (m + [e])[1..] == m[1..] + [e];
      GivenUpAppend(c, m[1..], e);
    }
  }

  lemma ExpiredNext(c: Config, m: seq<Entry>, i: nat)
    requires i < |m|
    ensures Reposted(c, m[..i + 1]) == Reposted(c, m[..i]) + Reposted(c, [m[i]])
    ensures GivenUp(c, m[..i + 1]) == GivenUp(c, m[..i]) + GivenUp(c, [m[i]])
  {
    hide Reposted, GivenUp;
    assert m[..i + 1] == m[..i] + [m[i]];
    RepostedAppend(c, m[..i], m[i]);
    GivenUpAppend(c, m[..i], m[i]);
  }

  class ServerLinker {
    const config: Config
    var queue: seq<Produce>
    var requestMap: seq<Entry>
    var made: nat
    ghost var orphans: seq<Produce>
    ghost var posted: seq<Message>
    ghost var log: seq<Event>
    /** The requests that the queue has deleted. */
    ghost var deleted: set<nat>

    ghost function Snapshot(): State
      reads this
    {
      State(queue, requestMap, orphans, posted, log)
    }

    ghost predicate Valid()
      reads this
    {
      made == |posted| && Inv(config, Snapshot()) && AllDeleted(Snapshot(), deleted)
    }

    constructor (enableConfirm: bool)
      ensures Valid() && Snapshot() == EMPTY && deleted == {}
      ensures config == Config(enableConfirm, 5, 5)
    {
      this.config := Config(enableConfirm, REQUEST_TIMEOUT_SEC, RETRANSMISSION_COUNT_MAX);
      queue, requestMap, made, orphans, posted, log, deleted := [], [], 0, [], [], [], {};
      new;
      EmptyInv(config);
    }

    method Send(message: Message) returns (ok: bool)
      requires Valid()
      modifies this
      ensures Valid() && ok && Snapshot() == Posting(old(Snapshot()), message) && deleted == old(deleted)
    {
      hide Inv;
      PostKeeps(config, Snapshot(), message);
      queue := queue + [Produce(made, message, 0)];
      made := made + 1;
      posted := posted + [message];
      ok := true;
    }

    /** A reply from the server, with the id of the request it answers. */
    method ConfirmRequest(reqId: string) returns (ok: bool, reqType: string)
      requires Valid()
      modifies this
      ensures Valid() && Snapshot() == Confirming(config, old(Snapshot()), reqId) && deleted == old(deleted)
      ensures ok <==> !config.enableConfirm || exists e :: e in old(requestMap) && e.produce.message.msgId == reqId
      ensures ok && config.enableConfirm ==>
        var n := Find(old(requestMap), reqId);
        n < |old(requestMap)| && reqType == old(requestMap)[n].produce.message.msgType
    {
      hide Inv, Find;
      ok, reqType := false, "";
      ConfirmKeeps(config, Snapshot(), reqId);
      if config.enableConfirm {
        for i := 0 to |requestMap|
          invariant Snapshot() == old(Snapshot())
          invariant forall k :: 0 <= k < i ==> requestMap[k].produce.message.msgId != reqId
        {
          var message := requestMap[i].produce.message;
          if message.msgId == reqId {
            assert Find(requestMap, reqId) == i;
            reqType := message.msgType;
            log := log + [Finished(requestMap[i].produce.serial, Confirmed)];
            requestMap := requestMap[..i] + requestMap[i + 1..];
            return true, reqType;
          }
        }
      } else {
        ok := true;
      }
    }

    /** A message goes out. The result is true in every case, also when the map has taken over the request. */
    method OnProduce(p: Produce, link: Link, at: nat) returns (ok: bool, ghost tracked: bool)
      modifies this
      ensures made == old(made) && posted == old(posted) && deleted == old(deleted)
      ensures Snapshot() == Producing(config, old(Snapshot()), p, link, at)
      ensures ok && (tracked <==> link.Sending? && Tracked(config, p.message))
    {
      hide Put, Displaced;
      ok, tracked := true, false;
      if link != Missing {
        if link == Failing {
          log := log + [Finished(p.serial, Unsent)];
          return;
        }
        log := log + [Sent(p.serial, at)];
        if config.enableConfirm {
          if p.message.msgType != CONFIRM {
            var expireTime := at + config.timeout * TIME_SECOND;
            orphans := orphans + Displaced(requestMap, expireTime);
            requestMap := Put(requestMap, Entry(expireTime, p));
            tracked := true;
          }
        }
        if !tracked {
          log := log + [Finished(p.serial, Untracked)];
        }
      } else {
        log := log + [Finished(p.serial, Unsent)];
      }
    }

    /** One message is taken from the queue, and deleted. */
    method ProcessQueue(link: Link, at: nat)
      requires Valid()
      modifies this
      ensures Valid() && Snapshot() == Turning(config, old(Snapshot()), link, at)
      ensures deleted == old(deleted) + Popped(old(Snapshot()), Turn(link, at))
    {
      hide Inv, Producing, AllDeleted;
      TurnKeeps(config, Snapshot(), link, at);
      StepDeletes(config, Snapshot(), Turn(link, at), deleted);
      if |queue| != 0 {
        var p := queue[0];
        queue := queue[1..];
        var ok, tracked := OnProduce(p, link, at);
        if ok {
          deleted := deleted + {p.serial};
        }
      }
    }

    method ExpireRequests(now: nat)
      requires Valid()
      modifies this
      ensures Valid() && Snapshot() == Expiring(config, old(Snapshot()), now) && deleted == old(deleted)
    {
      hide Inv, UpperBound, AllDeleted;
      ExpireKeeps(config, Snapshot(), now);
      StepDeletes(config, Snapshot(), Expire(now), deleted);
      assert deleted + Popped(Snapshot(), Expire(now)) == deleted;
      if config.enableConfirm {
        var n := UpperBound(requestMap, now);
        ghost var m := requestMap;
        for i := 0 to n
          invariant requestMap == m && orphans == old(orphans) && posted == old(posted)
          invariant made == old(made) && deleted == old(deleted)
          invariant queue == old(queue) + Reposted(config, m[..i])
          invariant log == old(log) + GivenUp(config, m[..i])
        {
          var p := requestMap[i].produce;
          ExpiredNext(config, m, i);
          if p.message.msgType != KEEP_ALIVE {
            if p.count < config.retransmissions {
              queue := queue + [p.(count := p.count + 1)];
            } else {
              log := log + [Finished(p.serial, Expired)];
            }
          } else {
            log := log + [Finished(p.serial, Expired)];
          }
        }
        requestMap := requestMap[n..];
      }
    }

    /** One turn of the linker's loop. */
    method Process(now: nat, link: Link, at: nat)
      requires Valid()
      modifies this
      ensures Valid() && Snapshot() == Turning(config, Expiring(config, old(Snapshot()), now), link, at)
    {
      hide Inv, Turning, Expiring;
      ExpireRequests(now);
      ProcessQueue(link, at);
    }
  }
}
