/**
The samples of an endpoint: a bounded store ordered by time, queries on it, and
the reports that carry every sample to the server.
*/
module Reports {
  import opened Multimap

  const TIME_SECOND := 1_000_000
  const REPORT_LIMIT := 100
  const STORE_LIMIT := 7 * 24 * 60 * 10

  // ---------------------------------------------------------------------------
  // The bounded store
  // ---------------------------------------------------------------------------

  /** The entries after adding one: a full map first loses its earliest entry. */
  function AddTo(limit: nat, s: seq<Entry>, e: Entry): (r: seq<Entry>)
    requires limit >= 1
  {
    Insert(if |s| >= limit then s[1..] else s, e)
  }

  /** The entries after adding many, one after the other. */
  function AddAll(limit: nat, s: seq<Entry>, added: seq<Entry>): seq<Entry>
    requires limit >= 1
    decreases |added|
  {
    if added == [] then s
    else AddTo(limit, AddAll(limit, s, added[..|added| - 1]), added[|added| - 1])
  }

  lemma AddAllNext(limit: nat, s: seq<Entry>, added: seq<Entry>, k: nat)
    requires limit >= 1 && k < |added|
    ensures AddAll(limit, s, added[..k + 1]) == AddTo(limit, AddAll(limit, s, added[..k]), added[k])
  {
    hide AddTo;
    assert added[..k + 1][..k] == added[..k];
  }

  /** Whatever is added, the map stays sorted and within its limit. */
  lemma {:induction false} AddAllBounded(limit: nat, s: seq<Entry>, added: seq<Entry>)
    requires limit >= 1 && Sorted(s) && |s| <= limit
    ensures var r := AddAll(limit, s, added);
            && Sorted(r) && |r| == (if |s| + |added| <= limit then |s| + |added| else limit)
    decreases |added|
  {
    if added != [] {
      var before := AddAll(limit, s, added[..|added| - 1]);
      AddAllBounded(limit, s, added[..|added| - 1]);
      if |before| >= limit {
        SortedTail(before);
      }
      InsertKeeps(if |before| >= limit then before[1..] else before, added[|added| - 1]);
    }
  }

  /** With times that never go back, the map holds exactly the newest entries, in order. */
  lemma {:induction false} AddAllNewest(limit: nat, added: seq<Entry>)
    requires limit >= 1 && Sorted(added)
    ensures AddAll(limit, [], added) == Newest(added, limit)
    decreases |added|
  {
    if added != [] {
      var n := |added| - 1;
      AddAllNewest(limit, added[..n]);
      NewestStep(limit, added);
    }
  }

  lemma NewestStep(limit: nat, added: seq<Entry>)
    requires limit >= 1 && Sorted(added) && added != []
    ensures AddTo(limit, Newest(added[..|added| - 1], limit), added[|added| - 1]) == Newest(added, limit)
  {
    hide Insert, Newest;
    var n := |added| - 1;
    var k := if n < limit then 0 else |added| - limit;
    KeptIs(limit, added, k);
    SliceSorted(added, k, n);
    InsertLast(added[k..n], added[n]);
    SliceNext(added, k, n);
    NewestIs(limit, added, k);
  }

  /** What a full map keeps of the newest entries when one more is added. */
  lemma KeptIs(limit: nat, added: seq<Entry>, k: nat)
    requires limit >= 1 && added != [] && k == if |added| - 1 < limit then 0 else |added| - limit
    ensures var n := |added| - 1; var before := Newest(added[..n], limit);
      (if |before| >= limit then before[1..] else before) == added[k..n]
  {
  }

  lemma NewestIs(limit: nat, added: seq<Entry>, k: nat)
    requires added != [] && k == if |added| - 1 < limit then 0 else |added| - limit
    ensures Newest(added, limit) == added[k..]
  {
  }

  lemma SliceSorted(s: seq<Entry>, i: nat, j: nat)
    requires i <= j <= |s| && Sorted(s)
    ensures Sorted(s[i..j])
    ensures i < j < |s| ==> s[i..j][|s[i..j]| - 1].time <= s[j].time
  {
  }

  lemma SliceNext<T>(s: seq<T>, i: nat, j: nat)
    requires i <= j && j == |s| - 1
    ensures s[i..j] + [s[j]] == s[i..]
  {
  }

  /** Added newest first, as a count query does, no more than the limit: nothing is lost. */
  lemma {:induction false} AddAllKeeps(limit: nat, added: seq<Entry>)
    requires limit >= 1 && |added| <= limit
    ensures multiset(AddAll(limit, [], added)) == multiset(added)
    decreases |added|
  {
    hide Insert;
    if added != [] {
      var n := |added| - 1;
      AddAllKeeps(limit, added[..n]);
      AddAllBounded(limit, [], added[..n]);
      InsertKeeps(AddAll(limit, [], added[..n]), added[n]);
      assert added == added[..n] + [added[n]];
    }
  }

  function Reversed(s: seq<Entry>): (r: seq<Entry>)
    ensures |r| == |s| && forall i :: 0 <= i < |s| ==> r[i] == s[|s| - 1 - i]
  {
    if s == [] then [] else Reversed(s[1..]) + [s[0]]
  }

  lemma {:induction false} ReversedMultiset(s: seq<Entry>)
    ensures multiset(Reversed(s)) == multiset(s)
  {
    if s != [] {
      ReversedMultiset(s[1..]);
      assert s == [s[0]] + s[1..];
    }
  }

  /** A count query into a fresh map of that limit yields the newest entries, each as often as stored. */
  lemma CountQueryIsNewest(count: nat, stored: seq<Entry>)
    requires count >= 1
    ensures multiset(AddAll(count, [], Reversed(Newest(stored, count)))) == multiset(Newest(stored, count))
  {
    hide Newest, AddAll, Reversed;
    AddAllKeeps(count, Reversed(Newest(stored, count)));
    ReversedMultiset(Newest(stored, count));
  }

  /** The newest entries, newest first. */
  lemma OrderIs(s: seq<Entry>, count: nat)
    ensures var order := Reversed(Newest(s, count));
      |order| == (if |s| <= count then |s| else count) && forall k :: 0 <= k < |order| ==> order[k] == s[|s| - 1 - k]
  {
  }

  lemma AddAllNone(limit: nat, s: seq<Entry>, added: seq<Entry>)
    requires limit >= 1
    ensures AddAll(limit, s, added[..0]) == s
  {
  }

  class ValueMap {
    const limit: nat
    var entries: seq<Entry>

    ghost predicate Valid()
      reads this
    {
      limit >= 1 && Sorted(entries) && |entries| <= limit
    }

    constructor (limit: nat)
      requires limit >= 1
      ensures Valid() && this.limit == limit && entries == []
    {
      this.limit := limit;
      entries := [];
    }

    method Add(time: int, value: string) returns (ok: bool)
      requires Valid()
      modifies this
      ensures Valid() && ok && entries == AddTo(limit, old(entries), Entry(time, value))
    {
      ghost var kept := entries;
      if |entries| >= limit {
        entries := entries[1..];
        SortedTail(kept);
      }
      InsertKeeps(entries, Entry(time, value));
      var n := UpperBound(entries, time);
      entries := entries[..n] + [Entry(time, value)] + entries[n..];
      ok := true;
    }
  }

  // ---------------------------------------------------------------------------
  // Reports over whole runs
  // ---------------------------------------------------------------------------

  /** A sample is stored, or a report is made at some second. */
  datatype Event = Sampled(entry: Entry) | Reported(now: int)

  /** The store, the second of the last report, and everything reported so far. */
  datatype State = State(store: seq<Entry>, last: int, reports: seq<seq<Entry>>)

  function Step(s: State, e: Event): State {
    match e
    case Sampled(entry) => s.(store := AddTo(STORE_LIMIT, s.store, entry))
    case Reported(now) =>
      s.(last := now, reports := s.reports + [Newest(Window(s.store, s.last, now), REPORT_LIMIT)])
  }

  function Run(start: int, events: seq<Event>): State
    decreases |events|
  {
    if events == [] then State([], start, [])
    else Step(Run(start, events[..|events| - 1]), events[|events| - 1])
  }

  /** What the gateway relies on: the seconds of its reports do not go back. */
  predicate Allowed(s: State, e: Event) {
    e.Reported? ==> e.now >= s.last
  }

  predicate Regular(start: int, events: seq<Event>)
    decreases |events|
  {
    events == []
    || (Regular(start, events[..|events| - 1]) && Allowed(Run(start, events[..|events| - 1]), events[|events| - 1]))
  }

  /** How often an entry has been sampled. */
  function Samples(events: seq<Event>, e: Entry): nat
    decreases |events|
  {
    if events == [] then 0
    else Samples(events[..|events| - 1], e) + (if events[|events| - 1] == Sampled(e) then 1 else 0)
  }

  /** How many of those samples were stamped before the second of the last report when they came in. */
  function Late(start: int, events: seq<Event>, e: Entry): nat
    decreases |events|
  {
    if events == [] then 0
    else
      var before := events[..|events| - 1];
      Late(start, before, e) + LateNow(Run(start, before), events[|events| - 1], e)
  }

  function LateNow(s: State, event: Event, e: Entry): nat {
    if event == Sampled(e) && e.time < s.last then 1 else 0
  }

  /** How often an entry was removed from a full store before the report after its second. */
  function Evicted(start: int, events: seq<Event>, e: Entry): nat
    decreases |events|
  {
    if events == [] then 0
    else
      var before := events[..|events| - 1];
      Evicted(start, before, e) + EvictedNow(Run(start, before), events[|events| - 1], e)
  }

  function EvictedNow(s: State, event: Event, e: Entry): nat {
    if event.Sampled? && |s.store| >= STORE_LIMIT && s.store[0] == e && e.time >= s.last then 1 else 0
  }

  /** How many were stored already when a report of their own second was made. */
  function Early(start: int, events: seq<Event>, e: Entry): nat
    decreases |events|
  {
    if events == [] then 0
    else
      var before := events[..|events| - 1];
      Early(start, before, e) + EarlyNow(Run(start, before), events[|events| - 1], e)
  }

  function EarlyNow(s: State, event: Event, e: Entry): nat {
    if event == Reported(e.time) then multiset(s.store)[e] else 0
  }

  /** How often an entry appears in the reports. */
  function Appearances(reports: seq<seq<Entry>>, e: Entry): nat
    decreases |reports|
  {
    if reports == [] then 0
    else Appearances(reports[..|reports| - 1], e) + multiset(reports[|reports| - 1])[e]
  }

  /** How often an entry was in the period of a report, but before the newest that the report admits. */
  function Dropped(start: int, events: seq<Event>, e: Entry): nat
    decreases |events|
  {
    if events == [] then 0
    else
      var before := events[..|events| - 1];
      Dropped(start, before, e) + DroppedNow(Run(start, before), events[|events| - 1], e)
  }

  function DroppedNow(s: State, event: Event, e: Entry): nat {
    match event
    case Sampled(_) => 0
    case Reported(now) => multiset(Surplus(Window(s.store, s.last, now), REPORT_LIMIT))[e]
  }

  lemma AppearancesOneMore(reports: seq<seq<Entry>>, report: seq<Entry>, e: Entry)
    ensures Appearances(reports + [report], e) == Appearances(reports, e) + multiset(report)[e]
  {
    assert (reports + [report])[..|reports|] == reports;
  }

  /** How often an entry has been sampled, sampled late, evicted, stored at a report of its own second, and dropped. */
  datatype Account = Account(samples: nat, late: nat, evicted: nat, early: nat, dropped: nat)

  function AccountOf(start: int, events: seq<Event>, e: Entry): Account {
    Account(Samples(events, e), Late(start, events, e), Evicted(start, events, e), Early(start, events, e),
            Dropped(start, events, e))
  }

  /** What is known of entry e when the last report was made at second last. */
  ghost predicate Accounted(s: State, a: Account, e: Entry) {
    && Sorted(s.store) && |s.store| <= STORE_LIMIT
    && (e.time >= s.last ==> multiset(s.store)[e] + a.evicted == a.samples && a.late == 0)
    && (e.time > s.last ==> a.early == 0)
    && Appearances(s.reports, e) + a.dropped + (if e.time < s.last then a.evicted + a.late else 0)
       == (if e.time < s.last then a.samples else 0) + a.early
  }

  /** One more event in an account. */
  function Entered(s: State, a: Account, event: Event, e: Entry): Account {
    Account(a.samples + (if event == Sampled(e) then 1 else 0), a.late + LateNow(s, event, e),
            a.evicted + EvictedNow(s, event, e), a.early + EarlyNow(s, event, e), a.dropped + DroppedNow(s, event, e))
  }

  lemma AccountNext(start: int, events: seq<Event>, e: Entry)
    requires events != []
    ensures var before, event := events[..|events| - 1], events[|events| - 1];
      && AccountOf(start, events, e) == Entered(Run(start, before), AccountOf(start, before, e), event, e)
      && Run(start, events) == Step(Run(start, before), event)
  {
    hide Step, LateNow, EvictedNow, EarlyNow, DroppedNow;
  }

  lemma AccountNothing(start: int, e: Entry)
    ensures Accounted(Run(start, []), AccountOf(start, [], e), e)
  {
  }

  lemma AccountedSampled(s: State, a: Account, e: Entry, added: Entry)
    requires Accounted(s, a, e)
    ensures Accounted(Step(s, Sampled(added)), Entered(s, a, Sampled(added), e), e)
  {
    hide Insert, Appearances;
    var kept := if |s.store| >= STORE_LIMIT then s.store[1..] else s.store;
    if |s.store| >= STORE_LIMIT {
      SortedTail(s.store);
      assert s.store == [s.store[0]] + kept;
      assert multiset(s.store) == multiset{s.store[0]} + multiset(kept);
    }
    InsertKeeps(kept, added);
  }

  lemma AccountedReported(s: State, a: Account, e: Entry, now: int)
    requires Accounted(s, a, e) && now >= s.last
    ensures Accounted(Step(s, Reported(now)), Entered(s, a, Reported(now), e), e)
  {
    hide Appearances, Window, Newest, Surplus;
    var window := Window(s.store, s.last, now);
    WindowIsPeriod(s.store, s.last, now, e);
    SurplusAndNewest(window, REPORT_LIMIT, e);
    AppearancesOneMore(s.reports, Newest(window, REPORT_LIMIT), e);
  }

  lemma SurplusAndNewest(s: seq<Entry>, n: nat, e: Entry)
    ensures multiset(Surplus(s, n))[e] + multiset(Newest(s, n))[e] == multiset(s)[e]
  {
    hide Surplus, Newest;
    assert Surplus(s, n) + Newest(s, n) == s;
  }

  /** Every sample is reported, unless it is dropped by a report, comes in late, or is evicted: of an entry older than
      the last report second, each sample has appeared once or met one of these fates, and once more for each time it
      was stored already when a report of its own second was made. */
  lemma {:induction false} ReportedOnceOrTwice(start: int, events: seq<Event>, e: Entry)
    requires Regular(start, events)
    ensures var s, a := Run(start, events), AccountOf(start, events, e);
      && (e.time < s.last ==> Appearances(s.reports, e) + a.dropped + a.late + a.evicted == a.samples + a.early)
      && (e.time >= s.last ==> Appearances(s.reports, e) + a.dropped == a.early && a.late == 0)
      && (e.time >= s.last ==> multiset(s.store)[e] + a.evicted == a.samples)
    ensures Accounted(Run(start, events), AccountOf(start, events, e), e)
    decreases |events|
  {
    hide Step, Entered, Appearances, AccountOf, Run;
    if events == [] {
      AccountNothing(start, e);
    } else {
      var before, event := events[..|events| - 1], events[|events| - 1];
      AccountNext(start, events, e);
      ReportedOnceOrTwice(start, before, e);
      match event {
        case Sampled(added) => AccountedSampled(Run(start, before), AccountOf(start, before, e), e, added);
        case Reported(now) => AccountedReported(Run(start, before), AccountOf(start, before, e), e, now);
      }
    }
  }

  /** A report drops nothing if its period holds no more entries than it admits; otherwise all but the newest. */
  lemma DroppedIff(s: State, now: int)
    ensures (forall e :: DroppedNow(s, Reported(now), e) == 0) <==> |Window(s.store, s.last, now)| <= 100
  {
    hide Window;
    var w := Window(s.store, s.last, now);
    var surplus := Surplus(w, REPORT_LIMIT);
    if |w| > REPORT_LIMIT {
      assert surplus[0] in multiset(surplus);
      assert DroppedNow(s, Reported(now), surplus[0]) > 0;
    }
  }

  /** What has not been reported by a later second never will be: a dropped entry appears in no report any more,
      unless it is stamped with the second of the report that dropped it. */
  lemma {:induction false} NeverReportedLater(start: int, events: seq<Event>, more: seq<Event>, e: Entry)
    requires Regular(start, events + more) && e.time < Run(start, events).last
    ensures Appearances(Run(start, events + more).reports, e) == Appearances(Run(start, events).reports, e)
    ensures Run(start, events).last <= Run(start, events + more).last
    decreases |more|
  {
    hide Appearances, Window, Newest, AddTo, LowerBound;
    if more == [] {
      assert events + more == events;
    } else {
      var all, last := events + more, more[|more| - 1];
      assert all[..|all| - 1] == events + more[..|more| - 1];
      NeverReportedLater(start, events, more[..|more| - 1], e);
      if last.Reported? {
        var s := Run(start, all[..|all| - 1]);
        var window := Window(s.store, s.last, last.now);
        ReportedOnceOrTwice(start, all[..|all| - 1], e);
        WindowIsPeriod(s.store, s.last, last.now, e);
        SurplusAndNewest(window, REPORT_LIMIT, e);
        AppearancesOneMore(s.reports, Newest(window, REPORT_LIMIT), e);
      }
    }
  }

  /** Only an entry stamped with a report second can appear twice. */
  lemma {:induction false} TwiceOnlyAtReportSecond(start: int, events: seq<Event>, e: Entry)
    ensures Early(start, events, e) > 0 ==> Reported(e.time) in events
    decreases |events|
  {
    hide Run;
    if events != [] && events[|events| - 1] != Reported(e.time) {
      TwiceOnlyAtReportSecond(start, events[..|events| - 1], e);
    }
  }

  // ---------------------------------------------------------------------------
  // The endpoint
  // ---------------------------------------------------------------------------

  class Endpoint {
    const valueMap: ValueMap
    /** The date of the last report, in microseconds. */
    var lastReport: nat

    ghost predicate Valid()
      reads this, valueMap
    {
      valueMap.Valid() && valueMap.limit == STORE_LIMIT
    }

    /** The endpoint as a state of the runs above, which do not keep the reports. */
    ghost predicate Is(s: State)
      reads this, valueMap
    {
      valueMap.entries == s.store && lastReport / TIME_SECOND == s.last
    }

    constructor (now: nat)
      ensures Valid() && fresh(valueMap) && Is(Run(now / TIME_SECOND, [])) && valueMap.limit == 100_800
    {
      valueMap := new ValueMap(STORE_LIMIT);
      lastReport := now;
    }

    method Add(time: int, value: string, ghost s: State) returns (ok: bool)
      requires Valid() && Is(s)
      modifies valueMap
      ensures Valid() && ok && Is(Step(s, Sampled(Entry(time, value))))
    {
      ok := valueMap.Add(time, value);
    }

    /** Adds the entries of a period, both ends included, to a map. */
    method GetDataForPeriod(begin: int, end: int, target: ValueMap)
      requires Valid() && target.Valid() && target != valueMap && begin <= end
      modifies target
      ensures target.Valid()
      ensures target.entries == AddAll(target.limit, old(target.entries), Window(valueMap.entries, begin, end))
    {
      hide LowerBound, UpperBound, AddTo;
      var low, upper := LowerBound(valueMap.entries, begin), UpperBound(valueMap.entries, end);
      BoundsOrdered(valueMap.entries, begin, end);
      ghost var window, start := Window(valueMap.entries, begin, end), target.entries;
      var i := low;
      while i < upper
        invariant low <= i <= upper
        invariant target.Valid() && Valid() && valueMap.entries == old(valueMap.entries)
        invariant target.entries == AddAll(target.limit, start, window[..i - low])
      {
        AddAllNext(target.limit, start, window, i - low);
        var ok := target.Add(valueMap.entries[i].time, valueMap.entries[i].text);
        i := i + 1;
      }
      assert window[..upper - low] == window;
    }

    /** Adds the newest entries to a map, the newest first. */
    method GetData(count: nat, target: ValueMap) returns (size: nat)
      requires Valid() && target.Valid() && target != valueMap
      modifies target
      ensures target.Valid() && size == |target.entries|
      ensures target.entries == AddAll(target.limit, old(target.entries), Reversed(Newest(valueMap.entries, count)))
    {
      hide AddTo, Reversed, Newest;
      ghost var order, start := Reversed(Newest(valueMap.entries, count)), target.entries;
      OrderIs(valueMap.entries, count);
      AddAllNone(target.limit, start, order);
      var i, left := |valueMap.entries|, count;
      while left > 0 && i > 0
        invariant 0 <= i <= |valueMap.entries| && count - left == |valueMap.entries| - i && left >= 0
        invariant target.Valid() && Valid() && valueMap.entries == old(valueMap.entries)
        invariant target.entries == AddAll(target.limit, start, order[..count - left])
        decreases left
      {
        AddAllNext(target.limit, start, order, count - left);
        i := i - 1;
        var ok := target.Add(valueMap.entries[i].time, valueMap.entries[i].text);
        left := left - 1;
      }
      assert order[..count - left] == order;
      size := |target.entries|;
    }

    /** What has not been reported; the last report date moves to now. */
    method GetUnreportedValueMap(now: nat, target: ValueMap)
      requires Valid() && target.Valid() && target != valueMap && lastReport <= now
      modifies target, this`lastReport
      ensures Valid() && target.Valid() && lastReport == now
      ensures target.entries
        == AddAll(target.limit, old(target.entries),
                  Window(valueMap.entries, old(lastReport) / TIME_SECOND, now / TIME_SECOND))
    {
      GetDataForPeriod(lastReport / TIME_SECOND, now / TIME_SECOND, target);
      lastReport := now;
    }

    /** Only forward, and only by whole seconds. */
    method SetLastReportTime(time: nat)
      modifies this`lastReport
      ensures lastReport == if old(lastReport) / TIME_SECOND < time / TIME_SECOND then time else old(lastReport)
    {
      if lastReport / TIME_SECOND < time / TIME_SECOND {
        lastReport := time;
      }
    }
  }

  /** `ServerLinker::ReportEPData`: one report of an endpoint, as a step of the runs above. */
  method ReportEPData(ep: Endpoint, now: nat, ghost s: State) returns (report: seq<Entry>)
    requires ep.Valid() && ep.Is(s) && Sorted(s.store) && ep.lastReport <= now
    modifies ep`lastReport
    ensures ep.Valid() && ep.Is(Step(s, Reported(now / TIME_SECOND)))
    ensures Step(s, Reported(now / TIME_SECOND)).reports == s.reports + [report]
    ensures report == Newest(Window(s.store, s.last, now / 1_000_000), 100)
  {
    hide Window, AddAll, Newest, LowerBound, UpperBound;
    var valueMap := new ValueMap(REPORT_LIMIT);
    ep.GetUnreportedValueMap(now, valueMap);
    ghost var window := Window(s.store, s.last, now / TIME_SECOND);
    WindowSorted(s.store, s.last, now / TIME_SECOND);
    AddAllNewest(REPORT_LIMIT, window);
    NewestMember(window, REPORT_LIMIT);
    report := valueMap.entries;
    if |report| == 0 {
      return;
    }
    var lastTime := LatestTime(report, now / TIME_SECOND);
    ep.SetLastReportTime(lastTime * TIME_SECOND);
  }

  lemma NewestMember(s: seq<Entry>, n: nat)
    ensures forall e :: e in Newest(s, n) ==> e in s
  {
  }

  /** The latest time in a report, which is not in the future. */
  method LatestTime(report: seq<Entry>, now: nat) returns (lastTime: nat)
    requires forall e :: e in report ==> e.time <= now
    ensures lastTime <= now
    ensures forall e :: e in report ==> e.time <= lastTime
  {
    lastTime := 0;
    for i := 0 to |report|
      invariant lastTime <= now
      invariant forall k :: 0 <= k < i ==> report[k].time <= lastTime
    {
      if lastTime < report[i].time {
        lastTime := report[i].time;
      }
    }
  }
}
