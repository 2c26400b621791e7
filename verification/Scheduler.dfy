/**
The sampling scheduler: every device keeps a multimap from due times to the ids
of its passive endpoints, serves one due entry per call, and puts it back at
its next period after now.
*/
module Scheduler {
  import opened Arithmetic
  import opened Multimap

  // ---------------------------------------------------------------------------
  // Times
  // ---------------------------------------------------------------------------

  /** The next due time of an entry served now: missed periods are skipped. */
  function NextTime(time: int, now: int, interval: nat): int
    requires interval > 0
  {
    time + ((now - time) / interval + 1) * interval
  }

  lemma NextTimeIs(time: int, now: int, interval: nat)
    requires interval > 0 && time <= now
    ensures NextTime(time, now, interval) == now - (now - time) % interval + interval
  {
    var q, r := (now - time) / interval, (now - time) % interval;
    assert now - time == q * interval + r;
    assert (q + 1) * interval == q * interval + interval;
  }

  lemma NextTimeSteps(time: int, now: int, interval: nat)
    requires interval > 0 && time <= now
    ensures (NextTime(time, now, interval) - time) % interval == 0
  {
    MultipleMod((now - time) / interval + 1, interval);
  }

  /** No other time on the grid lies between now and the next time. */
  lemma NextTimeFirst(time: int, now: int, interval: nat, k: int)
    requires interval > 0 && time <= now < time + k * interval
    ensures NextTime(time, now, interval) <= time + k * interval
  {
    var q, r := (now - time) / interval, (now - time) % interval;
    assert now - time == q * interval + r;
    if k <= q {
      MulMonotone(k, q, interval);
    } else {
      MulMonotone(q + 1, k, interval);
    }
  }

  /** Strictly after now, at most one interval later, on the grid of the old time, and the first such time. */
  lemma NextTimeOnGrid(time: int, now: int, interval: nat)
    requires interval > 0 && time <= now
    ensures now < NextTime(time, now, interval) <= now + interval
    ensures (NextTime(time, now, interval) - time) % interval == 0
    ensures forall k :: now < time + k * interval ==> NextTime(time, now, interval) <= time + k * interval
  {
    hide NextTime;
    NextTimeIs(time, now, interval);
    NextTimeSteps(time, now, interval);
    forall k | now < time + k * interval ensures NextTime(time, now, interval) <= time + k * interval {
      NextTimeFirst(time, now, interval, k);
    }
  }

  // ---------------------------------------------------------------------------
  // Schedules
  // ---------------------------------------------------------------------------

  /** How often an endpoint is scheduled. */
  function Count(s: seq<Entry>, id: string): nat {
    if s == [] then 0 else (if s[0].text == id then 1 else 0) + Count(s[1..], id)
  }

  lemma {:induction false} CountAppend(s: seq<Entry>, t: seq<Entry>, id: string)
    ensures Count(s + t, id) == Count(s, id) + Count(t, id)
  {
    if s == [] {
      assert s + t == t;
    } else {
      assert (s + t)[1..] == s[1..] + t;
      CountAppend(s[1..], t, id);
    }
  }

  lemma CountInsert(s: seq<Entry>, e: Entry, id: string)
    ensures Count(Insert(s, e), id) == Count(s, id) + (if e.text == id then 1 else 0)
  {
    hide UpperBound;
    var n := UpperBound(s, e.time);
    assert s == s[..n] + s[n..];
    CountAppend(s[..n], s[n..], id);
    CountAppend(s[..n] + [e], s[n..], id);
    CountAppend(s[..n], [e], id);
    assert [e][1..] == [];
  }

  /** The schedule without its first entry for an endpoint. */
  function RemoveFirst(s: seq<Entry>, id: string): seq<Entry> {
    if s == [] then [] else if s[0].text == id then s[1..] else [s[0]] + RemoveFirst(s[1..], id)
  }

  lemma {:induction false} RemoveFirstCount(s: seq<Entry>, id: string, other: string)
    ensures Count(RemoveFirst(s, id), other)
         == if id == other && Count(s, id) > 0 then Count(s, id) - 1 else Count(s, other)
    ensures forall e :: e in RemoveFirst(s, id) ==> e in s
  {
    if s != [] && s[0].text != id {
      RemoveFirstCount(s[1..], id, other);
    }
  }

  lemma {:induction false} RemoveFirstSorted(s: seq<Entry>, id: string)
    requires Sorted(s)
    ensures Sorted(RemoveFirst(s, id))
  {
    if s != [] && s[0].text != id {
      SortedTail(s);
      RemoveFirstSorted(s[1..], id);
      RemoveFirstCount(s[1..], id, id);
      assert forall e :: e in s[1..] ==> s[0].time <= e.time;
      SortedCons(s[0], RemoveFirst(s[1..], id));
    }
  }

  lemma SortedCons(e: Entry, s: seq<Entry>)
    requires Sorted(s) && forall x :: x in s ==> e.time <= x.time
    ensures Sorted([e] + s)
  {
    var r := [e] + s;
    assert forall i :: 0 < i < |r| ==> r[i] == s[i - 1] && r[i] in s;
  }

  lemma {:induction false} RemoveFirstSplit(s: seq<Entry>, id: string, i: nat)
    requires i <= |s| && forall k :: 0 <= k < i ==> s[k].text != id
    ensures i < |s| && s[i].text == id ==> RemoveFirst(s, id) == s[..i] + s[i + 1..]
    ensures i == |s| ==> RemoveFirst(s, id) == s
  {
    if s != [] && i > 0 {
      RemoveFirstSplit(s[1..], id, i - 1);
      if i < |s| {
        assert s[1..][i - 1] == s[i];
        assert [s[0]] + (s[1..][..i - 1] + s[1..][i..]) == s[..i] + s[i + 1..];
      }
    }
  }

  /** How many entries are due. */
  function Due(s: seq<Entry>, now: int): nat {
    UpperBound(s, now)
  }

  /** An entry put back after now is not due. */
  lemma {:induction false} DueInsertLater(s: seq<Entry>, e: Entry, now: int)
    requires Sorted(s) && e.time > now
    ensures Due(Insert(s, e), now) == Due(s, now)
  {
    hide UpperBound;
    var r, n, m, d := Insert(s, e), UpperBound(s, e.time), UpperBound(Insert(s, e), now), UpperBound(s, now);
    assert n < |s| ==> s[n].time > e.time;
    assert d <= n;
    assert forall i :: 0 <= i < d ==> r[i] == s[i];
    assert d < |s| && d < n ==> r[d] == s[d];
    assert d == n ==> r[d] == e;
    assert d < |r| && r[d].time > now;
    assert m < |r| ==> r[m].time > now;
  }

  lemma DueTail(s: seq<Entry>, now: int)
    requires Sorted(s) && s != []
    ensures Due(s, now) == if s[0].time <= now then 1 + Due(s[1..], now) else 0
  {
  }

  /** The first entry that is due when the loop looks at it, at the reading of the clock with its index; or the
      number of entries. */
  function FirstDue(s: seq<Entry>, clock: seq<int>): (n: nat)
    requires |clock| == |s|
    ensures n <= |s|
    ensures forall i :: 0 <= i < n ==> clock[i] < s[i].time
    ensures n < |s| ==> s[n].time <= clock[n]
  {
    if s == [] || s[0].time <= clock[0] then 0 else 1 + FirstDue(s[1..], clock[1..])
  }

  function Without(s: seq<Entry>, n: nat): seq<Entry>
    requires n < |s|
  {
    s[..n] + s[n + 1..]
  }

  lemma WithoutSorted(s: seq<Entry>, n: nat)
    requires n < |s| && Sorted(s)
    ensures Sorted(Without(s, n))
  {
  }

  lemma WithoutCount(s: seq<Entry>, n: nat)
    requires n < |s|
    ensures forall id :: Count(Without(s, n), id) == Count(s, id) - (if s[n].text == id then 1 else 0)
  {
    var rest := [s[n]] + s[n + 1..];
    assert s == s[..n] + rest && rest[1..] == s[n + 1..];
    forall id ensures Count(Without(s, n), id) == Count(s, id) - (if s[n].text == id then 1 else 0) {
      CountAppend(s[..n], rest, id);
      CountAppend(s[..n], s[n + 1..], id);
    }
  }

  /** While the clock stands still, the loop takes the earliest entry, if it is due, and one due entry less is left. */
  lemma FrozenClock(s: seq<Entry>, clock: seq<int>, now: int)
    requires Sorted(s) && |clock| == |s| && forall c :: c in clock ==> c == now
    ensures FirstDue(s, clock) == if Due(s, now) > 0 then 0 else |s|
    ensures Due(s, now) > 0 ==> s != [] && Due(Without(s, 0), now) == Due(s, now) - 1
  {
    hide FirstDue;
    if s != [] {
      DueTail(s, now);
      assert forall i :: 0 <= i < |s| ==> clock[i] in clock && s[0].time <= s[i].time;
      assert Without(s, 0) == s[1..];
    }
  }

  // ---------------------------------------------------------------------------
  // Devices
  // ---------------------------------------------------------------------------

  class Device {
    const id: string
    /** The attached endpoints. */
    var epids: seq<string>
    var schedule: seq<Entry>

    ghost predicate Valid()
      reads this
    {
      Sorted(schedule) && forall i, j :: 0 <= i < j < |epids| ==> epids[i] != epids[j]
    }

    constructor (id: string)
      ensures Valid() && this.id == id && epids == [] && schedule == []
    {
      this.id := id;
      epids := [];
      schedule := [];
    }

    method IsAttached(epid: string) returns (attached: bool)
      ensures attached <==> epid in epids
    {
      for i := 0 to |epids|
        invariant epid !in epids[..i]
      {
        if epids[i] == epid {
          return true;
        }
      }
      return false;
    }

    method Attach(epid: string) returns (ok: bool)
      requires Valid()
      modifies this`epids
      ensures Valid() && ok && epids == if epid in old(epids) then old(epids) else old(epids) + [epid]
    {
      var attached := IsAttached(epid);
      if !attached {
        epids := epids + [epid];
      }
      return true;
    }

    method Detach(epid: string) returns (ok: bool)
      requires Valid()
      modifies this`epids
      ensures Valid() && (ok <==> epid in old(epids)) && epid !in epids
      ensures forall other :: other != epid ==> (other in epids <==> other in old(epids))
    {
      for i := 0 to |epids|
        invariant epids == old(epids) && epid !in epids[..i]
      {
        if epids[i] == epid {
          epids := epids[..i] + epids[i + 1..];
          assert forall other :: other in old(epids) && other != epid ==> other in epids by {
            assert old(epids) == old(epids)[..i] + [epid] + old(epids)[i + 1..];
          }
          return true;
        }
      }
      return false;
    }

    /** The loop over the schedule: takes out the first entry that is due when it is looked at. */
    method TakeDue(clock: seq<int>) returns (found: bool, entry: Entry)
      requires Valid() && |clock| == |schedule|
      modifies this`schedule
      ensures Valid()
      ensures var s := old(schedule); var n := FirstDue(s, clock);
        && (found <==> n < |s|)
        && (found ==> entry == s[n] && schedule == Without(s, n))
        && (!found ==> schedule == s)
    {
      found, entry := false, Entry(0, "");
      for i := 0 to |schedule|
        invariant schedule == old(schedule)
        invariant forall k :: 0 <= k < i ==> clock[k] < schedule[k].time
      {
        if clock[i] >= schedule[i].time {
          assert FirstDue(schedule, clock) == i;
          WithoutSorted(schedule, i);
          found, entry := true, schedule[i];
          schedule := schedule[..i] + schedule[i + 1..];
          return;
        }
      }
    }

    method AddSchedule(epid: string, time: int) returns (ok: bool)
      requires Valid()
      modifies this`epids, this`schedule
      ensures Valid() && ok && schedule == Insert(old(schedule), Entry(time, epid)) && epid in epids
      ensures forall other :: other in old(epids) ==> other in epids
    {
      var attached := IsAttached(epid);
      if !attached {
        attached := Attach(epid);
      }
      InsertKeeps(schedule, Entry(time, epid));
      schedule := Insert(schedule, Entry(time, epid));
      return true;
    }

    method RemoveSchedule(epid: string) returns (removed: bool)
      requires Valid()
      modifies this`schedule
      ensures Valid() && schedule == RemoveFirst(old(schedule), epid)
      ensures removed <==> Count(old(schedule), epid) > 0
    {
      RemoveFirstSorted(schedule, epid);
      for i := 0 to |schedule|
        invariant schedule == old(schedule)
        invariant forall k :: 0 <= k < i ==> schedule[k].text != epid
      {
        if schedule[i].text == epid {
          RemoveFirstSplit(schedule, epid, i);
          CountPositive(schedule, epid, i);
          schedule := schedule[..i] + schedule[i + 1..];
          return true;
        }
      }
      RemoveFirstSplit(schedule, epid, |schedule|);
      CountZero(schedule, epid);
      return false;
    }
  }

  lemma {:induction false} CountPositive(s: seq<Entry>, id: string, i: nat)
    requires i < |s| && s[i].text == id
    ensures Count(s, id) > 0
    decreases i
  {
    if i > 0 {
      CountPositive(s[1..], id, i - 1);
    }
  }

  lemma {:induction false} CountZero(s: seq<Entry>, id: string)
    requires forall i :: 0 <= i < |s| ==> s[i].text != id
    ensures Count(s, id) == 0
  {
    if s != [] {
      CountZero(s[1..], id);
    }
  }

  // ---------------------------------------------------------------------------
  // Endpoints and the manager
  // ---------------------------------------------------------------------------

  class Endpoint {
    const id: string
    const parentId: string
    const active: bool
    const enable: bool
    const interval: nat
    var stop: bool
    /** Entries left behind by an endpoint of the same id that was destroyed: per device, how many there are. */
    ghost var stale: map<string, nat>

    constructor (id: string, parentId: string, active: bool, enable: bool, interval: nat, ghost stale: map<string, nat>)
      ensures this.id == id && this.parentId == parentId && this.active == active && this.enable == enable
      ensures this.interval == interval && this.stale == stale && stop
    {
      this.id := id;
      this.parentId := parentId;
      this.active := active;
      this.enable := enable;
      this.interval := interval;
      this.stale := stale;
      stop := true;
    }

    /** Started in passive mode. */
    predicate Started()
      reads this
    {
      !active && !stop
    }
  }

  class ObjectManager {
    const devices: map<string, Device>
    var endpoints: map<string, Endpoint>

    /** Every endpoint is scheduled by its own device once if it is started, and besides that only as often
        as entries of its id were left behind before it was made. */
    ghost predicate Balanced(e: Endpoint, d: Device)
      reads e, d`schedule
    {
      d.id in e.stale
      && Count(d.schedule, e.id) == e.stale[d.id] + (if e.Started() && e.parentId == d.id then 1 else 0)
    }

    ghost predicate Valid()
      reads this, devices.Values, endpoints.Values
    {
      && (forall k :: k in devices ==> devices[k].id == k && devices[k].Valid())
      && (forall k :: k in endpoints ==> endpoints[k].id == k && endpoints[k].interval > 0)
      && (forall k, j :: k in endpoints && j in devices ==> Balanced(endpoints[k], devices[j]))
    }

    constructor (devices: map<string, Device>)
      requires forall k :: k in devices ==> devices[k].id == k && devices[k].Valid()
      ensures Valid() && this.devices == devices && endpoints == map[]
    {
      this.devices := devices;
      endpoints := map[];
    }

    /** A new endpoint is attached to its device, if there is one. An id that is in use is refused before. */
    method CreateEndpoint(id: string, parentId: string, active: bool, enable: bool, interval: nat)
      requires Valid() && id !in endpoints && interval > 0
      modifies this`endpoints, set j | j in devices :: devices[j]
      ensures Valid() && id in endpoints && fresh(endpoints[id])
      ensures endpoints == old(endpoints)[id := endpoints[id]]
      ensures endpoints[id].stop && endpoints[id].parentId == parentId
      ensures parentId in devices ==> id in devices[parentId].epids
      ensures forall j: string :: j in devices ==> devices[j].schedule == old(devices[j].schedule)
      ensures forall j: string :: j in devices ==>
        j in endpoints[id].stale && endpoints[id].stale[j] == Count(devices[j].schedule, id)
    {
      hide Count, Device.Valid;
      ghost var stale := map j | j in devices :: Count(devices[j].schedule, id);
      AttachToDevice(id, parentId);
      var e := new Endpoint(id, parentId, active, enable, interval, stale);
      InsertEndpoint(e);
    }

    method AttachToDevice(id: string, parentId: string)
      requires Valid()
      modifies set j | j in devices :: devices[j]
      ensures Valid() && (parentId in devices ==> id in devices[parentId].epids)
      ensures forall j: string :: j in devices ==> devices[j].schedule == old(devices[j].schedule)
    {
      hide Count, Device.Valid;
      if parentId in devices {
        var attached := devices[parentId].Attach(id);
      }
    }

    method InsertEndpoint(e: Endpoint)
      requires Valid() && e.id !in endpoints && e.interval > 0
      requires forall j: string :: j in devices ==> Balanced(e, devices[j])
      modifies this`endpoints
      ensures Valid() && endpoints == old(endpoints)[e.id := e]
    {
      hide Balanced, Device.Valid;
      endpoints := endpoints[e.id := e];
    }

    /** The endpoint goes and is detached; its schedule entry stays behind. */
    method DestroyEndpoint(id: string) returns (ok: bool)
      requires Valid()
      modifies this`endpoints, set j | j in devices :: devices[j]
      ensures Valid() && (ok <==> id in old(endpoints)) && endpoints == old(endpoints) - {id}
      ensures ok && old(endpoints)[id].parentId in devices ==> id !in devices[old(endpoints)[id].parentId].epids
      ensures forall j :: j in devices ==> devices[j].schedule == old(devices[j].schedule)
    {
      hide Count, Device.Valid;
      if id !in endpoints {
        assert endpoints - {id} == endpoints;
        return false;
      }
      var e := endpoints[id];
      if e.parentId in devices {
        var detached := devices[e.parentId].Detach(id);
      }
      endpoints := endpoints - {id};
      return true;
    }

    method StartEndpoint(id: string, now: int) returns (ok: bool)
      requires Valid() && id in endpoints
      modifies endpoints[id], set j | j in devices :: devices[j]
      ensures Valid()
      ensures var e: Endpoint := endpoints[id];
        && e.stale == old(e.stale)
        && (ok <==> e.enable && (e.active || !old(e.stop) || e.parentId in devices))
        && (e.stop <==> !(!old(e.stop) || (e.enable && !e.active && e.parentId in devices)))
        && (forall j :: j in devices ==>
              devices[j].schedule ==
              if ok && !e.active && old(e.stop) && j == e.parentId
              then Insert(old(devices[j].schedule), Entry(now, id)) else old(devices[j].schedule))
    {
      hide Count, Insert, Device.Valid;
      var e := endpoints[id];
      if e.enable {
        if e.active {
          // The endpoint runs its own thread; no device schedules it.
        } else if e.stop {
          if e.parentId in devices {
            var device := devices[e.parentId];
            e.stop := false;
            CountInsertAll(device.schedule, Entry(now, id));
            var added := device.AddSchedule(id, now);
          } else {
            return false;
          }
        }
      } else {
        return false;
      }
      return true;
    }

    /** Stopping an endpoint that is not started takes away an entry left behind. */
    method Unschedule(e: Endpoint, device: Device)
      requires !e.active && e.parentId == device.id && device.Valid() && Balanced(e, device)
      modifies e, device`schedule
      ensures device.Valid() && Balanced(e, device) && e.stop
      ensures device.schedule == RemoveFirst(old(device.schedule), e.id)
      ensures e.stale.Keys == old(e.stale.Keys) && e.stale[device.id] <= old(e.stale[device.id])
      ensures forall j :: j in e.stale && j != device.id ==> e.stale[j] == old(e.stale[j])
      ensures forall other :: other != e.id ==> Count(device.schedule, other) == old(Count(device.schedule, other))
    {
      hide Count, RemoveFirst, Device.Valid;
      RemoveFirstCountAll(device.schedule, e.id);
      if e.stop && e.stale[e.parentId] > 0 {
        e.stale := e.stale[e.parentId := e.stale[e.parentId] - 1];
      }
      var removed := device.RemoveSchedule(e.id);
      e.stop := true;
    }

    method StopEndpoint(id: string) returns (ok: bool)
      requires Valid() && id in endpoints
      modifies endpoints[id], set j | j in devices :: devices[j]
      ensures Valid()
      ensures var e: Endpoint := endpoints[id];
        && (ok <==> e.active || e.parentId in devices)
        && (e.stop <==> old(e.stop) || (!e.active && e.parentId in devices))
        && (forall j :: j in devices ==>
              devices[j].schedule ==
              if !e.active && j == e.parentId
              then RemoveFirst(old(devices[j].schedule), id)
              else old(devices[j].schedule))
        && (forall j :: j in devices ==> j in e.stale && old(j in e.stale) && e.stale[j] <= old(e.stale[j]))
    {
      hide Count, RemoveFirst, Device.Valid;
      var e := endpoints[id];
      ok := true;
      if !e.active {
        if e.parentId in devices {
          Unschedule(e, devices[e.parentId]);
        } else {
          ok := false;
        }
      }
    }

    /** One turn of a device: the first entry that is due when it is looked at is served and, unless its endpoint is
        gone, put back. The clock is read for every entry, and once more, later, for the next time. */
    method Process(deviceId: string, clock: seq<int>, later: int) returns (served: string)
      requires Valid() && deviceId in devices && |clock| == |devices[deviceId].schedule|
      requires forall i, j :: 0 <= i <= j < |clock| ==> clock[i] <= clock[j] <= later
      modifies devices[deviceId]
      ensures Valid()
      ensures var s := old(devices[deviceId].schedule); var n := FirstDue(s, clock);
        if n == |s| then devices[deviceId].schedule == s && served == ""
        else
          && served == s[n].text
          && devices[deviceId].schedule ==
             if served in endpoints
             then Insert(Without(s, n), Entry(NextTime(s[n].time, later, endpoints[served].interval), served))
             else Without(s, n)
      ensures (forall c :: c in clock ==> c == later) ==>
        Due(devices[deviceId].schedule, later) ==
        if Due(old(devices[deviceId].schedule), later) > 0 then Due(old(devices[deviceId].schedule), later) - 1 else 0
    {
      hide Count, Insert, NextTime, Due, Without, FirstDue, Device.Valid;
      served := Serve(devices[deviceId], clock, later);
    }

    /** The same for a device, whatever is scheduled on others: no endpoint that exists is scheduled more or less
        often. */
    method Serve(device: Device, clock: seq<int>, later: int) returns (served: string)
      requires device.Valid() && |clock| == |device.schedule|
      requires forall k :: k in endpoints ==> endpoints[k].id == k && endpoints[k].interval > 0
      requires forall i, j :: 0 <= i <= j < |clock| ==> clock[i] <= clock[j] <= later
      modifies device`schedule, device`epids
      ensures device.Valid()
      ensures forall k :: k in endpoints ==> Count(device.schedule, k) == old(Count(device.schedule, k))
      ensures var s := old(device.schedule); var n := FirstDue(s, clock);
        if n == |s| then device.schedule == s && served == ""
        else
          && served == s[n].text
          && device.schedule ==
             if served in endpoints
             then Insert(Without(s, n), Entry(NextTime(s[n].time, later, endpoints[served].interval), served))
             else Without(s, n)
      ensures (forall c :: c in clock ==> c == later) ==>
        Due(device.schedule, later) ==
        if Due(old(device.schedule), later) > 0 then Due(old(device.schedule), later) - 1 else 0
    {
      hide Count, Insert, NextTime, Due, Sorted, Without, FirstDue;
      ghost var s, n := device.schedule, FirstDue(device.schedule, clock);
      if forall c :: c in clock ==> c == later {
        FrozenClock(s, clock, later);
      }
      var found, entry := device.TakeDue(clock);
      served := "";
      if found {
        WithoutCount(s, n);
        WithoutSorted(s, n);
        served := entry.text;
        if served in endpoints {
          var next := NextTime(entry.time, later, endpoints[served].interval);
          assert entry.time <= clock[n] <= later;
          NextTimeOnGrid(entry.time, later, endpoints[served].interval);
          CountInsertAll(device.schedule, Entry(next, served));
          DueInsertLater(device.schedule, Entry(next, served), later);
          var added := device.AddSchedule(served, next);
        }
      }
    }
  }

  lemma CountInsertAll(s: seq<Entry>, e: Entry)
    ensures forall id :: Count(Insert(s, e), id) == Count(s, id) + (if e.text == id then 1 else 0)
  {
    forall id ensures Count(Insert(s, e), id) == Count(s, id) + (if e.text == id then 1 else 0) {
      CountInsert(s, e, id);
    }
  }

  lemma RemoveFirstCountAll(s: seq<Entry>, id: string)
    ensures forall other ::
      Count(RemoveFirst(s, id), other)
      == if id == other && Count(s, id) > 0 then Count(s, id) - 1 else Count(s, other)
  {
    forall other ensures Count(RemoveFirst(s, id), other)
         == if id == other && Count(s, id) > 0 then Count(s, id) - 1 else Count(s, other) {
      RemoveFirstCount(s, id, other);
    }
  }
}
