/**
The rule engine: conditions that cache whether their last sample satisfied
them, rules that act when all their conditions hold, and the manager that
passes every new sample to the rules that mention its endpoint.

Samples are real numbers. The targets of actions are discrete actuators; a
target is writable when its device is present and carries out what is written.
*/
module Rules {

  import opened Wrappers

  // ---------------------------------------------------------------------------
  // Conditions on the latest samples
  // ---------------------------------------------------------------------------

  datatype Kind =
    | Over(value: real)
    | Under(value: real)
    | Match(value: real)
    | RangeOut(lower: real, upper: real)
    | RangeIn(lower: real, upper: real)
  {
    predicate Holds(sample: real) {
      match this
      case Over(value) => value < sample
      case Under(value) => value > sample
      case Match(value) => value == sample
      case RangeOut(lower, upper) => lower > sample || upper < sample
      case RangeIn(lower, upper) => lower < sample && sample < upper
    }
  }

  /** Of each sample exactly one of over, under and equal to a value holds, and of the value itself only the last. */
  lemma KindsExclude(v: real, x: real)
    ensures Over(v).Holds(x) <==> !Under(v).Holds(x) && !Match(v).Holds(x)
    ensures !(Under(v).Holds(x) && Match(v).Holds(x))
    ensures Match(v).Holds(x) <==> x == v
  {
  }

  /** What is over a value stays over it when it grows, and what is under it when it falls; 1 is over 0. */
  lemma KindsOrder(v: real, x: real, y: real)
    requires x <= y
    ensures Over(v).Holds(x) ==> Over(v).Holds(y)
    ensures Under(v).Holds(y) ==> Under(v).Holds(x)
    ensures Over(0.0).Holds(1.0) && Under(1.0).Holds(0.0)
  {
  }

  /** A range is what lies over its lower and under its upper bound; outside of it, with neither bound, is what lies
      under the lower or over the upper one. */
  lemma RangesAre(lower: real, upper: real, x: real)
    ensures RangeIn(lower, upper).Holds(x) <==> Over(lower).Holds(x) && Under(upper).Holds(x)
    ensures RangeOut(lower, upper).Holds(x) <==> Under(lower).Holds(x) || Over(upper).Holds(x)
    ensures lower <= upper ==>
      (!RangeIn(lower, upper).Holds(x) && !RangeOut(lower, upper).Holds(x)
       <==> Match(lower).Holds(x) || Match(upper).Holds(x))
  {
  }

  /** What a condition is about: an endpoint and a test on its samples. */
  datatype Spec = Spec(targetId: string, kind: Kind)

  datatype Sample = Sample(endpointId: string, value: real)

  /** The latest sample of an endpoint. */
  function Latest(samples: seq<Sample>, id: string): Option<real>
    decreases |samples|
  {
    if samples == [] then None
    else
      var last := samples[|samples| - 1];
      if last.endpointId == id then Some(last.value) else Latest(samples[..|samples| - 1], id)
  }

  /** The condition recomputed from scratch: false before any sample. */
  predicate On(spec: Spec, samples: seq<Sample>) {
    var latest := Latest(samples, spec.targetId);
    latest.Some? && spec.kind.Holds(latest.value)
  }

  predicate AllOn(specs: seq<Spec>, samples: seq<Sample>) {
    forall i :: 0 <= i < |specs| ==> On(specs[i], samples)
  }

  predicate Mentions(specs: seq<Spec>, id: string) {
    exists i :: 0 <= i < |specs| && specs[i].targetId == id
  }

  /** How often the conjunction has gone from false to true. */
  function RisingEdges(specs: seq<Spec>, samples: seq<Sample>): nat
    decreases |samples|
  {
    if samples == [] then 0
    else
      var before := samples[..|samples| - 1];
      RisingEdges(specs, before) + (if !AllOn(specs, before) && AllOn(specs, samples) then 1 else 0)
  }

  /** Before any sample of its endpoint a condition does not hold. */
  lemma {:induction false} NothingHolds(spec: Spec, samples: seq<Sample>)
    requires forall s :: s in samples ==> s.endpointId != spec.targetId
    ensures !On(spec, samples)
    decreases |samples|
  {
    if samples != [] {
      NothingHolds(spec, samples[..|samples| - 1]);
    }
  }

  lemma OneMore(spec: Spec, samples: seq<Sample>, s: Sample)
    ensures On(spec, samples + [s])
         == if spec.targetId == s.endpointId then spec.kind.Holds(s.value) else On(spec, samples)
  {
    assert (samples + [s])[..|samples|] == samples;
  }

  lemma EdgesOneMore(specs: seq<Spec>, samples: seq<Sample>, s: Sample)
    ensures RisingEdges(specs, samples + [s])
         == RisingEdges(specs, samples) + (if !AllOn(specs, samples) && AllOn(specs, samples + [s]) then 1 else 0)
  {
    assert (samples + [s])[..|samples|] == samples;
  }

  /** A sample of an endpoint that no condition mentions changes nothing. */
  lemma NotMentioned(specs: seq<Spec>, samples: seq<Sample>, s: Sample)
    requires !Mentions(specs, s.endpointId)
    ensures forall i :: 0 <= i < |specs| ==> On(specs[i], samples + [s]) == On(specs[i], samples)
    ensures AllOn(specs, samples + [s]) == AllOn(specs, samples)
    ensures RisingEdges(specs, samples + [s]) == RisingEdges(specs, samples)
  {
    forall i | 0 <= i < |specs| ensures On(specs[i], samples + [s]) == On(specs[i], samples) {
      OneMore(specs[i], samples, s);
    }
    EdgesOneMore(specs, samples, s);
  }

  // ---------------------------------------------------------------------------
  // Actions on actuators
  // ---------------------------------------------------------------------------

  datatype Action = Set(targetId: string, value: string)

  /** The texts a discrete actuator understands. */
  function Parse(text: string): Option<bool> {
    if text == "1" || text == "true" || text == "on" || text == "yes" then Some(true)
    else if text == "0" || text == "false" || text == "off" || text == "no" then Some(false)
    else None
  }

  function Show(value: bool): string {
    if value then "1" else "0"
  }

  /** The eight texts that are understood, and nothing else. */
  lemma TextsUnderstood(text: string)
    ensures Parse(text) == Some(true) <==> text in {"1", "true", "on", "yes"}
    ensures Parse(text) == Some(false) <==> text in {"0", "false", "off", "no"}
  {
    assert "1"[0] != "0"[0] && "on"[0] != "no"[0] && "yes"[0] != "off"[0];
  }

  /** What a target shows is "1" or "0", and would be understood as the value it has. */
  lemma ShownIsUnderstood(value: bool)
    ensures Show(value) == "1" || Show(value) == "0"
    ensures Parse(Show(value)) == Some(value)
    ensures Show(true) == "1"
  {
  }

  /** Setting succeeds if the text is understood and the value is there already or can be written. */
  predicate Accepts(values: map<string, bool>, writable: set<string>, a: Action)
    requires a.targetId in values
  {
    var v := Parse(a.value);
    v.Some? && (values[a.targetId] == v.value || a.targetId in writable)
  }

  /** The actuators after one action. */
  function Assign(values: map<string, bool>, writable: set<string>, a: Action): map<string, bool> {
    if a.targetId in values && Accepts(values, writable, a) then values[a.targetId := Parse(a.value).value] else values
  }

  function AssignAll(values: map<string, bool>, writable: set<string>, actions: seq<Action>): map<string, bool>
    decreases |actions|
  {
    if actions == [] then values
    else Assign(AssignAll(values, writable, actions[..|actions| - 1]), writable, actions[|actions| - 1])
  }

  /** The value of the last action on a target whose text is understood. */
  function LastFor(actions: seq<Action>, id: string): Option<bool>
    decreases |actions|
  {
    if actions == [] then None
    else
      var last := actions[|actions| - 1];
      if last.targetId == id && Parse(last.value).Some? then Parse(last.value)
      else LastFor(actions[..|actions| - 1], id)
  }

  /** Every writable target ends with the value of its last understood action, all others are as before. */
  lemma {:induction false} AssignAllIsLast(values: map<string, bool>, writable: set<string>, actions: seq<Action>)
    ensures var after := AssignAll(values, writable, actions);
            && after.Keys == values.Keys
            && forall id :: id in values ==>
                 after[id]
                 == if id in writable && LastFor(actions, id).Some? then LastFor(actions, id).value else values[id]
    decreases |actions|
  {
    if actions != [] {
      AssignAllIsLast(values, writable, actions[..|actions| - 1]);
    }
  }

  lemma AssignAllNone(values: map<string, bool>, writable: set<string>)
    ensures AssignAll(values, writable, []) == values
  {
  }

  lemma {:induction false} AssignAllAppend(values: map<string, bool>, writable: set<string>,
                                           s: seq<Action>, t: seq<Action>)
    ensures AssignAll(values, writable, s + t) == AssignAll(AssignAll(values, writable, s), writable, t)
    decreases |t|
  {
    if t == [] {
      assert s + t == s;
    } else {
      assert (s + t)[..|s + t| - 1] == s + t[..|t| - 1];
      AssignAllAppend(values, writable, s, t[..|t| - 1]);
    }
  }

  /** Enforcing what has just been set changes nothing, even if the actions contradict each other. */
  lemma AssignAllTwice(values: map<string, bool>, writable: set<string>, actions: seq<Action>)
    ensures AssignAll(AssignAll(values, writable, actions), writable, actions) == AssignAll(values, writable, actions)
  {
    AssignAllIsLast(values, writable, actions);
    AssignAllIsLast(AssignAll(values, writable, actions), writable, actions);
  }

  /** Whether a primary action reports that it was carried out. */
  predicate PrimaryReports(values: map<string, bool>, writable: set<string>, a: Action) {
    a.targetId in values && Accepts(values, writable, a)
  }

  /** Whether a post action reports that it had to set its target. */
  predicate PostReports(values: map<string, bool>, writable: set<string>, a: Action) {
    a.targetId in values && Show(values[a.targetId]) != a.value && Accepts(values, writable, a)
  }

  /** The targets for which a loop over the actions sends an event. */
  function Events(values: map<string, bool>, writable: set<string>, actions: seq<Action>, post: bool): seq<string>
    decreases |actions|
  {
    if actions == [] then []
    else
      var before, last := actions[..|actions| - 1], actions[|actions| - 1];
      var now := AssignAll(values, writable, before);
      Events(values, writable, before, post)
      + (if (if post then PostReports(now, writable, last) else PrimaryReports(now, writable, last))
         then [last.targetId]
         else [])
  }

  /** Running a list and then another sends the events of the first, and those of the second where the first ends. */
  lemma {:induction false} EventsAppend(values: map<string, bool>, writable: set<string>,
                                        s: seq<Action>, t: seq<Action>, post: bool)
    ensures Events(values, writable, s + t, post)
         == Events(values, writable, s, post) + Events(AssignAll(values, writable, s), writable, t, post)
    decreases |t|
  {
    hide PostReports, PrimaryReports, Assign;
    if t == [] {
      assert s + t == s;
    } else {
      var before := t[..|t| - 1];
      assert (s + t)[..|s + t| - 1] == s + before;
      EventsAppend(values, writable, s, before, post);
      AssignAllAppend(values, writable, s, before);
    }
  }

  /** Whether an action can take effect: its target is there, its text is understood, and the target has that value or
      can be written. */
  predicate Effective(values: map<string, bool>, writable: set<string>, a: Action) {
    && a.targetId in values
    && a.value in {"1", "true", "on", "yes", "0", "false", "off", "no"}
    && (a.targetId in writable || values[a.targetId] == (a.value in {"1", "true", "on", "yes"}))
  }

  /** The targets of the effective actions, in order. */
  function EffectiveTargets(values: map<string, bool>, writable: set<string>, actions: seq<Action>): seq<string> {
    if actions == [] then []
    else
      (if Effective(values, writable, actions[0]) then [actions[0].targetId] else [])
      + EffectiveTargets(values, writable, actions[1..])
  }

  lemma EffectiveIff(values: map<string, bool>, writable: set<string>, a: Action)
    ensures Effective(values, writable, a) <==> PrimaryReports(values, writable, a)
  {
  }

  /** What an action does to other actions on targets that cannot be written: nothing. */
  lemma EffectiveStays(values: map<string, bool>, writable: set<string>, done: Action, a: Action)
    ensures Effective(Assign(values, writable, done), writable, a) <==> Effective(values, writable, a)
  {
    hide Parse;
  }

  lemma {:induction false} TargetsStay(values: map<string, bool>, writable: set<string>, done: Action,
                                       actions: seq<Action>)
    ensures EffectiveTargets(Assign(values, writable, done), writable, actions)
         == EffectiveTargets(values, writable, actions)
  {
    hide Assign, Effective;
    if actions != [] {
      EffectiveStays(values, writable, done, actions[0]);
      TargetsStay(values, writable, done, actions[1..]);
    }
  }

  /** The event of a single action: in the primary loop if it can take effect, in the enforcing loop if besides its
      target does not show its very text. */
  lemma OneEvent(values: map<string, bool>, writable: set<string>, a: Action, post: bool)
    ensures Events(values, writable, [a], post)
         == if Effective(values, writable, a) && !(post && (if values[a.targetId] then "1" else "0") == a.value)
            then [a.targetId] else []
    ensures AssignAll(values, writable, [a]) == Assign(values, writable, a)
  {
    hide Parse, Effective;
    EffectiveIff(values, writable, a);
    assert [a][..0] == [];
  }

  /** The primary loop reports every action that can take effect, in order, whatever the others do. */
  lemma {:induction false} PrimaryEventsAre(values: map<string, bool>, writable: set<string>, actions: seq<Action>)
    ensures Events(values, writable, actions, false) == EffectiveTargets(values, writable, actions)
    decreases |actions|
  {
    hide Assign, Effective, AssignAll, PrimaryReports, PostReports;
    if actions != [] {
      assert actions == [actions[0]] + actions[1..];
      EventsAppend(values, writable, [actions[0]], actions[1..], false);
      OneEvent(values, writable, actions[0], false);
      PrimaryEventsAre(Assign(values, writable, actions[0]), writable, actions[1..]);
      TargetsStay(values, writable, actions[0], actions[1..]);
    }
  }

  /** The enforcing loop is silent exactly when every action it would carry out has the very text that its target
      shows. */
  lemma {:induction false} PostIsSilentIff(values: map<string, bool>, writable: set<string>, actions: seq<Action>)
    ensures Events(values, writable, actions, true) == []
       <==> forall a :: a in actions && a.targetId in values ==>
              Show(values[a.targetId]) == a.value || !Accepts(values, writable, a)
    ensures Events(values, writable, actions, true) == [] ==> AssignAll(values, writable, actions) == values
    decreases |actions|
  {
    if actions != [] {
      var before, last := actions[..|actions| - 1], actions[|actions| - 1];
      PostIsSilentIff(values, writable, before);
      assert forall a :: a in actions <==> a in before || a == last;
      if last.targetId in values && Show(values[last.targetId]) == last.value {
        assert Assign(values, writable, last) == values;
      }
    }
  }

  /** What a target holds after a list of actions. */
  function Final(values: map<string, bool>, writable: set<string>, actions: seq<Action>, id: string): bool
    requires id in values
  {
    if id in writable && LastFor(actions, id).Some? then LastFor(actions, id).value else values[id]
  }

  /** Enforcing actions that have just run sends no event exactly when each of them that was accepted is spelled
      "1" or "0" and agrees with the value its target ends with. */
  lemma EnforcingIsSilentIff(values: map<string, bool>, writable: set<string>, actions: seq<Action>)
    ensures Events(AssignAll(values, writable, actions), writable, actions, true) == []
       <==> forall a :: a in actions && a.targetId in values && Parse(a.value).Some?
                        && (a.targetId in writable || Parse(a.value).value == values[a.targetId]) ==>
              a.value == Show(Final(values, writable, actions, a.targetId))
  {
    hide Events, AssignAll, LastFor;
    AssignAllIsLast(values, writable, actions);
    PostIsSilentIff(AssignAll(values, writable, actions), writable, actions);
  }

  /** After an accepted action a target has the value that the text stands for: "on" turns it on, "off" turns it off. */
  lemma TurnedOn(values: map<string, bool>, writable: set<string>, id: string, text: string)
    requires id in values && id in writable
    ensures var after := AssignAll(values, writable, [Set(id, text)]);
      && id in after
      && (text in {"1", "true", "on", "yes"} ==> after[id])
      && (text in {"0", "false", "off", "no"} ==> !after[id])
  {
    hide Parse, Events;
    TextsUnderstood(text);
    OneEvent(values, writable, Set(id, text), false);
  }

  /** It is not silent for every list of actions: "on" is understood, but shown as "1". */
  lemma EnforcingOnIsLoud(id: string, value: bool)
    ensures var values, actions := map[id := value], [Set(id, "on")];
      Events(AssignAll(values, {id}, actions), {id}, actions, true) == [id]
  {
    var values, actions := map[id := value], [Set(id, "on")];
    assert actions[..0] == [];
    assert AssignAll(values, {id}, actions) == map[id := true];
    assert Show(true) != "on";
  }

  // ---------------------------------------------------------------------------
  // Objects
  // ---------------------------------------------------------------------------

  class Condition {
    const spec: Spec
    var satisfied: bool

    constructor (spec: Spec)
      ensures this.spec == spec && !satisfied
    {
      this.spec := spec;
      satisfied := false;
    }

    method Apply(value: real)
      modifies this
      ensures satisfied == spec.kind.Holds(value)
    {
      match spec.kind {
        case Over(v) => satisfied := v < value;
        case Under(v) => satisfied := v > value;
        case Match(v) => satisfied := v == value;
        case RangeOut(lower, upper) => satisfied := (lower > value) || (upper < value);
        case RangeIn(lower, upper) => satisfied := (lower < value) && (value < upper);
      }
    }
  }

  class ObjectManager {
    /** The discrete actuators and their current values. */
    var values: map<string, bool>
    const writable: set<string>
    /** The rule events sent: rule and target. */
    var events: seq<(string, string)>

    constructor (values: map<string, bool>, writable: set<string>)
      ensures this.values == values && this.writable == writable && events == []
    {
      this.values := values;
      this.writable := writable;
      events := [];
    }

    /** `EndpointActuatorDiscrete::SetValue` of a known endpoint. */
    method SetValue(id: string, text: string) returns (ok: bool)
      requires id in values
      modifies this`values
      ensures ok == Accepts(old(values), writable, Set(id, text))
      ensures values == Assign(old(values), writable, Set(id, text))
    {
      var parsed := Parse(text);
      if parsed.None? {
        return false;
      }
      if values[id] != parsed.value {
        if id !in writable {
          return false;
        }
        values := values[id := parsed.value];
      }
      return true;
    }

    /** `DiscreteSetAction::Process` */
    method ProcessAction(a: Action) returns (ok: bool)
      modifies this`values
      ensures ok == PrimaryReports(old(values), writable, a)
      ensures values == Assign(old(values), writable, a)
    {
      if a.targetId !in values {
        return false;
      }
      ok := SetValue(a.targetId, a.value);
    }

    /** `DiscreteSetAction::Process_after` */
    method ProcessActionAfter(a: Action) returns (ok: bool)
      modifies this`values
      ensures ok == PostReports(old(values), writable, a)
      ensures values == Assign(old(values), writable, a)
    {
      if a.targetId !in values {
        return false;
      }
      if Show(values[a.targetId]) != a.value {
        ok := SetValue(a.targetId, a.value);
        return;
      }
      assert values[a.targetId := values[a.targetId]] == values;
      return false;
    }

    method RunAction(a: Action, post: bool) returns (ok: bool)
      modifies this`values
      ensures ok == if post then PostReports(old(values), writable, a) else PrimaryReports(old(values), writable, a)
      ensures values == Assign(old(values), writable, a)
    {
      if post {
        ok := ProcessActionAfter(a);
      } else {
        ok := ProcessAction(a);
      }
    }

    /** One of the two loops over a rule's actions. */
    method RunActions(ruleId: string, actions: seq<Action>, post: bool) returns (any: bool)
      modifies this`values, this`events
      ensures values == AssignAll(old(values), writable, actions)
      ensures events == old(events) + Tagged(ruleId, Events(old(values), writable, actions, post))
      ensures any <==> Events(old(values), writable, actions, post) != []
    {
      hide Assign, PostReports, PrimaryReports, Tagged;
      TaggedParts(ruleId, [], []);
      any := false;
      for i := 0 to |actions|
        invariant values == AssignAll(old(values), writable, actions[..i])
        invariant events == old(events) + Tagged(ruleId, Events(old(values), writable, actions[..i], post))
        invariant any <==> Events(old(values), writable, actions[..i], post) != []
      {
        assert actions[..i + 1][..i] == actions[..i];
        ghost var sent := Events(old(values), writable, actions[..i], post);
        var ok := RunAction(actions[i], post);
        assert Events(old(values), writable, actions[..i + 1], post)
            == if ok then sent + [actions[i].targetId] else sent;
        if ok {
          TaggedNext(ruleId, sent, actions[i].targetId);
          events := events + [(ruleId, actions[i].targetId)];
          any := true;
        }
      }
      assert actions[..|actions|] == actions;
    }
  }

  function Tagged(ruleId: string, targets: seq<string>): (r: seq<(string, string)>)
    ensures |r| == |targets|
  {
    seq(|targets|, i requires 0 <= i < |targets| => (ruleId, targets[i]))
  }

  class Rule {
    const id: string
    const manager: ObjectManager
    const conditions: seq<Condition>
    const actions: seq<Action>
    /** Every update since the rule was made, and how often the primary actions have run. */
    ghost var samples: seq<Sample>
    ghost var primaryRuns: nat

    ghost function Specs(): (specs: seq<Spec>)
      ensures |specs| == |conditions| && forall i :: 0 <= i < |specs| ==> specs[i] == conditions[i].spec
    {
      seq(|conditions|, i requires 0 <= i < |conditions| => conditions[i].spec)
    }

    /** The caches agree with recomputing everything, and the primary actions have run on every rising edge. */
    ghost predicate Valid()
      reads this, conditions
    {
      && (forall i, j :: 0 <= i < j < |conditions| ==> conditions[i] != conditions[j])
      && (forall i :: 0 <= i < |conditions| ==> conditions[i].satisfied == On(Specs()[i], samples))
      && primaryRuns == RisingEdges(Specs(), samples)
    }

    constructor (id: string, manager: ObjectManager, conditions: seq<Condition>, actions: seq<Action>)
      requires forall i, j :: 0 <= i < j < |conditions| ==> conditions[i] != conditions[j]
      requires forall c :: c in conditions ==> !c.satisfied
      ensures Valid() && samples == [] && this.conditions == conditions && this.manager == manager
      ensures this.id == id && this.actions == actions
    {
      this.id := id;
      this.manager := manager;
      this.conditions := conditions;
      this.actions := actions;
      samples := [];
      primaryRuns := 0;
    }

    method IsIncludedInCondition(endpointId: string) returns (included: bool)
      ensures included <==> Mentions(Specs(), endpointId)
    {
      for i := 0 to |conditions|
        invariant forall k :: 0 <= k < i ==> Specs()[k].targetId != endpointId
      {
        if conditions[i].spec.targetId == endpointId {
          assert Specs()[i].targetId == endpointId;
          return true;
        }
      }
      return false;
    }

    /** The loop over the conditions. */
    method Scan(endpointId: string, value: real) returns (changed: bool, satisfied: bool, beforeCondition: bool)
      requires Valid() && Mentions(Specs(), endpointId)
      modifies this`samples, conditions
      ensures samples == old(samples) + [Sample(endpointId, value)]
      ensures forall i :: 0 <= i < |conditions| ==> conditions[i].satisfied == On(Specs()[i], samples)
      ensures satisfied == AllOn(Specs(), samples)
      ensures beforeCondition == On(LastMention(Specs(), endpointId), old(samples))
      ensures changed <==> exists i :: 0 <= i < |conditions| && On(Specs()[i], samples) != On(Specs()[i], old(samples))
      ensures satisfied ==> changed || beforeCondition
    {
      hide On, LastMention, RisingEdges;
      ghost var before := samples;
      ghost var specs := Specs();
      samples := samples + [Sample(endpointId, value)];
      changed, satisfied, beforeCondition := false, true, false;
      ghost var last := -1;
      for i := 0 to |conditions|
        invariant samples == before + [Sample(endpointId, value)]
        invariant forall k :: 0 <= k < |conditions| ==>
          conditions[k].satisfied == On(specs[k], if k < i then samples else before)
        invariant changed <==> exists k :: 0 <= k < i && On(specs[k], samples) != On(specs[k], before)
        invariant satisfied <==> forall k :: 0 <= k < i ==> On(specs[k], samples)
        invariant -1 <= last < i
        invariant last >= 0 ==> specs[last].targetId == endpointId && beforeCondition == On(specs[last], before)
        invariant forall k :: last < k < i ==> specs[k].targetId != endpointId
      {
        OneMore(specs[i], before, Sample(endpointId, value));
        var condition := conditions[i];
        if condition.spec.targetId == endpointId {
          beforeCondition := condition.satisfied;
          condition.Apply(value);
          changed := changed || beforeCondition != condition.satisfied;
          last := i;
        }
        satisfied := satisfied && condition.satisfied;
      }
      LastMentionIs(specs, endpointId, last);
      if satisfied {
        SomeLoopRuns(specs, before, Sample(endpointId, value));
      }
    }

    /** One update of an endpoint that the rule mentions. The primary loop runs on a rising edge; the
        enforcing loop runs when the last condition on the endpoint already held. */
    method Process(endpointId: string, value: real) returns (applied: bool)
      requires Valid() && Mentions(Specs(), endpointId)
      modifies this`samples, this`primaryRuns, conditions, manager`values, manager`events
      ensures Valid() && samples == old(samples) + [Sample(endpointId, value)]
      ensures manager.values ==
        if AllOn(Specs(), samples)
        then AssignAll(old(manager.values), manager.writable, actions)
        else old(manager.values)
      ensures manager.events == old(manager.events)
        + Tagged(id, Sent(Specs(), old(samples), endpointId, value, old(manager.values), manager.writable, actions))
      ensures applied <==>
        (primaryRuns > old(primaryRuns)
         || Sent(Specs(), old(samples), endpointId, value, old(manager.values), manager.writable, actions) != [])
    {
      hide Events, AssignAll, Tagged, RisingEdges, On, LastMention, Sent, LoopEvents;
      ghost var specs, before, sample := Specs(), samples, Sample(endpointId, value);
      ghost var values := manager.values;
      var changed, satisfied, beforeCondition := Scan(endpointId, value);
      EdgesOneMore(specs, before, sample);
      Edge(specs, before, sample, changed);
      SentIs(specs, before, endpointId, value, values, manager.writable, actions, changed);
      applied := RunLoops(changed, satisfied, beforeCondition);
    }

    /** The two loops over the actions, by the flags of the loop over the conditions. */
    method RunLoops(changed: bool, satisfied: bool, beforeCondition: bool) returns (applied: bool)
      modifies this`primaryRuns, manager`values, manager`events
      ensures primaryRuns == old(primaryRuns) + if changed && satisfied then 1 else 0
      ensures manager.values ==
        if satisfied && (changed || beforeCondition) then AssignAll(old(manager.values), manager.writable, actions)
        else old(manager.values)
      ensures var sent := LoopEvents(changed, satisfied, beforeCondition,
                                     old(manager.values), manager.writable, actions);
        && manager.events == old(manager.events) + Tagged(id, sent)
        && (applied <==> ((changed && satisfied) || sent != []))
    {
      hide Events, AssignAll, Tagged;
      ghost var values, events := manager.values, manager.events;
      var first := RunIf(changed && satisfied, false);
      if changed && satisfied {
        primaryRuns := primaryRuns + 1;
      }
      ghost var between := manager.values;
      var second := RunIf(beforeCondition && satisfied, true);
      applied := (changed && satisfied) || second;
      LoopsCompose(id, events, values, between, manager.writable, actions, changed, satisfied, beforeCondition);
    }

    /** One of the loops, if it is to run. */
    method RunIf(run: bool, post: bool) returns (any: bool)
      modifies manager`values, manager`events
      ensures manager.values
           == if run then AssignAll(old(manager.values), manager.writable, actions) else old(manager.values)
      ensures var sent := if run then Events(old(manager.values), manager.writable, actions, post) else [];
        manager.events == old(manager.events) + Tagged(id, sent) && (any <==> sent != [])
    {
      hide Events, AssignAll, Tagged;
      TaggedParts(id, [], []);
      any := false;
      if run {
        any := manager.RunActions(id, actions, post);
      }
    }
  }

  lemma LoopsCompose(ruleId: string, events: seq<(string, string)>,
                     values: map<string, bool>, between: map<string, bool>,
                     writable: set<string>, actions: seq<Action>, changed: bool, satisfied: bool, beforeCondition: bool)
    requires between == if changed && satisfied then AssignAll(values, writable, actions) else values
    ensures AssignAll(AssignAll(values, writable, actions), writable, actions) == AssignAll(values, writable, actions)
    ensures var first := if changed && satisfied then Events(values, writable, actions, false) else [];
      var second := if beforeCondition && satisfied then Events(between, writable, actions, true) else [];
      events + Tagged(ruleId, first) + Tagged(ruleId, second)
      == events + Tagged(ruleId, LoopEvents(changed, satisfied, beforeCondition, values, writable, actions))
  {
    hide Events, AssignAll, Tagged;
    AssignAllTwice(values, writable, actions);
    var first := if changed && satisfied then Events(values, writable, actions, false) else [];
    var second := if beforeCondition && satisfied then Events(between, writable, actions, true) else [];
    assert first + second == LoopEvents(changed, satisfied, beforeCondition, values, writable, actions);
    TaggedParts(ruleId, first, second);
  }

  /** The events of the two loops. */
  function LoopEvents(changed: bool, satisfied: bool, beforeCondition: bool,
                      values: map<string, bool>, writable: set<string>, actions: seq<Action>): seq<string>
  {
    (if changed && satisfied then Events(values, writable, actions, false) else [])
    + (if beforeCondition && satisfied
       then Events(if changed then AssignAll(values, writable, actions) else values, writable, actions, true) else [])
  }

  /** The last condition on an endpoint. */
  function LastMention(specs: seq<Spec>, id: string): Spec
    requires Mentions(specs, id)
    decreases |specs|
  {
    var n := |specs| - 1;
    if specs[n].targetId == id then specs[n] else
      assert forall i :: 0 <= i < n ==> specs[..n][i] == specs[i];
      LastMention(specs[..n], id)
  }

  lemma {:induction false} LastMentionIs(specs: seq<Spec>, id: string, last: int)
    requires Mentions(specs, id)
    requires -1 <= last < |specs| && (last >= 0 ==> specs[last].targetId == id)
    requires forall k :: last < k < |specs| ==> specs[k].targetId != id
    ensures last >= 0 && LastMention(specs, id) == specs[last]
    decreases |specs|
  {
    var n := |specs| - 1;
    if last < n {
      assert forall i :: 0 <= i < n ==> specs[..n][i] == specs[i];
      LastMentionIs(specs[..n], id, last);
    }
  }

  /** Whenever a rule that mentions the updated endpoint is satisfied, one of its loops runs: some condition has
      changed, or the last condition on the endpoint held before. */
  lemma SomeLoopRuns(specs: seq<Spec>, before: seq<Sample>, s: Sample)
    requires Mentions(specs, s.endpointId) && AllOn(specs, before + [s])
    ensures (exists k :: 0 <= k < |specs| && On(specs[k], before + [s]) != On(specs[k], before))
         || On(LastMention(specs, s.endpointId), before)
  {
    hide On;
    LastMentionMember(specs, s.endpointId);
    var k :| 0 <= k < |specs| && specs[k] == LastMention(specs, s.endpointId);
    assert On(specs[k], before + [s]);
  }

  lemma LastMentionOn(specs: seq<Spec>, before: seq<Sample>, id: string)
    requires Mentions(specs, id) && AllOn(specs, before)
    ensures On(LastMention(specs, id), before)
  {
    LastMentionMember(specs, id);
  }

  lemma {:induction false} LastMentionMember(specs: seq<Spec>, id: string)
    requires Mentions(specs, id)
    ensures LastMention(specs, id) in specs && LastMention(specs, id).targetId == id
    decreases |specs|
  {
    var n := |specs| - 1;
    if specs[n].targetId != id {
      assert forall i :: 0 <= i < n ==> specs[..n][i] == specs[i];
      LastMentionMember(specs[..n], id);
    }
  }

  /** The events of one update of a rule: those of the primary loop, then those of the enforcing loop. */
  function Sent(specs: seq<Spec>, before: seq<Sample>, endpointId: string, value: real,
                values: map<string, bool>, writable: set<string>, actions: seq<Action>): seq<string>
    requires Mentions(specs, endpointId)
  {
    var after := before + [Sample(endpointId, value)];
    if !AllOn(specs, after) then []
    else if AllOn(specs, before) then Events(values, writable, actions, true)
    else
      Events(values, writable, actions, false)
      + (if On(LastMention(specs, endpointId), before)
         then Events(AssignAll(values, writable, actions), writable, actions, true) else [])
  }

  /** The events of one update, by what held before and what holds after it. Nothing is sent unless everything holds. If
      it held before, actions are only enforced: nothing is sent exactly when every action that can take effect has the
      very text that its target shows. When it begins to hold, every action that can take effect is reported, and
      nothing else exactly when the last condition on the endpoint did not hold before, or each of these actions is
      spelled as its target ends. */
  lemma SentWhen(specs: seq<Spec>, before: seq<Sample>, endpointId: string, value: real,
                 values: map<string, bool>, writable: set<string>, actions: seq<Action>)
    requires Mentions(specs, endpointId)
    ensures var after := before + [Sample(endpointId, value)];
            var sent := Sent(specs, before, endpointId, value, values, writable, actions);
      && (!AllOn(specs, after) ==> sent == [])
      && (AllOn(specs, before) && AllOn(specs, after) ==>
            (sent == [] <==> forall a :: a in actions && Effective(values, writable, a) ==>
                               a.value == if values[a.targetId] then "1" else "0"))
      && (!AllOn(specs, before) && AllOn(specs, after) ==>
            && EffectiveTargets(values, writable, actions) <= sent
            && (sent == EffectiveTargets(values, writable, actions) <==>
                || !On(LastMention(specs, endpointId), before)
                || forall a :: a in actions && Effective(values, writable, a) ==>
                     a.value == Show(Final(values, writable, actions, a.targetId))))
  {
    hide Events, AssignAll, AllOn, On, LastMention, Effective, EffectiveTargets, Final, Parse, LastFor;
    PrimaryEventsAre(values, writable, actions);
    EnforcedSilent(values, writable, actions);
    SilentAfterwards(values, writable, actions);
  }

  lemma EnforcedSilent(values: map<string, bool>, writable: set<string>, actions: seq<Action>)
    ensures Events(values, writable, actions, true) == []
       <==> forall a :: a in actions && Effective(values, writable, a) ==>
              a.value == if values[a.targetId] then "1" else "0"
  {
    hide Events, AssignAll, Parse;
    PostIsSilentIff(values, writable, actions);
    forall a | a in actions ensures Effective(values, writable, a) <==> PrimaryReports(values, writable, a) {
      EffectiveIff(values, writable, a);
    }
  }

  lemma SilentAfterwards(values: map<string, bool>, writable: set<string>, actions: seq<Action>)
    ensures Events(AssignAll(values, writable, actions), writable, actions, true) == []
       <==> forall a :: a in actions && Effective(values, writable, a) ==>
              a.value == Show(Final(values, writable, actions, a.targetId))
  {
    hide Events, AssignAll, Parse, Final, LastFor;
    EnforcingIsSilentIff(values, writable, actions);
    forall a | a in actions ensures Effective(values, writable, a) <==> PrimaryReports(values, writable, a) {
      EffectiveIff(values, writable, a);
    }
  }

  /** The flags of the loop over the conditions lead to these events. */
  lemma SentIs(specs: seq<Spec>, before: seq<Sample>, endpointId: string, value: real,
               values: map<string, bool>, writable: set<string>, actions: seq<Action>, changed: bool)
    requires Mentions(specs, endpointId)
    requires var after := before + [Sample(endpointId, value)];
      AllOn(specs, after) ==> (changed <==> !AllOn(specs, before))
    ensures var after := before + [Sample(endpointId, value)];
      LoopEvents(changed, AllOn(specs, after), On(LastMention(specs, endpointId), before), values, writable, actions)
      == Sent(specs, before, endpointId, value, values, writable, actions)
  {
    hide Events, AssignAll, AllOn, On, LastMention;
    if AllOn(specs, before) {
      LastMentionOn(specs, before, endpointId);
    }
  }

  /** Once everything holds, "some condition changed" means "not everything held before". */
  lemma Edge(specs: seq<Spec>, before: seq<Sample>, s: Sample, changed: bool)
    requires changed <==> exists k :: 0 <= k < |specs| && On(specs[k], before + [s]) != On(specs[k], before)
    ensures AllOn(specs, before + [s]) ==> (changed <==> !AllOn(specs, before))
  {
  }

  lemma TaggedNext(ruleId: string, s: seq<string>, target: string)
    ensures Tagged(ruleId, s + [target]) == Tagged(ruleId, s) + [(ruleId, target)]
  {
  }

  lemma TaggedParts(ruleId: string, s: seq<string>, t: seq<string>)
    ensures Tagged(ruleId, s + t) == Tagged(ruleId, s) + Tagged(ruleId, t)
    ensures Tagged(ruleId, []) == [] && s + [] == s
  {
  }

  // ---------------------------------------------------------------------------
  // The manager
  // ---------------------------------------------------------------------------

  /** A rule as an update finds it. */
  datatype Turn = Turn(ruleId: string, specs: seq<Spec>, before: seq<Sample>, actions: seq<Action>)

  ghost function Turns(rules: seq<Rule>): (turns: seq<Turn>)
    reads rules
    ensures |turns| == |rules|
    ensures forall i :: 0 <= i < |rules| ==>
      turns[i] == Turn(rules[i].id, rules[i].Specs(), rules[i].samples, rules[i].actions)
  {
    seq(|rules|, i requires 0 <= i < |rules| reads rules =>
      Turn(rules[i].id, rules[i].Specs(), rules[i].samples, rules[i].actions))
  }

  /** The actions that a rule asks for: those of a satisfied rule that mentions the endpoint. */
  function Asked(turn: Turn, endpointId: string, value: real): seq<Action> {
    var after := turn.before + [Sample(endpointId, value)];
    if Mentions(turn.specs, endpointId) && AllOn(turn.specs, after) then turn.actions else []
  }

  /** The actions of all rules, in vector order. */
  function Fired(turns: seq<Turn>, endpointId: string, value: real): seq<Action>
    decreases |turns|
  {
    if turns == [] then []
    else Fired(turns[..|turns| - 1], endpointId, value) + Asked(turns[|turns| - 1], endpointId, value)
  }

  /** The events of one rule, on the actuators as it finds them. */
  function Noticed(turn: Turn, endpointId: string, value: real, values: map<string, bool>, writable: set<string>)
    : seq<(string, string)>
  {
    if Mentions(turn.specs, endpointId)
    then Tagged(turn.ruleId, Sent(turn.specs, turn.before, endpointId, value, values, writable, turn.actions))
    else []
  }

  /** The events of all rules: each finds the actuators as the rules before it have left them. */
  function Notices(turns: seq<Turn>, endpointId: string, value: real, values: map<string, bool>, writable: set<string>)
    : seq<(string, string)>
    decreases |turns|
  {
    if turns == [] then []
    else
      var before := turns[..|turns| - 1];
      Notices(before, endpointId, value, values, writable)
      + Noticed(turns[|turns| - 1], endpointId, value,
                AssignAll(values, writable, Fired(before, endpointId, value)), writable)
  }

  lemma TurnsNone(endpointId: string, value: real, values: map<string, bool>, writable: set<string>)
    ensures Fired([], endpointId, value) == [] && Notices([], endpointId, value, values, writable) == []
  {
  }

  lemma TurnsNext(turns: seq<Turn>, i: nat, endpointId: string, value: real,
                  values: map<string, bool>, writable: set<string>)
    requires i < |turns|
    ensures Fired(turns[..i + 1], endpointId, value)
         == Fired(turns[..i], endpointId, value) + Asked(turns[i], endpointId, value)
    ensures Notices(turns[..i + 1], endpointId, value, values, writable)
         == Notices(turns[..i], endpointId, value, values, writable)
            + Noticed(turns[i], endpointId, value,
                      AssignAll(values, writable, Fired(turns[..i], endpointId, value)), writable)
  {
    hide Asked, Noticed, AssignAll;
    assert turns[..i + 1][..i] == turns[..i];
  }

  /** Later rules win: with one more rule at the end of the vector, a writable target holds what its actions ask for, if
      it fires and has an understood action on the target, and otherwise what the rules before leave. */
  lemma LastRuleWins(turns: seq<Turn>, turn: Turn, endpointId: string, value: real,
                     values: map<string, bool>, writable: set<string>, id: string)
    requires id in values
    ensures var after := AssignAll(values, writable, Fired(turns + [turn], endpointId, value));
            var others := AssignAll(values, writable, Fired(turns, endpointId, value));
            var fires := Mentions(turn.specs, endpointId)
              && forall i :: 0 <= i < |turn.specs| ==> On(turn.specs[i], turn.before + [Sample(endpointId, value)]);
      && id in after && id in others
      && after[id] == if fires && id in writable && LastFor(turn.actions, id).Some?
                      then LastFor(turn.actions, id).value else others[id]
  {
    hide AssignAll, LastFor, On, Mentions;
    var fired := Fired(turns, endpointId, value);
    var asked := Asked(turn, endpointId, value);
    assert (turns + [turn])[..|turns|] == turns;
    AssignAllAppend(values, writable, fired, asked);
    AssignAllIsLast(values, writable, fired);
    AssignAllIsLast(AssignAll(values, writable, fired), writable, asked);
    AssignAllNone(AssignAll(values, writable, fired), writable);
  }

  /** New, distinct conditions, none of them satisfied. */
  method MakeConditions(specs: seq<Spec>) returns (made: seq<Condition>)
    ensures |made| == |specs| && fresh(made)
    ensures forall k :: 0 <= k < |specs| ==> made[k].spec == specs[k] && !made[k].satisfied
    ensures forall j, k :: 0 <= j < k < |specs| ==> made[j] != made[k]
  {
    made := [];
    for i := 0 to |specs|
      invariant |made| == i && fresh(made)
      invariant forall k :: 0 <= k < i ==> made[k].spec == specs[k] && !made[k].satisfied
      invariant forall j, k :: 0 <= j < k < i ==> made[j] != made[k]
    {
      var condition := new Condition(specs[i]);
      made := made + [condition];
    }
  }

  predicate Apart(r: Rule, s: Rule) {
    forall c :: c in r.conditions ==> c !in s.conditions
  }

  twostate lemma ValidKept(r: Rule)
    requires old(r.Valid()) && unchanged(r) && forall c :: c in r.conditions ==> unchanged(c)
    ensures r.Valid()
  {
    hide On, RisingEdges;
    forall i | 0 <= i < |r.conditions| ensures r.conditions[i].satisfied == old(r.conditions[i].satisfied) {
      assert r.conditions[i] in r.conditions;
    }
  }

  class RuleManager {
    const manager: ObjectManager
    var rules: seq<Rule>
    /** The conditions of all rules. */
    ghost var conditions: set<Condition>

    /** Rules share no condition, and every rule is in agreement with the samples it has seen. */
    ghost predicate Valid()
      reads this, rules, conditions
    {
      && (forall i, j :: 0 <= i < |rules| && 0 <= j < |rules| && i != j ==>
            rules[i] != rules[j] && Apart(rules[i], rules[j]))
      && (forall r, c :: r in rules && c in r.conditions ==> c in conditions)
      && (forall r :: r in rules ==> r.manager == manager)
      && (forall r :: r in rules ==> r.Valid())
    }

    constructor (manager: ObjectManager)
      ensures Valid() && rules == [] && conditions == {} && this.manager == manager
    {
      this.manager := manager;
      rules := [];
      conditions := {};
    }

    /** A new rule starts with every condition unsatisfied. */
    method CreateRule(id: string, specs: seq<Spec>, actions: seq<Action>) returns (rule: Rule)
      requires Valid()
      modifies this`rules, this`conditions
      ensures Valid() && rules == old(rules) + [rule] && fresh(conditions - old(conditions))
      ensures fresh(rule) && rule.id == id && rule.Specs() == specs && rule.actions == actions && rule.samples == []
    {
      var made := MakeConditions(specs);
      rule := new Rule(id, manager, made, actions);
      rules := rules + [rule];
      conditions := conditions + set c | c in made;
      assert rule.Specs() == specs;
    }

    /** The first rule with this id goes. */
    method DestroyRule(id: string) returns (found: bool)
      requires Valid()
      modifies this`rules
      ensures Valid()
      ensures !found ==> rules == old(rules) && forall r :: r in rules ==> r.id != id
      ensures found ==> exists i ::
        (0 <= i < |old(rules)| && old(rules)[i].id == id
         && (forall k :: 0 <= k < i ==> old(rules)[k].id != id) && rules == old(rules)[..i] + old(rules)[i + 1..])
    {
      for i := 0 to |rules|
        invariant rules == old(rules)
        invariant forall k :: 0 <= k < i ==> rules[k].id != id
      {
        if rules[i].id == id {
          rules := rules[..i] + rules[i + 1..];
          return true;
        }
      }
      return false;
    }

    /** A new sample: afterwards every rule agrees with it, the actuators hold what the satisfied rules that
        mention the endpoint ask for, the last action on each target winning, and the events are those of all
        rules in turn. */
    method Updated(endpointId: string, value: real)
      requires Valid()
      modifies rules, conditions, manager`values, manager`events
      ensures Valid() && rules == old(rules) && conditions == old(conditions)
      ensures forall r :: r in rules ==> r.samples == old(r.samples) + [Sample(endpointId, value)]
      ensures manager.values
           == AssignAll(old(manager.values), manager.writable, Fired(old(Turns(rules)), endpointId, value))
      ensures manager.events == old(manager.events)
        + Notices(old(Turns(rules)), endpointId, value, old(manager.values), manager.writable)
    {
      hide Rule.Valid, AssignAll, Apart, Fired, Notices, Asked, Noticed, Turns;
      ghost var turns, values, writable := Turns(rules), manager.values, manager.writable;
      TurnsNone(endpointId, value, values, writable);
      AssignAllNone(values, writable);
      var i := 0;
      while i < |rules|
        invariant 0 <= i <= |rules| && rules == old(rules) && conditions == old(conditions) && Valid()
        invariant forall k :: 0 <= k < i ==> rules[k].samples == old(rules[k].samples) + [Sample(endpointId, value)]
        invariant forall k :: i <= k < |rules| ==> rules[k].samples == old(rules[k].samples)
        invariant manager.values == AssignAll(values, writable, Fired(turns[..i], endpointId, value))
        invariant manager.events == old(manager.events) + Notices(turns[..i], endpointId, value, values, writable)
      {
        label Before:
        AssignAllAppend(values, writable, Fired(turns[..i], endpointId, value), Asked(turns[i], endpointId, value));
        TurnsNext(turns, i, endpointId, value, values, writable);
        UpdateRule(i, endpointId, value, turns[i]);
        forall k | 0 <= k < |rules| && k != i ensures rules[k].samples == old@Before(rules[k].samples) {
          assert rules[k] != rules[i];
        }
        i := i + 1;
      }
      assert turns[..|rules|] == turns;
    }

    /** The turn of one rule. */
    method UpdateRule(i: nat, endpointId: string, value: real, ghost turn: Turn)
      requires Valid() && i < |rules|
      requires turn == Turn(rules[i].id, rules[i].Specs(), rules[i].samples, rules[i].actions)
      modifies rules[i], rules[i].conditions, manager`values, manager`events
      ensures Valid()
      ensures rules[i].samples == old(rules[i].samples) + [Sample(endpointId, value)]
      ensures manager.values == AssignAll(old(manager.values), manager.writable, Asked(turn, endpointId, value))
      ensures manager.events == old(manager.events)
        + Noticed(turn, endpointId, value, old(manager.values), manager.writable)
    {
      hide AssignAll, Sent, Tagged, RisingEdges, On;
      AssignAllNone(manager.values, manager.writable);
      var rule := rules[i];
      var included := rule.IsIncludedInCondition(endpointId);
      if included {
        var applied := rule.Process(endpointId, value);
      } else {
        NotMentioned(rule.Specs(), rule.samples, Sample(endpointId, value));
        assert rule.Valid();
        rule.samples := rule.samples + [Sample(endpointId, value)];
        assert forall i :: 0 <= i < |rule.conditions| ==>
            rule.conditions[i].satisfied == On(rule.Specs()[i], rule.samples);
        assert rule.Valid();
      }
      forall k | 0 <= k < |rules| && k != i ensures rules[k].Valid() {
        assert rules[k] != rule && Apart(rules[k], rule);
        ValidKept(rules[k]);
      }
    }
  }
}
