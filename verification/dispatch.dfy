/**
 * The per-(label, id) decision taken by the MQTT event handler, and its
 * effect on the active-events map. Throttling and the trigger cards sit
 * downstream of this decision and do not influence it.
 */
module Dispatch {
  import opened Events
  import opened Tracker

  /** The two configuration flags the decision depends on. */
  datatype Config = Config(snapshotRequired: bool, uniqueEvents: bool)

  /** What the handler does with the event's (label, id) pair. */
  datatype Decision = Ignore | MarkActive | MarkEnded

  /**
   * The handler's branch: ignore unlabelled events; mark the pair active when
   * the filter accepts and the pair is new or duplicates are allowed; else
   * end it on an "end" or false-positive event.
   */
  function Decide(e: Event, cfg: Config, wasActive: bool): (d: Decision)
    ensures !Present(TrackedLabel(e)) ==> d == Ignore
    ensures d == MarkActive <==>
      Present(TrackedLabel(e)) && Admit(e, cfg.snapshotRequired) == Accept
      && (!wasActive || !cfg.uniqueEvents)
    ensures d == MarkEnded <==>
      Present(TrackedLabel(e)) && (e.kind == "end" || e.after.falsePositive)
  {
    var l := TrackedLabel(e);
    if !Present(l) then Ignore
    else if Admit(e, cfg.snapshotRequired) == Accept && (!wasActive || !cfg.uniqueEvents) then MarkActive
    else if e.kind == "end" || e.after.falsePositive then MarkEnded
    else Ignore
  }

  /** Inside the handler the filter never rejects for a missing label: the handler has already returned. */
  lemma NoLabelRejectionUnreachable(e: Event, snapshotRequired: bool)
    requires Present(TrackedLabel(e))
    ensures Admit(e, snapshotRequired) != Reject(NoLabel)
  {
  }

  /** The active-events map after the handler has processed `e`. */
  function Step(m: ActiveMap, e: Event, cfg: Config): (r: ActiveMap)
    ensures WellFormed(m) ==> WellFormed(r)
    ensures Present(TrackedLabel(e)) && (e.kind == "end" || e.after.falsePositive) ==>
      !IsActive(r, TrackedLabel(e), e.after.id)
    ensures Admit(e, cfg.snapshotRequired) == Accept && Present(TrackedLabel(e)) ==>
      IsActive(r, TrackedLabel(e), e.after.id)
    ensures !Present(TrackedLabel(e)) ==> r == m
    ensures Admit(e, cfg.snapshotRequired) != Accept && e.kind != "end" && !e.after.falsePositive ==> r == m
    ensures Decide(e, cfg, IsActive(m, TrackedLabel(e), e.after.id)) == Ignore ==> r == m
  {
    var l := TrackedLabel(e);
    var id := e.after.id;
    match Decide(e, cfg, IsActive(m, l, id))
    case Ignore => m
    case MarkActive => Activate(m, l, id)
    case MarkEnded => Deactivate(m, l, id)
  }

  /** An event only ever changes the state of its own (label, id) pair. */
  lemma StepTouchesOnlyItsPair(m: ActiveMap, e: Event, cfg: Config)
    ensures Pairs(Step(m, e, cfg)) - {(TrackedLabel(e), e.after.id)} ==
            Pairs(m) - {(TrackedLabel(e), e.after.id)}
  {
    var l, id := TrackedLabel(e), e.after.id;
    match Decide(e, cfg, IsActive(m, l, id))
    case Ignore =>
    case MarkActive => PairsActivate(m, l, id);
    case MarkEnded => PairsDeactivate(m, l, id);
  }

  /** The map after a sequence of events. */
  function Run(m: ActiveMap, es: seq<Event>, cfg: Config): (r: ActiveMap)
    ensures WellFormed(m) ==> WellFormed(r)
    decreases |es|
  {
    if |es| == 0 then m else Run(Step(m, es[0], cfg), es[1..], cfg)
  }

  /** A pair that no event in the sequence is about keeps its state through the whole run. */
  lemma {:induction false} RunPreservesUntouchedPairs(
    m: ActiveMap, es: seq<Event>, cfg: Config, l: string, id: string)
    requires forall i :: 0 <= i < |es| ==> (TrackedLabel(es[i]), es[i].after.id) != (l, id)
    ensures (l, id) in Pairs(Run(m, es, cfg)) <==> (l, id) in Pairs(m)
    decreases |es|
  {
    if |es| > 0 {
      StepTouchesOnlyItsPair(m, es[0], cfg);
      assert (l, id) in Pairs(Step(m, es[0], cfg)) <==> (l, id) in Pairs(m);
      RunPreservesUntouchedPairs(Step(m, es[0], cfg), es[1..], cfg, l, id);
    }
  }

  /**
   * The number of events in the sequence that mark their pair active. Each
   * such event fires the trigger cards only if it is not throttled, so this
   * bounds the cards fired rather than counting them; it never exceeds the
   * number of accepted events.
   */
  function Triggers(m: ActiveMap, es: seq<Event>, cfg: Config): (n: nat)
    ensures n <= AcceptedCount(es, cfg.snapshotRequired)
    decreases |es|
  {
    if |es| == 0 then 0
    else
      var e := es[0];
      var d := Decide(e, cfg, IsActive(m, TrackedLabel(e), e.after.id));
      (if d == MarkActive then 1 else 0) + Triggers(Step(m, e, cfg), es[1..], cfg)
  }

  /** Whether some event of the sequence passes the admission filter. */
  predicate SomeAccepted(es: seq<Event>, snapshotRequired: bool) {
    exists i :: 0 <= i < |es| && Admit(es[i], snapshotRequired) == Accept
  }

  /** An event sequence has an accepted event iff its head is accepted or its tail has one. */
  lemma SomeAcceptedCons(es: seq<Event>, snapshotRequired: bool)
    requires |es| > 0
    ensures SomeAccepted(es, snapshotRequired) <==>
      Admit(es[0], snapshotRequired) == Accept || SomeAccepted(es[1..], snapshotRequired)
  {
    if SomeAccepted(es[1..], snapshotRequired) {
      var j :| 0 <= j < |es[1..]| && Admit(es[1..][j], snapshotRequired) == Accept;
      assert es[j + 1] == es[1..][j];
    }
    if SomeAccepted(es, snapshotRequired) && Admit(es[0], snapshotRequired) != Accept {
      var i :| 0 <= i < |es| && Admit(es[i], snapshotRequired) == Accept;
      assert es[1..][i - 1] == es[i];
    }
  }

  /**
   * With duplicate suppression on, a run of events for one pair that contains
   * no "end" and no false positive marks the pair active exactly once if the
   * pair was inactive and some event is accepted, and otherwise not at all.
   * The cards fire for that one event only if it is not throttled, so a
   * throttled first acceptance leaves the run with no trigger at all.
   */
  lemma {:induction false} UniqueEventsTriggerOnce(
    m: ActiveMap, es: seq<Event>, cfg: Config, l: string, id: string)
    requires cfg.uniqueEvents
    requires forall i :: 0 <= i < |es| ==> TrackedLabel(es[i]) == l && es[i].after.id == id
    requires forall i :: 0 <= i < |es| ==> es[i].kind != "end" && !es[i].after.falsePositive
    ensures Triggers(m, es, cfg) ==
      if !IsActive(m, l, id) && SomeAccepted(es, cfg.snapshotRequired) then 1 else 0
    decreases |es|
  {
    if |es| > 0 {
      var e := es[0];
      var next := Step(m, e, cfg);
      UniqueEventsTriggerOnce(next, es[1..], cfg, l, id);
      SomeAcceptedCons(es, cfg.snapshotRequired);
      if Decide(e, cfg, IsActive(m, l, id)) == MarkActive {
        assert IsActive(next, l, id);
      } else {
        assert next == m;
      }
    }
  }

  /** The number of events in the sequence that the admission filter accepts. */
  function AcceptedCount(es: seq<Event>, snapshotRequired: bool): (n: nat)
    ensures n == 0 <==> !SomeAccepted(es, snapshotRequired)
    decreases |es|
  {
    if |es| == 0 then 0
    else
      var rest := AcceptedCount(es[1..], snapshotRequired);
      SomeAcceptedCons(es, snapshotRequired);
      (if Admit(es[0], snapshotRequired) == Accept then 1 else 0) + rest
  }

  /**
   * With duplicate suppression off, every accepted event marks its pair
   * active, whatever the state of that pair: the sequence is marked once per
   * accepted event, and each of those fires the cards unless it is throttled.
   */
  lemma {:induction false} RepeatedEventsTriggerWithoutUniqueEvents(
    m: ActiveMap, es: seq<Event>, cfg: Config)
    requires !cfg.uniqueEvents
    ensures Triggers(m, es, cfg) == AcceptedCount(es, cfg.snapshotRequired)
    decreases |es|
  {
    if |es| > 0 {
      var e := es[0];
      if Admit(e, cfg.snapshotRequired) == Accept {
        AcceptedEventShape(e, cfg.snapshotRequired);
      }
      RepeatedEventsTriggerWithoutUniqueEvents(Step(m, e, cfg), es[1..], cfg);
    }
  }
}
