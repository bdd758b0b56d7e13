/**
 * The camera device's event-tracking state and operations: the
 * `activeEvents` map updated in place, the `person_detected` capability as a
 * plain field, and a ghost log of the liveness polls scheduled so far.
 */
module Camera {
  import opened Events
  import opened Tracker
  import opened Payload
  import opened Dispatch

  class CameraDevice {
    /** Tracked label -> ids of the events currently considered ongoing. */
    var activeEvents: ActiveMap
    /** The `person_detected` capability. */
    var personDetected: bool
    /** Every liveness poll scheduled, as the (label, id) it checks, in order. */
    ghost var polls: seq<(string, string)>

    const config: Config
    /** Base URL of the NVR's HTTP API. */
    const frigateURL: string

    ghost predicate Valid()
      reads this
    {
      WellFormed(activeEvents)
    }

    /** The capability agrees with the map: true exactly while a "person" event is active. */
    ghost predicate PersonSynced()
      reads this
    {
      personDetected == (Person in activeEvents)
    }

    /** A device starts with nothing tracked; the capability keeps whatever value it had. */
    constructor (config: Config, frigateURL: string, personDetected: bool)
      ensures Valid()
      ensures activeEvents == map[] && polls == []
      ensures this.personDetected == personDetected
      ensures this.config == config && this.frigateURL == frigateURL
    {
      this.config := config;
      this.frigateURL := frigateURL;
      this.personDetected := personDetected;
      activeEvents := map[];
      polls := [];
    }

    /** `isEventActive`: whether `id` is among the active events of label `l`. */
    function IsEventActive(l: string, id: string): (b: bool)
      reads this
      ensures b <==> (l, id) in Pairs(activeEvents)
    {
      IsActive(activeEvents, l, id)
    }

    /**
     * `setEventActive`: adds the id to the label's set, scheduling a liveness
     * poll only if the id is new; any "person" event raises the capability.
     */
    method SetEventActive(l: string, id: string)
      requires Valid()
      modifies this
      ensures Valid()
      ensures activeEvents == Activate(old(activeEvents), l, id)
      ensures Pairs(activeEvents) == old(Pairs(activeEvents)) + {(l, id)}
      ensures polls == old(polls) + if old(IsEventActive(l, id)) then [] else [(l, id)]
      ensures personDetected == (l == Person || old(personDetected))
      ensures old(PersonSynced()) ==> PersonSynced()
    {
      PairsActivate(activeEvents, l, id);
      if l !in activeEvents {
        activeEvents := activeEvents[l := {}];
      }
      var events := activeEvents[l];
      if id !in events {
        activeEvents := activeEvents[l := events + {id}];
        polls := polls + [(l, id)];
      }
      if l == Person {
        personDetected := true;
      }
    }

    /**
     * `setEventEnded`: a no-op for an unknown label; otherwise removes the id,
     * drops the label once its set is empty, and lowers the capability when
     * that label is "person".
     */
    method SetEventEnded(l: string, id: string)
      requires Valid()
      modifies this
      ensures Valid()
      ensures activeEvents == Deactivate(old(activeEvents), l, id)
      ensures Pairs(activeEvents) == old(Pairs(activeEvents)) - {(l, id)}
      ensures polls == old(polls)
      ensures personDetected ==
        if l == Person && l in old(activeEvents) && l !in activeEvents then false
        else old(personDetected)
      ensures old(PersonSynced()) ==> PersonSynced()
    {
      PairsDeactivate(activeEvents, l, id);
      if l !in activeEvents {
        return;
      }
      var events := activeEvents[l] - {id};
      activeEvents := activeEvents[l := events];
      if events == {} {
        activeEvents := activeEvents - {l};
        if l == Person {
          personDetected := false;
        }
      }
    }

    /** `clearAllActiveEvents`: forget every event and lower the capability. */
    method ClearAllActiveEvents()
      modifies this
      ensures Valid() && PersonSynced()
      ensures activeEvents == map[] && !personDetected
      ensures polls == old(polls)
    {
      activeEvents := map[];
      personDetected := false;
    }

    /**
     * One tick of the liveness poll for (l, id), given the NVR's answer: a
     * tick for a pair no longer active stops; an ongoing event schedules the
     * next tick; a concluded one is ended, with no further tick.
     */
    method PollTick(l: string, id: string, ongoing: bool)
      requires Valid()
      modifies this
      ensures Valid()
      ensures !old(IsEventActive(l, id)) ==>
        activeEvents == old(activeEvents) && personDetected == old(personDetected) && polls == old(polls)
      ensures old(IsEventActive(l, id)) && ongoing ==>
        activeEvents == old(activeEvents) && personDetected == old(personDetected)
        && polls == old(polls) + [(l, id)]
      ensures old(IsEventActive(l, id)) && !ongoing ==>
        activeEvents == Deactivate(old(activeEvents), l, id) && !IsEventActive(l, id)
        && polls == old(polls)
        && personDetected == if l == Person && l !in activeEvents then false else old(personDetected)
      ensures old(PersonSynced()) ==> PersonSynced()
    {
      if IsEventActive(l, id) {
        if ongoing {
          polls := polls + [(l, id)];
        } else {
          SetEventEnded(l, id);
        }
      }
    }

    /**
     * `mqttHandleEvent`: applies the decision for the event's pair and returns
     * the trigger payload when the triggers fire. `throttled` is the answer of
     * the global rate limiter; a throttled event is still marked active.
     */
    method HandleEvent(e: Event, throttled: bool) returns (fired: Option<TriggerPayload>)
      requires Valid()
      modifies this
      ensures Valid()
      ensures activeEvents == Step(old(activeEvents), e, config)
      ensures fired.Some? <==>
        Decide(e, config, old(IsEventActive(TrackedLabel(e), e.after.id))) == MarkActive && !throttled
      ensures fired.Some? ==> fired.value == MakePayload(e, TrackedLabel(e), frigateURL)
      ensures polls == old(polls) +
        if Decide(e, config, old(IsEventActive(TrackedLabel(e), e.after.id))) == MarkActive
           && !old(IsEventActive(TrackedLabel(e), e.after.id))
        then [(TrackedLabel(e), e.after.id)] else []
      ensures personDetected ==
        match Decide(e, config, old(IsEventActive(TrackedLabel(e), e.after.id)))
        case MarkActive => TrackedLabel(e) == Person || old(personDetected)
        case MarkEnded =>
          if TrackedLabel(e) == Person && Person in old(activeEvents) && Person !in activeEvents then false
          else old(personDetected)
        case Ignore => old(personDetected)
      ensures old(PersonSynced()) ==> PersonSynced()
    {
      var id := e.after.id;
      var tracked := TrackedLabel(e);
      if !Present(tracked) {
        return None;
      }
      if Admit(e, config.snapshotRequired) == Accept && (!IsEventActive(tracked, id) || !config.uniqueEvents) {
        SetEventActive(tracked, id);
        if throttled {
          fired := None;
        } else {
          fired := Some(MakePayload(e, tracked, frigateURL));
        }
      } else if e.kind == "end" || e.after.falsePositive {
        SetEventEnded(tracked, id);
        fired := None;
      } else {
        fired := None;
      }
    }
  }

  /**
   * A client: the same "new" person event delivered twice with duplicate
   * suppression on triggers once, with an empty clip URL; the "end" event
   * then ends it and lowers the capability.
   */
  method DuplicateNewScenario()
  {
    var cam := new CameraDevice(Config(false, true), "http://nvr", false);
    var side := EventState("e1", "person", "front", false, false, true, false, None, None);
    var e := Event("new", side, side);
    var first := cam.HandleEvent(e, false);
    assert first == Some(MakePayload(e, "person", "http://nvr"));
    assert first.value.objectLabel == "person" && first.value.cameraName == "front";
    assert first.value.clipURL == "";
    assert cam.personDetected;
    var second := cam.HandleEvent(e, false);
    assert second == None;
    assert |cam.polls| == 1;
    var end := cam.HandleEvent(Event("end", side, side), false);
    assert end == None;
    assert cam.activeEvents == map[] && !cam.personDetected;
  }

  /**
   * A client: with duplicate suppression on, a throttled first "new" marks
   * its pair active without firing, and the "update" that follows is
   * suppressed as a duplicate, so the episode fires no trigger at all.
   */
  method ThrottledFirstScenario()
  {
    var cam := new CameraDevice(Config(false, true), "http://nvr", false);
    var side := EventState("e2", "person", "front", false, false, false, false, None, None);
    var first := cam.HandleEvent(Event("new", side, side), true);
    assert first == None && cam.IsEventActive("person", "e2");
    var second := cam.HandleEvent(Event("update", side, side), false);
    assert second == None && |cam.polls| == 1;
  }

  /** A device whose capability starts raised keeps it through events for other labels. */
  method OtherLabelScenario()
  {
    var cam := new CameraDevice(Config(false, true), "http://nvr", true);
    var side := EventState("c1", "car", "drive", false, false, false, false, None, None);
    var fired := cam.HandleEvent(Event("new", side, side), false);
    assert fired.Some? && cam.personDetected;
    cam.PollTick("car", "c1", false);
    assert cam.personDetected && !cam.IsEventActive("car", "c1");
  }
}
