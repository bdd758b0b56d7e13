# Camera event tracking, modelled in Dafny

This project models the event logic of the camera device in `src/camera.ts`.
The device links an NVR's (Frigate's) MQTT detection feed to a home-automation
platform's "object detected" trigger cards. The model covers three parts:

- **The admission filter** (`shouldTriggerObjectDetection`), in `events.dfy`.
  Five guards run in a fixed order. The first one that fires gives the
  rejection reason: `no_snapshot`, `false_positive`, `stationary`,
  `neither_new_nor_update` or `no_label`.
- **The active-event tracker** (`setEventActive`, `setEventEnded`,
  `isEventActive`, `clearAllActiveEvents`):
  - `tracker.dfy` holds the map values as pure functions, plus lemmas about
    the abstract set of active (label, id) pairs.
  - `camera.dfy` holds the class `CameraDevice`, which updates the map and the
    `person_detected` capability in place and keeps a ghost log of the liveness
    polls it schedules.
- **The MQTT event handler** (`mqttHandleEvent`):
  - `dispatch.dfy` holds the per-(label, id) decision: ignore, mark active or
    mark ended.
  - `payload.dfy` builds the trigger payload: the clip URL and the
    comma-joined zone lists.

Each operation is paired with a partner:

- The filter is stated as "the first failing check, in rank order".
- Activation and ending add or remove exactly the pair (label, id) in the
  abstract view.
  A well-formed map is determined by its pairs, and ending a newly activated
  pair undoes the activation.
- The clip URL has a parser, and the two are proved to be inverses.
- `join(',')` has a `split(',')` reference. Splitting a join of a non-empty
  list of comma-free zone names gives the names back.
- The handler's decision is stated both ways: a pair is marked active exactly
  when the filter accepts and the pair is inactive or duplicate suppression is
  off. It is ended exactly on an "end" or false-positive event, and every
  other event leaves the map as it was.
- With duplicate suppression on, a run of events for one pair that contains
  no "end" and no false positive is marked active exactly once if the pair
  was inactive and some event is accepted, and otherwise not at all. An "end"
  closes the episode, so a later accepted event marks the pair again. With
  suppression off, a run is marked active once per accepted event.
- The trigger cards fire for a marking event only if it is not throttled.
  With suppression on, a throttled first acceptance therefore leaves the
  whole episode with no trigger at all: the pair is already active when the
  later events arrive (`Camera.ThrottledFirstScenario`).

JavaScript truthiness is written out. A missing or empty label is the empty
string, a missing flag is `false`, and a zone list that may be missing is an
`Option`. Event ids are always strings.

The order of the checks matters. `no_snapshot` is checked before
`false_positive`, so a false positive without a required snapshot is
rejected as `no_snapshot` (`Events.Admit`).

## Model

| member | source | states |
|---|---|---|
| Events.TrackedLabel | src/camera.ts:95 | the tracked label is the current label when there is one, else the previous one; it is present iff either label is |
| Events.Admit | src/camera.ts:13-39 | a rejection names a check that fails and every earlier check (by rank) passes; acceptance means no check fails |
| Events.AdmitAcceptsIffAllPass | src/camera.ts:13-39 | the filter accepts exactly when none of the five checks fails |
| Events.AcceptedEventShape | src/camera.ts:13-37 | an accepted event is a "new" or "update", is not a false positive, has a label, and has a snapshot when one is required |
| Tracker.IsActive | src/camera.ts:70-72 | the membership query is true iff (label, id) is in the abstract pair set |
| Tracker.Activate | src/camera.ts:43-50 | after activation the id is in the label's set; only that key changes; an already active pair leaves the map unchanged; the non-empty-set invariant is kept |
| Tracker.Deactivate | src/camera.ts:56-63 | unknown label: no change; otherwise only the id is removed, the key is deleted exactly when its set empties, and other labels are untouched; the invariant is kept |
| Tracker.PairsActivate | src/camera.ts:43-50 | activation adds exactly the pair (label, id) to the active pairs |
| Tracker.PairsDeactivate | src/camera.ts:56-63 | ending removes exactly the pair (label, id) from the active pairs |
| Tracker.PairsDetermineMap | src/camera.ts:60-63 | two maps that keep the invariant and have the same pairs are equal, so dropping emptied keys leaves no hidden state |
| Tracker.DeactivateUndoesActivate | src/camera.ts:42-68 | ending a pair that was newly activated restores the previous map |
| Payload.ClipURL | src/camera.ts:124-127 | the clip URL is empty iff the event has no clip; otherwise its length is that of base + "/api/events/" + id + "/clip.mp4", and `ClipURLRoundTrip` with `ParseClipURLSound` fix its content as exactly that string |
| Payload.ParseClipURL | src/camera.ts:126 | a URL the parser accepts has the length of the clip URL of the id it reads |
| Payload.ClipURLRoundTrip | src/camera.ts:126 | parsing the clip URL of an id gives back that id |
| Payload.ParseClipURLSound | src/camera.ts:126 | every URL the parser accepts is exactly the clip URL of the id it reads |
| Payload.Join | src/camera.ts:136-137 | a one-element list joins to itself; comma-free names joined give one comma fewer than there are names |
| Payload.SplitJoin | src/camera.ts:136-137 | splitting the joined non-empty list of comma-free zone names gives back the list |
| Payload.ZonesField | src/camera.ts:147-148 | a missing zone list and a present empty one both give ""; a present comma-free list gives one comma per gap |
| Payload.ZonesFieldSplitsBack | src/camera.ts:136-137 | a present non-empty list of comma-free zone names is read back exactly by splitting its field on ',' |
| Payload.ImageFor | src/camera.ts:114-121 | an image of each kind comes from the NVR, keyed by the event id, iff the event has a snapshot; otherwise it is that kind's placeholder |
| Payload.MakePayload | src/camera.ts:111-149 | the payload carries the tracked label, the camera and the event id; the snapshot and thumbnail are the event's images of those kinds; the clip URL is empty iff there is no clip, and otherwise parses back to the event id; both zone fields are the joined zone lists |
| Dispatch.Decide | src/camera.ts:97-102 | unlabelled events are ignored; the pair is marked active iff the event is labelled, the filter accepts, and the pair is inactive or suppression is off; otherwise it is ended iff the event is labelled and is "end" or a false positive |
| Dispatch.NoLabelRejectionUnreachable | src/camera.ts:95-99 | once the handler has a label, the filter never rejects with `no_label` |
| Dispatch.Step | src/camera.ts:101-153 | the map invariant is kept; an "end" or false-positive event leaves its pair inactive; an accepted event leaves its pair active; an unlabelled event, an ignored one, or a rejected one that is not "end" or a false positive leaves the map unchanged |
| Dispatch.StepTouchesOnlyItsPair | src/camera.ts:101-153 | handling an event changes no pair other than its own (label, id) |
| Dispatch.Run | src/camera.ts:92-155 | a sequence of events keeps the map invariant |
| Dispatch.RunPreservesUntouchedPairs | src/camera.ts:92-155 | a pair that no event in a sequence is about keeps its state through the sequence |
| Dispatch.Triggers | src/camera.ts:101-104 | counts the events that take the marking branch (each fires the cards unless throttled); it never exceeds the number of accepted events; the exact counts are in the two lemmas below |
| Dispatch.AcceptedCount | src/camera.ts:13-39 | the number of events the filter accepts is zero exactly when no event of the sequence is accepted |
| Dispatch.UniqueEventsTriggerOnce | src/camera.ts:101 | with suppression on, non-ending events for one pair mark it active exactly once if the pair was inactive and one of them is accepted, and otherwise never; the cards fire for that event only if it is not throttled |
| Dispatch.RepeatedEventsTriggerWithoutUniqueEvents | src/camera.ts:101 | with suppression off, a sequence marks its pairs active exactly once per accepted event, whether or not the pair is already active; each fires the cards unless throttled |
| Camera.CameraDevice.IsEventActive | src/camera.ts:70-72 | the device's query is true iff the pair is among its active pairs |
| Camera.CameraDevice.SetEventActive | src/camera.ts:42-54 | the map becomes its activation; a poll is scheduled exactly when the id is new; any "person" activation sets the capability; the invariant and the capability's agreement with the map are kept |
| Camera.CameraDevice.SetEventEnded | src/camera.ts:56-68 | the map becomes its deactivation (unknown label: nothing changes); the capability drops only when the "person" key goes; no poll is scheduled |
| Camera.CameraDevice.ClearAllActiveEvents | src/camera.ts:74-77 | the map is emptied and the capability is false |
| Camera.CameraDevice.PollTick | src/camera.ts:79-90 | a tick for an inactive pair changes nothing; an ongoing event schedules one more tick; a concluded one is ended once, with no further tick, and the capability drops only if that emptied the "person" key |
| Camera.CameraDevice.HandleEvent | src/camera.ts:92-155 | the map becomes `Step` of the old one; a payload is returned iff the decision marks active and the event is not throttled, and it is `MakePayload` of the event; a poll is scheduled only for a newly active pair; the capability's new value is given exactly for each decision |

## Left out

- The liveness poll's 10-second timer and its network query (`isEventOngoing`): timers and network I/O are not modelled. A tick is the method `PollTick`, which takes the NVR's answer as a parameter. The ghost log `polls` records each scheduled tick.
- Throttling (`shouldThrottle`, `recordTriggerForThrottling`): the rate limiter's state lives outside this file, so the throttle result is an input to `HandleEvent`.
- Image creation and fetching (`createImage`, snapshot and thumbnail download, the placeholder asset paths): these are platform and network calls. The payload records only where each image comes from: the NVR endpoint of its kind for the event, or the placeholder of its kind.
- Invoking the per-device and global trigger cards: these are platform calls. `HandleEvent` returns the payload that both cards would receive.
- Logging: the `eventInfo` records and every `logger` call are not modelled. The rejection reason is part of the filter's result instead.
- The capability write is modelled as a plain field. Its asynchronous completion, and any interleaving between messages and poll ticks across `await` points, are not modelled.
- The initial value of the `person_detected` capability comes from the platform, not from this file. The constructor takes it as a parameter.
- Camera.CameraDevice.constructor: the source's device constructor is not part of this file. The model's constructor only starts with an empty map and no scheduled polls.
- Camera.CameraDevice.HandleEvent: every platform and NVR call is assumed to succeed. In the source, the capability write, `createImage` and the snapshot and thumbnail fetches can reject. The error then propagates out of the handler after the map update and the poll scheduling, and no card fires. The model always returns the payload.
- Malformed events are not modelled. The model always has a `before` record, although the handler would throw on one without it. Ids are always strings, although the clip URL template would render a missing id as "undefined".
