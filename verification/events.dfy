/**
 * The event record delivered by the NVR's MQTT feed, and the admission
 * filter that decides whether an event may produce an "object detected"
 * trigger.
 *
 * JavaScript truthiness is made explicit: a label or id that is missing or
 * empty is the empty string, a flag that is missing is `false`, and a zone
 * list that may be missing is an `Option`.
 */
module Events {

  datatype Option<T> = None | Some(value: T) {
    function GetOr(default: T): T {
      match this
      case Some(v) => v
      case None => default
    }
  }

  /** One side (`before` or `after`) of a detection event. */
  datatype EventState = EventState(
    id: string,
    objectLabel: string,
    camera: string,
    stationary: bool,
    falsePositive: bool,
    hasSnapshot: bool,
    hasClip: bool,
    currentZones: Option<seq<string>>,
    enteredZones: Option<seq<string>>)

  /** An MQTT event; `kind` is the `type` tag, normally "new", "update" or "end". */
  datatype Event = Event(kind: string, before: EventState, after: EventState)

  /** A string is truthy in JavaScript exactly when it is non-empty. */
  predicate Present(s: string) {
    s != ""
  }

  /** The tracked label: the current label, or else the previous one. */
  function TrackedLabel(e: Event): (l: string)
    ensures Present(l) <==> Present(e.after.objectLabel) || Present(e.before.objectLabel)
    ensures Present(e.after.objectLabel) ==> l == e.after.objectLabel
    ensures !Present(e.after.objectLabel) ==> l == e.before.objectLabel
  {
    if Present(e.after.objectLabel) then e.after.objectLabel else e.before.objectLabel
  }

  /** The reason codes of the filter, in the order the checks run. */
  datatype Reason = NoSnapshot | FalsePositive | Stationary | NeitherNewNorUpdate | NoLabel

  datatype Verdict = Accept | Reject(reason: Reason)

  /** Position of a check in the filter's fixed order. */
  function Rank(q: Reason): nat {
    match q
    case NoSnapshot => 0
    case FalsePositive => 1
    case Stationary => 2
    case NeitherNewNorUpdate => 3
    case NoLabel => 4
  }

  /** Whether the check identified by `q` rejects `e`, taken on its own. */
  predicate Fails(q: Reason, e: Event, snapshotRequired: bool) {
    match q
    case NoSnapshot => snapshotRequired && !e.after.hasSnapshot
    case FalsePositive => e.after.falsePositive
    case Stationary => e.before.stationary && e.after.stationary
    case NeitherNewNorUpdate => e.kind != "new" && e.kind != "update"
    case NoLabel => !Present(e.before.objectLabel) && !Present(e.after.objectLabel)
  }

  /**
   * The admission filter: the five guards, in order; the first one that
   * fires decides the reason.
   */
  function Admit(e: Event, snapshotRequired: bool): (r: Verdict)
    ensures r == Accept ==> forall q: Reason :: !Fails(q, e, snapshotRequired)
    ensures r.Reject? ==> Fails(r.reason, e, snapshotRequired)
    ensures r.Reject? ==>
      forall q: Reason :: Rank(q) < Rank(r.reason) ==> !Fails(q, e, snapshotRequired)
  {
    if snapshotRequired && !e.after.hasSnapshot then Reject(NoSnapshot)
    else if e.after.falsePositive then Reject(FalsePositive)
    else if e.before.stationary && e.after.stationary then Reject(Stationary)
    else if e.kind != "new" && e.kind != "update" then Reject(NeitherNewNorUpdate)
    else if !Present(e.before.objectLabel) && !Present(e.after.objectLabel) then Reject(NoLabel)
    else Accept
  }

  /** The filter accepts exactly the events that no check rejects. */
  lemma AdmitAcceptsIffAllPass(e: Event, snapshotRequired: bool)
    ensures Admit(e, snapshotRequired) == Accept <==>
      forall q: Reason :: !Fails(q, e, snapshotRequired)
  {
  }

  /** Every event the filter accepts is a labelled "new" or "update" that is not a false positive. */
  lemma AcceptedEventShape(e: Event, snapshotRequired: bool)
    requires Admit(e, snapshotRequired) == Accept
    ensures e.kind == "new" || e.kind == "update"
    ensures !e.after.falsePositive
    ensures Present(TrackedLabel(e))
    ensures snapshotRequired ==> e.after.hasSnapshot
  {
  }
}
