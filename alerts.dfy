/**
 * The server's `detail` field ({ message, type }) and the four alert slots
 * (error, warning, info, success) the authentication forms show it in.
 */
module Alerts {
  import opened Wrappers

  /** A `detail` object: a message and the kind of alert it calls for. */
  datatype Detail = Detail(message: string, kind: string)

  datatype Slot = ErrorSlot | WarningSlot | InfoSlot | SuccessSlot

  /** The four slots' contents; `None` is an empty slot. */
  datatype Shown = Shown(error: Option<string>, warning: Option<string>, info: Option<string>, success: Option<string>) {
    function Get(slot: Slot): Option<string> {
      match slot
      case ErrorSlot => error
      case WarningSlot => warning
      case InfoSlot => info
      case SuccessSlot => success
    }

    function With(slot: Slot, message: string): (r: Shown)
      ensures r.Get(slot) == Some(message)
      ensures forall s :: s != slot ==> r.Get(s) == Get(s)
    {
      match slot
      case ErrorSlot => this.(error := Some(message))
      case WarningSlot => this.(warning := Some(message))
      case InfoSlot => this.(info := Some(message))
      case SuccessSlot => this.(success := Some(message))
    }

    /** No two alerts are shown together. */
    predicate AtMostOne() {
      forall s, t :: Get(s).Some? && Get(t).Some? ==> s == t
    }
  }

  const Nothing := Shown(None, None, None, None)

  /** Exactly `message`, in `slot`, and nothing else. */
  function Only(slot: Slot, message: string): (r: Shown)
    ensures r.AtMostOne()
    ensures r.Get(slot) == Some(message)
    ensures forall s :: s != slot ==> r.Get(s) == None
  {
    Nothing.With(slot, message)
  }

  /** The slot a `type` names, when it names one. */
  function NamedSlot(kind: string): Option<Slot> {
    if kind == "success" then Some(SuccessSlot)
    else if kind == "info" then Some(InfoSlot)
    else if kind == "warning" then Some(WarningSlot)
    else if kind == "error" then Some(ErrorSlot)
    else None
  }

  /** The slot a `type` names is the slot whose name it is. */
  lemma NamedSlotNames(kind: string, slot: Slot)
    ensures NamedSlot(kind) == Some(slot) <==>
      kind == match slot case SuccessSlot => "success" case InfoSlot => "info" case WarningSlot => "warning" case ErrorSlot => "error"
  {
  }

  /** Where a detail in a resolved response goes: an unknown type is shown as info. */
  function ResponseSlot(kind: string): (slot: Slot)
    ensures slot == ErrorSlot <==> kind == "error"
    ensures slot == WarningSlot <==> kind == "warning"
    ensures slot == SuccessSlot <==> kind == "success"
  {
    NamedSlot(kind).GetOr(InfoSlot)
  }

  /** Where a detail carried by a thrown error goes: an unknown type is shown as an error. */
  function ThrownSlot(kind: string): (slot: Slot)
    ensures slot == InfoSlot <==> kind == "info"
    ensures slot == WarningSlot <==> kind == "warning"
    ensures slot == SuccessSlot <==> kind == "success"
  {
    NamedSlot(kind).GetOr(ErrorSlot)
  }

  /** The two routings agree exactly on the four known types. */
  lemma RoutingsDifferOnUnknownTypes(kind: string)
    ensures ResponseSlot(kind) == ThrownSlot(kind) <==> NamedSlot(kind).Some?
    ensures NamedSlot(kind).None? ==> ResponseSlot(kind) == InfoSlot && ThrownSlot(kind) == ErrorSlot
  {
  }

  /**
   * What the call behind a form's submission came to: a resolved response
   * with or without a `detail`, or a thrown value with an object `detail`
   * (`Some`) or without one, in which case its `message` (empty when absent).
   */
  datatype Outcome = Resolved(detail: Option<Detail>) | Rejected(detail: Option<Detail>, message: string)

  /** The detail is there and of type "success". */
  predicate IsSuccess(detail: Option<Detail>) {
    detail.Some? && detail.value.kind == "success"
  }

  /**
   * The alerts a settled call leaves, from all slots empty: the detail's
   * message in its slot, nothing for a resolved response without detail, and
   * for a thrown value without a detail its message, or `fallback` when it
   * has none.
   */
  function OutcomeAlerts(outcome: Outcome, fallback: string): (shown: Shown)
    ensures shown.AtMostOne()
    ensures shown == Nothing <==> outcome == Resolved(None)
  {
    match outcome
    case Resolved(None) => Nothing
    case Resolved(Some(d)) => Only(ResponseSlot(d.kind), d.message)
    case Rejected(Some(d), _) => Only(ThrownSlot(d.kind), d.message)
    case Rejected(None, m) => Only(ErrorSlot, if m != "" then m else fallback)
  }

  /**
   * A settled call shows at most one alert; it shows the detail's message
   * when there is a detail, and a rejected call always shows something.
   */
  lemma OutcomeAlertsShape(outcome: Outcome, fallback: string)
    ensures outcome.detail.Some? ==>
      var d := outcome.detail.value;
      var slot := if outcome.Resolved? then ResponseSlot(d.kind) else ThrownSlot(d.kind);
      OutcomeAlerts(outcome, fallback).Get(slot) == Some(d.message)
    ensures outcome.Rejected? ==> exists s :: OutcomeAlerts(outcome, fallback).Get(s).Some?
    ensures outcome.Rejected? && outcome.detail.None? ==>
      OutcomeAlerts(outcome, fallback) == Only(ErrorSlot, if outcome.message != "" then outcome.message else fallback)
    ensures outcome == Resolved(None) ==> OutcomeAlerts(outcome, fallback) == Nothing
  {
    match outcome
    case Resolved(None) =>
    case Resolved(Some(d)) =>
    case Rejected(Some(d), _) =>
      assert OutcomeAlerts(outcome, fallback).Get(ThrownSlot(d.kind)).Some?;
    case Rejected(None, m) =>
      assert OutcomeAlerts(outcome, fallback).Get(ErrorSlot).Some?;
  }

  /** The four alert slots of one form. */
  class AlertSlots {
    var error: Option<string>
    var warning: Option<string>
    var info: Option<string>
    var success: Option<string>

    constructor ()
      ensures Current() == Nothing
    {
      error, warning, info, success := None, None, None, None;
    }

    function Current(): Shown
      reads this
    {
      Shown(error, warning, info, success)
    }

    /** The four `setX(null)` calls that open every submission. */
    method Clear()
      modifies this
      ensures Current() == Nothing
    {
      error, warning, info, success := None, None, None, None;
    }

    /** One `setX(message)`. */
    method Show(slot: Slot, message: string)
      modifies this
      ensures Current() == old(Current()).With(slot, message)
    {
      match slot
      case ErrorSlot => error := Some(message);
      case WarningSlot => warning := Some(message);
      case InfoSlot => info := Some(message);
      case SuccessSlot => success := Some(message);
    }

    /** Shows what a settled call calls for (slots empty beforehand). */
    method ShowOutcome(outcome: Outcome, fallback: string)
      requires Current() == Nothing
      modifies this
      ensures Current() == OutcomeAlerts(outcome, fallback)
    {
      match outcome
      case Resolved(None) =>
      case Resolved(Some(d)) => Show(ResponseSlot(d.kind), d.message);
      case Rejected(Some(d), _) => Show(ThrownSlot(d.kind), d.message);
      case Rejected(None, m) => Show(ErrorSlot, if m != "" then m else fallback);
    }
  }
}
