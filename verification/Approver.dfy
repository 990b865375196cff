/**
 The polling approver of internal/approval/tailscale.go. What the select statement of its
 loop receives is a list of events that ends with the timeout of the approval context.
 */
module Approver {
  datatype Decision = Denied | Approved
  datatype Cause = Rejected | Expired | Unreachable
  datatype RelayStatus = RelayPending | RelayApproved | RelayDenied | RelayExpired | Unrecognized

  /** A poll answers, or fails before or because of the timeout. */
  datatype Poll = Answer(status: RelayStatus) | Failure(timedOut: bool)

  datatype Event = Done | Tick(poll: Poll)

  /** Events that end the loop. */
  predicate Decisive(e: Event) {
    e.Done? || (e.poll.Answer? && e.poll.status in {RelayApproved, RelayDenied, RelayExpired})
  }

  function FirstDecisive(events: seq<Event>): (k: nat)
    ensures k <= |events|
    ensures k < |events| ==> Decisive(events[k])
    ensures forall i :: 0 <= i < k ==> !Decisive(events[i])
  {
    if events == [] || Decisive(events[0]) then 0
    else
      var k := FirstDecisive(events[1..]);
      assert forall i :: 1 <= i < k + 1 ==> events[i] == events[1..][i - 1];
      k + 1
  }

  /** The human said yes: there is an ID on the relay, and the first event that ends the loop is an approval. */
  predicate SaidYes(idOk: bool, registered: bool, events: seq<Event>) {
    && idOk && registered && FirstDecisive(events) < |events|
    && events[FirstDecisive(events)] == Tick(Answer(RelayApproved))
  }

  /** The relay did not answer a poll although there was time. */
  predicate FailedInTime(e: Event) { e.Tick? && e.poll == Failure(false) }

  predicate Answered(e: Event) { e.Tick? && e.poll.Answer? }

  class TailscaleApprover {
    var cause: Cause

    constructor ()
      ensures cause == Expired
    {
      cause := Expired;
    }

    /**
     Approved exactly if the first event that ends the loop is an approval by the relay. The
     cause separates an explicit no, an unreachable relay (no ID on it, or polls that only
     failed) and a request that was never answered.
     */
    method Approve(idOk: bool, registered: bool, events: seq<Event>) returns (decision: Decision, failed: bool)
      requires events != [] && events[|events| - 1].Done?
      modifies this
      ensures FirstDecisive(events) < |events|
      ensures failed <==> !idOk || !registered
      ensures decision == Approved <==> SaidYes(idOk, registered, events)
      ensures decision == Denied ==>
                var k := FirstDecisive(events);
                && (cause == Rejected <==> !failed && events[k] == Tick(Answer(RelayDenied)))
                && (cause == Unreachable <==>
                      idOk && (!registered
                               || (events[k].Done? && (exists i :: 0 <= i < k && FailedInTime(events[i]))
                                   && (forall i :: 0 <= i < k ==> !Answered(events[i])))))
    {
      cause := Expired;
      if !idOk { return Denied, true; }
      if !registered {
        cause := Unreachable;
        return Denied, true;
      }
      var pollFailures := 0;
      var pollSucceeded := false;
      var k := 0;
      while true
        invariant 0 <= k < |events| && cause == Expired && pollFailures >= 0
        invariant forall i :: 0 <= i < k ==> !Decisive(events[i])
        invariant pollFailures > 0 <==> exists i :: 0 <= i < k && FailedInTime(events[i])
        invariant pollSucceeded <==> exists i :: 0 <= i < k && Answered(events[i])
        decreases |events| - k
      {
        match events[k] {
          case Done =>
            if pollFailures > 0 && !pollSucceeded { cause := Unreachable; }
            return Denied, false;
          case Tick(Failure(timedOut)) =>
            if !timedOut { pollFailures := pollFailures + 1; }
          case Tick(Answer(status)) =>
            pollSucceeded := true;
            match status {
              case RelayApproved => return Approved, false;
              case RelayDenied =>
                cause := Rejected;
                return Denied, false;
              case RelayExpired =>
                cause := Expired;
                return Denied, false;
              case RelayPending =>
              case Unrecognized =>
            }
        }
        k := k + 1;
      }
    }
  }
}
