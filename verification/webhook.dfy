/**
 * The `/webhook` route: every event of a delivery is handled, and the
 * delivery is answered 200 when all of them succeed and 500 as soon as one
 * fails. Events are handled concurrently in the service; here they are
 * handled one after another, each with its own context.
 */
module Webhook {
  import opened Wrappers
  import opened Router

  const StatusOk := 200
  const StatusServerError := 500

  /** The HTTP status of the delivery and the replies sent while handling it. */
  datatype Delivery = Delivery(status: int, replies: seq<Reply>)

  /** `Promise.all(events.map(handleEvent))`, then `sendStatus`. */
  function Deliver(events: seq<Event>, ctxs: seq<Context>): (d: Delivery)
    requires |ctxs| == |events|
    ensures d.status == StatusOk || d.status == StatusServerError
    ensures d.status == StatusOk <==> forall i :: 0 <= i < |events| ==> HandleEvent(events[i], ctxs[i]).Success?
    ensures |d.replies| <= |events|
    ensures forall r :: r in d.replies ==>
              exists i :: 0 <= i < |events| && HandleEvent(events[i], ctxs[i]) == Success(Some(r))
    ensures forall i, r :: 0 <= i < |events| && HandleEvent(events[i], ctxs[i]) == Success(Some(r)) ==>
              r in d.replies
  {
    if |events| == 0 then Delivery(StatusOk, [])
    else
      var rest := Deliver(events[1..], ctxs[1..]);
      assert forall i :: 0 < i < |events| ==> events[1..][i - 1] == events[i] && ctxs[1..][i - 1] == ctxs[i];
      match HandleEvent(events[0], ctxs[0])
      case Failure(_) => Delivery(StatusServerError, rest.replies)
      case Success(None) => rest
      case Success(Some(reply)) => Delivery(rest.status, [reply] + rest.replies)
  }

  /** The actionable events of a delivery, in order. */
  function Actionable(events: seq<Event>): (a: seq<Event>)
    ensures |a| <= |events|
    ensures forall e :: e in a ==> e in events && IsActionable(e)
  {
    if |events| == 0 then []
    else (if IsActionable(events[0]) then [events[0]] else []) + Actionable(events[1..])
  }

  /** How many actionable events of a delivery fail. */
  function FailedActionable(events: seq<Event>, ctxs: seq<Context>): nat
    requires |ctxs| == |events|
  {
    if |events| == 0 then 0
    else (if IsActionable(events[0]) && HandleEvent(events[0], ctxs[0]).Failure? then 1 else 0)
         + FailedActionable(events[1..], ctxs[1..])
  }

  /**
   * Every actionable event either gets its one reply or fails: the replies
   * sent plus the failed actionable events make up all actionable events.
   */
  lemma {:induction false} RepliesAccountForActionable(events: seq<Event>, ctxs: seq<Context>)
    requires |ctxs| == |events|
    ensures |Deliver(events, ctxs).replies| + FailedActionable(events, ctxs) == |Actionable(events)|
  {
    if |events| > 0 {
      RepliesAccountForActionable(events[1..], ctxs[1..]);
    }
  }

  /**
   * A delivery answered 200 sent exactly one reply per actionable event, in
   * order, each to that event's reply token.
   */
  lemma {:induction false} SuccessfulDeliveryRepliesToEach(events: seq<Event>, ctxs: seq<Context>)
    requires |ctxs| == |events|
    requires Deliver(events, ctxs).status == StatusOk
    ensures var d := Deliver(events, ctxs);
            && |d.replies| == |Actionable(events)|
            && forall k :: 0 <= k < |d.replies| ==> d.replies[k].replyToken == Actionable(events)[k].replyToken
  {
    if |events| > 0 {
      var rest := Deliver(events[1..], ctxs[1..]);
      assert HandleEvent(events[0], ctxs[0]).Success?;
      assert rest.status == StatusOk by {
        forall i | 0 <= i < |events| - 1 ensures HandleEvent(events[1..][i], ctxs[1..][i]).Success? {
          assert events[1..][i] == events[i + 1] && ctxs[1..][i] == ctxs[i + 1];
        }
      }
      SuccessfulDeliveryRepliesToEach(events[1..], ctxs[1..]);
      if IsActionable(events[0]) {
        var reply := HandleEvent(events[0], ctxs[0]).value.value;
        assert Deliver(events, ctxs).replies == [reply] + rest.replies;
        assert Actionable(events) == [events[0]] + Actionable(events[1..]);
      } else {
        assert Deliver(events, ctxs) == rest;
        assert Actionable(events) == Actionable(events[1..]);
      }
    }
  }

  /** One failing event, wherever it stands in the delivery, makes the answer 500. */
  lemma OneFailureFailsDelivery(events: seq<Event>, ctxs: seq<Context>, i: nat)
    requires |ctxs| == |events| && i < |events|
    requires HandleEvent(events[i], ctxs[i]).Failure?
    ensures Deliver(events, ctxs).status == StatusServerError
  {
  }

  /** A delivery with no actionable and no malformed event sends nothing and is answered 200. */
  lemma {:induction false} QuietDelivery(events: seq<Event>, ctxs: seq<Context>)
    requires |ctxs| == |events|
    requires forall i :: 0 <= i < |events| ==> HandleEvent(events[i], ctxs[i]) == Success(None)
    ensures Deliver(events, ctxs) == Delivery(StatusOk, [])
  {
    if |events| > 0 {
      QuietDelivery(events[1..], ctxs[1..]);
    }
  }
}
