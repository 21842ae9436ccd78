/**
 * A model of the host's message relay, used to state end-to-end
 * properties of the messenger: what a sender's promise settles to once
 * the receiving context's `catch` listeners have run.
 *
 * The relay rules are the host's, not the helpers': every listener of the
 * receiving context runs once, in registration order; the first
 * `sendResponse` call answers the sender; a response sent after the
 * listener returned reaches the sender only if some listener returned
 * `true`; a channel some listener kept open with `true` but that nobody
 * ever answers never calls the sender back; a context with no listener,
 * or whose listeners all returned without answering or keeping the
 * channel open, makes the host report an error.
 */
module Transport {
  import opened Wrappers
  import opened Js
  import opened Messaging

  /** A listener that `catch` installed in the receiving context. */
  datatype Listener = Listener(messenger: ActionMessenger, handler: Value -> HandlerOutcome)

  /** What reaches the sender's callback: a reply, or nothing ever. */
  datatype Delivery = Replied(reply: Reply) | NeverReplies

  const NoReceiver: string := "Could not establish connection. Receiving end does not exist."
  const PortClosed: string := "The message port closed before a response was received."

  /** Every listener of the context, in registration order, runs on the envelope. */
  function RunAll(ls: seq<Listener>, msg: Envelope): (runs: seq<ListenerRun>)
    ensures |runs| == |ls|
  {
    if |ls| == 0 then []
    else [ls[0].messenger.Catch(ls[0].handler, msg)] + RunAll(ls[1..], msg)
  }

  /** The first response sent while the listeners ran. */
  function FirstSync(runs: seq<ListenerRun>): Option<Value>
  {
    if |runs| == 0 then None
    else if runs[0].syncResponse.Some? then runs[0].syncResponse
    else FirstSync(runs[1..])
  }

  /** Whether some listener returned `true`. */
  predicate AnyKeepAlive(runs: seq<ListenerRun>)
  {
    exists k :: 0 <= k < |runs| && runs[k].keepAlive
  }

  /** The first later response of a listener that kept the channel open. */
  function FirstLater(runs: seq<ListenerRun>): Option<Value>
  {
    if |runs| == 0 then None
    else if runs[0].keepAlive && runs[0].laterResponse.Some? then runs[0].laterResponse
    else FirstLater(runs[1..])
  }

  /** The host's relay rule. */
  function Relay(runs: seq<ListenerRun>): Delivery
  {
    if |runs| == 0 then Replied(Reply(Some(NoReceiver), Undefined))
    else if FirstSync(runs).Some? then Replied(Reply(None, FirstSync(runs).value))
    else if AnyKeepAlive(runs) then
      if FirstLater(runs).Some? then Replied(Reply(None, FirstLater(runs).value)) else NeverReplies
    else Replied(Reply(Some(PortClosed), Undefined))
  }

  /** Delivering an envelope to a context holding the listeners `ls`. */
  function Deliver(ls: seq<Listener>, msg: Envelope): Delivery
  {
    Relay(RunAll(ls, msg))
  }

  /**
   * Some listener of the context is registered for action `a`, and every
   * listener registered for `a` gives the same outcome on `data`.
   */
  ghost predicate Answers(ls: seq<Listener>, a: string, data: Value, outcome: HandlerOutcome)
  {
    && (exists k :: 0 <= k < |ls| && ls[k].messenger.action == a)
    && (forall k :: 0 <= k < |ls| && ls[k].messenger.action == a ==> ls[k].handler(data) == outcome)
  }

  /** No listener of the context is registered for action `a`. */
  ghost predicate Unheard(ls: seq<Listener>, a: string)
  {
    forall k :: 0 <= k < |ls| ==> ls[k].messenger.action != a
  }

  /** A run is either the listener ignoring the envelope or the one answer `r`. */
  lemma {:induction false} RunAllShape(ls: seq<Listener>, a: string, data: Value, outcome: HandlerOutcome)
    requires forall k :: 0 <= k < |ls| && ls[k].messenger.action == a ==> ls[k].handler(data) == outcome
    ensures forall k :: 0 <= k < |ls| ==>
              RunAll(ls, Envelope(a, data))[k] ==
              (if ls[k].messenger.action == a then Respond(data, outcome) else Ignored)
  {
    if |ls| > 0 {
      RunAllShape(ls[1..], a, data, outcome);
      var runs := RunAll(ls, Envelope(a, data));
      forall k | 0 <= k < |ls|
        ensures runs[k] == (if ls[k].messenger.action == a then Respond(data, outcome) else Ignored)
      {
        if k > 0 {
          assert runs[k] == RunAll(ls[1..], Envelope(a, data))[k - 1];
          assert ls[k] == ls[1..][k - 1];
        }
      }
    }
  }

  /** Runs made only of `Ignored` and one answer `r` relay like `r` alone. */
  lemma {:induction false} CollapseRuns(runs: seq<ListenerRun>, r: ListenerRun)
    requires forall k :: 0 <= k < |runs| ==> runs[k] == Ignored || runs[k] == r
    ensures r in runs ==> FirstSync(runs) == r.syncResponse
    ensures r in runs ==> FirstLater(runs) == (if r.keepAlive then r.laterResponse else None)
    ensures AnyKeepAlive(runs) <==> r in runs && r.keepAlive
    ensures r !in runs ==> FirstSync(runs).None? && FirstLater(runs).None?
  {
    if |runs| > 0 {
      CollapseRuns(runs[1..], r);
      assert forall k :: 0 < k < |runs| ==> runs[k] == runs[1..][k - 1];
      if AnyKeepAlive(runs) {
        var k :| 0 <= k < |runs| && runs[k].keepAlive;
        assert runs[k] == r;
      }
      if r in runs[1..] {
        var k :| 0 <= k < |runs[1..]| && runs[1..][k] == r;
        assert runs[k + 1].keepAlive == r.keepAlive;
      }
    }
  }

  /**
   * When every listener for the messenger's action answers alike, the
   * sender sees what that one answer relays on its own: the other
   * actions' listeners do not interfere.
   */
  lemma DeliverAnswered(ls: seq<Listener>, m: ActionMessenger, data: Value, outcome: HandlerOutcome)
    requires Answers(ls, m.action, data, outcome)
    ensures Deliver(ls, m.Wrap(data)) == Relay([Respond(data, outcome)])
  {
    var runs := RunAll(ls, m.Wrap(data));
    RunAllShape(ls, m.action, data, outcome);
    var k :| 0 <= k < |ls| && ls[k].messenger.action == m.action;
    assert runs[k] == Respond(data, outcome);
    CollapseRuns(runs, Respond(data, outcome));
    assert Respond(data, outcome) in [Respond(data, outcome)];
    CollapseRuns([Respond(data, outcome)], Respond(data, outcome));
  }

  /** A handler's plain return value reaches the sender, who resolves with it. */
  lemma SyncRoundTrip(ls: seq<Listener>, m: ActionMessenger, data: Value, v: Value)
    requires Answers(ls, m.action, data, Returns(v))
    ensures Deliver(ls, m.Wrap(data)) == Replied(Reply(None, v))
    ensures m.Broadcast(data, Reply(None, v)).outcome == Resolved(v)
  {
    DeliverAnswered(ls, m, data, Returns(v));
  }

  /** A handler's Promise keeps the channel open, and its value reaches the sender. */
  lemma AsyncRoundTrip(ls: seq<Listener>, m: ActionMessenger, data: Value, v: Value)
    requires Answers(ls, m.action, data, Fulfils(v))
    ensures Deliver(ls, m.Wrap(data)) == Replied(Reply(None, v))
  {
    DeliverAnswered(ls, m, data, Fulfils(v));
    var r := Respond(data, Fulfils(v));
    assert FirstSync([r]) == None;
  }

  /** A handler that throws makes the sender resolve, not reject, with `{error: ...}`. */
  lemma ThrowIsData(ls: seq<Listener>, m: ActionMessenger, data: Value, err: Value)
    requires Answers(ls, m.action, data, Throws(err))
    ensures Deliver(ls, m.Wrap(data)) == Replied(Reply(None, ErrorResponse(err)))
    ensures m.Broadcast(data, Reply(None, ErrorResponse(err))).outcome == Resolved(ErrorResponse(err))
  {
    DeliverAnswered(ls, m, data, Throws(err));
  }

  /** A handler's rejected Promise is only logged: no reply ever reaches the sender. */
  lemma RejectionUnanswered(ls: seq<Listener>, m: ActionMessenger, data: Value, reason: Value)
    requires Answers(ls, m.action, data, RejectsWith(reason))
    ensures Deliver(ls, m.Wrap(data)) == NeverReplies
  {
    DeliverAnswered(ls, m, data, RejectsWith(reason));
    var r := Respond(data, RejectsWith(reason));
    assert FirstSync([r]) == None && FirstLater([r]) == None;
  }

  /** With no listener for the action, no handler runs and the sender's promise rejects. */
  lemma UnheardRejects(ls: seq<Listener>, m: ActionMessenger, data: Value)
    requires Unheard(ls, m.action)
    ensures forall r :: r in RunAll(ls, m.Wrap(data)) ==> r.handlerInput.None?
    ensures Deliver(ls, m.Wrap(data)).Replied?
    ensures m.Broadcast(data, Deliver(ls, m.Wrap(data)).reply).outcome.Rejected?
  {
    RunAllShape(ls, m.action, data, Returns(Undefined));
    CollapseRuns(RunAll(ls, m.Wrap(data)), Respond(data, Returns(Undefined)));
  }

  /**
   * The `true` return is what lets a Promise's value through: the same run
   * with `keepAlive` false relays the closed-port error instead.
   */
  lemma KeepAliveNeeded(data: Value, v: Value)
    ensures var r := Respond(data, Fulfils(v));
            && r.keepAlive
            && Relay([r]) == Replied(Reply(None, v))
            && Relay([r.(keepAlive := false)]) == Replied(Reply(Some(PortClosed), Undefined))
  {
    var r := Respond(data, Fulfils(v));
    assert FirstSync([r]) == None;
    assert FirstSync([r.(keepAlive := false)]) == None;
    assert [r][0].keepAlive;
  }
}
