/**
 * The action-addressed messenger of src/events/messaging.ts.
 *
 * A messenger is bound to one action string. Every message it sends is the
 * envelope `{action, data}`; every listener it installs answers only
 * envelopes carrying its action. The host's send primitives are callbacks:
 * their outcome (`chrome.runtime.lastError` and the response) is an input
 * of the model, and what the model returns is the message handed to the
 * host together with the way the caller's promise settles.
 */
module Messaging {
  import opened Wrappers
  import opened Js
  import opened Host

  /** The wire shape of every message. */
  datatype Envelope = Envelope(action: string, data: Value)

  /** Where a message is handed to the host: the runtime bus or one tab. */
  datatype Destination = Runtime | ToTab(id: int)

  /** One call of `chrome.runtime.sendMessage` or `chrome.tabs.sendMessage`. */
  datatype Send = Send(dest: Destination, envelope: Envelope)

  /** What the host passes to a send callback: `chrome.runtime.lastError` and the response. */
  datatype Reply = Reply(lastError: Option<string>, response: Value)

  /** How the promise returned to the caller settles. */
  datatype Settled = Resolved(value: Value) | Rejected(error: string)

  /** One send operation: the message handed to the host, if any, and the outcome. */
  datatype Call = Call(sent: Option<Send>, outcome: Settled)

  /** What a handler registered with `catch` does with a payload. */
  datatype HandlerOutcome =
    | Returns(v: Value)           // returns a value that is not a Promise
    | Fulfils(v: Value)           // returns a Promise that later fulfils with v
    | RejectsWith(reason: Value)  // returns a Promise that later rejects
    | Throws(err: Value)          // throws synchronously

  /**
   * What one run of a `catch` listener does with one inbound envelope:
   * the payload the handler was called with (if it was called), whether
   * the listener returned `true`, the value passed to `sendResponse`
   * before the listener returned, the value passed to it later, and what
   * was passed to `console.error`.
   */
  datatype ListenerRun = ListenerRun(
    handlerInput: Option<Value>,
    keepAlive: bool,
    syncResponse: Option<Value>,
    laterResponse: Option<Value>,
    logged: Option<Value>)

  /** The run of a listener that does not answer the envelope at all. */
  const Ignored := ListenerRun(None, false, None, None, None)

  /** `err?.message || err`: an error object's message when it is truthy, else the thrown value. */
  function ErrorText(err: Value): (t: Value)
    ensures err.Obj? && "message" in err.fields && Truthy(err.fields["message"]) ==> t == err.fields["message"]
    ensures !(err.Obj? && "message" in err.fields && Truthy(err.fields["message"])) ==> t == err
  {
    match err
    case Obj(f) => if "message" in f && Truthy(f["message"]) then f["message"] else err
    case _ => err
  }

  /** The structured `{error: ...}` response sent when a handler throws. */
  function ErrorResponse(err: Value): (r: Value)
    ensures r.Obj? && r.fields.Keys == {"error"} && r.fields["error"] == ErrorText(err)
  {
    Obj(map["error" := ErrorText(err)])
  }

  /** A send callback keeps a reply only when there is no error and the response is defined. */
  predicate Accepted(r: Reply)
  {
    r.lastError.None? && r.response != Undefined
  }

  datatype ActionMessenger = ActionMessenger(action: string) {

    /** The envelope built for every outgoing message. */
    function Wrap(payload: Value): (e: Envelope)
      ensures e.action == action && e.data == payload
    {
      Envelope(action, payload)
    }

    /** The callback shared by `broadcast` and `sendToTab`. */
    function Settle(reply: Reply): (s: Settled)
      ensures s.Rejected? <==> reply.lastError.Some?
      ensures reply.lastError.Some? ==> s.error == reply.lastError.value
      ensures reply.lastError.None? ==> s.value == reply.response
    {
      match reply.lastError
      case Some(err) => Rejected(err)
      case None => Resolved(reply.response)
    }

    /** `broadcast`: one message on the runtime bus; rejects iff the host reports an error. */
    function Broadcast(payload: Value, reply: Reply): (c: Call)
      ensures c.sent == Some(Send(Runtime, Envelope(action, payload)))
      ensures c.outcome.Rejected? <==> reply.lastError.Some?
      ensures c.outcome.Resolved? ==> c.outcome.value == reply.response
    {
      Call(Some(Send(Runtime, Wrap(payload))), Settle(reply))
    }

    /** `sendToTab`: one message to the given tab; rejects iff the host reports an error. */
    function SendToTab(tabId: int, payload: Value, reply: Reply): (c: Call)
      ensures c.sent == Some(Send(ToTab(tabId), Envelope(action, payload)))
      ensures c.outcome.Rejected? <==> reply.lastError.Some?
      ensures c.outcome.Resolved? ==> c.outcome.value == reply.response
    {
      Call(Some(Send(ToTab(tabId), Wrap(payload))), Settle(reply))
    }

    /**
     * `sendToCurrentTab`: `current` is what the host reports as the active
     * tab. Without a tab or a tab id nothing is sent and the result is
     * `undefined`; otherwise it is exactly `sendToTab` on that id.
     */
    function SendToCurrentTab(current: Option<Tab>, payload: Value, reply: Reply): (c: Call)
      ensures (current.None? || current.value.id.None?) ==> c == Call(None, Resolved(Undefined))
      ensures current.Some? && current.value.id.Some? ==>
                c == SendToTab(current.value.id.value, payload, reply)
    {
      if current.Some? && current.value.id.Some? then
        SendToTab(current.value.id.value, payload, reply)
      else
        Call(None, Resolved(Undefined))
    }

    /**
     * The listener installed by `catch(handler)`, run on one inbound
     * envelope: the handler runs only for this messenger's action.
     */
    function Catch(handler: Value -> HandlerOutcome, msg: Envelope): (run: ListenerRun)
      ensures msg.action != action ==> run == Ignored
      ensures msg.action == action ==> run == Respond(msg.data, handler(msg.data))
    {
      if msg.action != action then Ignored else Respond(msg.data, handler(msg.data))
    }
  }

  /**
   * What the `catch` listener does once the handler has run on `data` with
   * the given outcome. Only a returned Promise keeps the response channel
   * open (the listener returns `true`); a thrown error is answered with
   * `{error: ...}` and a rejected Promise only logged.
   */
  function Respond(data: Value, outcome: HandlerOutcome): (run: ListenerRun)
    ensures run.handlerInput == Some(data)
    ensures run.keepAlive <==> outcome.Fulfils? || outcome.RejectsWith?
    ensures run.syncResponse.None? || run.laterResponse.None?
    ensures match outcome
            case Returns(v) => run.syncResponse == Some(v) && run.laterResponse.None? && run.logged.None?
            case Fulfils(v) => run.syncResponse.None? && run.laterResponse == Some(v) && run.logged.None?
            case RejectsWith(e) => run.syncResponse.None? && run.laterResponse.None? && run.logged == Some(e)
            case Throws(e) =>
              run.syncResponse == Some(ErrorResponse(e)) && run.laterResponse.None? && run.logged == Some(e)
  {
    match outcome
    case Returns(v) => ListenerRun(Some(data), false, Some(v), None, None)
    case Fulfils(v) => ListenerRun(Some(data), true, None, Some(v), None)
    case RejectsWith(e) => ListenerRun(Some(data), true, None, None, Some(e))
    case Throws(e) => ListenerRun(Some(data), false, Some(ErrorResponse(e)), None, Some(e))
  }

  // ---------------------------------------------------------------------
  // `sendToAllTabs`: fan-out to every tab and gather the replies
  // ---------------------------------------------------------------------

  /** The tab list handed to the `chrome.tabs.query` callback; a null list is `None`. */
  function TabList(tabs: Option<seq<Tab>>): (ts: seq<Tab>)
    ensures tabs.None? ==> ts == []
    ensures tabs.Some? ==> ts == tabs.value
  {
    match tabs
    case None => []
    case Some(ts) => ts
  }

  /** The indexes below n of the tabs that have an id. */
  ghost function IdTabs(tabs: seq<Tab>, n: nat): set<nat>
    requires n <= |tabs|
  {
    set i: nat | i < n && tabs[i].id.Some?
  }

  /** One more tab adds its index to those with an id exactly when it has one. */
  lemma IdTabsStep(tabs: seq<Tab>, i: nat)
    requires i < |tabs|
    ensures IdTabs(tabs, i + 1) == IdTabs(tabs, i) + (if tabs[i].id.Some? then {i} else {})
    ensures i !in IdTabs(tabs, i)
  {
  }

  /** The messages `sendToAllTabs` hands to the host for the first n tabs, in tab order. */
  function TabSends(m: ActionMessenger, payload: Value, tabs: seq<Tab>, n: nat): (sends: seq<Send>)
    requires n <= |tabs|
    ensures |sends| <= n
  {
    if n == 0 then []
    else TabSends(m, payload, tabs, n - 1)
         + (if tabs[n - 1].id.Some? then [Send(ToTab(tabs[n - 1].id.value), m.Wrap(payload))] else [])
  }

  /** The messages for fewer tabs are a prefix of those for more. */
  lemma {:induction false} TabSendsPrefix(m: ActionMessenger, payload: Value, tabs: seq<Tab>, i: nat, n: nat)
    requires i <= n <= |tabs|
    ensures TabSends(m, payload, tabs, i) <= TabSends(m, payload, tabs, n)
  {
    if i < n {
      TabSendsPrefix(m, payload, tabs, i, n - 1);
    }
  }

  /**
   * One message per tab with an id, in tab order: the message for tab i
   * comes right after those for the tabs before it, is addressed to that
   * tab's id and carries the messenger's envelope; tabs without an id are
   * never messaged, and every message goes to the id of some tab.
   */
  lemma TabSendsTargets(m: ActionMessenger, payload: Value, tabs: seq<Tab>, n: nat)
    requires n <= |tabs|
    ensures |TabSends(m, payload, tabs, n)| == |IdTabs(tabs, n)| <= n
    ensures forall i :: 0 <= i < n && tabs[i].id.Some? ==>
              |TabSends(m, payload, tabs, i)| < |TabSends(m, payload, tabs, n)| &&
              TabSends(m, payload, tabs, n)[|TabSends(m, payload, tabs, i)|]
                == Send(ToTab(tabs[i].id.value), Envelope(m.action, payload))
    ensures forall i :: 0 <= i < n && tabs[i].id.Some? ==>
              Send(ToTab(tabs[i].id.value), Envelope(m.action, payload)) in TabSends(m, payload, tabs, n)
    ensures forall s :: s in TabSends(m, payload, tabs, n) ==>
              s.envelope == Envelope(m.action, payload) &&
              s.dest.ToTab? && exists i :: 0 <= i < n && tabs[i].id == Some(s.dest.id)
  {
    TabSendsCount(m, payload, tabs, n);
    TabSendsOrder(m, payload, tabs, n);
    TabSendsOnlyIds(m, payload, tabs, n);
  }

  /** As many messages as tabs with an id. */
  lemma {:induction false} TabSendsCount(m: ActionMessenger, payload: Value, tabs: seq<Tab>, n: nat)
    requires n <= |tabs|
    ensures |TabSends(m, payload, tabs, n)| == |IdTabs(tabs, n)| <= n
  {
    if n > 0 {
      TabSendsCount(m, payload, tabs, n - 1);
      IdTabsStep(tabs, n - 1);
    }
  }

  /** The message for tab i sits right after the messages for the tabs before it. */
  lemma TabSendsOrder(m: ActionMessenger, payload: Value, tabs: seq<Tab>, n: nat)
    requires n <= |tabs|
    ensures forall i :: 0 <= i < n && tabs[i].id.Some? ==>
              |TabSends(m, payload, tabs, i)| < |TabSends(m, payload, tabs, n)| &&
              TabSends(m, payload, tabs, n)[|TabSends(m, payload, tabs, i)|]
                == Send(ToTab(tabs[i].id.value), Envelope(m.action, payload))
  {
    forall i | 0 <= i < n && tabs[i].id.Some?
      ensures |TabSends(m, payload, tabs, i)| < |TabSends(m, payload, tabs, n)|
      ensures TabSends(m, payload, tabs, n)[|TabSends(m, payload, tabs, i)|]
              == Send(ToTab(tabs[i].id.value), Envelope(m.action, payload))
    {
      TabSendsPrefix(m, payload, tabs, i + 1, n);
      assert TabSends(m, payload, tabs, i + 1)[|TabSends(m, payload, tabs, i)|]
             == Send(ToTab(tabs[i].id.value), Envelope(m.action, payload));
    }
  }

  /** Every message carries the envelope and goes to the id of one of the tabs. */
  lemma {:induction false} TabSendsOnlyIds(m: ActionMessenger, payload: Value, tabs: seq<Tab>, n: nat)
    requires n <= |tabs|
    ensures forall s :: s in TabSends(m, payload, tabs, n) ==>
              s.envelope == Envelope(m.action, payload) &&
              s.dest.ToTab? && exists i :: 0 <= i < n && tabs[i].id == Some(s.dest.id)
  {
    if n > 0 {
      TabSendsOnlyIds(m, payload, tabs, n - 1);
      forall s | s in TabSends(m, payload, tabs, n)
        ensures s.envelope == Envelope(m.action, payload) &&
                s.dest.ToTab? && exists i :: 0 <= i < n && tabs[i].id == Some(s.dest.id)
      {
        if s !in TabSends(m, payload, tabs, n - 1) {
          assert tabs[n - 1].id == Some(s.dest.id);
        }
      }
    }
  }

  /** One reply callback firing: the index of its tab in the queried list and what the host passed. */
  datatype Completion = Completion(tab: nat, reply: Reply)

  /** The tabs whose reply callback is among the completions. */
  ghost function Fired(cs: seq<Completion>): set<nat>
  {
    set k | 0 <= k < |cs| :: cs[k].tab
  }

  /** No reply callback fires twice. */
  ghost predicate Distinct(cs: seq<Completion>)
  {
    forall j, k :: 0 <= j < k < |cs| ==> cs[j].tab != cs[k].tab
  }

  /** Reply callbacks fire at most once each, and only for tabs that were messaged. */
  ghost predicate FiresForIdTabs(tabs: seq<Tab>, cs: seq<Completion>)
  {
    Distinct(cs) && Fired(cs) <= IdTabs(tabs, |tabs|)
  }

  /** The responses gathered from a sequence of completions, in completion order. */
  function Collected(cs: seq<Completion>): seq<Value>
  {
    if |cs| == 0 then []
    else Collected(cs[..|cs| - 1]) + (if Accepted(cs[|cs| - 1].reply) then [cs[|cs| - 1].reply.response] else [])
  }

  /**
   * The state of one `sendToAllTabs` call: the `pending` counter, the
   * `responses` array, how many times the promise's `resolve` was called,
   * and the messages handed to the host. The ghost set `awaiting` holds
   * the indexes of the tabs whose reply callback has not fired.
   */
  class FanOutGather {
    const messenger: ActionMessenger
    const payload: Value
    var started: bool
    var pending: int
    var responses: seq<Value>
    var resolved: nat
    var sent: seq<Send>
    ghost var awaiting: set<nat>

    /** `pending` counts the outstanding callbacks, and `resolve` has run once exactly when it is 0. */
    ghost predicate Valid()
      reads this
    {
      && (started ==> pending == |awaiting| && resolved == (if pending == 0 then 1 else 0))
      && (!started ==> pending == 0 && resolved == 0 && awaiting == {} && responses == [] && sent == [])
    }

    /** The promise has been created; the host has not yet answered the tab query. */
    constructor (m: ActionMessenger, p: Value)
      ensures Valid() && !started
      ensures messenger == m && payload == p
    {
      messenger, payload := m, p;
      started, pending, responses, resolved, sent := false, 0, [], 0, [];
      awaiting := {};
    }

    /** The `chrome.tabs.query` callback: message every tab with an id, count down the others. */
    method OnTabs(tabs: Option<seq<Tab>>)
      requires Valid() && !started
      modifies this
      ensures Valid() && started
      ensures awaiting == IdTabs(TabList(tabs), |TabList(tabs)|)
      ensures sent == TabSends(messenger, payload, TabList(tabs), |TabList(tabs)|)
      ensures responses == []
    {
      if tabs.None? || |tabs.value| == 0 {
        started, resolved := true, resolved + 1;
        assert IdTabs(TabList(tabs), |TabList(tabs)|) == {};
        return;
      }
      var ts := tabs.value;
      var left, waiting, messages, resolves := |ts|, {}, [], 0;
      for i := 0 to |ts|
        modifies {}
        invariant left == (|ts| - i) + |waiting|
        invariant waiting == IdTabs(ts, i)
        invariant messages == TabSends(messenger, payload, ts, i)
        invariant resolves == (if left == 0 then 1 else 0)
      {
        IdTabsStep(ts, i);
        if ts[i].id.None? {
          left := left - 1;
          if left == 0 {
            resolves := resolves + 1;
          }
        } else {
          messages := messages + [Send(ToTab(ts[i].id.value), messenger.Wrap(payload))];
          waiting := waiting + {i};
        }
      }
      started, pending, awaiting, sent, resolved := true, left, waiting, messages, resolves;
    }

    /** The reply callback of the tab at index `tab`. */
    method OnReply(tab: nat, reply: Reply)
      requires Valid() && started && tab in awaiting
      modifies this
      ensures Valid() && started
      ensures awaiting == old(awaiting) - {tab}
      ensures pending == old(pending) - 1
      ensures responses == old(responses) + (if Accepted(reply) then [reply.response] else [])
      ensures resolved == old(resolved) + (if pending == 0 then 1 else 0)
      ensures sent == old(sent)
    {
      if reply.lastError.None? && reply.response != Undefined {
        responses := responses + [reply.response];
      }
      pending := pending - 1;
      awaiting := awaiting - {tab};
      if pending == 0 {
        resolved := resolved + 1;
      }
    }
  }

  /**
   * `sendToAllTabs` from the tab query to the last reply: the host answers
   * the query with `tabs` and then fires the reply callbacks in the order
   * of `completions`, each at most once and only for a tab that was
   * messaged. The tabs with an id, and only they, received the messenger's
   * envelope; the accepted replies are gathered in completion order; the
   * promise resolves exactly once when every messaged tab's callback has
   * fired, and otherwise stays pending.
   */
  method SendToAllTabs(m: ActionMessenger, payload: Value, tabs: Option<seq<Tab>>, completions: seq<Completion>)
    returns (sent: seq<Send>, responses: seq<Value>, resolutions: nat)
    requires FiresForIdTabs(TabList(tabs), completions)
    ensures sent == TabSends(m, payload, TabList(tabs), |TabList(tabs)|)
    ensures responses == Collected(completions)
    ensures resolutions == (if Fired(completions) == IdTabs(TabList(tabs), |TabList(tabs)|) then 1 else 0)
  {
    var all := IdTabs(TabList(tabs), |TabList(tabs)|);
    assert Distinct(completions) && Fired(completions) <= all;
    var g := new FanOutGather(m, payload);
    g.OnTabs(tabs);
    var k := 0;
    assert Fired(completions[..k]) == {};
    while k < |completions|
      invariant 0 <= k <= |completions|
      invariant g.Valid() && g.started && g.messenger == m && g.payload == payload
      invariant g.awaiting == all - Fired(completions[..k])
      invariant g.responses == Collected(completions[..k])
      invariant g.sent == TabSends(m, payload, TabList(tabs), |TabList(tabs)|)
    {
      CompletionStep(completions, k, all);
      g.OnReply(completions[k].tab, completions[k].reply);
      k := k + 1;
    }
    assert completions[..k] == completions;
    DrainedIffAll(all, Fired(completions));
    return g.sent, g.responses, g.resolved;
  }

  /** Taking a subset out of a set leaves nothing exactly when the two are equal. */
  lemma DrainedIffAll(all: set<nat>, fired: set<nat>)
    requires fired <= all
    ensures all - fired == {} <==> fired == all
  {
    if all - fired == {} {
      forall t | t in all
        ensures t in fired
      {
        assert t !in all - fired;
      }
    }
  }

  /**
   * Firing completion k takes its tab, which had not fired before, out of
   * those of `all` still awaited, and adds its reply to the gathered ones.
   */
  lemma CompletionStep(cs: seq<Completion>, k: nat, all: set<nat>)
    requires Distinct(cs) && k < |cs| && Fired(cs) <= all
    ensures cs[k].tab in all - Fired(cs[..k])
    ensures (all - Fired(cs[..k])) - {cs[k].tab} == all - Fired(cs[..k + 1])
    ensures Collected(cs[..k + 1]) == Collected(cs[..k]) + (if Accepted(cs[k].reply) then [cs[k].reply.response] else [])
  {
    assert Fired(cs[..k + 1]) == Fired(cs[..k]) + {cs[k].tab};
    assert cs[k].tab in Fired(cs);
    assert cs[..k + 1][..k] == cs[..k];
  }

  /** With a null or empty tab list nothing is sent, no callback is awaited and the result is empty. */
  lemma NoTabsNoMessages(m: ActionMessenger, payload: Value, tabs: Option<seq<Tab>>, cs: seq<Completion>)
    requires tabs.None? || tabs.value == []
    requires FiresForIdTabs(TabList(tabs), cs)
    ensures cs == [] && Collected(cs) == []
    ensures TabSends(m, payload, TabList(tabs), |TabList(tabs)|) == []
  {
    assert IdTabs(TabList(tabs), 0) == {};
    assert Fired(cs) == {};
    FiredSize(cs);
  }

  /** Every gathered response came from an accepted reply: it is never `undefined`. */
  lemma {:induction false} CollectedAccepted(cs: seq<Completion>)
    ensures |Collected(cs)| <= |cs|
    ensures forall v :: v in Collected(cs) ==> v != Undefined
    ensures forall v :: v in Collected(cs) <==>
              exists k :: 0 <= k < |cs| && Accepted(cs[k].reply) && cs[k].reply.response == v
  {
    if |cs| > 0 {
      var init := cs[..|cs| - 1];
      CollectedAccepted(init);
      forall v ensures v in Collected(cs) <==>
                       exists k :: 0 <= k < |cs| && Accepted(cs[k].reply) && cs[k].reply.response == v
      {
        if v in Collected(init) {
          var k :| 0 <= k < |init| && Accepted(init[k].reply) && init[k].reply.response == v;
          assert cs[k] == init[k];
        }
        if exists k :: 0 <= k < |cs| && Accepted(cs[k].reply) && cs[k].reply.response == v {
          var k :| 0 <= k < |cs| && Accepted(cs[k].reply) && cs[k].reply.response == v;
          if k < |init| {
            assert init[k] == cs[k];
          }
        }
      }
    }
  }

  /** Distinct completions fire for as many tabs as there are completions. */
  lemma {:induction false} FiredSize(cs: seq<Completion>)
    requires Distinct(cs)
    ensures |Fired(cs)| == |cs|
  {
    if |cs| > 0 {
      var init := cs[..|cs| - 1];
      FiredSize(init);
      assert Fired(cs) == Fired(init) + {cs[|cs| - 1].tab};
      assert cs[|cs| - 1].tab !in Fired(init);
    }
  }

  /** A subset of a finite set is no larger. */
  lemma {:induction false} SubsetSize(a: set<nat>, b: set<nat>)
    requires a <= b
    ensures |a| <= |b|
  {
    if a != {} {
      var x :| x in a;
      SubsetSize(a - {x}, b - {x});
    }
  }

  /** The result holds at most one response per tab with an id. */
  lemma GatherBound(m: ActionMessenger, payload: Value, tabs: seq<Tab>, cs: seq<Completion>)
    requires FiresForIdTabs(tabs, cs)
    ensures |Collected(cs)| <= |IdTabs(tabs, |tabs|)| <= |tabs|
  {
    CollectedAccepted(cs);
    FiredSize(cs);
    SubsetSize(Fired(cs), IdTabs(tabs, |tabs|));
    TabSendsCount(m, payload, tabs, |tabs|);
  }
}
