/** The client's state word under re-entrant calls: publish, subscribe and unsubscribe wait for the network, the
    network delivers messages to callbacks, and callbacks call the client again, to any depth.  Every change is a
    compare-and-set, so an operation puts back the state it found only if nobody changed it meanwhile. */
module Callbacks {

  import opened ClientState

  // ---------------------------------------------------------------- scripts

  datatype Command = Publish | Subscribe | Unsubscribe

  /** Calls that connect or reconnect, possibly through many rounds. */
  datatype Opening = Connect | AttemptReconnect | Yield

  /** An API call with everything it will meet: the messages that arrive while it waits, and its own result.
      Where an opening call is not refused, `outcome` is the settled state it ends in. */
  datatype Call =
    | Do(command: Command, traffic: Traffic, rc: Rc)
    | Disconnect(ok: bool)
    | Open(opening: Opening, outcome: SettledState, rc: Rc)

  datatype Calls = Done | Then(call: Call, rest: Calls)

  /** Messages in order of arrival, each with the calls its callbacks make. */
  datatype Traffic = Quiet | Message(callbacks: Calls, rest: Traffic)

  /** A call made from some callback: what it was, the state it found, and what it returned. */
  datatype Site = Site(call: Call, found: ClientState, rc: Rc)

  /** The state left behind, the code returned, and every nested call in the order they returned. */
  datatype Effect = Effect(state: ClientState, rc: Rc, log: seq<Site>)

  // ---------------------------------------------------------------- what the calls do

  function InProgress(c: Command): ClientState {
    match c
    case Publish => PUBLISH_IN_PROGRESS
    case Subscribe => SUBSCRIBE_IN_PROGRESS
    case Unsubscribe => UNSUBSCRIBE_IN_PROGRESS
  }

  function RunCall(s: ClientState, call: Call): Effect
    decreases call, 1
  {
    match call
    case Do(command, traffic, rc) => RunCommand(s, call)
    case Disconnect(ok) =>
      if !Connected(s) then Effect(s, NETWORK_DISCONNECTED, [])
      else if ok then Effect(DISCONNECTED_MANUALLY, SUCCESS, [])
      else Effect(s, FAILURE, [])
    case Open(opening, outcome, rc) =>
      var refused := Refusal(s, opening);
      if refused != SUCCESS then Effect(s, refused, []) else Effect(outcome, rc, [])
  }

  function Refusal(s: ClientState, opening: Opening): Rc {
    match opening
    case Connect => ConnectRefusal(s)
    case AttemptReconnect => ReconnectRefusal(s)
    case Yield => YieldRefusal(s)
  }

  /** aws_iot_mqtt_publish, _subscribe and _unsubscribe. */
  function RunCommand(s: ClientState, call: Call): Effect
    requires call.Do?
    decreases call, 0
  {
    if !Connected(s) then Effect(s, NETWORK_DISCONNECTED, [])
    else if s != CONNECTED_IDLE && s != WAIT_FOR_CB_RETURN then Effect(s, CLIENT_NOT_IDLE, [])
    else
      var busy := InProgress(call.command);
      var waited := RunTraffic(busy, call.traffic);
      var opRc := if waited.rc != SUCCESS then waited.rc else call.rc;
      var (after, rc) := SetState(waited.state, busy, s);
      Effect(after, if opRc == SUCCESS then rc else opRc, waited.log)
  }

  /** wait_for_read: messages are delivered one by one until a delivery fails. */
  function RunTraffic(s: ClientState, traffic: Traffic): Effect
    decreases traffic
  {
    match traffic
    case Quiet => Effect(s, SUCCESS, [])
    case Message(callbacks, rest) =>
      var d := Deliver(s, callbacks);
      if d.rc != SUCCESS then d
      else
        var more := RunTraffic(d.state, rest);
        Effect(more.state, more.rc, d.log + more.log)
  }

  /** _aws_iot_mqtt_internal_deliver_message */
  function Deliver(s: ClientState, callbacks: Calls): Effect
    decreases callbacks, 1
  {
    var inside := RunCalls(WAIT_FOR_CB_RETURN, callbacks);
    var (after, rc) := SetState(inside.state, WAIT_FOR_CB_RETURN, s);
    Effect(after, rc, inside.log)
  }

  function RunCalls(s: ClientState, calls: Calls): Effect
    decreases calls, 0
  {
    match calls
    case Done => Effect(s, SUCCESS, [])
    case Then(call, rest) =>
      var e := RunCall(s, call);
      var more := RunCalls(e.state, rest);
      Effect(more.state, SUCCESS, e.log + [Site(call, s, e.rc)] + more.log)
  }

  lemma RunNone(s: ClientState)
    ensures RunCalls(s, Done) == Effect(s, SUCCESS, [])
  {
  }

  lemma RcIsSuccess(s: ClientState, calls: Calls)
    ensures RunCalls(s, calls).rc == SUCCESS
  {
  }

  lemma RunFirst(s: ClientState, calls: Calls)
    requires calls.Then?
    ensures var e := RunCall(s, calls.call);
            var more := RunCalls(e.state, calls.rest);
            RunCalls(s, calls) == Effect(more.state, SUCCESS, e.log + [Site(calls.call, s, e.rc)] + more.log)
  {
    hide RunCall;
  }

  // ---------------------------------------------------------------- no disconnect: the state is restored

  /** No disconnect is called anywhere in the tree. */
  predicate Peaceful(call: Call) {
    match call
    case Do(_, traffic, _) => PeacefulTraffic(traffic)
    case Disconnect(_) => false
    case Open(_, _, _) => true
  }

  predicate PeacefulTraffic(traffic: Traffic) {
    traffic.Message? ==> PeacefulCalls(traffic.callbacks) && PeacefulTraffic(traffic.rest)
  }

  predicate PeacefulCalls(calls: Calls) {
    calls.Then? ==> Peaceful(calls.call) && PeacefulCalls(calls.rest)
  }

  /** Every nested call finds the client waiting for its callback, and every opening call among them is refused. */
  ghost predicate Confined(log: seq<Site>) {
    forall i :: 0 <= i < |log| ==> ConfinedSite(log[i])
  }

  predicate ConfinedSite(site: Site) {
    && site.found == WAIT_FOR_CB_RETURN
    && (site.call.Open? ==> site.rc == if site.call.opening.Yield? then CLIENT_NOT_IDLE else NETWORK_ALREADY_CONNECTED)
  }

  lemma ConfinedConcat(xs: seq<Site>, ys: seq<Site>)
    requires Confined(xs) && Confined(ys)
    ensures Confined(xs + ys)
  {
  }

  lemma {:induction false} PeacefulCallsRestore(calls: Calls)
    requires PeacefulCalls(calls)
    ensures var e := RunCalls(WAIT_FOR_CB_RETURN, calls); e.state == WAIT_FOR_CB_RETURN && Confined(e.log)
    decreases calls, 0
  {
    if calls.Then? {
      var e := RunCall(WAIT_FOR_CB_RETURN, calls.call);
      if calls.call.Do? { PeacefulCommandRestores(WAIT_FOR_CB_RETURN, calls.call); }
      PeacefulCallsRestore(calls.rest);
      ConfinedConcat(e.log, [Site(calls.call, WAIT_FOR_CB_RETURN, e.rc)]);
      ConfinedConcat(e.log + [Site(calls.call, WAIT_FOR_CB_RETURN, e.rc)], RunCalls(WAIT_FOR_CB_RETURN, calls.rest).log);
    }
  }

  /** Delivering a message, in whatever state, restores that state and succeeds. */
  lemma {:induction false} PeacefulDelivery(s: ClientState, callbacks: Calls)
    requires PeacefulCalls(callbacks)
    ensures var e := Deliver(s, callbacks); e.state == s && e.rc == SUCCESS && Confined(e.log)
    decreases callbacks, 1
  {
    PeacefulCallsRestore(callbacks);
  }

  lemma {:induction false} PeacefulTrafficRestores(s: ClientState, traffic: Traffic)
    requires PeacefulTraffic(traffic)
    ensures var e := RunTraffic(s, traffic); e.state == s && e.rc == SUCCESS && Confined(e.log)
    decreases traffic
  {
    if traffic.Message? {
      PeacefulDelivery(s, traffic.callbacks);
      PeacefulTrafficRestores(s, traffic.rest);
      ConfinedConcat(Deliver(s, traffic.callbacks).log, RunTraffic(s, traffic.rest).log);
    }
  }

  /** Publish, subscribe and unsubscribe return with the state they found, whatever tree of calls the messages
      they waited through set off, and return their own result when they were not refused. */
  lemma {:induction false} PeacefulCommandRestores(s: ClientState, call: Call)
    requires call.Do? && Peaceful(call)
    ensures var e := RunCall(s, call);
            && e.state == s && Confined(e.log)
            && (s == CONNECTED_IDLE || s == WAIT_FOR_CB_RETURN ==> e.rc == call.rc)
    decreases call
  {
    PeacefulTrafficRestores(InProgress(call.command), call.traffic);
  }

  // ---------------------------------------------------------------- a disconnect is never overwritten

  predicate Dropped(log: seq<Site>) {
    exists i :: 0 <= i < |log| && log[i].call.Disconnect? && log[i].rc == SUCCESS
  }

  lemma DroppedConcat(xs: seq<Site>, ys: seq<Site>)
    ensures Dropped(xs + ys) <==> Dropped(xs) || Dropped(ys)
  {
    if Dropped(xs) {
      var i :| 0 <= i < |xs| && xs[i].call.Disconnect? && xs[i].rc == SUCCESS;
      assert (xs + ys)[i] == xs[i];
    }
    if Dropped(ys) {
      var i :| 0 <= i < |ys| && ys[i].call.Disconnect? && ys[i].rc == SUCCESS;
      assert (xs + ys)[|xs| + i] == ys[i];
    }
  }

  /** Where a settled client is called from, every call leaves it settled. */
  lemma {:induction false} SettledStays(s: ClientState, calls: Calls)
    requires Settled(s)
    ensures Settled(RunCalls(s, calls).state)
    decreases calls
  {
    if calls.Then? {
      var e := RunCall(s, calls.call);
      if calls.call.Do? { CommandUnwinds(s, calls.call); }
      SettledStays(e.state, calls.rest);
    }
  }

  /** A list of callback calls ends waiting exactly when no disconnect in it, at any depth, succeeded;
      otherwise it ends settled. */
  lemma {:induction false} CallsUnwind(calls: Calls)
    ensures var e := RunCalls(WAIT_FOR_CB_RETURN, calls);
            if Dropped(e.log) then Settled(e.state) else e.state == WAIT_FOR_CB_RETURN
    decreases calls, 0
  {
    if calls.Then? {
      var e := RunCall(WAIT_FOR_CB_RETURN, calls.call);
      if calls.call.Do? { CommandUnwinds(WAIT_FOR_CB_RETURN, calls.call); }
      var here := [Site(calls.call, WAIT_FOR_CB_RETURN, e.rc)];
      var more := RunCalls(e.state, calls.rest);
      DroppedConcat(e.log, here);
      DroppedConcat(e.log + here, more.log);
      assert Dropped(here) <==> here[0].call.Disconnect? && here[0].rc == SUCCESS;
      if e.state == WAIT_FOR_CB_RETURN {
        CallsUnwind(calls.rest);
      } else {
        SettledStays(e.state, calls.rest);
      }
    }
  }

  /** Delivery puts the found state back exactly when no disconnect succeeded below it.  Otherwise it reports
      the change and leaves the state exactly as the callbacks left it. */
  lemma {:induction false} DeliveryUnwinds(s: ClientState, callbacks: Calls)
    ensures var e := Deliver(s, callbacks);
            if Dropped(e.log) then
              e.rc == UNEXPECTED_CLIENT_STATE && Settled(e.state) && e.state == RunCalls(WAIT_FOR_CB_RETURN, callbacks).state
            else e.rc == SUCCESS && e.state == s
    decreases callbacks, 1
  {
    CallsUnwind(callbacks);
  }

  lemma {:induction false} TrafficUnwinds(s: ClientState, traffic: Traffic)
    ensures var e := RunTraffic(s, traffic);
            if Dropped(e.log) then e.rc == UNEXPECTED_CLIENT_STATE && Settled(e.state) else e.rc == SUCCESS && e.state == s
    decreases traffic
  {
    if traffic.Message? {
      DeliveryUnwinds(s, traffic.callbacks);
      TrafficUnwinds(s, traffic.rest);
      DroppedConcat(Deliver(s, traffic.callbacks).log, RunTraffic(s, traffic.rest).log);
    }
  }

  /** Publish, subscribe and unsubscribe restore the state they found exactly when no disconnect succeeded while
      they waited; otherwise they return the failed delivery's code and leave the state of the callbacks alone. */
  lemma {:induction false} CommandUnwinds(s: ClientState, call: Call)
    requires call.Do?
    ensures var e := RunCall(s, call);
            if Dropped(e.log) then
              && e.rc == UNEXPECTED_CLIENT_STATE && Settled(e.state)
              && e.state == RunTraffic(InProgress(call.command), call.traffic).state
            else e.state == s
    decreases call
  {
    TrafficUnwinds(InProgress(call.command), call.traffic);
  }

  // ---------------------------------------------------------------- every message is delivered

  /** The calls that the messages' callbacks make, message after message, up to the first below which a disconnect
      succeeds. */
  function Delivered(traffic: Traffic): seq<Site> {
    if traffic.Quiet? then []
    else
      var here := RunCalls(WAIT_FOR_CB_RETURN, traffic.callbacks).log;
      if Dropped(here) then here else here + Delivered(traffic.rest)
  }

  /** Each message that arrives runs its callbacks, whatever state the wait is in. */
  lemma {:induction false} TrafficDelivered(s: ClientState, traffic: Traffic)
    ensures RunTraffic(s, traffic).log == Delivered(traffic)
    decreases traffic
  {
    hide RunCalls, Dropped;
    if traffic.Message? {
      DeliveryUnwinds(s, traffic.callbacks);
      TrafficDelivered(s, traffic.rest);
    }
  }

  /** A command that is not refused delivers all the messages that arrive while it waits, up to a disconnect. */
  lemma CommandDelivers(s: ClientState, call: Call)
    requires call.Do? && (s == CONNECTED_IDLE || s == WAIT_FOR_CB_RETURN)
    ensures RunCall(s, call).log == Delivered(call.traffic)
  {
    hide RunTraffic, Delivered;
    TrafficDelivered(InProgress(call.command), call.traffic);
  }

  // ---------------------------------------------------------------- codes, state by state

  /** Publish, subscribe and unsubscribe are refused, and make no nested call, in every state but two; in those two
      they report a disconnect below them, if there was one, and otherwise their own result. */
  lemma CommandCodes(s: ClientState, call: Call)
    requires call.Do?
    ensures var e := RunCall(s, call);
            if s in {INVALID, INITIALIZED, CONNECTING, DISCONNECTING, DISCONNECTED_ERROR, DISCONNECTED_MANUALLY, PENDING_RECONNECT}
            then e == Effect(s, NETWORK_DISCONNECTED, [])
            else if s in {YIELD_IN_PROGRESS, PUBLISH_IN_PROGRESS, SUBSCRIBE_IN_PROGRESS, UNSUBSCRIBE_IN_PROGRESS,
                          RESUBSCRIBE_IN_PROGRESS}
            then e == Effect(s, CLIENT_NOT_IDLE, [])
            else
              && (s == CONNECTED_IDLE || s == WAIT_FOR_CB_RETURN)
              && e.rc == (if Dropped(e.log) then UNEXPECTED_CLIENT_STATE else call.rc)
              && (e.rc == SUCCESS <==> !Dropped(e.log) && call.rc == SUCCESS)
  {
    hide Dropped, RunTraffic;
    TrafficUnwinds(InProgress(call.command), call.traffic);
    CommandUnwinds(s, call);
  }

  /** A disconnect is refused while there is no connection, and otherwise ends it or fails without effect. */
  lemma DisconnectCodes(s: ClientState, ok: bool)
    ensures RunCall(s, Disconnect(ok)) ==
              if s in {INVALID, INITIALIZED, CONNECTING, DISCONNECTING, DISCONNECTED_ERROR, DISCONNECTED_MANUALLY, PENDING_RECONNECT}
              then Effect(s, NETWORK_DISCONNECTED, [])
              else if ok then Effect(DISCONNECTED_MANUALLY, SUCCESS, [])
              else Effect(s, FAILURE, [])
  {
  }

  /** When connect goes on, and with what code it is refused otherwise. */
  lemma ConnectCodes(s: ClientState, outcome: SettledState, rc: Rc)
    ensures RunCall(s, Open(Connect, outcome, rc)) ==
              if s in {INITIALIZED, DISCONNECTED_ERROR, DISCONNECTED_MANUALLY, PENDING_RECONNECT} then Effect(outcome, rc, [])
              else Effect(s, NETWORK_ALREADY_CONNECTED, [])
  {
  }

  lemma ReconnectCodes(s: ClientState, outcome: SettledState, rc: Rc)
    ensures RunCall(s, Open(AttemptReconnect, outcome, rc)) ==
              if s in {INITIALIZED, DISCONNECTED_ERROR, DISCONNECTED_MANUALLY, PENDING_RECONNECT, RESUBSCRIBE_IN_PROGRESS}
              then Effect(outcome, rc, [])
              else if s in {INVALID, CONNECTING, DISCONNECTING} then Effect(s, NETWORK_ATTEMPTING_RECONNECT, [])
              else Effect(s, NETWORK_ALREADY_CONNECTED, [])
  {
  }

  lemma YieldCodes(s: ClientState, outcome: SettledState, rc: Rc)
    ensures RunCall(s, Open(Yield, outcome, rc)) ==
              if s in {CONNECTED_IDLE, PENDING_RECONNECT, RESUBSCRIBE_IN_PROGRESS} then Effect(outcome, rc, [])
              else if s == DISCONNECTED_MANUALLY then Effect(s, NETWORK_MANUALLY_DISCONNECTED, [])
              else if s in {INVALID, INITIALIZED, CONNECTING, DISCONNECTING, DISCONNECTED_ERROR}
              then Effect(s, NETWORK_DISCONNECTED, [])
              else Effect(s, CLIENT_NOT_IDLE, [])
  {
  }

  // ---------------------------------------------------------------- and stays a disconnect

  /** No call in the tree opens a connection. */
  predicate NeverOpens(calls: Calls) {
    calls.Then? ==> !calls.call.Open? && (calls.call.Do? ==> TrafficNeverOpens(calls.call.traffic)) && NeverOpens(calls.rest)
  }

  predicate TrafficNeverOpens(traffic: Traffic) {
    traffic.Message? ==> NeverOpens(traffic.callbacks) && TrafficNeverOpens(traffic.rest)
  }

  lemma {:induction false} ManualStays(calls: Calls)
    requires NeverOpens(calls)
    ensures RunCalls(DISCONNECTED_MANUALLY, calls).state == DISCONNECTED_MANUALLY
    decreases calls
  {
    if calls.Then? {
      assert RunCall(DISCONNECTED_MANUALLY, calls.call).state == DISCONNECTED_MANUALLY by {
        if calls.call.Do? { assert RunCommand(DISCONNECTED_MANUALLY, calls.call).state == DISCONNECTED_MANUALLY; }
      }
      ManualStays(calls.rest);
    }
  }

  /** If the callbacks do not connect again, the client is manually disconnected when all have returned. */
  lemma {:induction false} DropIsFinal(calls: Calls)
    requires NeverOpens(calls)
    ensures var e := RunCalls(WAIT_FOR_CB_RETURN, calls); Dropped(e.log) ==> e.state == DISCONNECTED_MANUALLY
    decreases calls
  {
    if calls.Then? {
      var e := RunCall(WAIT_FOR_CB_RETURN, calls.call);
      var here := [Site(calls.call, WAIT_FOR_CB_RETURN, e.rc)];
      DroppedConcat(e.log, here);
      DroppedConcat(e.log + here, RunCalls(e.state, calls.rest).log);
      assert Dropped(here) <==> here[0].call.Disconnect? && here[0].rc == SUCCESS;
      if calls.call.Do? {
        CommandUnwinds(WAIT_FOR_CB_RETURN, calls.call);
        DropIsFinalInTraffic(InProgress(calls.call.command), calls.call.traffic);
      }
      if e.state == WAIT_FOR_CB_RETURN { DropIsFinal(calls.rest); } else { ManualStays(calls.rest); }
    }
  }

  lemma {:induction false} DropIsFinalInTraffic(s: ClientState, traffic: Traffic)
    requires TrafficNeverOpens(traffic)
    ensures var e := RunTraffic(s, traffic); Dropped(e.log) ==> e.state == DISCONNECTED_MANUALLY
    decreases traffic
  {
    if traffic.Message? {
      DropIsFinal(traffic.callbacks);
      DeliveryUnwinds(s, traffic.callbacks);
      DropIsFinalInTraffic(s, traffic.rest);
      DroppedConcat(Deliver(s, traffic.callbacks).log, RunTraffic(s, traffic.rest).log);
    }
  }

  // ---------------------------------------------------------------- the client

  /** The client object as far as its state word goes.  Messages and callbacks come from the script. */
  class Client {
    var clientState: ClientState

    /** aws_iot_mqtt_init leaves the client initialized. */
    constructor ()
      ensures clientState == INITIALIZED
    {
      clientState := INITIALIZED;
    }

    /** aws_iot_mqtt_set_client_state */
    method SetClientState(expected: ClientState, next: ClientState) returns (rc: Rc)
      modifies this
      ensures (clientState, rc) == SetState(old(clientState), expected, next)
    {
      if clientState == expected {
        clientState := next;
        rc := SUCCESS;
      } else {
        rc := UNEXPECTED_CLIENT_STATE;
      }
    }

    method MakeCall(call: Call) returns (rc: Rc, log: seq<Site>)
      modifies this
      ensures Effect(clientState, rc, log) == RunCall(old(clientState), call)
      decreases call, 1
    {
      match call {
        case Do(command, traffic, result) =>
          rc, log := Perform(command, traffic, result);
        case Disconnect(ok) =>
          rc := DisconnectClient(ok);
          log := [];
        case Open(opening, outcome, result) =>
          rc := Refusal(clientState, opening);
          log := [];
          if rc == SUCCESS {
            clientState := outcome;
            rc := result;
          }
      }
    }

    /** aws_iot_mqtt_disconnect and its internal half, which passes through DISCONNECTING. */
    method DisconnectClient(ok: bool) returns (rc: Rc)
      modifies this
      ensures Effect(clientState, rc, []) == RunCall(old(clientState), Disconnect(ok))
    {
      if !Connected(clientState) {
        return NETWORK_DISCONNECTED;
      }
      var found := clientState;
      rc := SetClientState(found, DISCONNECTING);
      if ok {
        clientState := DISCONNECTED_MANUALLY;
      } else {
        clientState := found;
        rc := FAILURE;
      }
    }

    /** aws_iot_mqtt_publish, aws_iot_mqtt_subscribe, aws_iot_mqtt_unsubscribe */
    method Perform(command: Command, traffic: Traffic, result: Rc) returns (rc: Rc, log: seq<Site>)
      modifies this
      ensures Effect(clientState, rc, log) == RunCommand(old(clientState), Do(command, traffic, result))
      decreases traffic, 2
    {
      var found := clientState;
      if !Connected(found) {
        return NETWORK_DISCONNECTED, [];
      }
      if found != CONNECTED_IDLE && found != WAIT_FOR_CB_RETURN {
        return CLIENT_NOT_IDLE, [];
      }
      var _ := SetClientState(found, InProgress(command));
      rc, log := WaitForRead(traffic);
      if rc == SUCCESS {
        rc := result;
      }
      var restored := SetClientState(InProgress(command), found);
      if rc == SUCCESS {
        rc := restored;
      }
    }

    /** aws_iot_mqtt_internal_wait_for_read */
    method WaitForRead(traffic: Traffic) returns (rc: Rc, log: seq<Site>)
      modifies this
      ensures Effect(clientState, rc, log) == RunTraffic(old(clientState), traffic)
      decreases traffic, 1
    {
      var left := traffic;
      rc, log := SUCCESS, [];
      while left.Message?
        invariant left == traffic || left < traffic
        invariant rc == SUCCESS
        invariant var more := RunTraffic(clientState, left);
                  Effect(more.state, more.rc, log + more.log) == RunTraffic(old(clientState), traffic)
        decreases left
      {
        var nested: seq<Site>;
        ghost var before, logged := clientState, log;
        rc, nested := DeliverMessage(left.callbacks);
        log := log + nested;
        if rc != SUCCESS {
          return;
        }
        left := left.rest;
        assert logged + (nested + RunTraffic(clientState, left).log) == log + RunTraffic(clientState, left).log;
      }
    }

    /** _aws_iot_mqtt_internal_deliver_message */
    method DeliverMessage(callbacks: Calls) returns (rc: Rc, log: seq<Site>)
      modifies this
      ensures Effect(clientState, rc, log) == Deliver(old(clientState), callbacks)
      decreases callbacks, 1
    {
      var found := clientState;
      var _ := SetClientState(found, WAIT_FOR_CB_RETURN);
      log := RunCallbacks(callbacks);
      rc := SetClientState(WAIT_FOR_CB_RETURN, found);
    }

    method RunCallbacks(callbacks: Calls) returns (log: seq<Site>)
      modifies this
      ensures Effect(clientState, SUCCESS, log) == RunCalls(old(clientState), callbacks)
      decreases callbacks, 0
    {
      hide RunCall, RunCalls, Refusal, SetState;
      var left := callbacks;
      log := [];
      assert [] + RunCalls(clientState, callbacks).log == RunCalls(clientState, callbacks).log;
      RcIsSuccess(clientState, callbacks);
      while left.Then?
        invariant left == callbacks || left < callbacks
        invariant var more := RunCalls(clientState, left);
                  Effect(more.state, SUCCESS, log + more.log) == RunCalls(old(clientState), callbacks)
        decreases left
      {
        var found := clientState;
        ghost var logged := log;
        RunFirst(found, left);
        var rc, nested := MakeCall(left.call);
        var site := Site(left.call, found, rc);
        log := log + nested + [site];
        left := left.rest;
        ghost var more := RunCalls(clientState, left).log;
        assert logged + (nested + [site] + more) == log + more;
      }
      RunNone(clientState);
    }
  }
}
