/** The client as an object: the methods of yield, reconnect and resubscribe update its fields in place, and each is
    proved to do what the function of YieldModel says.  Time and the record are kept beside the fields. */
module YieldMachine {

  import opened ClientState
  import opened TickTimer
  import opened YieldModel
  import M = YieldModel

  class Client {
    const config: Config
    const autoReconnect: bool
    var clientState: ClientState
    var currentReconnectWaitInterval: Word
    var reconnectDelayTimer: Countdown
    var isPingOutstanding: bool
    var pingReqTimer: Countdown
    var pingRespTimer: Countdown
    const messageHandlers: array<Handler>
    var now: nat
    ghost var log: Log

    ghost function State(): M.Client
      reads this, messageHandlers
    {
      M.Client(clientState, autoReconnect, currentReconnectWaitInterval, reconnectDelayTimer,
                   isPingOutstanding, pingReqTimer, pingRespTimer, messageHandlers[..], now, log)
    }

    /** aws_iot_mqtt_init: nothing subscribed, no timer running. */
    constructor (c: Config, auto: bool, slots: nat)
      ensures State() == M.Client(INITIALIZED, auto, 0, Countdown(0, 0), false, Countdown(0, 0), Countdown(0, 0),
                                      seq(slots, i => Handler(false, false)), 0, Empty)
      ensures config == c && fresh(messageHandlers)
    {
      config, autoReconnect, clientState := c, auto, INITIALIZED;
      currentReconnectWaitInterval, reconnectDelayTimer := 0, Countdown(0, 0);
      isPingOutstanding, pingReqTimer, pingRespTimer := false, Countdown(0, 0), Countdown(0, 0);
      messageHandlers := new Handler[slots](_ => Handler(false, false));
      now, log := 0, Empty;
    }

    method SetClientState(expected: ClientState, next: ClientState) returns (rc: Rc)
      modifies this`clientState
      ensures (clientState, rc) == SetState(old(clientState), expected, next)
    {
      if clientState == expected {
        clientState := next;
        rc := SUCCESS;
      } else {
        rc := UNEXPECTED_CLIENT_STATE;
      }
    }

    // -------------------------------------------------------------- application

    method Run(actions: Actions)
      modifies this, messageHandlers
      ensures State() == RunActions(config, old(State()), actions)
      decreases actions, 2
    {
      hide Act;
      var left := actions;
      while left.Then?
        invariant left == actions || left < actions
        invariant RunActions(config, State(), left) == RunActions(config, old(State()), actions)
        decreases left
      {
        var _ := Perform(left.action);
        left := left.rest;
      }
    }

    method Perform(action: Action) returns (rc: Rc)
      modifies this, messageHandlers
      ensures Outcome(State(), rc) == Act(config, old(State()), action)
      decreases action, 5
    {
      hide ConnectWith, AttemptReconnect, YieldFor;
      match action {
        case Elapse(ticks) =>
          now := now + ticks;
          rc := SUCCESS;
        case Pong =>
          if Connected(clientState) {
            OnPingResponse();
            rc := SUCCESS;
          } else {
            rc := NETWORK_DISCONNECTED;
          }
        case Disconnect =>
          rc := DisconnectClient();
        case Connect(attempt) =>
          rc := ConnectClient(attempt);
        case Reconnect(attempt) =>
          rc := AttemptToReconnect(attempt);
        case Yield(rounds) =>
          rc := YieldClient(rounds);
      }
    }

    /** aws_iot_mqtt_disconnect */
    method DisconnectClient() returns (rc: Rc)
      modifies this`clientState
      ensures Outcome(State(), rc) == Act(config, old(State()), Disconnect)
    {
      if !Connected(clientState) {
        return NETWORK_DISCONNECTED;
      }
      clientState := DISCONNECTING;
      clientState := DISCONNECTED_MANUALLY;
      rc := SUCCESS;
    }

    method OnPingResponse()
      modifies this`isPingOutstanding, this`log
      ensures State() == GotPingResponse(config, old(State()))
    {
      isPingOutstanding := false;
      log := After(log, Answered);
    }

    method DeliverMessages(callbacks: Actions) returns (rc: Rc)
      modifies this, messageHandlers
      ensures Outcome(State(), rc) == Deliver(config, old(State()), callbacks)
      decreases callbacks, 3
    {
      hide RunActions;
      var found := clientState;
      var _ := SetClientState(found, WAIT_FOR_CB_RETURN);
      Run(callbacks);
      rc := SetClientState(WAIT_FOR_CB_RETURN, found);
    }

    // -------------------------------------------------------------- connecting

    method ConnectClient(attempt: Attempt) returns (rc: Rc)
      modifies this, messageHandlers
      ensures Outcome(State(), rc) == ConnectWith(config, old(State()), attempt)
      decreases attempt, 0
    {
      hide Deliver, GotConnack, Carries, Keeps;
      if !ValidForConnect(clientState) {
        return NETWORK_ALREADY_CONNECTED;
      }
      var _ := SetClientState(clientState, CONNECTING);
      now := now + attempt.took;
      ghost var d := Deliver(config, State(), attempt.callbacks);
      rc := DeliverMessages(attempt.callbacks);
      assert Outcome(State(), rc) == d;
      if rc == SUCCESS && !attempt.accepted {
        rc := FAILURE;
      }
      if rc == SUCCESS {
        OnConnack();
        var _ := SetClientState(CONNECTING, CONNECTED_IDLE);
      } else {
        var _ := SetClientState(CONNECTING, DISCONNECTED_ERROR);
      }
    }

    method OnConnack()
      modifies this
      ensures State() == GotConnack(config, old(State()))
    {
      isPingOutstanding := false;
      pingReqTimer := Started(now, Seconds(config.keepAlive), config.period);
      log := After(log, Linked(now));
    }

    method AttemptToReconnect(attempt: Attempt) returns (rc: Rc)
      modifies this, messageHandlers
      ensures Outcome(State(), rc) == AttemptReconnect(config, old(State()), attempt)
      decreases attempt, 1
    {
      hide ConnectWith, Resubscribe;
      if !Connected(clientState) {
        var _ := ConnectClient(attempt);
        if clientState != CONNECTED_IDLE {
          var _ := SetClientState(DISCONNECTED_ERROR, PENDING_RECONNECT);
          return NETWORK_ATTEMPTING_RECONNECT;
        }
      } else if clientState != RESUBSCRIBE_IN_PROGRESS {
        return NETWORK_ALREADY_CONNECTED;
      }
      rc := ResubscribeAll(attempt);
      rc := if rc == SUCCESS then NETWORK_RECONNECTED else NETWORK_ATTEMPTING_RECONNECT;
    }

    // -------------------------------------------------------------- resubscribing

    method ResubscribeAll(attempt: Attempt) returns (rc: Rc)
      modifies this, messageHandlers
      ensures Outcome(State(), rc) == Resubscribe(config, old(State()), attempt)
      decreases attempt, 0
    {
      hide ResubscribeFrom, FirstFree, Carries, Keeps;
      if !Connected(clientState) {
        return NETWORK_DISCONNECTED;
      }
      if clientState != CONNECTED_IDLE && clientState != RESUBSCRIBE_IN_PROGRESS {
        return UNEXPECTED_CLIENT_STATE;
      }
      if clientState == CONNECTED_IDLE {
        var _ := SetClientState(CONNECTED_IDLE, RESUBSCRIBE_IN_PROGRESS);
      }
      rc := ResubscribeHandlers(attempt.replies);
      if rc == SUCCESS {
        rc := SetClientState(RESUBSCRIBE_IN_PROGRESS, CONNECTED_IDLE);
      }
    }

    /** _aws_iot_mqtt_get_free_message_handler_index */
    method FreeMessageHandlerIndex() returns (n: nat)
      ensures n == FirstFree(messageHandlers[..])
    {
      n := 0;
      while n < messageHandlers.Length && messageHandlers[n].present
        invariant n <= messageHandlers.Length
        invariant FirstFree(messageHandlers[..]) == n + FirstFree(messageHandlers[n..])
      {
        assert messageHandlers[n..][1..] == messageHandlers[n + 1..];
        n := n + 1;
      }
    }

    /** _aws_iot_mqtt_internal_resubscribe */
    method ResubscribeHandlers(replies: Replies) returns (rc: Rc)
      requires clientState == RESUBSCRIBE_IN_PROGRESS
      modifies this, messageHandlers
      ensures Outcome(State(), rc) ==
                ResubscribeFrom(config, old(State()), 0, FirstFree(old(messageHandlers[..])), replies)
      decreases replies, 1
    {
      hide SendAndWait, FirstFree;
      var n := FreeMessageHandlerIndex();
      var i, left := 0, replies;
      while i < n
        invariant 0 <= i <= n == FirstFree(messageHandlers[..]) && clientState == RESUBSCRIBE_IN_PROGRESS
        invariant left == replies || left < replies
        invariant ResubscribeFrom(config, State(), i, n, left) == ResubscribeFrom(config, old(State()), 0, n, replies)
      {
        if messageHandlers[i].present && !messageHandlers[i].resubscribed {
          if left.Silence? {
            log := After(log, Sent(i));
            return REQUEST_TIMEOUT;
          }
          rc := ResubscribeOne(i, left);
          if rc != SUCCESS {
            return;
          }
          left := left.rest;
        }
        i := i + 1;
      }
      rc := SUCCESS;
    }

    method ResubscribeOne(i: nat, reply: Replies) returns (rc: Rc)
      requires i < FirstFree(messageHandlers[..]) && !messageHandlers[i].resubscribed && reply.Reply?
      requires clientState == RESUBSCRIBE_IN_PROGRESS
      modifies this, messageHandlers
      ensures Outcome(State(), rc) == SendAndWait(config, old(State()), i, reply)
      decreases reply, 0
    {
      hide Deliver, Carries, Keeps;
      now := now + reply.took;
      log := After(log, Sent(i));
      rc := DeliverMessages(reply.callbacks);
      if rc != SUCCESS {
        return;
      }
      if !reply.accepted {
        return FAILURE;
      }
      messageHandlers[i] := messageHandlers[i].(resubscribed := true);
      log := After(log, Accepted(i));
    }

    // -------------------------------------------------------------- losing the connection

    method OnDisconnect(handler: Actions) returns (rc: Rc)
      modifies this, messageHandlers
      ensures Outcome(State(), rc) == HandleDisconnect(config, old(State()), handler)
      decreases handler, 3
    {
      hide RunActions;
      var _ := DisconnectClient();
      clientState := DISCONNECTED_ERROR;
      Run(handler);
      rc := if clientState == CONNECTED_IDLE then SUCCESS else NETWORK_DISCONNECTED;
    }

    /** Back-off and resubscription start afresh. */
    method StartReconnecting()
      modifies this, messageHandlers
      ensures State() == Lose(config, old(State()))
    {
      clientState := PENDING_RECONNECT;
      currentReconnectWaitInterval := config.minWait;
      reconnectDelayTimer := Started(now, currentReconnectWaitInterval, config.period);
      ClearResubscribed();
      log := After(log, Lost(now));
    }

    method ClearResubscribed()
      modifies messageHandlers
      ensures messageHandlers[..] == Unmarked(old(messageHandlers[..]))
    {
      for itr := 0 to messageHandlers.Length
        invariant messageHandlers[..itr] == Unmarked(old(messageHandlers[..]))[..itr]
        invariant messageHandlers[itr..] == old(messageHandlers[..])[itr..]
      {
        messageHandlers[itr] := messageHandlers[itr].(resubscribed := false);
      }
    }

    // -------------------------------------------------------------- the yield loop

    method ReadCycle(read: Read) returns (rc: Rc)
      modifies this, messageHandlers
      ensures Outcome(State(), rc) == CycleRead(config, old(State()), read)
      decreases read
    {
      hide Deliver, GotPingResponse, Carries, Keeps;
      now := now + read.took;
      ghost var d := Deliver(config, Later(config, old(State()), read.took), read.callbacks);
      rc := DeliverMessages(read.callbacks);
      assert Outcome(State(), rc) == d;
      if rc == SUCCESS {
        match read.got {
          case Nothing =>
          case PingResponse => OnPingResponse();
          case Broken(failure) => rc := failure;
        }
      }
    }

    method KeepConnectionAlive(round: Round) returns (rc: Rc)
      modifies this, messageHandlers
      ensures Outcome(State(), rc) == KeepAlive(config, old(State()), round)
      decreases round, 0
    {
      hide HandleDisconnect, Carries, KeepsInYield, Ticks, Counter;
      if config.keepAlive == 0 {
        return SUCCESS;
      }
      if isPingOutstanding {
        if Expired(pingRespTimer, now) {
          log := After(log, PingTimedOut(now));
          rc := OnDisconnect(round.handler);
          return;
        }
        return SUCCESS;
      }
      if !Expired(pingReqTimer, now) {
        return SUCCESS;
      }
      now := now + round.sending;
      if !round.pingSent {
        rc := OnDisconnect(round.handler);
        return;
      }
      isPingOutstanding := true;
      pingRespTimer := Started(now, Seconds(config.keepAlive), config.period);
      pingReqTimer := Started(now, Seconds(config.keepAlive), config.period);
      log := After(log, Pinged(now));
      rc := SUCCESS;
    }

    method OnReconnectDue(attempt: Attempt) returns (rc: Rc)
      requires currentReconnectWaitInterval <= config.maxWait
      modifies this, messageHandlers
      ensures Outcome(State(), rc) == HandleReconnect(config, old(State()), attempt)
      decreases attempt, 2
    {
      hide AttemptReconnect, BackOff, Carries, Keeps, KeepsInYield, Ticks, Counter;
      if !Expired(reconnectDelayTimer, now) {
        return NETWORK_ATTEMPTING_RECONNECT;
      }
      log := After(log, Tried(now, currentReconnectWaitInterval));
      rc := PHYSICAL_LAYER_DISCONNECTED;
      if attempt.linkUp {
        rc := AttemptToReconnect(attempt);
        if rc == NETWORK_RECONNECTED {
          rc := SetClientState(CONNECTED_IDLE, YIELD_IN_PROGRESS);
          if rc == SUCCESS {
            rc := NETWORK_RECONNECTED;
          }
          return;
        }
      }
      rc := WaitAgain(rc);
    }

    /** What follows a failed attempt: the wait is doubled, and begun unless it is now too long. */
    method WaitAgain(failure: Rc) returns (rc: Rc)
      modifies this
      ensures Outcome(State(), rc) == BackOff(config, Outcome(old(State()), failure))
    {
      rc := failure;
      currentReconnectWaitInterval := currentReconnectWaitInterval * 2 % WRAP;
      log := After(log, Failed(now));
      if config.maxWait < currentReconnectWaitInterval {
        return NETWORK_RECONNECT_TIMED_OUT;
      }
      reconnectDelayTimer := Started(now, currentReconnectWaitInterval, config.period);
    }

    method InternalYield(rounds: Rounds) returns (rc: Rc)
      modifies this, messageHandlers
      ensures Outcome(State(), rc) == Loop(config, old(State()), rounds)
      decreases rounds, 0
    {
      hide Turn;
      var left := rounds;
      while true
        invariant left == rounds || left < rounds
        invariant Loop(config, State(), left) == Loop(config, old(State()), rounds)
        decreases left
      {
        var stop;
        rc, stop := OneTurn(left.round);
        if stop || left.Final? {
          return;
        }
        left := left.rest;
      }
    }

    method ReadAndKeepAlive(round: Round) returns (rc: Rc)
      modifies this, messageHandlers
      ensures Outcome(State(), rc) == Serve(config, old(State()), round)
      decreases round, 1
    {
      hide CycleRead, KeepAlive, HandleDisconnect, Carries, KeepsInYield;
      rc := ReadCycle(round.read);
      if rc == SUCCESS {
        rc := KeepConnectionAlive(round);
      } else if Fatal(rc) {
        rc := OnDisconnect(round.handler);
      }
    }

    /** The body of the loop; `stop` where it is left by break or return. */
    method OneTurn(round: Round) returns (rc: Rc, stop: bool)
      modifies this, messageHandlers
      ensures Turned(State(), rc, stop) == Turn(config, old(State()), round)
      decreases round, 2
    {
      hide HandleReconnect, Serve, Lose, Carries, KeepsInYield;
      now := now + round.idle;
      if Reconnecting(clientState) {
        if config.maxWait < currentReconnectWaitInterval {
          return NETWORK_RECONNECT_TIMED_OUT, true;
        }
        rc := OnReconnectDue(round.attempt);
        return rc, false;
      }
      rc := ReadAndKeepAlive(round);
      if rc != NETWORK_DISCONNECTED {
        return rc, rc != SUCCESS;
      }
      if !autoReconnect {
        return rc, true;
      }
      if clientState != DISCONNECTED_ERROR {
        return UNEXPECTED_CLIENT_STATE, true;
      }
      StartReconnecting();
      return NETWORK_ATTEMPTING_RECONNECT, false;
    }

    method YieldClient(rounds: Rounds) returns (rc: Rc)
      modifies this, messageHandlers
      ensures Outcome(State(), rc) == YieldFor(config, old(State()), rounds)
      decreases rounds, 1
    {
      hide Loop, Carries, Keeps, KeepsInYield;
      if clientState == DISCONNECTED_MANUALLY {
        return NETWORK_MANUALLY_DISCONNECTED;
      }
      if clientState != PENDING_RECONNECT && clientState != RESUBSCRIBE_IN_PROGRESS {
        if !Connected(clientState) {
          return NETWORK_DISCONNECTED;
        }
        if clientState != CONNECTED_IDLE {
          return CLIENT_NOT_IDLE;
        }
        var _ := SetClientState(CONNECTED_IDLE, YIELD_IN_PROGRESS);
      }
      rc := InternalYield(rounds);
      if rc != NETWORK_DISCONNECTED && rc != NETWORK_ATTEMPTING_RECONNECT {
        var restored := SetClientState(YIELD_IN_PROGRESS, CONNECTED_IDLE);
        if rc == SUCCESS {
          rc := restored;
        }
      }
    }
  }
}
