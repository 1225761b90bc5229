/** Scripts whose callbacks and disconnect handlers do not open connections: what a delivery, a connect and a
    resubscription then come to, whether or not a callback disconnects. */
module CalmScripts {

  import opened ClientState
  import opened TickTimer
  import opened YieldModel

  // ---------------------------------------------------------------- the scripts

  predicate NeverOpens(actions: Actions) {
    actions.Then? ==> !actions.action.Connect? && !actions.action.Reconnect? && NeverOpens(actions.rest)
  }

  /** Once they have disconnected, the callbacks do not open a connection.  Before that every opening call is
      refused, so they may make any. */
  predicate StaysDown(callbacks: Actions) {
    callbacks.Then? ==> if callbacks.action.Disconnect? then NeverOpens(callbacks.rest) else StaysDown(callbacks.rest)
  }

  predicate Drops(callbacks: Actions) {
    callbacks.Then? && (callbacks.action.Disconnect? || Drops(callbacks.rest))
  }

  predicate CalmReplies(replies: Replies) {
    replies.Reply? ==> StaysDown(replies.callbacks) && CalmReplies(replies.rest)
  }

  predicate CalmAttempt(a: Attempt) {
    StaysDown(a.callbacks) && CalmReplies(a.replies)
  }

  /** Callbacks may disconnect, and the disconnect handler may take its time and make calls that are refused. */
  predicate CalmRound(round: Round) {
    StaysDown(round.read.callbacks) && NeverOpens(round.handler)
  }

  predicate CalmRounds(rounds: Rounds) {
    CalmRound(rounds.round) && (rounds.More? ==> CalmRounds(rounds.rest))
  }

  lemma {:induction false} NoDropStaysDown(callbacks: Actions)
    ensures !Drops(callbacks) ==> StaysDown(callbacks)
  {
    if callbacks.Then? { NoDropStaysDown(callbacks.rest); }
  }

  // ---------------------------------------------------------------- what does not change

  /** Entries that say nothing of losses, waits and rounds. */
  predicate Neutral(e: Event) {
    e.Linked? || e.Sent? || e.Accepted? || e.Pinged? || e.Answered? || e.PingTimedOut?
  }

  /** Only such entries stand between the two records. */
  predicate NeutralSince(log: Log, later: Log) {
    later == log || (later.After? && Neutral(later.event) && NeutralSince(log, later.earlier))
  }

  /** What the record says of losses, waits and rounds. */
  ghost predicate SameRecord(log: Log, later: Log) {
    && NeutralSince(log, later)
    && Fails(later) == Fails(log) && WaitFrom(later) == WaitFrom(log) && Losses(later) == Losses(log)
  }

  lemma NeutralEntry(log: Log, e: Event)
    requires Neutral(e)
    ensures SameRecord(log, After(log, e))
  {
  }

  lemma {:induction false} NeutralTrans(l0: Log, l1: Log, l2: Log)
    requires NeutralSince(l0, l1) && NeutralSince(l1, l2)
    ensures NeutralSince(l0, l2)
  {
    if l2 != l1 { NeutralTrans(l0, l1, l2.earlier); }
  }

  lemma SameRecordTrans(l0: Log, l1: Log, l2: Log)
    requires SameRecord(l0, l1) && SameRecord(l1, l2)
    ensures SameRecord(l0, l2)
  {
    hide Fails, WaitFrom, Losses;
    NeutralTrans(l0, l1, l2);
  }

  lemma SameRecordSelf(log: Log)
    ensures SameRecord(log, log)
  {
  }

  /** Nothing that matters to the back-off changes. */
  ghost predicate SameWait(s: Client, t: Client) {
    && s.now <= t.now && t.interval == s.interval && t.reconnect == s.reconnect && t.auto == s.auto
    && SameRecord(s.log, t.log)
  }

  lemma SameWaitTrans(s: Client, t: Client, u: Client)
    requires SameWait(s, t) && SameWait(t, u)
    ensures SameWait(s, u)
  {
    hide SameRecord;
    SameRecordTrans(s.log, t.log, u.log);
  }

  // ---------------------------------------------------------------- callbacks and handlers

  /** While a callback runs, every call but disconnect is refused. */
  lemma RefusedInCallback(c: Config, s: Client, action: Action)
    requires !action.Disconnect? && s.state == WAIT_FOR_CB_RETURN
    ensures var t := Act(c, s, action).client;
            SameWait(s, t) && t.state == s.state && t.handlers == s.handlers
  {
    hide SameRecord, Carries, Keeps;
    SameRecordSelf(s.log);
    match action {
      case Connect(attempt) => assert ConnectWith(c, s, attempt).client == s;
      case Reconnect(attempt) => assert AttemptReconnect(c, s, attempt).client == s;
      case Yield(rounds) => assert YieldFor(c, s, rounds).client == s;
      case Pong => NeutralEntry(s.log, Answered);
      case _ =>
    }
  }

  /** While disconnected, every call that does not open a connection is refused. */
  lemma {:induction false} RefusedWhileDown(c: Config, s: Client, actions: Actions)
    requires NeverOpens(actions) && (s.state == DISCONNECTED_MANUALLY || s.state == DISCONNECTED_ERROR)
    ensures var t := RunActions(c, s, actions); t == s.(now := t.now) && s.now <= t.now && SameWait(s, t)
    decreases actions
  {
    hide SameRecord, Carries, Keeps;
    SameRecordSelf(s.log);
    if actions.Then? {
      var t := Act(c, s, actions.action).client;
      assert t == s.(now := t.now) && s.now <= t.now by {
        match actions.action {
          case Yield(rounds) => assert YieldFor(c, s, rounds).client == s;
          case _ =>
        }
      }
      RefusedWhileDown(c, t, actions.rest);
    }
  }

  lemma {:induction false} CalmCallbacks(c: Config, s: Client, callbacks: Actions)
    requires StaysDown(callbacks) && s.state == WAIT_FOR_CB_RETURN
    ensures var t := RunActions(c, s, callbacks);
            && SameWait(s, t) && t.handlers == s.handlers
            && t.state == if Drops(callbacks) then DISCONNECTED_MANUALLY else WAIT_FOR_CB_RETURN
    decreases callbacks
  {
    hide SameRecord, Carries, Keeps;
    SameRecordSelf(s.log);
    if callbacks.Then? {
      var t := Act(c, s, callbacks.action).client;
      if callbacks.action.Disconnect? {
        RefusedWhileDown(c, t, callbacks.rest);
      } else {
        RefusedInCallback(c, s, callbacks.action);
        CalmCallbacks(c, t, callbacks.rest);
        SameWaitTrans(s, t, RunActions(c, t, callbacks.rest));
      }
    }
  }

  /** A delivery restores the state it found, or reports the disconnect of a callback and leaves it in force. */
  lemma CalmDelivery(c: Config, s: Client, callbacks: Actions)
    requires StaysDown(callbacks)
    ensures var o := Deliver(c, s, callbacks);
            && SameWait(s, o.client) && o.client.handlers == s.handlers
            && o.rc == (if Drops(callbacks) then UNEXPECTED_CLIENT_STATE else SUCCESS)
            && o.client.state == if Drops(callbacks) then DISCONNECTED_MANUALLY else s.state
  {
    hide SameRecord, RunActions, Carries, Keeps;
    CalmCallbacks(c, s.(state := WAIT_FOR_CB_RETURN), callbacks);
  }

  /** A handler that opens nothing only takes its time. */
  lemma CalmLoss(c: Config, s: Client, handler: Actions)
    requires NeverOpens(handler)
    ensures var o := HandleDisconnect(c, s, handler);
            && SameWait(s, o.client)
            && o == Outcome(s.(state := DISCONNECTED_ERROR, now := o.client.now), NETWORK_DISCONNECTED)
  {
    hide SameRecord, RunActions, Carries;
    RefusedWhileDown(c, s.(state := DISCONNECTED_ERROR), handler);
  }

  // ---------------------------------------------------------------- connecting

  lemma CalmConnect(c: Config, s: Client, attempt: Attempt)
    requires StaysDown(attempt.callbacks)
    ensures var o := ConnectWith(c, s, attempt);
            && SameWait(s, o.client) && o.client.handlers == s.handlers
            && o.rc == (if !ValidForConnect(s.state) then NETWORK_ALREADY_CONNECTED
                        else if Drops(attempt.callbacks) then UNEXPECTED_CLIENT_STATE
                        else if attempt.accepted then SUCCESS
                        else FAILURE)
            && o.client.state ==
                 if !ValidForConnect(s.state) then s.state
                 else if Drops(attempt.callbacks) then DISCONNECTED_MANUALLY
                 else if attempt.accepted then CONNECTED_IDLE
                 else DISCONNECTED_ERROR
  {
    hide SameRecord, Deliver, Carries, Keeps;
    SameRecordSelf(s.log);
    if ValidForConnect(s.state) {
      var begun := Later(c, s.(state := CONNECTING), attempt.took);
      CalmDelivery(c, begun, attempt.callbacks);
      var d := Deliver(c, begun, attempt.callbacks).client;
      NeutralEntry(d.log, Linked(d.now));
      SameRecordTrans(s.log, d.log, After(d.log, Linked(d.now)));
    }
  }

  // ---------------------------------------------------------------- resubscribing

  /** Some callback that runs while a SUBACK is awaited disconnects: one handler after another is sent, from slot i
      on, while the answers accept. */
  predicate RepliesDrop(handlers: seq<Handler>, i: nat, n: nat, replies: Replies)
    requires i <= n <= |handlers|
    decreases n - i
  {
    i < n &&
      if handlers[i].resubscribed then RepliesDrop(handlers, i + 1, n, replies)
      else replies.Reply? && (Drops(replies.callbacks) || (replies.accepted && RepliesDrop(handlers, i + 1, n, replies.rest)))
  }

  lemma {:induction false} RepliesDropSame(xs: seq<Handler>, ys: seq<Handler>, i: nat, n: nat, replies: Replies)
    requires i <= n <= |xs| == |ys| && xs[i..] == ys[i..]
    ensures RepliesDrop(xs, i, n, replies) == RepliesDrop(ys, i, n, replies)
    decreases n - i
  {
    if i < n {
      assert xs[i] == xs[i..][0] && ys[i] == ys[i..][0];
      assert xs[i + 1..] == xs[i..][1..] == ys[i..][1..] == ys[i + 1..];
      RepliesDropSame(xs, ys, i + 1, n, replies);
      if replies.Reply? { RepliesDropSame(xs, ys, i + 1, n, replies.rest); }
    }
  }

  /** From slot i on, every handler not yet marked has its SUBACK accepted, and no callback met on the way disconnects. */
  predicate AllAnswered(handlers: seq<Handler>, i: nat, n: nat, replies: Replies)
    requires i <= n <= |handlers|
    decreases n - i
  {
    i < n ==>
      if handlers[i].resubscribed then AllAnswered(handlers, i + 1, n, replies)
      else replies.Reply? && !Drops(replies.callbacks) && replies.accepted && AllAnswered(handlers, i + 1, n, replies.rest)
  }

  lemma {:induction false} AnsweredSame(xs: seq<Handler>, ys: seq<Handler>, i: nat, n: nat, replies: Replies)
    requires i <= n <= |xs| == |ys| && xs[i..] == ys[i..]
    ensures AllAnswered(xs, i, n, replies) == AllAnswered(ys, i, n, replies)
    decreases n - i
  {
    if i < n {
      assert xs[i] == xs[i..][0] && ys[i] == ys[i..][0];
      assert xs[i + 1..] == xs[i..][1..] == ys[i..][1..] == ys[i + 1..];
      AnsweredSame(xs, ys, i + 1, n, replies);
      if replies.Reply? { AnsweredSame(xs, ys, i + 1, n, replies.rest); }
    }
  }

  lemma {:induction false} ToDoPositive(handlers: seq<Handler>, i: nat, n: nat)
    requires i < n <= |handlers| && handlers[i].present && !handlers[i].resubscribed
    ensures ToDo(handlers, n) > 0
  {
    if i < n - 1 { ToDoPositive(handlers, i, n - 1); }
  }

  lemma CalmMark(c: Config, s: Client, i: nat)
    requires i < FirstFree(s.handlers) && !s.handlers[i].resubscribed && ToDo(s.handlers, i) == 0
    ensures var t := Mark(c, s, i);
            SameWait(s, t) && ToDo(t.handlers, i + 1) == 0 && t.handlers[i + 1..] == s.handlers[i + 1..]
  {
    hide SameRecord, Carries;
    NeutralEntry(s.log, Accepted(i));
    ToDoAfterMark(s.handlers, i, i);
  }

  lemma CalmSend(c: Config, s: Client, i: nat)
    requires i < |s.handlers| && !s.handlers[i].resubscribed
    ensures var t := SendSubscribe(c, s, i); SameWait(s, t)
  {
    hide SameRecord, Carries;
    NeutralEntry(s.log, Sent(i));
  }

  /** One SUBSCRIBE and the wait for its SUBACK. */
  lemma CalmSendAndWait(c: Config, s: Client, i: nat, reply: Replies)
    requires i < FirstFree(s.handlers) && !s.handlers[i].resubscribed && ToDo(s.handlers, i) == 0
    requires s.state == RESUBSCRIBE_IN_PROGRESS && reply.Reply? && StaysDown(reply.callbacks)
    ensures var o := SendAndWait(c, s, i, reply);
            && SameWait(s, o.client)
            && FirstFree(o.client.handlers) == FirstFree(s.handlers)
            && o.client.handlers[i + 1..] == s.handlers[i + 1..]
            && o.client.state == (if Drops(reply.callbacks) then DISCONNECTED_MANUALLY else s.state)
            && (o.rc == SUCCESS <==> !Drops(reply.callbacks) && reply.accepted)
            && if o.rc == SUCCESS then ToDo(o.client.handlers, i + 1) == 0 else o.client.handlers == s.handlers
  {
    hide SameRecord, SameWait, Deliver, Mark, SendSubscribe, FirstFree, ToDo, Carries, Keeps;
    var begun := Later(c, s, reply.took);
    LaterSame(c, s, reply.took);
    CalmSend(c, begun, i);
    var sent := SendSubscribe(c, begun, i);
    CalmDelivery(c, sent, reply.callbacks);
    var d := Deliver(c, sent, reply.callbacks).client;
    SameWaitTrans(s, begun, sent);
    SameWaitTrans(s, sent, d);
    if !Drops(reply.callbacks) && reply.accepted {
      CalmMark(c, d, i);
      SameWaitTrans(s, d, Mark(c, d, i));
    }
  }

  lemma LaterSame(c: Config, s: Client, ticks: nat)
    ensures SameWait(s, Later(c, s, ticks))
  {
    hide SameRecord, Keeps;
    SameRecordSelf(s.log);
  }

  /** From slot i on: success means that nothing is left to do, and a drop leaves the client disconnected. */
  lemma {:induction false} CalmResubscribeFrom(c: Config, s: Client, i: nat, replies: Replies)
    requires i <= FirstFree(s.handlers) && ToDo(s.handlers, i) == 0
    requires CalmReplies(replies) || !RepliesDrop(s.handlers, i, FirstFree(s.handlers), replies)
    requires s.state == RESUBSCRIBE_IN_PROGRESS
    ensures var n := FirstFree(s.handlers);
            var o := ResubscribeFrom(c, s, i, n, replies);
            var drop := RepliesDrop(s.handlers, i, n, replies);
            && SameWait(s, o.client)
            && (o.rc == SUCCESS <==> Left(o.client.handlers) == 0)
            && (o.rc == SUCCESS <==> AllAnswered(s.handlers, i, n, replies))
            && (drop ==> o.rc != SUCCESS)
            && o.client.state == if drop then DISCONNECTED_MANUALLY else s.state
    decreases replies, FirstFree(s.handlers) - i
  {
    hide SameRecord, SameWait, SendAndWait, SendSubscribe, FirstFree, Carries, Keeps, AddsUp;
    var n := FirstFree(s.handlers);
    SameWaitSelf(s);
    if i < n {
      if s.handlers[i].resubscribed {
        CalmResubscribeFrom(c, s, i + 1, replies);
      } else {
        ToDoPositive(s.handlers, i, n);
        if replies.Silence? {
          CalmSend(c, s, i);
        } else {
          NoDropStaysDown(replies.callbacks);
          CalmSendAndWait(c, s, i, replies);
          var o := SendAndWait(c, s, i, replies);
          if o.rc == SUCCESS {
            RepliesDropSame(s.handlers, o.client.handlers, i + 1, n, replies.rest);
            AnsweredSame(s.handlers, o.client.handlers, i + 1, n, replies.rest);
            CalmResubscribeFrom(c, o.client, i + 1, replies.rest);
            SameWaitTrans(s, o.client, ResubscribeFrom(c, o.client, i + 1, n, replies.rest).client);
          }
        }
      }
    }
  }

  lemma SameWaitSelf(s: Client)
    ensures SameWait(s, s)
  {
    hide SameRecord;
    SameRecordSelf(s.log);
  }

  /** Resubscribing restores IDLE exactly when nothing is left to do.  Otherwise the client stays where the next
      round resumes, unless a callback disconnected. */
  lemma CalmResubscribe(c: Config, s: Client, attempt: Attempt)
    requires CalmReplies(attempt.replies) || !RepliesDrop(s.handlers, 0, FirstFree(s.handlers), attempt.replies)
    requires s.state == CONNECTED_IDLE || s.state == RESUBSCRIBE_IN_PROGRESS
    ensures var o := Resubscribe(c, s, attempt);
            var drop := RepliesDrop(s.handlers, 0, FirstFree(s.handlers), attempt.replies);
            && SameWait(s, o.client)
            && (o.rc == SUCCESS <==> Left(o.client.handlers) == 0)
            && (o.rc == SUCCESS <==> AllAnswered(s.handlers, 0, FirstFree(s.handlers), attempt.replies))
            && (drop ==> o.rc != SUCCESS)
            && o.client.state ==
                 if Left(o.client.handlers) == 0 then CONNECTED_IDLE
                 else if drop then DISCONNECTED_MANUALLY else RESUBSCRIBE_IN_PROGRESS
  {
    hide SameRecord, ResubscribeFrom, FirstFree, Left, RepliesDrop, AllAnswered, Carries, Keeps;
    CalmResubscribeFrom(c, s.(state := RESUBSCRIBE_IN_PROGRESS), 0, attempt.replies);
  }

  // ---------------------------------------------------------------- reconnecting

  /** Some callback that this attempt reaches disconnects: before the CONNACK if there is no connection, or while a
      SUBACK is awaited. */
  predicate AttemptDrops(s: Client, attempt: Attempt) {
    || (!Connected(s.state) && Drops(attempt.callbacks))
    || ((Connected(s.state) || (!Drops(attempt.callbacks) && attempt.accepted))
        && RepliesDrop(s.handlers, 0, FirstFree(s.handlers), attempt.replies))
  }

  /** By the script alone: there is a connection, or one is accepted, and every resubscription is answered. */
  predicate Succeeds(s: Client, attempt: Attempt) {
    && (Connected(s.state) || (!Drops(attempt.callbacks) && attempt.accepted))
    && AllAnswered(s.handlers, 0, FirstFree(s.handlers), attempt.replies)
  }

  /** The state after an attempt that does not succeed. */
  function StateAfter(s: Client, attempt: Attempt): ClientState {
    if AttemptDrops(s, attempt) then DISCONNECTED_MANUALLY
    else if Connected(s.state) || attempt.accepted then RESUBSCRIBE_IN_PROGRESS
    else PENDING_RECONNECT
  }

  /** An attempt while reconnecting: it succeeds with nothing left to resubscribe, or leaves the client reconnecting
      exactly when no callback it reached disconnected. */
  lemma CalmReconnect(c: Config, s: Client, attempt: Attempt)
    requires (CalmAttempt(attempt) || !AttemptDrops(s, attempt)) && Reconnecting(s.state)
    ensures var o := AttemptReconnect(c, s, attempt);
            && SameWait(s, o.client)
            && o.rc == (if Succeeds(s, attempt) then NETWORK_RECONNECTED else NETWORK_ATTEMPTING_RECONNECT)
            && (o.rc == NETWORK_RECONNECTED ==>
                  o.client.state == CONNECTED_IDLE && Left(o.client.handlers) == 0 && !AttemptDrops(s, attempt))
            && (o.rc == NETWORK_ATTEMPTING_RECONNECT ==>
                  o.client.state == StateAfter(s, attempt))
  {
    hide SameWait, ConnectWith, Resubscribe, FirstFree, Left, RepliesDrop, AllAnswered, Carries, Keeps;
    if s.state == PENDING_RECONNECT {
      NoDropStaysDown(attempt.callbacks);
      CalmConnect(c, s, attempt);
      var t := ConnectWith(c, s, attempt).client;
      if t.state == CONNECTED_IDLE {
        CalmResubscribe(c, t, attempt);
        SameWaitTrans(s, t, Resubscribe(c, t, attempt).client);
      } else {
        SameWaitIn(s, t, AfterConnect(c, t, attempt).client.state);
      }
    } else {
      CalmResubscribe(c, s, attempt);
    }
  }

  lemma SameWaitIn(s: Client, t: Client, state: ClientState)
    requires SameWait(s, t)
    ensures SameWait(s, t.(state := state))
  {
    hide SameRecord;
  }

  /** A read with calm callbacks. */
  lemma CalmRead(c: Config, s: Client, read: Read)
    requires StaysDown(read.callbacks)
    ensures var o := CycleRead(c, s, read);
            && SameWait(s, o.client)
            && o.client.state == (if Drops(read.callbacks) then DISCONNECTED_MANUALLY else s.state)
            && o.rc == if Drops(read.callbacks) then UNEXPECTED_CLIENT_STATE
                       else if read.got.Broken? then read.got.rc else SUCCESS
  {
    hide SameRecord, Deliver, Carries, Keeps;
    var begun := Later(c, s, read.took);
    CalmDelivery(c, begun, read.callbacks);
    var d := Deliver(c, begun, read.callbacks).client;
    NeutralEntry(d.log, Answered);
    SameRecordTrans(s.log, d.log, After(d.log, Answered));
  }

  /** Keep-alive either goes well or is a handled loss. */
  lemma CalmKeepAlive(c: Config, s: Client, round: Round)
    requires NeverOpens(round.handler)
    ensures var o := KeepAlive(c, s, round);
            && SameWait(s, o.client)
            && if o.rc == SUCCESS then o.client.state == s.state
               else o.rc == NETWORK_DISCONNECTED && o.client.state == DISCONNECTED_ERROR
  {
    hide SameWait, HandleDisconnect, SendPing, TimeOutPing, Later, Expired, Carries, KeepsInYield, Keeps;
    SameWaitSelf(s);
    var t := Later(c, s, round.sending);
    LaterSame(c, s, round.sending);
    CalmLoss(c, t, round.handler);
    SameWaitTrans(s, t, HandleDisconnect(c, t, round.handler).client);
    SendPingSame(c, t);
    SameWaitTrans(s, t, SendPing(c, t));
    if s.pingOut && Expired(s.pingResp, s.now) {
      TimeOutPingSame(c, s);
      CalmLoss(c, TimeOutPing(c, s), round.handler);
      SameWaitTrans(s, TimeOutPing(c, s), HandleDisconnect(c, TimeOutPing(c, s), round.handler).client);
    }
  }

  lemma SendPingSame(c: Config, s: Client)
    ensures SameWait(s, SendPing(c, s))
  {
    hide SameRecord, Carries;
    NeutralEntry(s.log, Pinged(s.now));
  }

  lemma TimeOutPingSame(c: Config, s: Client)
    requires s.pingOut && Expired(s.pingResp, s.now)
    ensures SameWait(s, TimeOutPing(c, s))
  {
    hide SameRecord, Carries, Expired;
    NeutralEntry(s.log, PingTimedOut(s.now));
  }

  /** A turn outside reconnecting: a handled loss, or the state found, or a callback's disconnect. */
  lemma CalmServe(c: Config, s: Client, round: Round)
    requires CalmRound(round)
    ensures var o := Serve(c, s, round);
            && SameWait(s, o.client) && o.rc != NETWORK_ATTEMPTING_RECONNECT
            && o.client.state ==
                 if o.rc == NETWORK_DISCONNECTED then DISCONNECTED_ERROR
                 else if Drops(round.read.callbacks) then DISCONNECTED_MANUALLY else s.state
  {
    hide SameWait, CycleRead, KeepAlive, HandleDisconnect, Carries, KeepsInYield, Keeps;
    var read := CycleRead(c, s, round.read).client;
    CalmRead(c, s, round.read);
    CalmKeepAlive(c, read, round);
    CalmLoss(c, read, round.handler);
    SameWaitTrans(s, read, KeepAlive(c, read, round).client);
    SameWaitTrans(s, read, HandleDisconnect(c, read, round.handler).client);
  }

  /** An attempt whose callbacks, where they disconnect, leave it at that; the rest of it, which is never reached, may
      do anything if no callback disconnects. */
  predicate Decided(s: Client, attempt: Attempt) {
    CalmAttempt(attempt) || !AttemptDrops(s, attempt)
  }

  // ---------------------------------------------------------------- callbacks that do not disconnect

  /** The time callbacks take, up to a disconnect. */
  function Spent(callbacks: Actions): nat {
    if callbacks.Done? then 0
    else (if callbacks.action.Elapse? then callbacks.action.ticks else 0) + Spent(callbacks.rest)
  }

  /** A callback's command meets a PINGRESP. */
  predicate Ponged(callbacks: Actions) {
    callbacks.Then? && (callbacks.action.Pong? || Ponged(callbacks.rest))
  }

  /** Callbacks that do not disconnect let time pass and may take a PINGRESP; all else is refused. */
  lemma {:induction false} QuietCallbacks(c: Config, s: Client, callbacks: Actions)
    requires !Drops(callbacks) && s.state == WAIT_FOR_CB_RETURN
    ensures var t := RunActions(c, s, callbacks);
            && t.now == s.now + Spent(callbacks) && t.pingOut == (s.pingOut && !Ponged(callbacks))
            && t.pingReq == s.pingReq && t.pingResp == s.pingResp && t.state == s.state
    decreases callbacks
  {
    hide Carries, Keeps;
    if callbacks.Then? {
      QuietCallback(c, s, callbacks.action);
      QuietCallbacks(c, Act(c, s, callbacks.action).client, callbacks.rest);
    }
  }

  lemma QuietCallback(c: Config, s: Client, action: Action)
    requires !action.Disconnect? && s.state == WAIT_FOR_CB_RETURN
    ensures var t := Act(c, s, action).client;
            && t.now == s.now + (if action.Elapse? then action.ticks else 0) && t.pingOut == (s.pingOut && !action.Pong?)
            && t.pingReq == s.pingReq && t.pingResp == s.pingResp && t.state == s.state
  {
    hide Carries, Keeps;
    match action {
      case Connect(attempt) => assert ConnectWith(c, s, attempt).client == s;
      case Reconnect(attempt) => assert AttemptReconnect(c, s, attempt).client == s;
      case Yield(rounds) => assert YieldFor(c, s, rounds).client == s;
      case _ =>
    }
  }

  lemma QuietRead(c: Config, s: Client, read: Read)
    requires !Drops(read.callbacks)
    ensures var t := CycleRead(c, s, read).client;
            && t.now == s.now + read.took + Spent(read.callbacks)
            && t.pingOut == (s.pingOut && !read.got.PingResponse? && !Ponged(read.callbacks))
            && t.pingReq == s.pingReq && t.pingResp == s.pingResp
  {
    hide RunActions, Carries, Keeps;
    QuietCallbacks(c, s.(now := s.now + read.took, state := WAIT_FOR_CB_RETURN), read.callbacks);
  }
}
