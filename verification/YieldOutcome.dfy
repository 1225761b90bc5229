/** What connect, a reconnect round, a turn and a whole yield return and leave, told from the script and the client's fields
    before the call. */
module YieldOutcome {

  import opened Basics
  import opened ClientState
  import opened TickTimer
  import opened YieldModel
  import opened CalmScripts
  import opened YieldRuns

  // ---------------------------------------------------------------- a yield that goes well

  /** Where the yield loop begins. */
  function Begun(s: Client): Client {
    if Reconnecting(s.state) then s else s.(state := YIELD_IN_PROGRESS)
  }

  lemma RoundBackInYield(c: Config, s: Client, round: Round)
    ensures Turn(c, s, round).rc == NETWORK_RECONNECTED ==> Turn(c, s, round).client.state == YIELD_IN_PROGRESS
  {
    hide Serve, HandleReconnect, Left, Carries, Keeps, KeepsInYield;
    var t := Later(c, s, round.idle);
    ServeNeverReconnects(c, t, round);
    if t.interval <= c.maxWait { RoundResubscribedAll(c, t, round.attempt); }
  }

  lemma ServeNeverReconnects(c: Config, s: Client, round: Round)
    ensures Serve(c, s, round).rc != NETWORK_RECONNECTED
  {
    hide Deliver, HandleDisconnect, TimeOutPing, SendPing, Expired, Carries, Keeps, KeepsInYield;
  }

  lemma {:induction false} LoopBackInYield(c: Config, s: Client, rounds: Rounds)
    ensures Loop(c, s, rounds).rc == NETWORK_RECONNECTED ==> Loop(c, s, rounds).client.state == YIELD_IN_PROGRESS
    decreases rounds
  {
    hide Turn, KeepsInYield;
    RoundBackInYield(c, s, rounds.round);
    var o := Turn(c, s, rounds.round);
    if !o.stop && rounds.More? { LoopBackInYield(c, o.client, rounds.rest); }
  }

  /** Whatever the script: a yield that is not refused and reports SUCCESS or NETWORK_RECONNECTED leaves the client
      connected and idle. */
  lemma WellEnded(c: Config, s: Client, rounds: Rounds)
    requires YieldRefusal(s.state) == SUCCESS
    ensures var o := YieldFor(c, s, rounds);
            o.rc == SUCCESS || o.rc == NETWORK_RECONNECTED ==> o.client.state == CONNECTED_IDLE
  {
    hide Loop, Keeps, KeepsInYield;
    LoopBackInYield(c, Begun(s), rounds);
  }

  // ---------------------------------------------------------------- one turn, by the script

  /** Time, and the fields that keep-alive works with. */
  datatype Pings = Pings(now: nat, out: bool, req: Countdown, resp: Countdown)

  function PingsOf(s: Client): Pings { Pings(s.now, s.pingOut, s.pingReq, s.pingResp) }

  function Idled(p: Pings, round: Round): Pings { p.(now := p.now + round.idle) }

  /** After a read whose callbacks do not disconnect. */
  function AfterRead(p: Pings, read: Read): Pings {
    p.(now := p.now + read.took + Spent(read.callbacks), out := p.out && !read.got.PingResponse? && !Ponged(read.callbacks))
  }

  /** Keep-alive finds a loss: a PINGRESP is overdue, or a PINGREQ that is due cannot be sent. */
  predicate PingLost(c: Config, p: Pings, pingSent: bool) {
    c.keepAlive > 0 && if p.out then Expired(p.resp, p.now) else Expired(p.req, p.now) && !pingSent
  }

  /** And where it finds none, it sends a PINGREQ if one is due. */
  function WithPing(c: Config, p: Pings, sending: nat): Pings {
    if c.keepAlive == 0 || p.out || !Expired(p.req, p.now) then p
    else
      var t := Started(p.now + sending, Seconds(c.keepAlive), c.period);
      Pings(p.now + sending, true, t, t)
  }

  /** The connection is lost, by the read or in keep-alive. */
  predicate LossIn(c: Config, p: Pings, round: Round) {
    if round.read.got.Broken? then Fatal(round.read.got.rc) else PingLost(c, AfterRead(p, round.read), round.pingSent)
  }

  /** After reading and keep-alive without trouble. */
  function Served(c: Config, p: Pings, round: Round): Pings {
    WithPing(c, AfterRead(p, round.read), round.sending)
  }

  predicate Quiet(c: Config, p: Pings, round: Round) {
    !Drops(round.read.callbacks) && !round.read.got.Broken? && !LossIn(c, p, round)
  }

  /** A turn while connected: the disconnect of a callback stops the loop, and so does a failed read that is not fatal;
      a loss begins reconnecting or, without auto-reconnect, stops it; otherwise the loop goes on, the state as it was. */
  lemma ServedTurnExactly(c: Config, s: Client, round: Round)
    requires !Reconnecting(s.state) && (Quiet(c, Idled(PingsOf(s), round), round) || CalmRound(round))
    ensures var o := Turn(c, s, round);
            && o.client.auto == s.auto
            && if Drops(round.read.callbacks) then
                 o.stop && o.rc == UNEXPECTED_CLIENT_STATE && o.client.state == DISCONNECTED_MANUALLY
               else if LossIn(c, Idled(PingsOf(s), round), round) then
                 if s.auto then !o.stop && o.rc == NETWORK_ATTEMPTING_RECONNECT && o.client == Lose(c, Turning(c, s, round).client)
                 else o.stop && o.rc == NETWORK_DISCONNECTED && o.client.state == DISCONNECTED_ERROR
               else if round.read.got.Broken? then
                 o.stop && o.rc == round.read.got.rc && o.client.state == s.state
               else
                 !o.stop && o.rc == SUCCESS && o.client.state == s.state && PingsOf(o.client) == Served(c, Idled(PingsOf(s), round), round)
  {
    hide Serve, CycleRead, Lose, SameRecord, HandleReconnect, PingLost, WithPing, Carries, Keeps, KeepsInYield;
    var t := Later(c, s, round.idle);
    AutoKept(c, t, round);
    AutoKept(c, s, round);
    ServedExactly(c, t, round);
    assert PingsOf(t) == Idled(PingsOf(s), round);
  }

  /** What reading and keep-alive come to in a turn. */
  function Turning(c: Config, s: Client, round: Round): Outcome {
    Serve(c, Later(c, s, round.idle), round)
  }

  lemma KeptAliveExactly(c: Config, s: Client, round: Round)
    requires !PingLost(c, PingsOf(s), round.pingSent) || NeverOpens(round.handler)
    ensures var o := KeepAlive(c, s, round);
            if PingLost(c, PingsOf(s), round.pingSent) then o.rc == NETWORK_DISCONNECTED && o.client.state == DISCONNECTED_ERROR
            else o.rc == SUCCESS && o.client.state == s.state && PingsOf(o.client) == WithPing(c, PingsOf(s), round.sending)
  {
    hide HandleDisconnect, SameWait, Expired, Carries, Keeps, KeepsInYield;
    if PingLost(c, PingsOf(s), round.pingSent) {
      CalmLoss(c, Later(c, s, round.sending), round.handler);
      if s.pingOut { CalmLoss(c, TimeOutPing(c, s), round.handler); }
    }
  }

  lemma ServedExactly(c: Config, s: Client, round: Round)
    requires Quiet(c, PingsOf(s), round) || CalmRound(round)
    ensures var o := Serve(c, s, round);
            var p := PingsOf(s);
            if Drops(round.read.callbacks) then o.rc == UNEXPECTED_CLIENT_STATE && o.client.state == DISCONNECTED_MANUALLY
            else if LossIn(c, p, round) then o.rc == NETWORK_DISCONNECTED && o.client.state == DISCONNECTED_ERROR
            else if round.read.got.Broken? then o.rc == round.read.got.rc && o.client.state == s.state
            else o.rc == SUCCESS && o.client.state == s.state && PingsOf(o.client) == Served(c, p, round)
  {
    hide CycleRead, KeepAlive, HandleDisconnect, SameWait, Expired, PingLost, WithPing, Carries, Keeps, KeepsInYield;
    NoDropStaysDown(round.read.callbacks);
    CalmRead(c, s, round.read);
    if !Drops(round.read.callbacks) {
      QuietRead(c, s, round.read);
      var read := CycleRead(c, s, round.read).client;
      assert PingsOf(read) == AfterRead(PingsOf(s), round.read);
      if round.read.got.Broken? {
        if NeverOpens(round.handler) { CalmLoss(c, read, round.handler); }
      } else {
        KeptAliveExactly(c, read, round);
      }
    }
  }

  lemma AutoKept(c: Config, s: Client, round: Round)
    ensures Serve(c, s, round).client.auto == s.auto && Turn(c, s, round).client.auto == s.auto
  {
    hide Serve, Turn, Sound, WaitSound, Unwaited, AddsUp;
  }

  // ---------------------------------------------------------------- a whole yield, by the script

  /** What a yield of a connected client comes to: its state and code, unless it loses the connection with rounds to go,
      in which it tries to reconnect. */
  function Expected(c: Config, p: Pings, auto: bool, rounds: Rounds): Option<(ClientState, Rc)>
    decreases rounds
  {
    var round := rounds.round;
    var q := Idled(p, round);
    if Drops(round.read.callbacks) then Some((DISCONNECTED_MANUALLY, UNEXPECTED_CLIENT_STATE))
    else if LossIn(c, q, round) then
      if !auto then Some((DISCONNECTED_ERROR, NETWORK_DISCONNECTED))
      else if rounds.Final? then Some((PENDING_RECONNECT, NETWORK_ATTEMPTING_RECONNECT))
      else None
    else if round.read.got.Broken? then Some((CONNECTED_IDLE, round.read.got.rc))
    else if rounds.Final? then Some((CONNECTED_IDLE, SUCCESS))
    else Expected(c, Served(c, q, round), auto, rounds.rest)
  }

  /** No callback disconnects, no read breaks and no loss is due, in any round. */
  predicate AllQuiet(c: Config, p: Pings, rounds: Rounds)
    decreases rounds
  {
    var q := Idled(p, rounds.round);
    Quiet(c, q, rounds.round) && (rounds.More? ==> AllQuiet(c, Served(c, q, rounds.round), rounds.rest))
  }

  lemma {:induction false} LoopExpected(c: Config, s: Client, rounds: Rounds)
    requires s.state == YIELD_IN_PROGRESS && (AllQuiet(c, PingsOf(s), rounds) || CalmRounds(rounds))
    ensures var o := Loop(c, s, rounds);
            var e := Expected(c, PingsOf(s), s.auto, rounds);
            e.Some? ==> o.rc == e.value.1 && o.client.state == if e.value.0 == CONNECTED_IDLE then s.state else e.value.0
    ensures AllQuiet(c, PingsOf(s), rounds) ==> Expected(c, PingsOf(s), s.auto, rounds) == Some((CONNECTED_IDLE, SUCCESS))
    decreases rounds
  {
    hide Turn, Lose, LossIn, Served, CalmRound, Carries, KeepsInYield;
    ServedTurnExactly(c, s, rounds.round);
    var o := Turn(c, s, rounds.round);
    if !o.stop && rounds.More? && o.client.state == YIELD_IN_PROGRESS { LoopExpected(c, o.client, rounds.rest); }
  }

  /** A yield of a connected, idle client, with calm callbacks and disconnect handlers, ends as the script has it. */
  lemma YieldExactly(c: Config, s: Client, rounds: Rounds)
    requires s.state == CONNECTED_IDLE && CalmRounds(rounds)
    ensures var o := YieldFor(c, s, rounds);
            var e := Expected(c, PingsOf(s), s.auto, rounds);
            e.Some? ==> (o.client.state, o.rc) == e.value
  {
    hide Loop, Expected, CalmRounds, Keeps, KeepsInYield;
    LoopExpected(c, Begun(s), rounds);
    ExpectedStates(c, PingsOf(s), s.auto, rounds);
  }

  lemma {:induction false} ExpectedStates(c: Config, p: Pings, auto: bool, rounds: Rounds)
    ensures var e := Expected(c, p, auto, rounds);
            e.Some? ==>
              && e.value.0 != YIELD_IN_PROGRESS
              && (e.value.1 == SUCCESS ==> e.value.0 == CONNECTED_IDLE)
              && (e.value.0 == CONNECTED_IDLE ==> e.value.1 != NETWORK_DISCONNECTED && e.value.1 != NETWORK_ATTEMPTING_RECONNECT)
    decreases rounds
  {
    hide LossIn, Served;
    if rounds.More? { ExpectedStates(c, Served(c, Idled(p, rounds.round), rounds.round), auto, rounds.rest); }
  }

  /** In particular a quiet one, whatever its disconnect handlers would do, succeeds and leaves it connected and idle. */
  lemma QuietYieldSucceeds(c: Config, s: Client, rounds: Rounds)
    requires s.state == CONNECTED_IDLE && AllQuiet(c, PingsOf(s), rounds)
    ensures var o := YieldFor(c, s, rounds); o.rc == SUCCESS && o.client.state == CONNECTED_IDLE
  {
    hide Loop, Expected, AllQuiet, Keeps, KeepsInYield;
    LoopExpected(c, Begun(s), rounds);
  }

  /** Whatever the disconnect handler does, once a loss has been handled: without auto-reconnect the loop stops, and with
      it reconnecting begins if the handler left the client disconnected by error; if it left it otherwise, though not
      connected and idle, the loop stops with the state as it is. */
  lemma LossHandled(c: Config, s: Client, round: Round)
    requires !Reconnecting(s.state) && Turning(c, s, round).rc == NETWORK_DISCONNECTED
    ensures var o := Turn(c, s, round);
            var left := Turning(c, s, round).client;
            && left.state != CONNECTED_IDLE
            && if !left.auto then o == Turned(left, NETWORK_DISCONNECTED, true)
               else if left.state == DISCONNECTED_ERROR then
                 !o.stop && o.rc == NETWORK_ATTEMPTING_RECONNECT && o.client.state == PENDING_RECONNECT
                 && o.client.interval == c.minWait && o.client.reconnect == Started(left.now, c.minWait, c.period)
                 && o.client.handlers == Unmarked(left.handlers)
               else o == Turned(left, UNEXPECTED_CLIENT_STATE, true)
  {
    hide Serve, HandleReconnect, Started, Carries, Keeps;
    LossLeaves(c, Later(c, s, round.idle), round);
  }

  lemma LossLeaves(c: Config, s: Client, round: Round)
    ensures Serve(c, s, round).rc == NETWORK_DISCONNECTED ==> Serve(c, s, round).client.state != CONNECTED_IDLE
  {
    hide CycleRead, HandleDisconnect, TimeOutPing, SendPing, Expired, Carries, Keeps, KeepsInYield;
  }

  // ---------------------------------------------------------------- a reconnect round, by the script

  /** A reconnect round: nothing happens before its wait is over; with the link up and all answered it is back in the
      yield; otherwise the wait doubles, and the code is the time-out, if the doubled wait is over the limit, or tells
      whether there was a link. */
  lemma RoundExactly(c: Config, s: Client, attempt: Attempt)
    requires Decided(s, attempt) && Reconnecting(s.state) && s.interval <= c.maxWait
    ensures var o := HandleReconnect(c, s, attempt);
            var doubled := s.interval * 2 % WRAP;
            if !Expired(s.reconnect, s.now) then o == Outcome(s, NETWORK_ATTEMPTING_RECONNECT)
            else if attempt.linkUp && Succeeds(s, attempt) then
              o.rc == NETWORK_RECONNECTED && o.client.state == YIELD_IN_PROGRESS && o.client.interval == s.interval
            else
              && o.client.interval == doubled
              && o.rc == (if c.maxWait < doubled then NETWORK_RECONNECT_TIMED_OUT
                          else if attempt.linkUp then NETWORK_ATTEMPTING_RECONNECT
                          else PHYSICAL_LAYER_DISCONNECTED)
              && o.client.state == (if attempt.linkUp then StateAfter(s, attempt) else s.state)
              && (doubled <= c.maxWait ==> o.client.reconnect == Started(o.client.now, doubled, c.period))
  {
    hide AttemptReconnect, Succeeds, AttemptDrops, SameRecord, Expired, Started, Carries, Keeps, KeepsInYield;
    if Expired(s.reconnect, s.now) {
      var t := BeginTry(c, s);
      SameScript(s, t, attempt);
      if attempt.linkUp { CalmReconnect(c, t, attempt); }
    }
  }

  lemma SameScript(s: Client, t: Client, attempt: Attempt)
    requires t.state == s.state && t.handlers == s.handlers
    ensures Succeeds(t, attempt) == Succeeds(s, attempt) && AttemptDrops(t, attempt) == AttemptDrops(s, attempt)
    ensures StateAfter(t, attempt) == StateAfter(s, attempt)
  {
  }

  // ---------------------------------------------------------------- a connection, by the script

  /** An accepted connection starts keep-alive anew from the moment of the CONNACK. */
  lemma ConnectedExactly(c: Config, s: Client, attempt: Attempt)
    requires ValidForConnect(s.state) && !Drops(attempt.callbacks) && attempt.accepted
    ensures var o := ConnectWith(c, s, attempt);
            var now := s.now + attempt.took + Spent(attempt.callbacks);
            && o.rc == SUCCESS && o.client.state == CONNECTED_IDLE && o.client.now == now
            && !o.client.pingOut && o.client.pingReq == Started(now, Seconds(c.keepAlive), c.period)
            && o.client.log.After? && o.client.log.event == Linked(now)
  {
    hide RunActions, Started, Seconds, SameWait, Carries, Keeps;
    NoDropStaysDown(attempt.callbacks);
    CalmConnect(c, s, attempt);
    QuietCallbacks(c, s.(now := s.now + attempt.took, state := WAIT_FOR_CB_RETURN), attempt.callbacks);
  }

  // ---------------------------------------------------------------- refusals, state by state

  /** A call that is refused changes nothing, and says why. */
  lemma RefusalsExactly(c: Config, s: Client, attempt: Attempt, rounds: Rounds)
    ensures s.state !in {INITIALIZED, DISCONNECTED_ERROR, DISCONNECTED_MANUALLY, PENDING_RECONNECT} ==>
              ConnectWith(c, s, attempt) == Outcome(s, NETWORK_ALREADY_CONNECTED)
    ensures s.state in {CONNECTED_IDLE, YIELD_IN_PROGRESS, PUBLISH_IN_PROGRESS, SUBSCRIBE_IN_PROGRESS,
                        UNSUBSCRIBE_IN_PROGRESS, WAIT_FOR_CB_RETURN} ==>
              AttemptReconnect(c, s, attempt) == Outcome(s, NETWORK_ALREADY_CONNECTED)
    ensures s.state in {INVALID, CONNECTING, DISCONNECTING} ==>
              AttemptReconnect(c, s, attempt) == Outcome(s, NETWORK_ATTEMPTING_RECONNECT)
    ensures s.state !in {CONNECTED_IDLE, PENDING_RECONNECT, RESUBSCRIBE_IN_PROGRESS} ==>
              YieldFor(c, s, rounds) ==
                Outcome(s, if s.state == DISCONNECTED_MANUALLY then NETWORK_MANUALLY_DISCONNECTED
                           else if s.state in {INVALID, INITIALIZED, CONNECTING, DISCONNECTING, DISCONNECTED_ERROR}
                           then NETWORK_DISCONNECTED else CLIENT_NOT_IDLE)
  {
    hide Carries, Keeps;
  }

  lemma DisconnectExactly(c: Config, s: Client)
    ensures Act(c, s, Disconnect) ==
              if s.state in {INVALID, INITIALIZED, CONNECTING, DISCONNECTING, DISCONNECTED_ERROR, DISCONNECTED_MANUALLY, PENDING_RECONNECT}
              then Outcome(s, NETWORK_DISCONNECTED)
              else Outcome(s.(state := DISCONNECTED_MANUALLY), SUCCESS)
  {
    hide Carries, Keeps;
  }

  lemma ResubscribeRefused(c: Config, s: Client, attempt: Attempt)
    requires s.state != CONNECTED_IDLE && s.state != RESUBSCRIBE_IN_PROGRESS
    ensures Resubscribe(c, s, attempt)
            == Outcome(s, if s.state in {YIELD_IN_PROGRESS, PUBLISH_IN_PROGRESS, SUBSCRIBE_IN_PROGRESS,
                                         UNSUBSCRIBE_IN_PROGRESS, WAIT_FOR_CB_RETURN}
                          then UNEXPECTED_CLIENT_STATE else NETWORK_DISCONNECTED)
  {
    hide Carries, Keeps;
  }
}
