/** Two runs in which a reconnect round is tried without the wait the back-off asks for: one before any loss, and one in
    which a round's own attempt is not calm. */
module BackOffWitnesses {

  import opened ClientState
  import opened TickTimer
  import opened YieldModel
  import opened BackOffRuns

  // ---------------------------------------------------------------- no loss on record

  /** A client as aws_iot_mqtt_init leaves it. */
  function Fresh(auto: bool, slots: nat): Client {
    Client(INITIALIZED, auto, 0, Countdown(0, 0), false, Countdown(0, 0), Countdown(0, 0),
           seq(slots, _ => Handler(false, false)), 0, Empty)
  }

  /** An attempt in vain. */
  const REFUSED := Attempt(false, 0, Done, false, Silence)

  const IDLE_ROUND := Round(0, Read(0, Done, Nothing), 0, true, Done, REFUSED)

  lemma RefusedAttempt(c: Config, s: Client)
    requires ValidForConnect(s.state)
    ensures AttemptReconnect(c, s, REFUSED).client == s.(state := PENDING_RECONNECT)
  {
    hide Carries, Keeps;
    assert s.(now := s.now + 0) == s;
    var begun := s.(state := CONNECTING);
    assert Deliver(c, begun, Done) == Outcome(begun, SUCCESS);
    assert ConnectWith(c, s, REFUSED).client == s.(state := DISCONNECTED_ERROR);
  }

  /** A yield of one due round, with the link down. */
  lemma IdleRoundFails(c: Config, s: Client)
    requires s.state == PENDING_RECONNECT && s.interval <= c.maxWait && Expired(s.reconnect, s.now)
    ensures YieldFor(c, s, Final(IDLE_ROUND)).client
            == BackOff(c, Outcome(Note(s, Tried(s.now, s.interval)), PHYSICAL_LAYER_DISCONNECTED)).client
  {
    hide Carries, Keeps, KeepsInYield, Expired, BackOff;
    assert s.(now := s.now + 0) == s;
    assert Turn(c, s, IDLE_ROUND).client
           == BackOff(c, Outcome(Note(s, Tried(s.now, s.interval)), PHYSICAL_LAYER_DISCONNECTED)).client;
  }

  lemma RunThen(c: Config, s: Client, action: Action, rest: Actions)
    ensures RunActions(c, s, Then(action, rest)) == RunActions(c, Act(c, s, action).client, rest)
  {
    hide Act, Keeps;
  }

  lemma RunTwo(c: Config, s: Client, a: Action, b: Action, rest: Actions)
    ensures RunActions(c, s, Then(a, Then(b, rest))) == RunActions(c, Act(c, Act(c, s, a).client, b).client, rest)
  {
    hide Act, RunActions;
    RunThen(c, s, a, Then(b, rest));
    RunThen(c, Act(c, s, a).client, b, rest);
  }

  /** The application of a fresh client calls attempt_reconnect, in vain, and yields: a round is tried at once. */
  lemma ReconnectWithoutLoss(c: Config, auto: bool, slots: nat)
    requires c.minWait > 0
    ensures var t := RunActions(c, Fresh(auto, slots), Then(Reconnect(REFUSED), Then(Yield(Final(IDLE_ROUND)), Done)));
            && t.log == After(After(Empty, Tried(0, 0)), Failed(0))
            && !Obeys(c, Empty, 0, 0)
  {
    hide Carries, Keeps, YieldFor, AttemptReconnect;
    var s := Fresh(auto, slots);
    RefusedAttempt(c, s);
    IdleRoundFails(c, s.(state := PENDING_RECONNECT));
    RunTwo(c, s, Reconnect(REFUSED), Yield(Final(IDLE_ROUND)), Done);
  }

  // ---------------------------------------------------------------- a round tried from inside another's attempt

  // It fails, and then the outer one does, with one wait for both.

  const LONG: Word := 0x4000_0000

  const ACCEPTED := Attempt(true, 0, Done, true, Silence)

  const LOSING := Round(0, Read(0, Done, Broken(SSL_READ_ERROR)), 0, true, Done, REFUSED)

  /** A callback disconnects, reconnects in vain and yields. */
  const NESTING := Round(0, Read(0, Done, Nothing), 0, true, Done,
                         Attempt(true, 0, Then(Disconnect, Then(Reconnect(REFUSED), Then(Yield(Final(IDLE_ROUND)), Done))),
                                 true, Silence))

  lemma DropsAndReconnects(c: Config, s: Client)
    requires s.state == WAIT_FOR_CB_RETURN
    ensures Act(c, Act(c, s, Disconnect).client, Reconnect(REFUSED)).client == s.(state := PENDING_RECONNECT)
  {
    hide Carries, Keeps, AttemptReconnect;
    RefusedAttempt(c, s.(state := DISCONNECTED_MANUALLY));
  }

  lemma ActYields(c: Config, s: Client, rounds: Rounds)
    ensures Act(c, s, Yield(rounds)) == YieldFor(c, s, rounds)
  {
    hide YieldFor, Keeps;
  }

  lemma WaitsTooLong(c: Config, tried: Outcome)
    requires tried.client.interval == LONG == c.maxWait
    ensures BackOff(c, tried).client
            == tried.client.(interval := 2 * LONG, log := After(tried.client.log, Failed(tried.client.now)))
  {
    hide Carries;
  }

  lemma NestedCallbacks(c: Config, s: Client)
    requires s.state == WAIT_FOR_CB_RETURN && s.interval == LONG == c.maxWait && Expired(s.reconnect, s.now)
    ensures RunActions(c, s, NESTING.attempt.callbacks)
            == s.(state := PENDING_RECONNECT, interval := 2 * LONG,
                  log := After(After(s.log, Tried(s.now, LONG)), Failed(s.now)))
  {
    hide Carries, Keeps, YieldFor, AttemptReconnect, Expired, BackOff, Act, RunActions;
    var pending := s.(state := PENDING_RECONNECT);
    DropsAndReconnects(c, s);
    RunTwo(c, s, Disconnect, Reconnect(REFUSED), Then(Yield(Final(IDLE_ROUND)), Done));
    IdleRoundFails(c, pending);
    WaitsTooLong(c, Outcome(Note(pending, Tried(s.now, LONG)), PHYSICAL_LAYER_DISCONNECTED));
    ActYields(c, pending, Final(IDLE_ROUND));
    RunThen(c, pending, Yield(Final(IDLE_ROUND)), Done);
    RunNone(c, YieldFor(c, pending, Final(IDLE_ROUND)).client);
  }

  lemma NestedDelivery(c: Config, s: Client)
    requires s.interval == LONG == c.maxWait && Expired(s.reconnect, s.now)
    ensures Deliver(c, s.(state := CONNECTING), NESTING.attempt.callbacks)
            == Outcome(s.(state := PENDING_RECONNECT, interval := 2 * LONG,
                          log := After(After(s.log, Tried(s.now, LONG)), Failed(s.now))),
                       UNEXPECTED_CLIENT_STATE)
  {
    hide Carries, Keeps, RunActions, Expired;
    NestedCallbacks(c, s.(state := WAIT_FOR_CB_RETURN));
  }

  lemma NestedConnect(c: Config, s: Client)
    requires s.state == PENDING_RECONNECT && s.interval == LONG == c.maxWait && Expired(s.reconnect, s.now)
    ensures ConnectWith(c, s, NESTING.attempt).client
            == s.(interval := 2 * LONG, log := After(After(s.log, Tried(s.now, LONG)), Failed(s.now)))
  {
    hide Carries, Keeps, Deliver, Expired;
    assert s.(now := s.now + 0) == s;
    NestedDelivery(c, s);
  }

  lemma NestedAttempt(c: Config, s: Client)
    requires s.state == PENDING_RECONNECT && s.interval == LONG == c.maxWait && Expired(s.reconnect, s.now)
    ensures AttemptReconnect(c, s, NESTING.attempt)
            == Outcome(s.(interval := 2 * LONG, log := After(After(s.log, Tried(s.now, LONG)), Failed(s.now))),
                       NETWORK_ATTEMPTING_RECONNECT)
  {
    hide Carries, Keeps, ConnectWith, Expired;
    NestedConnect(c, s);
  }

  /** Two failures for one wait. */
  lemma NestedHandling(c: Config, s: Client)
    requires s.state == PENDING_RECONNECT && s.interval == LONG == c.maxWait && Expired(s.reconnect, s.now)
    ensures HandleReconnect(c, s, NESTING.attempt)
            == Outcome(s.(interval := 0, reconnect := Started(s.now, 0, c.period), log := NestedLog(s.log, s.now)),
                       NETWORK_ATTEMPTING_RECONNECT)
  {
    hide Carries, Keeps, KeepsInYield, AttemptReconnect, Expired;
    NestedAttempt(c, BeginTry(c, s));
  }

  lemma NestedRound(c: Config, s: Client)
    requires s.state == PENDING_RECONNECT && s.interval == LONG == c.maxWait && Expired(s.reconnect, s.now)
    ensures YieldFor(c, s, Final(NESTING)).client
            == s.(interval := 0, reconnect := Started(s.now, 0, c.period), log := NestedLog(s.log, s.now))
  {
    hide Carries, Keeps, KeepsInYield, HandleReconnect, Expired;
    assert s.(now := s.now + 0) == s;
    NestedHandling(c, s);
    assert Turn(c, s, NESTING).client == YieldFor(c, s, Final(NESTING)).client;
  }

  /** A yield that loses the connection. */
  lemma LosingYield(c: Config, s: Client)
    requires s.state == CONNECTED_IDLE && s.auto
    ensures YieldFor(c, s, Final(LOSING)).client == Lose(c, s)
  {
    hide Carries, Keeps, KeepsInYield, Lose, Serve;
    var t := s.(state := YIELD_IN_PROGRESS);
    assert t.(now := t.now + 0) == t;
    LosingServe(c, t);
    LoseFromAny(c, s, DISCONNECTED_ERROR);
    assert Turn(c, t, LOSING).client == Lose(c, s);
  }

  lemma LosingServe(c: Config, s: Client)
    ensures Serve(c, s, LOSING) == Outcome(s.(state := DISCONNECTED_ERROR), NETWORK_DISCONNECTED)
  {
    hide Carries, Keeps, KeepsInYield;
    assert s.(now := s.now + 0) == s;
    assert Deliver(c, s, Done) == Outcome(s, SUCCESS);
  }

  lemma LoseFromAny(c: Config, s: Client, state: ClientState)
    ensures Lose(c, s.(state := state)) == Lose(c, s)
  {
    hide Carries;
  }

  /** A fresh client connects, loses the connection, and waits. */
  lemma LostAndWaited(c: Config, slots: nat, rest: Actions)
    requires c.minWait == c.maxWait == LONG
    ensures var linked := ConnectWith(c, Fresh(true, slots), ACCEPTED).client;
            var s := Lose(c, linked).(now := LONG);
            && RunActions(c, Fresh(true, slots), Then(Connect(ACCEPTED), Then(Yield(Final(LOSING)), Then(Elapse(LONG), rest))))
               == RunActions(c, s, rest)
            && s.state == PENDING_RECONNECT && s.interval == LONG && Expired(s.reconnect, s.now)
            && s.log == After(After(Empty, Linked(0)), Lost(0))
  {
    hide Carries, Keeps, RunActions, YieldFor, Expired, Ticks;
    var first := Fresh(true, slots);
    assert first.(now := first.now + 0) == first;
    assert Deliver(c, first.(state := CONNECTING), Done) == Outcome(first.(state := CONNECTING), SUCCESS) by {
      RunNone(c, first.(state := WAIT_FOR_CB_RETURN));
    }
    var linked := ConnectWith(c, first, ACCEPTED).client;
    LosingYield(c, linked);
    RunTwo(c, first, Connect(ACCEPTED), Yield(Final(LOSING)), Then(Elapse(LONG), rest));
    RunThen(c, Lose(c, linked), Elapse(LONG), rest);
    ExpiryExactly(0, LONG, LONG, c.period);
    TicksAre(LONG, c.period);
    DivBound(LONG, c.period);
  }

  lemma RunNone(c: Config, s: Client)
    ensures RunActions(c, s, Done) == s
  {
  }

  lemma NestedThenIdle(c: Config, s: Client)
    requires s.state == PENDING_RECONNECT && s.interval == LONG == c.maxWait && Expired(s.reconnect, s.now)
    ensures RunActions(c, s, Then(Yield(Final(NESTING)), Then(Yield(Final(IDLE_ROUND)), Done))).log
            == After(After(NestedLog(s.log, s.now), Tried(s.now, 0)), Failed(s.now))
  {
    hide Carries, Keeps, RunActions, Act, YieldFor, Expired;
    NestedRound(c, s);
    var t := YieldFor(c, s, Final(NESTING)).client;
    ExpiryExactly(s.now, s.now, 0, c.period);
    IdleRoundFails(c, t);
    ActYields(c, s, Final(NESTING));
    ActYields(c, t, Final(IDLE_ROUND));
    RunTwo(c, s, Yield(Final(NESTING)), Yield(Final(IDLE_ROUND)), Done);
    RunNone(c, YieldFor(c, t, Final(IDLE_ROUND)).client);
  }

  function NestedLog(log: Log, now: nat): Log {
    After(After(After(After(log, Tried(now, LONG)), Tried(now, LONG)), Failed(now)), Failed(now))
  }

  /** So, within the limits, the third round after the loss is tried without a wait. */
  lemma NestedRoundWraps(c: Config, slots: nat)
    requires c.minWait == c.maxWait == LONG
    ensures var script := Then(Connect(ACCEPTED), Then(Yield(Final(LOSING)), Then(Elapse(LONG),
                            Then(Yield(Final(NESTING)), Then(Yield(Final(IDLE_ROUND)), Done)))));
            var past := NestedLog(After(After(Empty, Linked(0)), Lost(0)), LONG);
            && Limits(c)
            && RunActions(c, Fresh(true, slots), script).log == After(After(past, Tried(LONG, 0)), Failed(LONG))
            && Losses(past) == 1 && Fails(past) == 2 && !Obeys(c, past, LONG, 0)
  {
    hide Carries, Keeps, RunActions, Act, YieldFor, Expired, ConnectWith, Lose;
    LostAndWaited(c, slots, Then(Yield(Final(NESTING)), Then(Yield(Final(IDLE_ROUND)), Done)));
    NestedThenIdle(c, Lose(c, ConnectWith(c, Fresh(true, slots), ACCEPTED).client).(now := LONG));
    NestedCounts();
  }

  lemma NestedCounts()
    ensures var past := NestedLog(After(After(Empty, Linked(0)), Lost(0)), LONG);
            Losses(past) == 1 && Fails(past) == 2
    ensures Pow2(2) == 4
  {
    assert Pow2(1) == 2;
  }
}
