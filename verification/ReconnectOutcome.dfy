/** What a yield that reports NETWORK_ATTEMPTING_RECONNECT leaves, and when a callback's disconnect outlives the yield
    that was reconnecting. */
module ReconnectOutcome {

  import opened ClientState
  import opened TickTimer
  import opened YieldModel
  import opened CalmScripts
  import opened YieldOutcome

  // ---------------------------------------------------------------- one round

  /** A round that is due, with the link up: where it reports that it is still attempting, the client is left
      reconnecting if and only if no callback the attempt reached disconnected; otherwise it is left manually
      disconnected. */
  lemma DueRoundExactly(c: Config, s: Client, attempt: Attempt)
    requires Decided(s, attempt) && Reconnecting(s.state) && attempt.linkUp
    requires s.interval <= c.maxWait && Expired(s.reconnect, s.now)
    ensures var o := HandleReconnect(c, s, attempt);
            o.rc == NETWORK_ATTEMPTING_RECONNECT ==>
              && (Reconnecting(o.client.state) <==> !AttemptDrops(s, attempt))
              && (!Reconnecting(o.client.state) ==> o.client.state == DISCONNECTED_MANUALLY)
  {
    hide AttemptReconnect, SameWait, FirstFree, RepliesDrop, Expired, Carries, Keeps, KeepsInYield;
    CalmReconnect(c, BeginTry(c, s), attempt);
  }

  /** The round that the loop finds in state `s` reaches a callback that disconnects while reconnecting. */
  predicate DropsNow(c: Config, s: Client, round: Round) {
    && Reconnecting(s.state)
    && s.interval <= c.maxWait
    && Expired(s.reconnect, s.now + round.idle)
    && round.attempt.linkUp
    && AttemptDrops(s, round.attempt)
  }

  lemma TurnExactly(c: Config, s: Client, round: Round)
    requires Reconnecting(s.state) ==> Decided(s, round.attempt)
    ensures var o := Turn(c, s, round);
            o.rc == NETWORK_ATTEMPTING_RECONNECT ==>
              if DropsNow(c, s, round) then o.client.state == DISCONNECTED_MANUALLY else Reconnecting(o.client.state)
  {
    hide Serve, HandleReconnect, AttemptDrops, SameWait, Expired, Carries, Keeps, KeepsInYield;
    var t := Later(c, s, round.idle);
    if !Reconnecting(s.state) {
      ServeNeverAttempts(c, t, round);
    } else if t.interval <= c.maxWait {
      DropsLater(s, t, round.attempt);
      if !Expired(t.reconnect, t.now) {
        NotDue(c, t, round.attempt);
      } else if round.attempt.linkUp {
        DueRoundExactly(c, t, round.attempt);
      } else {
        LinkDown(c, t, round.attempt);
      }
    }
  }

  lemma DropsLater(s: Client, t: Client, attempt: Attempt)
    requires t.state == s.state && t.handlers == s.handlers
    ensures AttemptDrops(t, attempt) == AttemptDrops(s, attempt)
  {
  }

  lemma ServeNeverAttempts(c: Config, s: Client, round: Round)
    ensures Serve(c, s, round).rc != NETWORK_ATTEMPTING_RECONNECT
  {
    hide CycleRead, HandleDisconnect, TimeOutPing, SendPing, Expired, Carries, Keeps, KeepsInYield;
  }

  lemma NotDue(c: Config, s: Client, attempt: Attempt)
    requires !Expired(s.reconnect, s.now) && s.interval <= c.maxWait
    ensures HandleReconnect(c, s, attempt) == Outcome(s, NETWORK_ATTEMPTING_RECONNECT)
  {
    hide Carries, KeepsInYield, Expired;
  }

  lemma LinkDown(c: Config, s: Client, attempt: Attempt)
    requires Expired(s.reconnect, s.now) && s.interval <= c.maxWait && !attempt.linkUp
    ensures HandleReconnect(c, s, attempt).rc != NETWORK_ATTEMPTING_RECONNECT
  {
    hide Carries, Keeps, KeepsInYield, Expired;
  }

  // ---------------------------------------------------------------- a whole yield

  /** The last turn the loop makes: the client it finds and the round. */
  function LastTurn(c: Config, s: Client, rounds: Rounds): (Client, Round)
    decreases rounds
  {
    var o := Turn(c, s, rounds.round);
    if o.stop || rounds.Final? then (s, rounds.round) else LastTurn(c, o.client, rounds.rest)
  }

  /** The attempt of the last round is decided, if that round is one that reconnects. */
  predicate LastDecided(c: Config, s: Client, rounds: Rounds) {
    var (head, round) := LastTurn(c, s, rounds);
    Reconnecting(head.state) ==> Decided(head, round.attempt)
  }

  lemma {:induction false} LoopExactly(c: Config, s: Client, rounds: Rounds)
    requires LastDecided(c, s, rounds)
    ensures var o := Loop(c, s, rounds);
            var (head, round) := LastTurn(c, s, rounds);
            o.rc == NETWORK_ATTEMPTING_RECONNECT ==>
              if DropsNow(c, head, round) then o.client.state == DISCONNECTED_MANUALLY else Reconnecting(o.client.state)
    decreases rounds
  {
    hide Turn, DropsNow, Decided, KeepsInYield;
    var o := Turn(c, s, rounds.round);
    if o.stop || rounds.Final? {
      TurnExactly(c, s, rounds.round);
    } else {
      LoopExactly(c, o.client, rounds.rest);
    }
  }

  /** A yield that reports NETWORK_ATTEMPTING_RECONNECT leaves the client pending or resubscribing if and only if no
      callback reached in its last round disconnected while reconnecting; otherwise it leaves it manually
      disconnected.  The state the yield begins in, the limits, the earlier rounds, the reads and the disconnect
      handlers may be any; only where a callback of that last attempt does disconnect must it open nothing after. */
  lemma AttemptingExactly(c: Config, s: Client, rounds: Rounds)
    requires LastDecided(c, Begun(s), rounds)
    ensures var o := YieldFor(c, s, rounds);
            var (head, round) := LastTurn(c, Begun(s), rounds);
            o.rc == NETWORK_ATTEMPTING_RECONNECT ==>
              && (Reconnecting(o.client.state) <==> !DropsNow(c, head, round))
              && (!Reconnecting(o.client.state) ==> o.client.state == DISCONNECTED_MANUALLY)
  {
    hide Loop, LastTurn, LastDecided, DropsNow, Keeps, KeepsInYield;
    LoopExactly(c, Begun(s), rounds);
  }

  // ---------------------------------------------------------------- when a disconnect survives

  /** The turn that finds the client manually disconnected handles a loss: its callbacks let the read go on, and the
      read or keep-alive finds the connection lost. */
  predicate LossDue(c: Config, s: Client, round: Round) {
    !Drops(round.read.callbacks) && LossIn(c, Idled(PingsOf(s), round), round)
  }

  /** From a manual disconnect, a turn keeps it in force if and only if it handles no loss.  If it does, the client is
      left reconnecting, or, without auto-reconnect, disconnected by error. */
  lemma DropSurvivesTurn(c: Config, s: Client, round: Round)
    requires CalmRound(round) && s.state == DISCONNECTED_MANUALLY
    ensures Turn(c, s, round).client.state ==
              if !LossDue(c, s, round) then DISCONNECTED_MANUALLY
              else if s.auto then PENDING_RECONNECT else DISCONNECTED_ERROR
  {
    hide Turn, LossIn, Carries;
    ServedTurnExactly(c, s, round);
  }

  /** No turn of the loop finds a loss to handle. */
  predicate NoLossDue(c: Config, s: Client, rounds: Rounds)
    decreases rounds
  {
    && !LossDue(c, s, rounds.round)
    && var o := Turn(c, s, rounds.round);
       (!o.stop && rounds.More? ==> NoLossDue(c, o.client, rounds.rest))
  }

  /** The client is manually disconnected after every turn. */
  predicate DownThroughout(c: Config, s: Client, rounds: Rounds)
    decreases rounds
  {
    var o := Turn(c, s, rounds.round);
    o.client.state == DISCONNECTED_MANUALLY && (!o.stop && rounds.More? ==> DownThroughout(c, o.client, rounds.rest))
  }

  /** A manual disconnect in the middle of a yield stays in force through all its turns if and only if none of them
      handles a loss; and it is then in force at the end. */
  lemma {:induction false} DropSurvivesYield(c: Config, s: Client, rounds: Rounds)
    requires CalmRounds(rounds) && s.state == DISCONNECTED_MANUALLY
    ensures DownThroughout(c, s, rounds) <==> NoLossDue(c, s, rounds)
    ensures NoLossDue(c, s, rounds) ==> Loop(c, s, rounds).client.state == DISCONNECTED_MANUALLY
    decreases rounds
  {
    hide Turn, LossDue, CalmRound, KeepsInYield;
    DropSurvivesTurn(c, s, rounds.round);
    var o := Turn(c, s, rounds.round);
    if !o.stop && rounds.More? && o.client.state == DISCONNECTED_MANUALLY { DropSurvivesYield(c, o.client, rounds.rest); }
  }

  // ---------------------------------------------------------------- both happen

  /** One handler to resubscribe, and a callback that disconnects while its SUBACK is awaited. */
  const DROPPING := Attempt(true, 0, Done, true, Reply(0, Then(Disconnect, Done), true, Silence))

  /** Such a round leaves the client manually disconnected, with NETWORK_ATTEMPTING_RECONNECT reported. */
  lemma DroppedWhileResubscribing(c: Config, s: Client)
    requires 2 * c.minWait <= c.maxWait
    requires s.state == RESUBSCRIBE_IN_PROGRESS && s.interval == c.minWait && Expired(s.reconnect, s.now)
    requires s.handlers == [Handler(true, false)]
    ensures var o := HandleReconnect(c, s, DROPPING);
            o.rc == NETWORK_ATTEMPTING_RECONNECT && o.client.state == DISCONNECTED_MANUALLY && o.client.auto == s.auto
  {
    hide AttemptReconnect, SameRecord, Expired, Carries, Keeps, KeepsInYield;
    assert FirstFree(s.handlers) == 1 by { assert s.handlers[1..] == []; }
    assert RepliesDrop(s.handlers, 0, 1, DROPPING.replies);
    CalmReconnect(c, BeginTry(c, s), DROPPING);
  }

  /** And where the same yield goes on to a read that fails fatally, the disconnect is overwritten: the client is left
      pending reconnect. */
  lemma DropOverwritten(c: Config, s: Client)
    requires 2 * c.minWait <= c.maxWait && s.auto
    requires s.state == RESUBSCRIBE_IN_PROGRESS && s.interval == c.minWait && Expired(s.reconnect, s.now)
    requires s.handlers == [Handler(true, false)]
    ensures var first := Round(0, Read(0, Done, Nothing), 0, true, Done, DROPPING);
            var second := Round(0, Read(0, Done, Broken(SSL_READ_ERROR)), 0, true, Done, DROPPING);
            YieldFor(c, s, More(first, Final(second))).client.state == PENDING_RECONNECT
  {
    hide Turn, Expired, SameWait, Carries, Keeps, KeepsInYield;
    var first := Round(0, Read(0, Done, Nothing), 0, true, Done, DROPPING);
    var second := Round(0, Read(0, Done, Broken(SSL_READ_ERROR)), 0, true, Done, DROPPING);
    FirstTurnDrops(c, s, first);
    var t := Turn(c, s, first).client;
    assert LossDue(c, t, second);
    DropSurvivesTurn(c, t, second);
    assert Loop(c, s, More(first, Final(second))).client == Loop(c, t, Final(second)).client == Turn(c, t, second).client;
  }

  lemma FirstTurnDrops(c: Config, s: Client, round: Round)
    requires 2 * c.minWait <= c.maxWait && round.idle == 0 && round.attempt == DROPPING
    requires s.state == RESUBSCRIBE_IN_PROGRESS && s.interval == c.minWait && Expired(s.reconnect, s.now)
    requires s.handlers == [Handler(true, false)]
    ensures var o := Turn(c, s, round); !o.stop && o.client.state == DISCONNECTED_MANUALLY && o.client.auto == s.auto
  {
    hide HandleReconnect, Expired, Carries, Keeps, KeepsInYield;
    assert s.(now := s.now + 0) == s;
    DroppedWhileResubscribing(c, s);
  }
}
