/** What holds over whole runs of the yield engine. */
module YieldRuns {

  import opened ClientState
  import opened TickTimer
  import opened YieldModel

  /** The record as it stood at some earlier point. */
  predicate Within(past: Log, log: Log) {
    past == log || (log.After? && Within(past, log.earlier))
  }

  // ---------------------------------------------------------------- keep-alive, in every run

  lemma {:induction false} PingsSoundWithin(c: Config, past: Log, log: Log)
    requires PingsSound(c, log) && Within(past, log)
    ensures PingsSound(c, past)
  {
    if past != log { PingsSoundWithin(c, past, log.earlier); }
  }

  /** Whatever the script, a ping time-out is declared only when the latest PINGREQ is unanswered, with no
      reconnection since, and was sent at least the keep-alive interval earlier in true time. */
  lemma PingTimeOutIsSound(c: Config, s: Client, actions: Actions, past: Log, at: nat)
    requires c.keepAlive < 65536
    requires s.log.Empty? && !s.pingOut
    requires Within(After(past, PingTimedOut(at)), RunActions(c, s, actions).log)
    ensures LastPing(past).Waiting? && at - LastPing(past).at >= c.keepAlive * 1000 / c.period
  {
    PingsSoundWithin(c, After(past, PingTimedOut(at)), RunActions(c, s, actions).log);
    assert Seconds(c.keepAlive) == c.keepAlive * 1000;
  }

  /** Conversely, while the counter does not come round: an unanswered PINGREQ is declared lost exactly once the
      keep-alive interval has passed, and without one the next PINGREQ is due exactly one interval after the last
      PINGREQ or CONNACK. */
  lemma KeepAliveExactly(c: Config, s: Client, round: Round)
    requires Sound(c, s) && 0 < c.keepAlive < 65536
    requires PingClock(s.log).Waiting? && s.now - PingClock(s.log).at < WRAP
    requires s.pingOut ==> s.now - LastPing(s.log).at < WRAP
    ensures var since := if s.pingOut then LastPing(s.log).at else PingClock(s.log).at;
            var due := s.now - since >= c.keepAlive * 1000 / c.period;
            var sent := s.now + round.sending;
            var o := KeepAlive(c, s, round);
            if !due then o == Outcome(s, SUCCESS)
            else if s.pingOut then
              o == HandleDisconnect(c, s.(log := After(s.log, PingTimedOut(s.now))), round.handler)
            else if round.pingSent then
              o.rc == SUCCESS && o.client.pingOut && o.client.state == s.state && o.client.now == sent
              && o.client.log == After(s.log, Pinged(sent))
            else
              o == HandleDisconnect(c, s.(now := sent), round.handler)
  {
    hide Sound, HandleDisconnect, Carries, Keeps, KeepsInYield, Expired, LastPing, PingClock, Started, Seconds;
    PingTimersExactly(c, s);
  }

  /** The two ping timers read as expired exactly when the record says so. */
  lemma PingTimersExactly(c: Config, s: Client)
    requires Sound(c, s) && c.keepAlive < 65536
    requires PingClock(s.log).Waiting? && s.now - PingClock(s.log).at < WRAP
    requires s.pingOut ==> s.now - LastPing(s.log).at < WRAP
    ensures var ticks := c.keepAlive * 1000 / c.period;
            && (Expired(s.pingReq, s.now) <==> s.now - PingClock(s.log).at >= ticks)
            && (s.pingOut ==> (Expired(s.pingResp, s.now) <==> s.now - LastPing(s.log).at >= ticks))
  {
    hide Expired, PingsSound, MarksSound, LastPing, PingClock, Counter, Started, Ticks;
    var ms := Seconds(c.keepAlive);
    assert ms == c.keepAlive * 1000;
    TicksAre(ms, c.period);
    ExpiryExactly(PingClock(s.log).at, s.now, ms, c.period);
    if s.pingOut { ExpiryExactly(LastPing(s.log).at, s.now, ms, c.period); }
  }

  // ---------------------------------------------------------------- resubscription, in every run

  lemma {:induction false} NeverResentWithin(past: Log, log: Log)
    requires NeverResent(log) && Within(past, log)
    ensures NeverResent(past)
  {
    if past != log { NeverResentWithin(past, log.earlier); }
  }

  /** A loss is recorded between `since` and the end of the record. */
  predicate LostSince(since: Log, log: Log) {
    log != since && log.After? && ((log.event.Lost? && Within(since, log.earlier)) || LostSince(since, log.earlier))
  }

  /** An accepted handler stays marked until a loss is recorded. */
  lemma {:induction false} MarkedUntilLost(slot: nat, accepted: Log, log: Log)
    requires Within(After(accepted, Accepted(slot)), log)
    ensures slot in Marked(log) || LostSince(After(accepted, Accepted(slot)), log)
  {
    if log != After(accepted, Accepted(slot)) { MarkedUntilLost(slot, accepted, log.earlier); }
  }

  /** Whatever the script, once its SUBACK was accepted a handler is sent again only after a loss in between. */
  lemma ResentOnlyAfterLoss(c: Config, s: Client, actions: Actions, slot: nat, accepted: Log, past: Log)
    requires s.log.Empty? && !s.pingOut
    requires Within(After(past, Sent(slot)), RunActions(c, s, actions).log)
    requires Within(After(accepted, Accepted(slot)), past)
    ensures LostSince(After(accepted, Accepted(slot)), past)
  {
    NeverResentWithin(After(past, Sent(slot)), RunActions(c, s, actions).log);
    MarkedUntilLost(slot, accepted, past);
  }

  /** Whatever the script and wherever it starts: if a loss is recorded, what is left to resubscribe and the SUBACKs
      accepted since the last loss make up the whole table, however many retries that took; if none is, their sum
      is unchanged. */
  lemma ResubscriptionsAddUp(c: Config, s: Client, actions: Actions)
    ensures var t := RunActions(c, s, actions);
            && FirstFree(t.handlers) == FirstFree(s.handlers)
            && Losses(s.log) <= Losses(t.log)
            && Left(t.handlers) + Accepts(t.log) ==
                 if Losses(t.log) > Losses(s.log) then FirstFree(t.handlers) else Left(s.handlers) + Accepts(s.log)
  {
    hide RunActions, Sound, FirstFree, Left, Accepts, Losses;
  }

  /** Likewise one resubscription: so with no loss in between, what was to do has shrunk by exactly the SUBACKs
      accepted. */
  lemma ResubscriptionAddsUp(c: Config, s: Client, attempt: Attempt)
    ensures var t := Resubscribe(c, s, attempt).client;
            Left(t.handlers) + Accepts(t.log) ==
              if Losses(t.log) > Losses(s.log) then FirstFree(s.handlers) else Left(s.handlers) + Accepts(s.log)
  {
    hide Resubscribe, Sound, FirstFree, Left, Accepts, Losses;
  }

  /** Marking the first handler to do leaves none to do up to it. */
  lemma NoneUpTo(handlers: seq<Handler>, i: nat)
    requires i < FirstFree(handlers) && !handlers[i].resubscribed && ToDo(handlers, i) == 0
    ensures ToDo(Marking(handlers, i), i + 1) == 0
  {
    ToDoAfterMark(handlers, i, i);
  }

  lemma {:induction false} ResubscribedFrom(c: Config, s: Client, i: nat, replies: Replies)
    requires i <= FirstFree(s.handlers) && ToDo(s.handlers, i) == 0 && s.state == RESUBSCRIBE_IN_PROGRESS
    ensures var o := ResubscribeFrom(c, s, i, FirstFree(s.handlers), replies);
            o.rc == SUCCESS ==> Left(o.client.handlers) == 0
    decreases replies, FirstFree(s.handlers) - i
  {
    hide Deliver, FirstFree, Carries, Keeps;
    if i < FirstFree(s.handlers) {
      if s.handlers[i].resubscribed {
        ResubscribedFrom(c, s, i + 1, replies);
      } else if replies.Reply? && SendAndWait(c, s, i, replies).rc == SUCCESS {
        NoneUpTo(s.handlers, i);
        LeftAfterMark(s.handlers, i);
        ResubscribedFrom(c, SendAndWait(c, s, i, replies).client, i + 1, replies.rest);
      }
    }
  }

  /** Whatever the state and the script, resubscribing succeeds only when nothing is left to do. */
  lemma ResubscribedAll(c: Config, s: Client, attempt: Attempt)
    ensures var o := Resubscribe(c, s, attempt);
            o.rc == SUCCESS ==> o.client.state == CONNECTED_IDLE && Left(o.client.handlers) == 0
  {
    hide ResubscribeFrom, FirstFree, Left, Carries, Keeps;
    if s.state == CONNECTED_IDLE || s.state == RESUBSCRIBE_IN_PROGRESS {
      ResubscribedFrom(c, s.(state := RESUBSCRIBE_IN_PROGRESS), 0, attempt.replies);
    }
  }

  lemma ReconnectedAll(c: Config, s: Client, attempt: Attempt)
    ensures var o := AttemptReconnect(c, s, attempt);
            o.rc == NETWORK_RECONNECTED ==> o.client.state == CONNECTED_IDLE && Left(o.client.handlers) == 0
  {
    hide ConnectWith, Resubscribe, Left, Carries, Keeps;
    ResubscribedAll(c, s, attempt);
    ResubscribedAll(c, ConnectWith(c, s, attempt).client, attempt);
  }

  /** So does a reconnect round: it reports NETWORK_RECONNECTED only with nothing left to do, back in the yield. */
  lemma RoundResubscribedAll(c: Config, s: Client, attempt: Attempt)
    requires s.interval <= c.maxWait
    ensures var o := HandleReconnect(c, s, attempt);
            o.rc == NETWORK_RECONNECTED ==> o.client.state == YIELD_IN_PROGRESS && Left(o.client.handlers) == 0
  {
    hide AttemptReconnect, Left, Expired, Carries, Keeps, KeepsInYield;
    if Expired(s.reconnect, s.now) { ReconnectedAll(c, BeginTry(c, s), attempt); }
  }
}
