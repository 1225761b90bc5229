/** Back-off over whole runs: what every script gives, what it gives when no attempt of a yield is reopened from inside,
    and what it gives before any loss. */
module BackOffRuns {

  import opened ClientState
  import opened TickTimer
  import opened YieldModel
  import opened CalmScripts
  import opened YieldRuns

  // ---------------------------------------------------------------- how many failures there can be

  function Pow2(k: nat): (p: nat)
    ensures p >= 1
  {
    if k == 0 then 1 else 2 * Pow2(k - 1)
  }

  function FloorLog2(q: nat): nat {
    if q < 2 then 0 else 1 + FloorLog2(q / 2)
  }

  lemma {:induction false} FloorLog2Meaning(q: nat, k: nat)
    requires q >= 1
    ensures Pow2(k) <= q <==> k <= FloorLog2(q)
  {
    if k > 0 && q >= 2 { FloorLog2Meaning(q / 2, k - 1); }
  }

  predicate Limits(c: Config) {
    1 <= c.minWait <= c.maxWait && 2 * c.maxWait < WRAP
  }

  /** The most failed rounds there can be. */
  function MaxFails(c: Config): nat
    requires Limits(c)
  {
    FloorLog2(c.maxWait / c.minWait) + 1
  }

  /** The wait after k failures is still allowed exactly when k is below the most there can be. */
  lemma WaitAllowed(c: Config, k: nat)
    requires Limits(c)
    ensures c.minWait * Pow2(k) <= c.maxWait <==> k < MaxFails(c)
  {
    FloorLog2Meaning(c.maxWait / c.minWait, k);
    AtMostQuotient(c.minWait, Pow2(k), c.maxWait);
  }

  lemma AtMostQuotient(m: nat, p: nat, n: nat)
    requires 1 <= m <= n
    ensures m * p <= n <==> p <= n / m
    ensures n / m >= 1
  {
    var q, r := n / m, n % m;
    assert n == m * q + r && r < m;
    ScaledAtMost(m, p, q, r);
    ScaledAtMost(m, 1, q, r);
  }

  lemma ScaledAtMost(m: nat, p: nat, q: int, r: nat)
    requires r < m
    ensures m * p <= m * q + r <==> p <= q
  {
    Multiple(p - q, m);
    assert (p - q) * m == m * p - m * q;
  }

  lemma MulMod(a: nat)
    ensures a % WRAP * 2 % WRAP == 2 * a % WRAP
  {
    var q, r := a / WRAP, a % WRAP;
    assert 2 * a == 2 * r + 2 * q * WRAP;
    ModShift(2 * r, 2 * q);
  }

  /** Doubling k times in 32 bits is multiplying by 2^k, less all whole turns. */
  lemma {:induction false} DoubledIs(w: Word, k: nat)
    ensures Doubled(w, k) == w * Pow2(k) % WRAP
  {
    if k > 0 {
      DoubledIs(w, k - 1);
      MulMod(w * Pow2(k - 1));
      assert w * (2 * Pow2(k - 1)) == 2 * (w * Pow2(k - 1));
    }
  }

  /** Up to the most failures there can be, the wait is at most twice the limit. */
  lemma AtMostTwice(c: Config, k: nat)
    requires Limits(c) && k <= MaxFails(c)
    ensures c.minWait * Pow2(k) <= 2 * c.maxWait
  {
    hide MaxFails;
    if k > 0 {
      WaitAllowed(c, k - 1);
      assert c.minWait * (2 * Pow2(k - 1)) == 2 * (c.minWait * Pow2(k - 1));
    }
  }

  lemma NoTurn(a: nat)
    ensures a % WRAP == a <==> a < WRAP
  {
  }

  /** Within the limits nothing wraps: up to the most failures there can be the wait is MIN * 2^k, and it is allowed
      exactly short of them. */
  lemma DoubledWithin(c: Config, k: nat)
    requires Limits(c) && k <= MaxFails(c)
    ensures Doubled(c.minWait, k) == c.minWait * Pow2(k)
    ensures Doubled(c.minWait, k) <= c.maxWait <==> k < MaxFails(c)
  {
    hide MaxFails, Pow2, Doubled;
    DoubledIs(c.minWait, k);
    WaitAllowed(c, k);
    AtMostTwice(c, k);
    NoTurn(c.minWait * Pow2(k));
  }

  // ---------------------------------------------------------------- every script

  /** Whatever the settings, the script and the state it starts in: a reconnect round that comes after a loss, and
      after k failures since, has waited MIN * 2^k milliseconds from that loss or failure, where 2^k is taken in
      32 bits; and that wait is allowed. */
  lemma RoundsWait(c: Config, s: Client, actions: Actions, past: Log, at: nat, wait: nat)
    requires s.log.Empty?
    requires Within(After(past, Tried(at, wait)), RunActions(c, s, actions).log) && Losses(past) > 0
    ensures wait == c.minWait * Pow2(Fails(past)) % WRAP <= c.maxWait
    ensures at - WaitFrom(past) >= wait / c.period
  {
    hide RunActions, Sound, AddsUp, Unwaited, Doubled;
    WaitsSoundWithin(c, After(past, Tried(at, wait)), RunActions(c, s, actions).log);
    DoubledIs(c.minWait, Fails(past));
  }

  lemma {:induction false} WaitsSoundWithin(c: Config, past: Log, log: Log)
    requires WaitsSound(c, log) && Within(past, log)
    ensures WaitsSound(c, past)
  {
    if past != log { WaitsSoundWithin(c, past, log.earlier); }
  }

  /** So the interval kept, after any script with a loss on record, is MIN * 2^k in 32 bits. */
  lemma IntervalIs(c: Config, s: Client, actions: Actions)
    requires s.log.Empty?
    ensures var t := RunActions(c, s, actions);
            Losses(t.log) > 0 ==> t.interval == c.minWait * Pow2(Fails(t.log)) % WRAP
  {
    hide RunActions, Sound, AddsUp, Unwaited, Doubled;
    DoubledIs(c.minWait, Fails(RunActions(c, s, actions).log));
  }

  // ---------------------------------------------------------------- before any loss

  /** The back-off as the documentation has it: after k failures, an allowed wait of MIN * 2^k milliseconds. */
  predicate Obeys(c: Config, past: Log, at: nat, wait: nat) {
    wait == c.minWait * Pow2(Fails(past)) <= c.maxWait && at >= WaitFrom(past) + wait / c.period
  }

  /** From a client as initialised, by any script: a reconnect round obeys the back-off if and only if a loss is on
      record and MIN * 2^k fits 32 bits.  With no loss on record it has not waited at all. */
  lemma ObeysExactly(c: Config, s: Client, actions: Actions, past: Log, at: nat, wait: nat)
    requires s.log.Empty? && s.interval == 0 && c.minWait > 0
    requires Within(After(past, Tried(at, wait)), RunActions(c, s, actions).log)
    ensures Obeys(c, past, at, wait) <==> Losses(past) > 0 && c.minWait * Pow2(Fails(past)) < WRAP
    ensures Losses(past) == 0 ==> wait == 0
  {
    hide RunActions, Carries, Keeps, Pow2, Losses, Fails, WaitFrom;
    var p := c.minWait * Pow2(Fails(past));
    NoTurn(p);
    Positive(c.minWait, Pow2(Fails(past)));
    if Losses(past) > 0 {
      RoundsWait(c, s, actions, past, at, wait);
    } else {
      NoWaitBeforeLoss(c, s, actions, past, at, wait);
    }
  }

  lemma NoWaitBeforeLoss(c: Config, s: Client, actions: Actions, past: Log, at: nat, wait: nat)
    requires s.log.Empty? && s.interval == 0
    requires Within(After(past, Tried(at, wait)), RunActions(c, s, actions).log) && Losses(past) == 0
    ensures wait == 0
  {
    hide RunActions, Sound, AddsUp, WaitSound;
    NoWaitsWithin(After(past, Tried(at, wait)), RunActions(c, s, actions).log);
  }

  lemma Positive(m: nat, p: nat)
    requires m >= 1 && p >= 1
    ensures m * p >= 1
  {
    assert m * p >= 1 * p by { Multiple(m - 1, p); }
  }

  lemma {:induction false} NoWaitsWithin(past: Log, log: Log)
    requires NoWaits(log) && Within(past, log)
    ensures NoWaits(past)
  {
    if past != log { NoWaitsWithin(past, log.earlier); }
  }

  /** Nor does a yield give up before any loss, however often it fails: the interval stays 0. */
  lemma NeverGivesUp(c: Config, s: Client, actions: Actions, rounds: Rounds)
    requires s.log.Empty? && s.interval == 0
    ensures var o := YieldFor(c, RunActions(c, s, actions), rounds);
            Losses(o.client.log) == 0 ==> o.client.interval == 0 && o.rc != NETWORK_RECONNECT_TIMED_OUT
  {
    hide RunActions, Loop, Sound, WaitSound, AddsUp;
    var t := RunActions(c, s, actions);
    if YieldRefusal(t.state) == SUCCESS {
      LoopGoesOn(c, if Reconnecting(t.state) then t else t.(state := YIELD_IN_PROGRESS), rounds);
    }
  }

  lemma {:induction false} LoopGoesOn(c: Config, s: Client, rounds: Rounds)
    requires Unwaited(s.log, s.interval)
    ensures var o := Loop(c, s, rounds); Losses(o.client.log) == 0 ==> o.rc != NETWORK_RECONNECT_TIMED_OUT
    decreases rounds
  {
    hide Turn, Sound, WaitSound, Unwaited, Losses, FirstFree, Left, Accepts;
    TurnGoesOn(c, s, rounds.round);
    var o := Turn(c, s, rounds.round);
    if !o.stop && rounds.More? { LoopGoesOn(c, o.client, rounds.rest); }
  }

  lemma TurnGoesOn(c: Config, s: Client, round: Round)
    requires Unwaited(s.log, s.interval)
    ensures var o := Turn(c, s, round); Losses(o.client.log) == 0 ==> o.rc != NETWORK_RECONNECT_TIMED_OUT
  {
    hide Serve, HandleReconnect, Sound, WaitSound, NoWaits, FirstFree, Left, Accepts, Losses;
    var t := Later(c, s, round.idle);
    ServeNeverGivesUp(c, t, round);
    if t.interval <= c.maxWait { RoundGoesOn(c, t, round.attempt); }
  }

  lemma ServeNeverGivesUp(c: Config, s: Client, round: Round)
    ensures Serve(c, s, round).rc != NETWORK_RECONNECT_TIMED_OUT
  {
    hide Deliver, HandleDisconnect, TimeOutPing, SendPing, Expired, Carries, Keeps, KeepsInYield;
  }

  lemma RoundGoesOn(c: Config, s: Client, attempt: Attempt)
    requires Unwaited(s.log, s.interval) && s.interval <= c.maxWait
    ensures var o := HandleReconnect(c, s, attempt); Losses(o.client.log) == 0 ==> o.rc != NETWORK_RECONNECT_TIMED_OUT
  {
    hide TryOnce, BackOff, Sound, WaitSound, Unwaited, AddsUp, Expired;
    if Expired(s.reconnect, s.now) {
      var tried := TryOnce(c, s, attempt);
      TryNeverGivesUp(c, s, attempt);
      FailureGoesOn(c, tried);
    }
  }

  lemma TryNeverGivesUp(c: Config, s: Client, attempt: Attempt)
    requires s.interval <= c.maxWait && Expired(s.reconnect, s.now)
    ensures TryOnce(c, s, attempt).rc != NETWORK_RECONNECT_TIMED_OUT
  {
    hide ConnectWith, Resubscribe, Carries, Keeps;
    var t := BeginTry(c, s);
    assert AfterConnect(c, ConnectWith(c, t, attempt).client, attempt).rc != NETWORK_RECONNECT_TIMED_OUT;
    assert AttemptReconnect(c, t, attempt).rc != NETWORK_RECONNECT_TIMED_OUT;
  }

  lemma FailureGoesOn(c: Config, tried: Outcome)
    requires Unwaited(tried.client.log, tried.client.interval) && tried.rc != NETWORK_RECONNECT_TIMED_OUT
    ensures var o := BackOff(c, tried); Losses(o.client.log) == 0 ==> o.rc != NETWORK_RECONNECT_TIMED_OUT
  {
    hide Carries;
  }

  // ---------------------------------------------------------------- scripts with calm attempts

  /** Wherever the script yields, at any depth, the callbacks of a round's own attempt do not open a connection once
      they have disconnected.  Everything else, handlers, other callbacks, and attempts the application makes
      itself, may do anything. */
  predicate CalmYields(actions: Actions) {
    actions.Then? ==>
      && (match actions.action
          case Connect(attempt) => CalmYieldsIn(attempt)
          case Reconnect(attempt) => CalmYieldsIn(attempt)
          case Yield(rounds) => CalmYieldRounds(rounds)
          case _ => true)
      && CalmYields(actions.rest)
  }

  predicate CalmYieldsIn(attempt: Attempt) {
    CalmYields(attempt.callbacks) && CalmYieldReplies(attempt.replies)
  }

  predicate CalmYieldReplies(replies: Replies) {
    replies.Reply? ==> CalmYields(replies.callbacks) && CalmYieldReplies(replies.rest)
  }

  predicate CalmYieldRound(round: Round) {
    CalmYields(round.read.callbacks) && CalmYields(round.handler) && CalmAttempt(round.attempt)
  }

  predicate CalmYieldRounds(rounds: Rounds) {
    CalmYieldRound(rounds.round) && (rounds.More? ==> CalmYieldRounds(rounds.rest))
  }

  /** At every point of the record, the failures since the last loss are at most the most there can be. */
  predicate FewFails(c: Config, log: Log)
    requires Limits(c)
  {
    && (Losses(log) > 0 ==> Fails(log) <= MaxFails(c))
    && (log.After? ==> FewFails(c, log.earlier))
  }

  ghost predicate Few(c: Config, s: Client)
    requires Limits(c)
  {
    WaitSound(c, s.log, s.interval, s.reconnect, s.now) && FewFails(c, s.log)
  }

  /** Any entry but a failure keeps it. */
  lemma FewEntry(c: Config, log: Log, e: Event)
    requires Limits(c) && FewFails(c, log) && !e.Failed?
    ensures FewFails(c, After(log, e))
  {
    hide MaxFails;
  }

  lemma {:induction false} FewNeutral(c: Config, log: Log, later: Log)
    requires Limits(c) && FewFails(c, log) && NeutralSince(log, later)
    ensures FewFails(c, later)
  {
    hide MaxFails;
    if later != log { FewNeutral(c, log, later.earlier); }
  }

  // Every function of the model keeps it, one lemma each.

  lemma {:induction false} RunFew(c: Config, s: Client, actions: Actions)
    requires Limits(c) && Few(c, s) && CalmYields(actions)
    ensures Few(c, RunActions(c, s, actions))
    decreases actions, 2
  {
    hide Sound, Unwaited, AddsUp, WaitSound, FewFails, MaxFails, Act;
    if actions.Then? {
      ActFew(c, s, actions.action);
      RunFew(c, Act(c, s, actions.action).client, actions.rest);
    }
  }

  lemma {:induction false} ActFew(c: Config, s: Client, action: Action)
    requires Limits(c) && Few(c, s) && CalmYields(Then(action, Done))
    ensures Few(c, Act(c, s, action).client)
    decreases action, 5
  {
    hide Sound, Unwaited, AddsUp, WaitSound, FewFails, MaxFails, ConnectWith, AttemptReconnect, YieldFor;
    match action {
      case Connect(attempt) => ConnectFew(c, s, attempt);
      case Reconnect(attempt) => ReconnectFew(c, s, attempt);
      case Yield(rounds) => YieldFew(c, s, rounds);
      case Pong => FewEntry(c, s.log, Answered);
      case _ =>
    }
  }

  lemma {:induction false} DeliverFew(c: Config, s: Client, callbacks: Actions)
    requires Limits(c) && Few(c, s) && CalmYields(callbacks)
    ensures Few(c, Deliver(c, s, callbacks).client)
    decreases callbacks, 3
  {
    hide Sound, Unwaited, AddsUp, WaitSound, FewFails, MaxFails, RunActions;
    RunFew(c, s.(state := WAIT_FOR_CB_RETURN), callbacks);
  }

  lemma {:induction false} ConnectFew(c: Config, s: Client, attempt: Attempt)
    requires Limits(c) && Few(c, s) && CalmYieldsIn(attempt)
    ensures Few(c, ConnectWith(c, s, attempt).client)
    decreases attempt, 0
  {
    hide Sound, Unwaited, AddsUp, WaitSound, FewFails, MaxFails, Deliver;
    if ConnectRefusal(s.state) == SUCCESS {
      var begun := Later(c, s.(state := CONNECTING), attempt.took);
      DeliverFew(c, begun, attempt.callbacks);
      var d := Deliver(c, begun, attempt.callbacks).client;
      FewEntry(c, d.log, Linked(d.now));
    }
  }

  lemma {:induction false} ReconnectFew(c: Config, s: Client, attempt: Attempt)
    requires Limits(c) && Few(c, s) && CalmYieldsIn(attempt)
    ensures Few(c, AttemptReconnect(c, s, attempt).client)
    decreases attempt, 2
  {
    hide Sound, Unwaited, AddsUp, WaitSound, FewFails, MaxFails, ConnectWith, Resubscribe;
    if !Connected(s.state) {
      ConnectFew(c, s, attempt);
      ResubscribeFew(c, ConnectWith(c, s, attempt).client, attempt);
    } else {
      ResubscribeFew(c, s, attempt);
    }
  }

  lemma {:induction false} ResubscribeFew(c: Config, s: Client, attempt: Attempt)
    requires Limits(c) && Few(c, s) && CalmYieldsIn(attempt)
    ensures Few(c, Resubscribe(c, s, attempt).client)
    decreases attempt, 1
  {
    hide Sound, Unwaited, AddsUp, WaitSound, FewFails, MaxFails, ResubscribeFrom;
    if s.state == CONNECTED_IDLE || s.state == RESUBSCRIBE_IN_PROGRESS {
      ResubscribeFromFew(c, s.(state := RESUBSCRIBE_IN_PROGRESS), 0, FirstFree(s.handlers), attempt.replies);
    }
  }

  lemma {:induction false} ResubscribeFromFew(c: Config, s: Client, i: nat, n: nat, replies: Replies)
    requires Limits(c) && Few(c, s) && CalmYieldReplies(replies)
    requires i <= n <= FirstFree(s.handlers) && s.state == RESUBSCRIBE_IN_PROGRESS
    ensures Few(c, ResubscribeFrom(c, s, i, n, replies).client)
    decreases replies, n - i
  {
    hide Sound, Unwaited, WaitSound, FewFails, MaxFails, SendAndWait, FirstFree, Left, Accepts, Losses;
    if i < n {
      if s.handlers[i].resubscribed {
        ResubscribeFromFew(c, s, i + 1, n, replies);
      } else if replies.Silence? {
        FewEntry(c, s.log, Sent(i));
      } else {
        SendFew(c, s, i, replies);
        var o := SendAndWait(c, s, i, replies);
        if o.rc == SUCCESS { ResubscribeFromFew(c, o.client, i + 1, n, replies.rest); }
      }
    }
  }

  lemma {:induction false} SendFew(c: Config, s: Client, i: nat, reply: Replies)
    requires Limits(c) && Few(c, s) && CalmYieldReplies(reply) && reply.Reply?
    requires i < FirstFree(s.handlers) && !s.handlers[i].resubscribed && s.state == RESUBSCRIBE_IN_PROGRESS
    ensures Few(c, SendAndWait(c, s, i, reply).client)
    decreases reply, 0
  {
    hide Sound, Unwaited, AddsUp, WaitSound, FewFails, MaxFails, Deliver, FirstFree;
    var begun := Later(c, s, reply.took);
    var sent := SendSubscribe(c, begun, i);
    FewEntry(c, begun.log, Sent(i));
    DeliverFew(c, sent, reply.callbacks);
    var d := Deliver(c, sent, reply.callbacks);
    if d.rc == SUCCESS { FewEntry(c, d.client.log, Accepted(i)); }
  }

  lemma {:induction false} DisconnectFew(c: Config, s: Client, handler: Actions)
    requires Limits(c) && Few(c, s) && CalmYields(handler)
    ensures Few(c, HandleDisconnect(c, s, handler).client)
    decreases handler, 3
  {
    hide Sound, Unwaited, AddsUp, WaitSound, FewFails, MaxFails, RunActions;
    RunFew(c, s.(state := DISCONNECTED_ERROR), handler);
  }

  lemma {:induction false} ReadFew(c: Config, s: Client, read: Read)
    requires Limits(c) && Few(c, s) && CalmYields(read.callbacks)
    ensures Few(c, CycleRead(c, s, read).client)
    decreases read
  {
    hide Sound, Unwaited, AddsUp, WaitSound, FewFails, MaxFails, Deliver;
    var t := Later(c, s, read.took);
    DeliverFew(c, t, read.callbacks);
    var d := Deliver(c, t, read.callbacks).client;
    FewEntry(c, d.log, Answered);
  }

  lemma {:induction false} KeepAliveFew(c: Config, s: Client, round: Round)
    requires Limits(c) && Few(c, s) && CalmYieldRound(round)
    ensures Few(c, KeepAlive(c, s, round).client)
    decreases round, 0
  {
    hide Sound, Unwaited, AddsUp, WaitSound, FewFails, MaxFails, HandleDisconnect, Expired;
    var t := Later(c, s, round.sending);
    DisconnectFew(c, t, round.handler);
    FewEntry(c, t.log, Pinged(t.now));
    if s.pingOut && Expired(s.pingResp, s.now) {
      FewEntry(c, s.log, PingTimedOut(s.now));
      DisconnectFew(c, TimeOutPing(c, s), round.handler);
    }
  }

  lemma {:induction false} ServeFew(c: Config, s: Client, round: Round)
    requires Limits(c) && Few(c, s) && CalmYieldRound(round)
    ensures Few(c, Serve(c, s, round).client)
    decreases round, 1
  {
    hide Sound, Unwaited, AddsUp, WaitSound, FewFails, MaxFails, CycleRead, KeepAlive, HandleDisconnect;
    ReadFew(c, s, round.read);
    var read := CycleRead(c, s, round.read).client;
    KeepAliveFew(c, read, round);
    DisconnectFew(c, read, round.handler);
  }

  /** A round's attempt, being calm, records no failure of its own; so the round adds at most one, to fewer than the most. */
  lemma {:induction false} RoundFew(c: Config, s: Client, attempt: Attempt)
    requires Limits(c) && Few(c, s) && CalmAttempt(attempt)
    requires Reconnecting(s.state) && s.interval <= c.maxWait
    ensures Few(c, HandleReconnect(c, s, attempt).client)
    decreases attempt, 4
  {
    hide Sound, Unwaited, AddsUp, WaitSound, FewFails, MaxFails, AttemptReconnect, BackOff, SameRecord, Expired;
    if Expired(s.reconnect, s.now) {
      var t := BeginTry(c, s);
      FewEntry(c, s.log, Tried(s.now, s.interval));
      if attempt.linkUp { CalmReconnect(c, t, attempt); } else { SameWaitSelf(t); }
      FailFew(c, t, TryOnce(c, s, attempt));
    }
  }

  lemma FailFew(c: Config, s: Client, tried: Outcome)
    requires Limits(c) && Few(c, s) && s.interval <= c.maxWait && SameWait(s, tried.client)
    requires WaitSound(c, tried.client.log, tried.client.interval, tried.client.reconnect, tried.client.now)
    ensures Few(c, tried.client) && Few(c, BackOff(c, tried).client)
  {
    hide MaxFails, WaitsSound, Sound, Unwaited, AddsUp, Doubled;
    FewNeutral(c, s.log, tried.client.log);
    if Losses(s.log) > 0 { DoubledWithin(c, Fails(s.log)); }
  }

  lemma {:induction false} TurnFew(c: Config, s: Client, round: Round)
    requires Limits(c) && Few(c, s) && CalmYieldRound(round)
    ensures Few(c, Turn(c, s, round).client)
    decreases round, 2
  {
    hide Sound, Unwaited, AddsUp, WaitSound, FewFails, MaxFails, Serve, HandleReconnect;
    var t := Later(c, s, round.idle);
    if !Reconnecting(s.state) {
      ServeFew(c, t, round);
      var o := Serve(c, t, round).client;
      FewEntry(c, o.log, Lost(o.now));
    } else if t.interval <= c.maxWait {
      RoundFew(c, t, round.attempt);
    }
  }

  lemma {:induction false} LoopFew(c: Config, s: Client, rounds: Rounds)
    requires Limits(c) && Few(c, s) && CalmYieldRounds(rounds)
    ensures Few(c, Loop(c, s, rounds).client)
    decreases rounds, 0
  {
    hide Sound, Unwaited, AddsUp, WaitSound, FewFails, MaxFails, Turn;
    TurnFew(c, s, rounds.round);
    var o := Turn(c, s, rounds.round);
    if !o.stop && rounds.More? { LoopFew(c, o.client, rounds.rest); }
  }

  lemma {:induction false} YieldFew(c: Config, s: Client, rounds: Rounds)
    requires Limits(c) && Few(c, s) && CalmYieldRounds(rounds)
    ensures Few(c, YieldFor(c, s, rounds).client)
    decreases rounds, 1
  {
    hide Sound, Unwaited, AddsUp, WaitSound, FewFails, MaxFails, Loop;
    if YieldRefusal(s.state) == SUCCESS {
      LoopFew(c, if Reconnecting(s.state) then s else s.(state := YIELD_IN_PROGRESS), rounds);
    }
  }

  lemma {:induction false} FewFailsWithin(c: Config, past: Log, log: Log)
    requires Limits(c) && FewFails(c, log) && Within(past, log)
    ensures FewFails(c, past)
  {
    hide MaxFails;
    if past != log { FewFailsWithin(c, past, log.earlier); }
  }

  /** With calm attempts and 2 * MAX < 2^32, a reconnect round that comes after a loss, and after k failures since, has
      waited MIN * 2^k milliseconds from that loss or failure, and there are at most floor(log2(MAX / MIN)) + 1
      failures. */
  lemma BackOffInEveryRun(c: Config, s: Client, actions: Actions, past: Log, at: nat, wait: nat)
    requires Limits(c) && CalmYields(actions) && s.log.Empty?
    requires Within(After(past, Tried(at, wait)), RunActions(c, s, actions).log) && Losses(past) > 0
    ensures wait == c.minWait * Pow2(Fails(past)) <= c.maxWait
    ensures at - WaitFrom(past) >= wait / c.period
    ensures Fails(past) < MaxFails(c)
  {
    hide RunActions, CalmYields, MaxFails, Doubled, Pow2;
    RunFew(c, s, actions);
    FewFailsWithin(c, After(past, Tried(at, wait)), RunActions(c, s, actions).log);
    RoundsWait(c, s, actions, past, at, wait);
    DoubledIs(c.minWait, Fails(past));
    DoubledWithin(c, Fails(past));
  }

  /** After any such run with a loss on record: once the most failures there can be have happened, and only then, the
      interval is over the limit, and a client that is reconnecting gives up at once, every time. */
  lemma TimedOutForGood(c: Config, s: Client, actions: Actions, rounds: Rounds)
    requires Limits(c) && CalmYields(actions) && s.log.Empty?
    requires Losses(RunActions(c, s, actions).log) > 0
    ensures var t := RunActions(c, s, actions);
            var gaveUp := Outcome(t.(now := t.now + rounds.round.idle), NETWORK_RECONNECT_TIMED_OUT);
            && (Fails(t.log) == MaxFails(c) <==> t.interval > c.maxWait)
            && (Fails(t.log) == MaxFails(c) && Reconnecting(t.state) ==> YieldFor(c, t, rounds) == gaveUp)
  {
    hide RunActions, CalmYields, YieldFor, MaxFails, Doubled, Pow2;
    RunFew(c, s, actions);
    var t := RunActions(c, s, actions);
    DoubledWithin(c, Fails(t.log));
    if t.interval > c.maxWait && Reconnecting(t.state) { GivesUp(c, t, rounds); }
  }

  lemma GivesUp(c: Config, s: Client, rounds: Rounds)
    requires Reconnecting(s.state) && s.interval > c.maxWait
    ensures YieldFor(c, s, rounds) == Outcome(s.(now := s.now + rounds.round.idle), NETWORK_RECONNECT_TIMED_OUT)
  {
    hide Carries, Keeps, KeepsInYield, HandleReconnect, Serve;
    assert Loop(c, s, rounds) == Outcome(s.(now := s.now + rounds.round.idle), NETWORK_RECONNECT_TIMED_OUT);
  }

  /** Where 2 * MAX need not fit 32 bits, the doubled wait is right exactly when it fits the word.  A doubled wait that
      does not fit wraps to a shorter one, so that the time-out it calls for is never reported. */
  lemma WaitWraps(c: Config, tried: Outcome)
    requires tried.client.interval <= c.maxWait && tried.rc != NETWORK_RECONNECT_TIMED_OUT
    ensures var doubled := 2 * tried.client.interval;
            var o := BackOff(c, tried);
            && (o.client.interval == doubled <==> doubled < WRAP)
            && (o.rc == NETWORK_RECONNECT_TIMED_OUT <==> c.maxWait < doubled < WRAP)
  {
    hide Carries;
    var w := tried.client.interval;
    if 2 * w >= WRAP {
      assert w * 2 % WRAP == w * 2 - WRAP;
    } else {
      assert w * 2 % WRAP == w * 2;
    }
  }
}
