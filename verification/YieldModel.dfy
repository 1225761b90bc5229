/** The yield engine: reading, keep-alive, reconnecting with back-off and resubscribing, driven by a script of what
    the network and the application do.  Callbacks and the disconnect handler may call back into the client, to any
    depth.  Every function promises `Keeps`, the invariants that hold in every run whatever the script. */
module YieldModel {

  import opened ClientState
  import opened TickTimer

  /** Wait limits in milliseconds, milliseconds per tick, keep-alive interval in seconds. */
  datatype Settings = Settings(minWait: Word, maxWait: Word, period: nat, keepAlive: nat)

  type Config = c: Settings | c.period >= 1 witness Settings(1, 1, 1, 1)

  function KeepAliveTicks(c: Config): nat {
    Ticks(Seconds(c.keepAlive), c.period)
  }

  // ---------------------------------------------------------------- scripts

  datatype Actions = Done | Then(action: Action, rest: Actions)

  /** What the application does: let time pass, have a command's wait meet a PINGRESP, or call the client. */
  datatype Action =
    | Elapse(ticks: nat)
    | Pong
    | Disconnect
    | Connect(attempt: Attempt)
    | Reconnect(attempt: Attempt)
    | Yield(rounds: Rounds)

  /** One try to connect: whether the link is up, how long it takes, the callbacks of messages that precede the
      CONNACK, whether it is accepted, and how the resubscriptions that follow fare. */
  datatype Attempt = Attempt(linkUp: bool, took: nat, callbacks: Actions, accepted: bool, replies: Replies)

  /** For each SUBSCRIBE sent, the callbacks run before its SUBACK and whether it is accepted. */
  datatype Replies = Silence | Reply(took: nat, callbacks: Actions, accepted: bool, rest: Replies)

  /** One turn of the yield loop.  Which parts are used depends on the state it finds. */
  datatype Round = Round(idle: nat, read: Read, sending: nat, pingSent: bool, handler: Actions, attempt: Attempt)

  datatype Read = Read(took: nat, callbacks: Actions, got: Got)

  datatype Got = Nothing | PingResponse | Broken(rc: TransportRc)

  /** The codes a failed read can bring; NETWORK_DISCONNECTED and NETWORK_ATTEMPTING_RECONNECT come from above. */
  type TransportRc = rc: Rc |
      rc == FAILURE || rc == REQUEST_TIMEOUT || rc == SSL_READ_ERROR || rc == SSL_WRITE_ERROR || rc == SSL_WRITE_TIMEOUT
    witness FAILURE

  predicate Fatal(rc: Rc) {
    rc == SSL_READ_ERROR || rc == SSL_WRITE_ERROR || rc == SSL_WRITE_TIMEOUT
  }

  /** The rounds one yield makes before its timer expires; at least one. */
  datatype Rounds = Final(round: Round) | More(round: Round, rest: Rounds)

  // ---------------------------------------------------------------- history

  datatype Event =
    | Lost(at: nat)                       // a loss of connection handled: marks and back-off start afresh
    | Tried(at: nat, wait: nat)           // a reconnect round, after waiting `wait` milliseconds
    | Failed(at: nat)                     // and it failed
    | Linked(at: nat)                     // CONNACK accepted
    | Sent(slot: nat)                     // a SUBSCRIBE repeated for a handler
    | Accepted(slot: nat)                 // and its SUBACK received
    | Pinged(at: nat)
    | Answered
    | PingTimedOut(at: nat)

  datatype Log = Empty | After(earlier: Log, event: Event)

  datatype Ping = Idle | Waiting(at: nat)

  /** The PINGREQ still unanswered, by the record alone. */
  function LastPing(log: Log): Ping {
    if log.Empty? then Idle
    else match log.event
      case Pinged(at) => Waiting(at)
      case Answered => Idle
      case Linked(_) => Idle
      case _ => LastPing(log.earlier)
  }

  /** What the next PINGREQ is timed from, by the record alone: the latest PINGREQ or CONNACK. */
  function PingClock(log: Log): Ping {
    if log.Empty? then Idle
    else match log.event
      case Pinged(at) => Waiting(at)
      case Linked(at) => Waiting(at)
      case _ => PingClock(log.earlier)
  }

  /** The handlers whose resubscription was accepted since the last loss. */
  function Marked(log: Log): set<nat> {
    if log.Empty? then {}
    else match log.event
      case Lost(_) => {}
      case Accepted(slot) => Marked(log.earlier) + {slot}
      case _ => Marked(log.earlier)
  }

  /** Every ping time-out in the record comes at least the keep-alive interval after an unanswered PINGREQ. */
  predicate PingsSound(c: Config, log: Log) {
    log.After? ==>
      && PingsSound(c, log.earlier)
      && (log.event.PingTimedOut? ==>
            LastPing(log.earlier).Waiting? && log.event.at >= LastPing(log.earlier).at + KeepAliveTicks(c))
  }

  /** No SUBSCRIBE is sent for a handler already accepted since the last loss. */
  predicate NeverResent(log: Log) {
    log.After? ==> NeverResent(log.earlier) && (log.event.Sent? ==> log.event.slot !in Marked(log.earlier))
  }

  /** Losses on record. */
  function Losses(log: Log): nat {
    if log.Empty? then 0 else Losses(log.earlier) + if log.event.Lost? then 1 else 0
  }

  /** SUBACKs accepted since the last loss. */
  function Accepts(log: Log): nat {
    if log.Empty? then 0
    else match log.event
      case Lost(_) => 0
      case Accepted(_) => 1 + Accepts(log.earlier)
      case _ => Accepts(log.earlier)
  }

  /** Failed reconnect rounds since the last loss. */
  function Fails(log: Log): nat {
    if log.Empty? then 0
    else match log.event
      case Lost(_) => 0
      case Failed(_) => 1 + Fails(log.earlier)
      case _ => Fails(log.earlier)
  }

  /** When the current wait began: at the last loss or failed round. */
  function WaitFrom(log: Log): nat {
    if log.Empty? then 0
    else match log.event
      case Lost(at) => at
      case Failed(at) => at
      case _ => WaitFrom(log.earlier)
  }

  /** The word w doubled k times. */
  function Doubled(w: Word, k: nat): Word {
    if k == 0 then w else Doubled(w, k - 1) * 2 % WRAP
  }

  /** A round tried at `at`, on this record, has waited its full wait: the shortest one doubled with every failure. */
  predicate Waited(c: Config, log: Log, at: nat, wait: nat) {
    wait == Doubled(c.minWait, Fails(log)) <= c.maxWait && at >= WaitFrom(log) + wait / c.period
  }

  /** Every reconnect round in the record that follows a loss has waited. */
  predicate WaitsSound(c: Config, log: Log) {
    log.After? ==>
      && WaitsSound(c, log.earlier)
      && (log.event.Tried? && Losses(log.earlier) > 0 ==> Waited(c, log.earlier, log.event.at, log.event.wait))
  }

  /** No reconnect round that comes before any loss has a wait. */
  predicate NoWaits(log: Log) {
    log.After? ==>
      && NoWaits(log.earlier)
      && (log.event.Tried? && Losses(log.earlier) == 0 ==> log.event.wait == 0)
  }

  // ---------------------------------------------------------------- the handler table

  datatype Handler = Handler(present: bool, resubscribed: bool)

  /** The first slot without a handler. */
  function FirstFree(handlers: seq<Handler>): (n: nat)
    ensures n <= |handlers|
    ensures forall i :: 0 <= i < n ==> handlers[i].present
    ensures n < |handlers| ==> !handlers[n].present
  {
    if |handlers| == 0 || !handlers[0].present then 0 else 1 + FirstFree(handlers[1..])
  }

  /** Handlers below the first n slots still to be resubscribed. */
  function ToDo(handlers: seq<Handler>, n: nat): nat
    requires n <= |handlers|
  {
    if n == 0 then 0
    else ToDo(handlers, n - 1) + if handlers[n - 1].present && !handlers[n - 1].resubscribed then 1 else 0
  }

  /** Handlers still to be resubscribed. */
  function Left(handlers: seq<Handler>): nat {
    ToDo(handlers, FirstFree(handlers))
  }

  function Marking(handlers: seq<Handler>, i: nat): (r: seq<Handler>)
    requires i < |handlers|
    ensures |r| == |handlers|
  {
    handlers[i := handlers[i].(resubscribed := true)]
  }

  function Unmarked(handlers: seq<Handler>): (r: seq<Handler>)
    ensures |r| == |handlers|
    ensures forall i :: 0 <= i < |r| ==> r[i] == handlers[i].(resubscribed := false)
  {
    seq(|handlers|, i requires 0 <= i < |handlers| => handlers[i].(resubscribed := false))
  }

  lemma {:induction false} FirstFreeByPresence(xs: seq<Handler>, ys: seq<Handler>)
    requires |xs| == |ys| && forall i :: 0 <= i < |xs| ==> xs[i].present == ys[i].present
    ensures FirstFree(xs) == FirstFree(ys)
  {
    if |xs| > 0 { FirstFreeByPresence(xs[1..], ys[1..]); }
  }

  lemma {:induction false} ToDoAfterMark(handlers: seq<Handler>, i: nat, n: nat)
    requires i < |handlers| && n <= |handlers| && handlers[i].present && !handlers[i].resubscribed
    ensures ToDo(Marking(handlers, i), n) == if i < n then ToDo(handlers, n) - 1 else ToDo(handlers, n)
  {
    if n > 0 { ToDoAfterMark(handlers, i, n - 1); }
  }

  lemma {:induction false} ToDoUnmarked(handlers: seq<Handler>, n: nat)
    requires n <= FirstFree(handlers)
    ensures ToDo(Unmarked(handlers), n) == n
  {
    if n > 0 { ToDoUnmarked(handlers, n - 1); }
  }

  /** Marking a handler leaves one fewer to do. */
  lemma LeftAfterMark(handlers: seq<Handler>, i: nat)
    requires i < FirstFree(handlers) && !handlers[i].resubscribed
    ensures FirstFree(Marking(handlers, i)) == FirstFree(handlers) && Left(Marking(handlers, i)) + 1 == Left(handlers)
  {
    FirstFreeByPresence(handlers, Marking(handlers, i));
    ToDoAfterMark(handlers, i, FirstFree(handlers));
  }

  /** Clearing the marks leaves the whole table to do. */
  lemma LeftUnmarked(handlers: seq<Handler>)
    ensures FirstFree(Unmarked(handlers)) == FirstFree(handlers) == Left(Unmarked(handlers))
  {
    FirstFreeByPresence(handlers, Unmarked(handlers));
    ToDoUnmarked(handlers, FirstFree(handlers));
  }

  // ---------------------------------------------------------------- the client

  datatype Client = Client(
    state: ClientState, auto: bool, interval: Word, reconnect: Countdown,
    pingOut: bool, pingReq: Countdown, pingResp: Countdown,
    handlers: seq<Handler>, now: nat, log: Log)

  datatype Outcome = Outcome(client: Client, rc: Rc)

  /** A turn of the loop: `stop` says the loop is left at once. */
  datatype Turned = Turned(client: Client, rc: Rc, stop: bool)

  function Note(s: Client, e: Event): Client {
    s.(log := After(s.log, e))
  }

  lemma NoteUnfolds(c: Config, log: Log, e: Event)
    ensures var l := After(log, e);
            && PingsSound(c, l) == (PingsSound(c, log) && (e.PingTimedOut? ==>
                 LastPing(log).Waiting? && e.at >= LastPing(log).at + KeepAliveTicks(c)))
            && NeverResent(l) == (NeverResent(log) && (e.Sent? ==> e.slot !in Marked(log)))
            && LastPing(l) == (if e.Pinged? then Waiting(e.at) else if e.Answered? || e.Linked? then Idle else LastPing(log))
            && PingClock(l) == (if e.Pinged? || e.Linked? then Waiting(e.at) else PingClock(log))
            && Marked(l) == (if e.Lost? then {} else if e.Accepted? then Marked(log) + {e.slot} else Marked(log))
            && Losses(l) == (if e.Lost? then Losses(log) + 1 else Losses(log))
            && Accepts(l) == (if e.Lost? then 0 else if e.Accepted? then Accepts(log) + 1 else Accepts(log))
            && Fails(l) == (if e.Lost? then 0 else if e.Failed? then Fails(log) + 1 else Fails(log))
            && WaitFrom(l) == (if e.Lost? || e.Failed? then e.at else WaitFrom(log))
            && WaitsSound(c, l) == (WaitsSound(c, log) && (e.Tried? && Losses(log) > 0 ==> Waited(c, log, e.at, e.wait)))
            && NoWaits(l) == (NoWaits(log) && (e.Tried? && Losses(log) == 0 ==> e.wait == 0))
  {
  }

  /** The record is sound and the fields agree with it. */
  ghost predicate Sound(c: Config, s: Client) {
    && PingsSound(c, s.log)
    && MarksSound(s.log, s.handlers)
    && TimersSound(c, s.log, s.pingOut, s.pingReq, s.pingResp, s.now)
  }

  ghost predicate MarksSound(log: Log, handlers: seq<Handler>) {
    NeverResent(log) && forall i :: i in Marked(log) ==> i < |handlers| && handlers[i].resubscribed
  }

  ghost predicate TimersSound(c: Config, log: Log, pingOut: bool, pingReq: Countdown, pingResp: Countdown, now: nat) {
    && (pingOut ==>
          && LastPing(log).Waiting?
          && LastPing(log).at <= now
          && pingResp == Started(LastPing(log).at, Seconds(c.keepAlive), c.period))
    && (PingClock(log).Waiting? ==>
          && PingClock(log).at <= now
          && pingReq == Started(PingClock(log).at, Seconds(c.keepAlive), c.period))
  }

  /** Once a loss is on record, the interval is the shortest one doubled with every failure since, and while it is
      allowed, the delay timer runs from the last loss or failure. */
  ghost predicate WaitSound(c: Config, log: Log, interval: Word, reconnect: Countdown, now: nat) {
    && WaitsSound(c, log)
    && (Losses(log) > 0 ==>
          && interval == Doubled(c.minWait, Fails(log))
          && (interval <= c.maxWait ==>
                reconnect == Started(WaitFrom(log), interval, c.period) && WaitFrom(log) <= now))
  }

  /** Before any loss there is no interval, and no round has waited. */
  ghost predicate Unwaited(log: Log, interval: Word) {
    NoWaits(log) && (Losses(log) == 0 ==> interval == 0)
  }

  /** The handlers left to do and the SUBACKs accepted since the last loss: from one point of a run to a later one
      their sum is unchanged, or a loss was recorded and they make up the table. */
  ghost predicate AddsUp(before: seq<Handler>, past: Log, after: seq<Handler>, log: Log) {
    && FirstFree(after) == FirstFree(before)
    && Losses(past) <= Losses(log)
    && Left(after) + Accepts(log) ==
         if Losses(log) == Losses(past) then Left(before) + Accepts(past) else FirstFree(after)
  }

  lemma AddsUpSame(handlers: seq<Handler>, log: Log)
    ensures AddsUp(handlers, log, handlers, log)
  {
  }

  lemma AddsUpTrans(h0: seq<Handler>, l0: Log, h1: seq<Handler>, l1: Log, h2: seq<Handler>, l2: Log)
    requires AddsUp(h0, l0, h1, l1) && AddsUp(h1, l1, h2, l2)
    ensures AddsUp(h0, l0, h2, l2)
  {
    hide FirstFree, Left, Accepts, Losses;
  }

  ghost predicate Carries(c: Config, s: Client, t: Client) {
    && s.now <= t.now
    && |t.handlers| == |s.handlers|
    && t.auto == s.auto
    && AddsUp(s.handlers, s.log, t.handlers, t.log)
    && (Sound(c, s) ==> Sound(c, t))
    && (WaitSound(c, s.log, s.interval, s.reconnect, s.now) ==> WaitSound(c, t.log, t.interval, t.reconnect, t.now))
    && (Unwaited(s.log, s.interval) ==> Unwaited(t.log, t.interval))
  }

  /** From `s` to `t`: time does not go back, the table keeps its size and adds up, soundness is kept, the state is
      unchanged or settled, and a callback's caller still waits only if the table was left alone. */
  ghost predicate Keeps(c: Config, s: Client, t: Client) {
    && Carries(c, s, t)
    && (t.state == s.state || Settled(t.state))
    && (t.state == WAIT_FOR_CB_RETURN ==> t.handlers == s.handlers)
  }

  /** What holds between two points of one yield, where the state may also be YIELD_IN_PROGRESS unless the code
      says that the connection is lost. */
  ghost predicate KeepsInYield(c: Config, s: Client, t: Client, rc: Rc) {
    && Carries(c, s, t)
    && (t.state == s.state || Settled(t.state) || t.state == YIELD_IN_PROGRESS)
    && (rc == NETWORK_DISCONNECTED || rc == NETWORK_ATTEMPTING_RECONNECT ==> Settled(t.state))
  }

  // ---------------------------------------------------------------- single steps and their entries in the record

  function GotPingResponse(c: Config, s: Client): (t: Client)
    ensures Carries(c, s, t) && t.state == s.state && t.handlers == s.handlers
  {
    hide PingsSound, WaitsSound, Waited, NoWaits, Fails, WaitFrom, Doubled, NeverResent, Marked, Left, Accepts, Losses, FirstFree, LastPing, PingClock, Ticks, Counter;
    NoteUnfolds(c, s.log, Answered);
    Note(s.(pingOut := false), Answered)
  }

  function GotConnack(c: Config, s: Client): (t: Client)
    ensures Carries(c, s, t) && t.state == s.state
  {
    hide PingsSound, WaitsSound, Waited, NoWaits, Fails, WaitFrom, Doubled, NeverResent, Marked, Left, Accepts, Losses, FirstFree, LastPing, PingClock, Ticks, Counter;
    NoteUnfolds(c, s.log, Linked(s.now));
    Note(s.(pingOut := false, pingReq := Started(s.now, Seconds(c.keepAlive), c.period)), Linked(s.now))
  }

  function SendPing(c: Config, s: Client): (t: Client)
    ensures Carries(c, s, t) && t.state == s.state
  {
    hide PingsSound, WaitsSound, Waited, NoWaits, Fails, WaitFrom, Doubled, NeverResent, Marked, Left, Accepts, Losses, FirstFree, LastPing, PingClock, Ticks, Counter;
    var timer := Started(s.now, Seconds(c.keepAlive), c.period);
    NoteUnfolds(c, s.log, Pinged(s.now));
    Note(s.(pingOut := true, pingResp := timer, pingReq := timer), Pinged(s.now))
  }

  function TimeOutPing(c: Config, s: Client): (t: Client)
    requires s.pingOut && Expired(s.pingResp, s.now)
    ensures Carries(c, s, t) && t.state == s.state
  {
    hide PingsSound, WaitsSound, Waited, NoWaits, Fails, WaitFrom, Doubled, NeverResent, Marked, Left, Accepts, Losses, FirstFree, LastPing, PingClock, Counter, Expired;
    assert Sound(c, s) ==> s.now >= LastPing(s.log).at + KeepAliveTicks(c) by {
      if Sound(c, s) { ExpiryIsSound(LastPing(s.log).at, s.now, Seconds(c.keepAlive), c.period); }
    }
    NoteUnfolds(c, s.log, PingTimedOut(s.now));
    Note(s, PingTimedOut(s.now))
  }

  lemma TicksAre(ms: Word, period: nat)
    requires period >= 1
    ensures Ticks(ms, period) == ms / period
  {
  }

  lemma DoubledOnce(w: Word, k: nat)
    ensures Doubled(w, k + 1) == Doubled(w, k) * 2 % WRAP
  {
  }

  lemma DoubledNever(w: Word)
    ensures Doubled(w, 0) == w
  {
  }

  /** Time passes. */
  function Later(c: Config, s: Client, ticks: nat): (t: Client)
    ensures Keeps(c, s, t) && t.state == s.state && t.handlers == s.handlers
  {
    hide PingsSound, MarksSound, WaitsSound, Unwaited, Fails, WaitFrom, Doubled, Left, Accepts, Losses, FirstFree;
    s.(now := s.now + ticks)
  }

  function SendSubscribe(c: Config, s: Client, i: nat): (t: Client)
    requires i < |s.handlers| && !s.handlers[i].resubscribed
    ensures Carries(c, s, t) && t.state == s.state && t.handlers == s.handlers
  {
    hide PingsSound, WaitsSound, Waited, NoWaits, Fails, WaitFrom, Doubled, NeverResent, Marked, Left, Accepts, Losses, FirstFree, LastPing, PingClock, Ticks, Counter;
    NoteUnfolds(c, s.log, Sent(i));
    Note(s, Sent(i))
  }

  function Mark(c: Config, s: Client, i: nat): (t: Client)
    requires i < FirstFree(s.handlers) && !s.handlers[i].resubscribed
    ensures Carries(c, s, t) && t.state == s.state && FirstFree(t.handlers) == FirstFree(s.handlers)
  {
    hide PingsSound, WaitsSound, Waited, NoWaits, Fails, WaitFrom, Doubled, NeverResent, Marked, Left, Accepts, Losses, FirstFree, LastPing, PingClock, Ticks, Counter;
    NoteUnfolds(c, s.log, Accepted(i));
    LeftAfterMark(s.handlers, i);
    Note(s.(handlers := Marking(s.handlers, i)), Accepted(i))
  }

  function BeginTry(c: Config, s: Client): (t: Client)
    requires s.interval <= c.maxWait && Expired(s.reconnect, s.now)
    ensures Carries(c, s, t) && t.state == s.state && t.handlers == s.handlers
  {
    hide PingsSound, WaitsSound, NoWaits, Fails, WaitFrom, Doubled, NeverResent, Marked, Left, Accepts, Losses, FirstFree, LastPing, PingClock, Ticks, Counter, Expired;
    assert WaitSound(c, s.log, s.interval, s.reconnect, s.now) && Losses(s.log) > 0
      ==> Waited(c, s.log, s.now, s.interval) by {
      if WaitSound(c, s.log, s.interval, s.reconnect, s.now) && Losses(s.log) > 0 {
        ExpiryIsSound(WaitFrom(s.log), s.now, s.interval, c.period);
        TicksAre(s.interval, c.period);
      }
    }
    NoteUnfolds(c, s.log, Tried(s.now, s.interval));
    Note(s, Tried(s.now, s.interval))
  }

  // ---------------------------------------------------------------- application

  function RunActions(c: Config, s: Client, actions: Actions): (t: Client)
    ensures Keeps(c, s, t)
    decreases actions, 2
  {
    hide PingsSound, MarksSound, TimersSound, WaitSound, Unwaited, Left, Accepts, Losses, FirstFree;
    match actions
    case Done => s
    case Then(action, rest) => RunActions(c, Act(c, s, action).client, rest)
  }

  function Act(c: Config, s: Client, action: Action): (o: Outcome)
    ensures Keeps(c, s, o.client)
    decreases action, 5
  {
    hide PingsSound, MarksSound, TimersSound, WaitSound, Unwaited, Left, Accepts, Losses, FirstFree;
    match action
    case Elapse(ticks) => Outcome(Later(c, s, ticks), SUCCESS)
    case Pong => if Connected(s.state) then Outcome(GotPingResponse(c, s), SUCCESS) else Outcome(s, NETWORK_DISCONNECTED)
    case Disconnect =>
      if Connected(s.state) then Outcome(s.(state := DISCONNECTED_MANUALLY), SUCCESS)
      else Outcome(s, NETWORK_DISCONNECTED)
    case Connect(attempt) => ConnectWith(c, s, attempt)
    case Reconnect(attempt) => AttemptReconnect(c, s, attempt)
    case Yield(rounds) => YieldFor(c, s, rounds)
  }

  /** Messages are delivered and their callbacks run. */
  function Deliver(c: Config, s: Client, callbacks: Actions): (o: Outcome)
    ensures Keeps(c, s, o.client)
    ensures o.rc == SUCCESS ==> o.client.state == s.state && o.client.handlers == s.handlers
    ensures o.rc == SUCCESS || o.rc == UNEXPECTED_CLIENT_STATE
    decreases callbacks, 3
  {
    hide PingsSound, MarksSound, TimersSound, WaitSound, Unwaited, Left, Accepts, Losses, FirstFree;
    var inside := RunActions(c, s.(state := WAIT_FOR_CB_RETURN), callbacks);
    var (state, rc) := SetState(inside.state, WAIT_FOR_CB_RETURN, s.state);
    Outcome(inside.(state := state), rc)
  }

  // ---------------------------------------------------------------- connecting

  /** aws_iot_mqtt_connect */
  function ConnectWith(c: Config, s: Client, attempt: Attempt): (o: Outcome)
    ensures Keeps(c, s, o.client)
    decreases attempt, 0
  {
    hide PingsSound, MarksSound, TimersSound, WaitSound, Unwaited, AddsUp;
    if ConnectRefusal(s.state) != SUCCESS then
      AddsUpSame(s.handlers, s.log);
      Outcome(s, ConnectRefusal(s.state))
    else
      var begun := Later(c, s.(state := CONNECTING), attempt.took);
      var d := Deliver(c, begun, attempt.callbacks);
      AddsUpTrans(s.handlers, s.log, begun.handlers, begun.log, d.client.handlers, d.client.log);
      var rc := if d.rc == SUCCESS && !attempt.accepted then FAILURE else d.rc;
      if rc == SUCCESS then
        var t := GotConnack(c, d.client);
        AddsUpTrans(s.handlers, s.log, d.client.handlers, d.client.log, t.handlers, t.log);
        Outcome(t.(state := SetState(t.state, CONNECTING, CONNECTED_IDLE).0), SUCCESS)
      else
        Outcome(d.client.(state := SetState(d.client.state, CONNECTING, DISCONNECTED_ERROR).0), rc)
  }

  /** aws_iot_mqtt_attempt_reconnect */
  function AttemptReconnect(c: Config, s: Client, attempt: Attempt): (o: Outcome)
    ensures Keeps(c, s, o.client)
    ensures o.rc == NETWORK_RECONNECTED ==> o.client.state == CONNECTED_IDLE
    decreases attempt, 2
  {
    hide PingsSound, MarksSound, TimersSound, WaitSound, Unwaited, AddsUp;
    AddsUpSame(s.handlers, s.log);
    if !Connected(s.state) then
      var t := ConnectWith(c, s, attempt).client;
      var o := AfterConnect(c, t, attempt);
      AddsUpTrans(s.handlers, s.log, t.handlers, t.log, o.client.handlers, o.client.log);
      o
    else if s.state != RESUBSCRIBE_IN_PROGRESS then Outcome(s, NETWORK_ALREADY_CONNECTED)
    else ReconnectedIf(Resubscribe(c, s, attempt))
  }

  /** What attempt_reconnect does once connect has returned. */
  function AfterConnect(c: Config, s: Client, attempt: Attempt): (o: Outcome)
    ensures Keeps(c, s, o.client)
    ensures o.rc == NETWORK_RECONNECTED ==> o.client.state == CONNECTED_IDLE
    decreases attempt, 1
  {
    hide PingsSound, MarksSound, TimersSound, WaitSound, Unwaited, AddsUp;
    AddsUpSame(s.handlers, s.log);
    if s.state != CONNECTED_IDLE then
      Outcome(s.(state := SetState(s.state, DISCONNECTED_ERROR, PENDING_RECONNECT).0), NETWORK_ATTEMPTING_RECONNECT)
    else
      ReconnectedIf(Resubscribe(c, s, attempt))
  }

  function ReconnectedIf(o: Outcome): Outcome {
    Outcome(o.client, if o.rc == SUCCESS then NETWORK_RECONNECTED else NETWORK_ATTEMPTING_RECONNECT)
  }

  // ---------------------------------------------------------------- resubscribing

  /** aws_iot_mqtt_resubscribe, called when connected and idle or resubscribing. */
  function Resubscribe(c: Config, s: Client, attempt: Attempt): (o: Outcome)
    ensures Keeps(c, s, o.client)
    ensures o.rc == SUCCESS ==> o.client.state == CONNECTED_IDLE
    decreases attempt, 0
  {
    hide PingsSound, MarksSound, TimersSound, WaitSound, Unwaited, Left, Accepts, Losses, FirstFree;
    if !Connected(s.state) then Outcome(s, NETWORK_DISCONNECTED)
    else if s.state != CONNECTED_IDLE && s.state != RESUBSCRIBE_IN_PROGRESS then Outcome(s, UNEXPECTED_CLIENT_STATE)
    else
      var o := ResubscribeFrom(c, s.(state := RESUBSCRIBE_IN_PROGRESS), 0, FirstFree(s.handlers), attempt.replies);
      if o.rc != SUCCESS then o
      else
        var (state, rc) := SetState(o.client.state, RESUBSCRIBE_IN_PROGRESS, CONNECTED_IDLE);
        Outcome(o.client.(state := state), rc)
  }

  /** _aws_iot_mqtt_internal_resubscribe, from slot i: marked handlers are skipped, the others are sent again
      until one fails. */
  function ResubscribeFrom(c: Config, s: Client, i: nat, n: nat, replies: Replies): (o: Outcome)
    requires i <= n <= FirstFree(s.handlers) && s.state == RESUBSCRIBE_IN_PROGRESS
    ensures Keeps(c, s, o.client)
    ensures o.rc == SUCCESS ==> o.client.state == s.state
    decreases replies, n - i
  {
    hide PingsSound, MarksSound, TimersSound, WaitSound, Unwaited, Left, Accepts, Losses, FirstFree;
    if i == n then Outcome(s, SUCCESS)
    else if !s.handlers[i].present || s.handlers[i].resubscribed then ResubscribeFrom(c, s, i + 1, n, replies)
    else
      match replies
      case Silence => Outcome(SendSubscribe(c, s, i), REQUEST_TIMEOUT)
      case Reply(took, callbacks, accepted, rest) =>
        var o := SendAndWait(c, s, i, replies);
        if o.rc != SUCCESS then o else ResubscribeFrom(c, o.client, i + 1, n, rest)
  }

  /** One SUBSCRIBE is sent and, if its SUBACK is accepted, the handler is marked. */
  function SendAndWait(c: Config, s: Client, i: nat, reply: Replies): (o: Outcome)
    requires i < FirstFree(s.handlers) && !s.handlers[i].resubscribed && reply.Reply?
    requires s.state == RESUBSCRIBE_IN_PROGRESS
    ensures Keeps(c, s, o.client)
    ensures o.rc == SUCCESS ==> o.client.state == s.state
    decreases reply, 0
  {
    hide PingsSound, MarksSound, TimersSound, WaitSound, Unwaited, AddsUp;
    var sent := SendSubscribe(c, Later(c, s, reply.took), i);
    var d := Deliver(c, sent, reply.callbacks);
    AddsUpTrans(s.handlers, s.log, s.handlers, Later(c, s, reply.took).log, sent.handlers, sent.log);
    AddsUpTrans(s.handlers, s.log, sent.handlers, sent.log, d.client.handlers, d.client.log);
    if d.rc != SUCCESS then d
    else if !reply.accepted then Outcome(d.client, FAILURE)
    else
      var t := Mark(c, d.client, i);
      AddsUpTrans(s.handlers, s.log, d.client.handlers, d.client.log, t.handlers, t.log);
      Outcome(t, SUCCESS)
  }

  // ---------------------------------------------------------------- losing the connection

  /** _aws_iot_mqtt_handle_disconnect */
  function HandleDisconnect(c: Config, s: Client, handler: Actions): (o: Outcome)
    ensures Carries(c, s, o.client) && Settled(o.client.state)
    ensures o.rc == if o.client.state == CONNECTED_IDLE then SUCCESS else NETWORK_DISCONNECTED
    decreases handler, 3
  {
    hide PingsSound, MarksSound, TimersSound, WaitSound, Unwaited, Left, Accepts, Losses, FirstFree;
    var t := RunActions(c, s.(state := DISCONNECTED_ERROR), handler);
    Outcome(t, if t.state == CONNECTED_IDLE then SUCCESS else NETWORK_DISCONNECTED)
  }

  /** What yield does with a handled loss when it is to reconnect. */
  function Lose(c: Config, s: Client): (t: Client)
    ensures Carries(c, s, t) && t.state == PENDING_RECONNECT
  {
    hide PingsSound, WaitsSound, Waited, NoWaits, Fails, WaitFrom, Doubled, NeverResent, Marked, Left, Accepts, Losses, FirstFree, LastPing, PingClock, Ticks, Counter;
    DoubledNever(c.minWait);
    NoteUnfolds(c, s.log, Lost(s.now));
    LeftUnmarked(s.handlers);
    Note(s.(state := PENDING_RECONNECT, interval := c.minWait, reconnect := Started(s.now, c.minWait, c.period),
            handlers := Unmarked(s.handlers)), Lost(s.now))
  }

  // ---------------------------------------------------------------- the yield loop

  /** aws_iot_mqtt_internal_cycle_read */
  function CycleRead(c: Config, s: Client, read: Read): (o: Outcome)
    ensures Keeps(c, s, o.client)
    ensures o.rc != NETWORK_DISCONNECTED && o.rc != NETWORK_ATTEMPTING_RECONNECT
    ensures o.rc == SUCCESS ==> o.client.state == s.state
    decreases read
  {
    hide PingsSound, MarksSound, TimersSound, WaitSound, Unwaited, AddsUp;
    var t := Later(c, s, read.took);
    var d := Deliver(c, t, read.callbacks);
    AddsUpTrans(s.handlers, s.log, t.handlers, t.log, d.client.handlers, d.client.log);
    if d.rc != SUCCESS then d
    else
      match read.got
      case Nothing => d
      case PingResponse =>
        var answered := GotPingResponse(c, d.client);
        AddsUpTrans(s.handlers, s.log, d.client.handlers, d.client.log, answered.handlers, answered.log);
        Outcome(answered, SUCCESS)
      case Broken(rc) => Outcome(d.client, rc)
  }

  /** _aws_iot_mqtt_keep_alive */
  function KeepAlive(c: Config, s: Client, round: Round): (o: Outcome)
    ensures KeepsInYield(c, s, o.client, o.rc)
    decreases round, 0
  {
    hide PingsSound, MarksSound, TimersSound, WaitSound, Unwaited, Left, Accepts, Losses, FirstFree;
    if c.keepAlive == 0 then Outcome(s, SUCCESS)
    else if s.pingOut then
      if Expired(s.pingResp, s.now) then
        HandleDisconnect(c, TimeOutPing(c, s), round.handler)
      else Outcome(s, SUCCESS)
    else if !Expired(s.pingReq, s.now) then Outcome(s, SUCCESS)
    else
      var t := Later(c, s, round.sending);
      if !round.pingSent then HandleDisconnect(c, t, round.handler)
      else Outcome(SendPing(c, t), SUCCESS)
  }

  /** _aws_iot_mqtt_handle_reconnect */
  function HandleReconnect(c: Config, s: Client, attempt: Attempt): (o: Outcome)
    requires s.interval <= c.maxWait
    ensures Carries(c, s, o.client)
    ensures Settled(s.state) ==> KeepsInYield(c, s, o.client, o.rc)
    decreases attempt, 4
  {
    hide PingsSound, MarksSound, TimersSound, WaitSound, Unwaited, AddsUp;
    AddsUpSame(s.handlers, s.log);
    if !Expired(s.reconnect, s.now) then Outcome(s, NETWORK_ATTEMPTING_RECONNECT)
    else
      var tried := TryOnce(c, s, attempt);
      if tried.rc == NETWORK_RECONNECTED then
        var (state, rc) := SetState(tried.client.state, CONNECTED_IDLE, YIELD_IN_PROGRESS);
        Outcome(tried.client.(state := state), if rc == SUCCESS then NETWORK_RECONNECTED else rc)
      else
        var o := BackOff(c, tried);
        AddsUpTrans(s.handlers, s.log, tried.client.handlers, tried.client.log, o.client.handlers, o.client.log);
        o
  }

  /** The attempt of a reconnect round whose wait is over. */
  function TryOnce(c: Config, s: Client, attempt: Attempt): (o: Outcome)
    requires s.interval <= c.maxWait && Expired(s.reconnect, s.now)
    ensures Keeps(c, s, o.client)
    ensures o.rc == NETWORK_RECONNECTED ==> o.client.state == CONNECTED_IDLE
    decreases attempt, 3
  {
    hide PingsSound, MarksSound, TimersSound, WaitSound, Unwaited, AddsUp;
    var t := BeginTry(c, s);
    if !attempt.linkUp then Outcome(t, PHYSICAL_LAYER_DISCONNECTED)
    else
      var o := AttemptReconnect(c, t, attempt);
      AddsUpTrans(s.handlers, s.log, t.handlers, t.log, o.client.handlers, o.client.log);
      o
  }

  /** The wait is doubled, in 32 bits, and unless it is now too long a new wait begins. */
  function BackOff(c: Config, tried: Outcome): (o: Outcome)
    ensures Carries(c, tried.client, o.client) && o.client.state == tried.client.state
    ensures o.rc == tried.rc || o.rc == NETWORK_RECONNECT_TIMED_OUT
  {
    hide PingsSound, WaitsSound, Waited, NoWaits, Fails, WaitFrom, Doubled, NeverResent, Marked, Left, Accepts, Losses, FirstFree, LastPing, PingClock, Ticks, Counter;
    DoubledOnce(c.minWait, Fails(tried.client.log));
    NoteUnfolds(c, tried.client.log, Failed(tried.client.now));
    var t := Note(tried.client.(interval := tried.client.interval * 2 % WRAP), Failed(tried.client.now));
    if c.maxWait < t.interval then Outcome(t, NETWORK_RECONNECT_TIMED_OUT)
    else Outcome(t.(reconnect := Started(t.now, t.interval, c.period)), tried.rc)
  }

  predicate Reconnecting(state: ClientState) {
    state == PENDING_RECONNECT || state == RESUBSCRIBE_IN_PROGRESS
  }

  /** Reading, and keep-alive if that goes well; a fatal failure is a loss. */
  function Serve(c: Config, s: Client, round: Round): (o: Outcome)
    ensures KeepsInYield(c, s, o.client, o.rc)
    decreases round, 1
  {
    hide PingsSound, MarksSound, TimersSound, WaitSound, Unwaited, Left, Accepts, Losses, FirstFree;
    var read := CycleRead(c, s, round.read);
    if read.rc == SUCCESS then KeepAlive(c, read.client, round)
    else if Fatal(read.rc) then HandleDisconnect(c, read.client, round.handler)
    else read
  }

  /** One turn of the loop of _aws_iot_mqtt_internal_yield. */
  function Turn(c: Config, s: Client, round: Round): (o: Turned)
    ensures KeepsInYield(c, s, o.client, o.rc)
    decreases round, 2
  {
    hide PingsSound, MarksSound, TimersSound, WaitSound, Unwaited, Left, Accepts, Losses, FirstFree;
    var t := Later(c, s, round.idle);
    if Reconnecting(t.state) then
      if c.maxWait < t.interval then Turned(t, NETWORK_RECONNECT_TIMED_OUT, true)
      else
        var o := HandleReconnect(c, t, round.attempt);
        Turned(o.client, o.rc, false)
    else
      var o := Serve(c, t, round);
      if o.rc != NETWORK_DISCONNECTED then Turned(o.client, o.rc, o.rc != SUCCESS)
      else if !o.client.auto then Turned(o.client, NETWORK_DISCONNECTED, true)
      else if o.client.state == DISCONNECTED_ERROR then Turned(Lose(c, o.client), NETWORK_ATTEMPTING_RECONNECT, false)
      else Turned(o.client, UNEXPECTED_CLIENT_STATE, true)
  }

  /** _aws_iot_mqtt_internal_yield */
  function Loop(c: Config, s: Client, rounds: Rounds): (o: Outcome)
    ensures KeepsInYield(c, s, o.client, o.rc)
    decreases rounds, 0
  {
    hide PingsSound, MarksSound, TimersSound, WaitSound, Unwaited, Left, Accepts, Losses, FirstFree;
    var o := Turn(c, s, rounds.round);
    if o.stop || rounds.Final? then Outcome(o.client, o.rc) else Loop(c, o.client, rounds.rest)
  }

  /** aws_iot_mqtt_yield */
  function YieldFor(c: Config, s: Client, rounds: Rounds): (o: Outcome)
    ensures Keeps(c, s, o.client)
    ensures if YieldRefusal(s.state) != SUCCESS then o == Outcome(s, YieldRefusal(s.state)) else Settled(o.client.state)
    decreases rounds, 1
  {
    hide PingsSound, MarksSound, TimersSound, WaitSound, Unwaited, AddsUp;
    AddsUpSame(s.handlers, s.log);
    if YieldRefusal(s.state) != SUCCESS then Outcome(s, YieldRefusal(s.state))
    else
      var o := Loop(c, if Reconnecting(s.state) then s else s.(state := YIELD_IN_PROGRESS), rounds);
      if o.rc == NETWORK_DISCONNECTED || o.rc == NETWORK_ATTEMPTING_RECONNECT then o
      else
        var (state, rc) := SetState(o.client.state, YIELD_IN_PROGRESS, CONNECTED_IDLE);
        Outcome(o.client.(state := state), if o.rc == SUCCESS then rc else o.rc)
  }
}
