/** The shadow acknowledgement tables: requests waiting for an answer, and the reference-counted topic
    subscriptions that must stay alive while any of them waits. */
module Shadow {

  import opened TickTimer

  // ---------------------------------------------------------------- topics

  datatype ShadowAction = Get | Update | Delete
  datatype AckKind = Accepted | Rejected

  function ActionName(action: ShadowAction): string {
    match action
    case Get => "get"
    case Update => "update"
    case Delete => "delete"
  }

  function KindName(kind: AckKind): string {
    if kind == Accepted then "accepted" else "rejected"
  }

  function Suffix(action: ShadowAction, kind: AckKind): string {
    "/shadow/" + ActionName(action) + "/" + KindName(kind)
  }

  /** topicNameFromThingAndAction */
  function Topic(thing: string, action: ShadowAction, kind: AckKind): string {
    "$aws/things/" + thing + Suffix(action, kind)
  }

  /** Different things, actions or answers have different topics, whatever characters the thing names contain. */
  lemma TopicInjective(thing: string, action: ShadowAction, kind: AckKind,
                       thing': string, action': ShadowAction, kind': AckKind)
    ensures Topic(thing, action, kind) == Topic(thing', action', kind')
            <==> thing == thing' && action == action' && kind == kind'
  {
    hide Topic, Suffix, ActionName, KindName;
    if Topic(thing, action, kind) == Topic(thing', action', kind') {
      SuffixAtEnd(thing, action, kind);
      SuffixAtEnd(thing', action', kind');
      ThingWithin(thing, action, kind);
      ThingWithin(thing', action', kind');
    }
  }

  lemma ThingWithin(thing: string, action: ShadowAction, kind: AckKind)
    ensures var s := Topic(thing, action, kind);
            |Suffix(action, kind)| + 12 <= |s| && s[12..|s| - |Suffix(action, kind)|] == thing
  {
    hide Suffix;
    assert |"$aws/things/"| == 12;
  }

  /** The characters, counted from the end, that tell answers and actions apart. */
  lemma SuffixAtEnd(thing: string, action: ShadowAction, kind: AckKind)
    ensures var s := Topic(thing, action, kind);
            && |s| == 12 + |thing| + |Suffix(action, kind)| && |s| >= 32
            && s[|s| - 8] == (if kind == Accepted then 'a' else 'r')
            && s[|s| - 10] == (if action == Get then 't' else 'e')
            && (action == Update ==> s[|s| - 15] == 'u')
            && (action == Delete ==> s[|s| - 15] == 'd')
  {
    var name, answer := ActionName(action), KindName(kind);
    var head := "$aws/things/" + thing + "/shadow/";
    assert Topic(thing, action, kind) == head + (name + ("/" + answer));
    assert |name| == (if action == Get then 3 else 6) && |answer| == 8;
  }

  // ---------------------------------------------------------------- tables

  type Byte = x: int | 0 <= x < 256

  datatype Waiter = Waiter(isFree: bool, token: string, thing: string, action: ShadowAction, timer: Countdown)

  datatype Record = Record(isFree: bool, topic: string, count: Byte, isSticky: bool)

  datatype Tables = Tables(acks: seq<Waiter>, subs: seq<Record>)

  /** What the table holds on a topic. */
  datatype View = Absent | Held(count: Byte, isSticky: bool)

  /** findIndexOfSubscriptionList: the first record in use with this topic, or the length. */
  function Find(subs: seq<Record>, topic: string): (i: nat)
    ensures i <= |subs|
    ensures i < |subs| ==> !subs[i].isFree && subs[i].topic == topic
    ensures forall k :: 0 <= k < i ==> subs[k].isFree || subs[k].topic != topic
  {
    if |subs| == 0 || (!subs[0].isFree && subs[0].topic == topic) then 0 else 1 + Find(subs[1..], topic)
  }

  function Look(subs: seq<Record>, topic: string): View {
    var i := Find(subs, topic);
    if i < |subs| then Held(subs[i].count, subs[i].isSticky) else Absent
  }

  /** isSubscriptionPresent */
  predicate Present(subs: seq<Record>, thing: string, action: ShadowAction) {
    Look(subs, Topic(thing, action, Accepted)).Held? && Look(subs, Topic(thing, action, Rejected)).Held?
  }

  /** The first free record from index i on, or the length. */
  function FreeFrom(subs: seq<Record>, i: nat): (j: nat)
    requires i <= |subs|
    ensures i <= j <= |subs|
    ensures j < |subs| ==> subs[j].isFree
    ensures forall k :: i <= k < j ==> !subs[k].isFree
    decreases |subs| - i
  {
    if i == |subs| || subs[i].isFree then i else FreeFrom(subs, i + 1)
  }

  function SecondFree(subs: seq<Record>): (j: nat)
    ensures j <= |subs|
  {
    var i := FreeFrom(subs, 0);
    if i == |subs| then i else FreeFrom(subs, i + 1)
  }

  /** Two records are free. */
  predicate TwoFree(subs: seq<Record>) {
    SecondFree(subs) < |subs|
  }

  /** subscribeToShadowActionAcks, and whether it reports SUCCESS: it does when the table has no room. */
  function SubscribePair(subs: seq<Record>, thing: string, action: ShadowAction, sticky: bool, ok: Broker): (seq<Record>, bool) {
    var accepted, rejected := Topic(thing, action, Accepted), Topic(thing, action, Rejected);
    var a, r := FreeFrom(subs, 0), SecondFree(subs);
    if !TwoFree(subs) then (subs, true)
    else if !ok.accepted then (subs[a := subs[a].(topic := accepted)], false)
    else if !ok.rejected then
      (subs[a := Record(true, accepted, 1, sticky)][r := subs[r].(topic := rejected)], false)
    else
      (subs[a := Record(false, accepted, 1, sticky)][r := Record(false, rejected, 1, sticky)], true)
  }

  /** How the broker answers for the accepted and the rejected topic. */
  datatype Broker = Broker(accepted: bool, rejected: bool)

  function Bump(record: Record, thing: string, action: ShadowAction, sticky: bool): Record {
    if !record.isFree && (record.topic == Topic(thing, action, Accepted) || record.topic == Topic(thing, action, Rejected))
    then record.(count := (record.count + 1) % 256, isSticky := sticky)
    else record
  }

  /** incrementSubscriptionCnt */
  function Increment(subs: seq<Record>, thing: string, action: ShadowAction, sticky: bool): (r: seq<Record>)
    ensures |r| == |subs|
    ensures forall i :: 0 <= i < |r| ==> r[i] == Bump(subs[i], thing, action, sticky)
  {
    seq(|subs|, i requires 0 <= i < |subs| => Bump(subs[i], thing, action, sticky))
  }

  /** One record is released: dropped at its last count unless sticky, otherwise counted down. */
  function Released(record: Record, unsubscribed: bool): Record {
    if !record.isSticky && record.count == 1 then record.(isFree := unsubscribed)
    else if record.count > 1 then record.(count := record.count - 1)
    else record
  }

  function ReleaseTopic(subs: seq<Record>, topic: string, unsubscribed: bool): (r: seq<Record>)
    ensures |r| == |subs|
  {
    var i := Find(subs, topic);
    if i < |subs| then subs[i := Released(subs[i], unsubscribed)] else subs
  }

  /** unsubscribeFromAcceptedAndRejected */
  function Release(subs: seq<Record>, thing: string, action: ShadowAction, unsub: Broker): (r: seq<Record>)
    ensures |r| == |subs|
  {
    ReleaseTopic(ReleaseTopic(subs, Topic(thing, action, Accepted), unsub.accepted),
                 Topic(thing, action, Rejected), unsub.rejected)
  }

  // ---------------------------------------------------------------- steps

  /** A call of aws_iot_shadow_internal_action: `tracked` when the document has a client token and there is a
      callback; then how the broker answers the subscriptions, and whether the publish succeeds. */
  datatype Request = Request(thing: string, action: ShadowAction, tracked: bool, token: string, timeout: nat,
                             sticky: bool, subscribed: Broker, published: bool, now: nat)

  datatype Event =
    | Ask(request: Request)
    | Answer(token: string, unsub: Broker)
    | Sweep(now: nat, unsub: Broker)

  function FreeWaiter(acks: seq<Waiter>): (i: nat)
    ensures i <= |acks|
    ensures i < |acks| ==> acks[i].isFree
    ensures forall k :: 0 <= k < i ==> !acks[k].isFree
  {
    if |acks| == 0 || acks[0].isFree then 0 else 1 + FreeWaiter(acks[1..])
  }

  /** The subscriptions after a tracked request, and whether the request goes on. */
  function Engage(subs: seq<Record>, q: Request): (seq<Record>, bool) {
    if Present(subs, q.thing, q.action) then (Increment(subs, q.thing, q.action, q.sticky), true)
    else SubscribePair(subs, q.thing, q.action, q.sticky, q.subscribed)
  }

  function WaiterFor(q: Request, period: nat): Waiter
    requires period >= 1
  {
    Waiter(false, q.token, q.thing, q.action, Started(q.now, Seconds(q.timeout), period))
  }

  /** aws_iot_shadow_internal_action, and whether it returns SUCCESS. */
  function AskFor(t: Tables, q: Request, period: nat): (Tables, bool)
    requires period >= 1
  {
    if !q.tracked then (t, q.published)
    else if FreeWaiter(t.acks) == |t.acks| then (t, false)
    else
      var (subs, ok) := Engage(t.subs, q);
      if ok && q.published then (Tables(t.acks[FreeWaiter(t.acks) := WaiterFor(q, period)], subs), true)
      else (Tables(t.acks, subs), false)
  }

  /** A waiter has its answer, or none will come. */
  function Retire(t: Tables, i: nat, unsub: Broker): (r: Tables)
    requires i < |t.acks|
    ensures |r.acks| == |t.acks|
  {
    Tables(t.acks[i := t.acks[i].(isFree := true)], Release(t.subs, t.acks[i].thing, t.acks[i].action, unsub))
  }

  /** The first waiter with this client token, or the length. */
  function Waiting(acks: seq<Waiter>, token: string): (i: nat)
    ensures i <= |acks|
    ensures i < |acks| ==> !acks[i].isFree && acks[i].token == token
    ensures forall k :: 0 <= k < i ==> acks[k].isFree || acks[k].token != token
  {
    if |acks| == 0 || (!acks[0].isFree && acks[0].token == token) then 0 else 1 + Waiting(acks[1..], token)
  }

  /** AckStatusCallback, for a message whose client token could be read. */
  function AnswerFor(t: Tables, token: string, unsub: Broker): Tables {
    var i := Waiting(t.acks, token);
    if i < |t.acks| then Retire(t, i, unsub) else t
  }

  predicate Overdue(waiter: Waiter, now: nat) {
    !waiter.isFree && Expired(waiter.timer, now)
  }

  /** HandleExpiredResponseCallbacks, from index i on. */
  function SweepFrom(t: Tables, i: nat, now: nat, unsub: Broker): Tables
    requires i <= |t.acks|
    decreases |t.acks| - i
  {
    if i == |t.acks| then t
    else SweepFrom(if Overdue(t.acks[i], now) then Retire(t, i, unsub) else t, i + 1, now, unsub)
  }

  function Step(t: Tables, e: Event, period: nat): Tables
    requires period >= 1
  {
    match e
    case Ask(q) => AskFor(t, q, period).0
    case Answer(token, unsub) => AnswerFor(t, token, unsub)
    case Sweep(now, unsub) => SweepFrom(t, 0, now, unsub)
  }

  function Run(t: Tables, events: seq<Event>, period: nat): Tables
    requires period >= 1
    decreases |events|
  {
    if events == [] then t else Run(Step(t, events[0], period), events[1..], period)
  }

  // ---------------------------------------------------------------- the invariant

  function Outstanding(acks: seq<Waiter>, thing: string, action: ShadowAction): nat {
    if acks == [] then 0
    else (if !acks[0].isFree && acks[0].thing == thing && acks[0].action == action then 1 else 0)
         + Outstanding(acks[1..], thing, action)
  }

  predicate Unique(subs: seq<Record>) {
    forall i, j :: 0 <= i < j < |subs| && !subs[i].isFree && !subs[j].isFree ==> subs[i].topic != subs[j].topic
  }

  /** Both topics are held alike, by at least one and at least as many as are waiting; or nobody waits. */
  predicate Covered(t: Tables, thing: string, action: ShadowAction) {
    var held := Look(t.subs, Topic(thing, action, Accepted));
    && held == Look(t.subs, Topic(thing, action, Rejected))
    && if held.Held? then held.count >= 1 && held.count >= Outstanding(t.acks, thing, action)
       else Outstanding(t.acks, thing, action) == 0
  }

  /** And by exactly as many as are waiting. */
  predicate Exact(t: Tables, thing: string, action: ShadowAction) {
    var held := Look(t.subs, Topic(thing, action, Accepted));
    held.Held? ==> !held.isSticky && held.count == Outstanding(t.acks, thing, action)
  }

  ghost predicate AllCovered(t: Tables) {
    Unique(t.subs) && forall thing, action :: Covered(t, thing, action)
  }

  ghost predicate AllExact(t: Tables) {
    forall thing, action :: Exact(t, thing, action)
  }

  /** Room for the request: two free records for a new pair, or a count that can go up. */
  predicate Room(t: Tables, q: Request) {
    q.tracked && FreeWaiter(t.acks) < |t.acks| ==>
      if Present(t.subs, q.thing, q.action) then Look(t.subs, Topic(q.thing, q.action, Accepted)).count < 255
      else TwoFree(t.subs)
  }

  predicate Orderly(t: Tables, e: Event) {
    match e
    case Ask(q) => Room(t, q)
    case Answer(_, unsub) => unsub.accepted && unsub.rejected
    case Sweep(_, unsub) => unsub.accepted && unsub.rejected
  }

  predicate OrderlyRun(t: Tables, events: seq<Event>, period: nat)
    requires period >= 1
    decreases |events|
  {
    events != [] ==> Orderly(t, events[0]) && OrderlyRun(Step(t, events[0], period), events[1..], period)
  }

  /** No sticky request, and every publish succeeds. */
  predicate Plain(e: Event) {
    e.Ask? && e.request.tracked ==> !e.request.sticky && e.request.published
  }

  // ---------------------------------------------------------------- lookups after an update

  lemma FindIs(subs: seq<Record>, i: nat)
    requires i < |subs| && Unique(subs) && !subs[i].isFree
    ensures Find(subs, subs[i].topic) == i
  {
    assert forall k :: 0 <= k < i ==> subs[k].isFree || subs[k].topic != subs[i].topic;
  }

  /** Replacing record i changes the view of its old and new topics only. */
  lemma LookAfter(subs: seq<Record>, i: nat, record: Record, topic: string)
    requires i < |subs| && Unique(subs) && Unique(subs[i := record])
    ensures Look(subs[i := record], topic) ==
              if !record.isFree && topic == record.topic then Held(record.count, record.isSticky)
              else if !subs[i].isFree && topic == subs[i].topic then Absent
              else Look(subs, topic)
  {
    var later := subs[i := record];
    if !record.isFree && topic == record.topic {
      FindIs(later, i);
    } else if !subs[i].isFree && topic == subs[i].topic {
      assert forall k :: 0 <= k < |later| && k != i ==> later[k] == subs[k] && (subs[k].isFree || subs[k].topic != topic);
    } else {
      var j, k := Find(subs, topic), Find(later, topic);
      if j < |subs| { assert later[j] == subs[j]; FindIs(later, j); }
      if k < |later| { assert later[k] == subs[k]; FindIs(subs, k); }
    }
  }

  lemma IncrementKeepsPlaces(subs: seq<Record>, thing: string, action: ShadowAction, sticky: bool, topic: string)
    requires Unique(subs)
    ensures var later := Increment(subs, thing, action, sticky);
            && Unique(later)
            && Look(later, topic) ==
                 match Look(subs, topic)
                 case Absent => Absent
                 case Held(count, was) =>
                   if topic == Topic(thing, action, Accepted) || topic == Topic(thing, action, Rejected)
                   then Held((count + 1) % 256, sticky) else Held(count, was)
  {
    hide Topic, Find;
    var later := Increment(subs, thing, action, sticky);
    assert forall i :: 0 <= i < |subs| ==> later[i].isFree == subs[i].isFree && later[i].topic == subs[i].topic;
    assert Unique(later);
    var j, k := Find(subs, topic), Find(later, topic);
    if j < |subs| { FindIs(later, j); }
    if k < |later| { FindIs(subs, k); }
  }

  lemma ReleaseTopicLook(subs: seq<Record>, freed: string, unsubscribed: bool, topic: string)
    requires Unique(subs)
    ensures var later := ReleaseTopic(subs, freed, unsubscribed);
            && Unique(later)
            && Look(later, topic) == if topic == freed then CountedDown(Look(subs, topic), unsubscribed) else Look(subs, topic)
  {
    var i := Find(subs, freed);
    if i < |subs| { LookAfter(subs, i, Released(subs[i], unsubscribed), topic); }
  }

  /** What one holder less leaves: the last one, unless sticky, ends the subscription if the unsubscribe succeeds. */
  function CountedDown(held: View, unsubscribed: bool): View {
    match held
    case Absent => Absent
    case Held(count, sticky) =>
      if count == 1 && !sticky && unsubscribed then Absent else Held(if count > 1 then count - 1 else count, sticky)
  }

  /** Every view but the two released is unchanged, and those are counted down, or ended if the unsubscribe succeeds. */
  lemma ReleaseLook(subs: seq<Record>, thing: string, action: ShadowAction, unsub: Broker, topic: string)
    requires Unique(subs)
    ensures var later := Release(subs, thing, action, unsub);
            && Unique(later)
            && Look(later, topic) ==
                 if topic == Topic(thing, action, Accepted) then CountedDown(Look(subs, topic), unsub.accepted)
                 else if topic == Topic(thing, action, Rejected) then CountedDown(Look(subs, topic), unsub.rejected)
                 else Look(subs, topic)
  {
    hide Topic, Look, ReleaseTopic, CountedDown;
    TopicInjective(thing, action, Accepted, thing, action, Rejected);
    ReleaseTopicLook(subs, Topic(thing, action, Accepted), unsub.accepted, topic);
    ReleaseTopicLook(ReleaseTopic(subs, Topic(thing, action, Accepted), unsub.accepted), Topic(thing, action, Rejected),
                     unsub.rejected, topic);
  }

  /** A new pair appears only when the table has room and both subscriptions succeed. */
  lemma SubscribePairLook(subs: seq<Record>, thing: string, action: ShadowAction, sticky: bool, ok: Broker, topic: string)
    requires Unique(subs)
    requires Look(subs, Topic(thing, action, Accepted)) == Look(subs, Topic(thing, action, Rejected)) == Absent
    ensures var (later, goesOn) := SubscribePair(subs, thing, action, sticky, ok);
            && Unique(later)
            && goesOn == (!TwoFree(subs) || (ok.accepted && ok.rejected))
            && Look(later, topic) ==
                 if TwoFree(subs) && ok.accepted && ok.rejected
                    && (topic == Topic(thing, action, Accepted) || topic == Topic(thing, action, Rejected))
                 then Held(1, sticky) else Look(subs, topic)
  {
    var accepted, rejected := Topic(thing, action, Accepted), Topic(thing, action, Rejected);
    TopicInjective(thing, action, Accepted, thing, action, Rejected);
    var a, r := FreeFrom(subs, 0), SecondFree(subs);
    if TwoFree(subs) {
      if !ok.accepted {
        LookAfter(subs, a, subs[a].(topic := accepted), topic);
      } else if !ok.rejected {
        var mid := subs[a := Record(true, accepted, 1, sticky)];
        LookAfter(subs, a, mid[a], topic);
        LookAfter(mid, r, mid[r].(topic := rejected), topic);
      } else {
        var mid := subs[a := Record(false, accepted, 1, sticky)];
        NewIsUnique(subs, a, mid[a]);
        LookAfter(subs, a, mid[a], topic);
        LookAfter(subs, a, mid[a], rejected);
        NewIsUnique(mid, r, Record(false, rejected, 1, sticky));
        LookAfter(mid, r, Record(false, rejected, 1, sticky), topic);
      }
    }
  }

  lemma NewIsUnique(subs: seq<Record>, i: nat, record: Record)
    requires i < |subs| && Unique(subs) && subs[i].isFree && Look(subs, record.topic) == Absent
    ensures Unique(subs[i := record])
  {
    assert forall k :: 0 <= k < |subs| ==> subs[k].isFree || subs[k].topic != record.topic;
  }

  lemma {:induction false} OutstandingAfter(acks: seq<Waiter>, i: nat, waiter: Waiter, thing: string, action: ShadowAction)
    requires i < |acks|
    ensures Outstanding(acks[i := waiter], thing, action) + Counts(acks[i], thing, action)
            == Outstanding(acks, thing, action) + Counts(waiter, thing, action)
  {
    var later := acks[i := waiter];
    if i == 0 {
      assert later[1..] == acks[1..];
    } else {
      assert later[1..] == acks[1..][i - 1 := waiter];
      OutstandingAfter(acks[1..], i - 1, waiter, thing, action);
    }
  }

  function Counts(w: Waiter, thing: string, action: ShadowAction): nat {
    if !w.isFree && w.thing == thing && w.action == action then 1 else 0
  }

  // ---------------------------------------------------------------- every step keeps it

  lemma AskKeeps(t: Tables, q: Request, period: nat)
    requires period >= 1 && AllCovered(t) && Room(t, q)
    ensures AllCovered(AskFor(t, q, period).0)
    ensures AllExact(t) && Plain(Ask(q)) ==> AllExact(AskFor(t, q, period).0)
  {
    var t' := AskFor(t, q, period).0;
    if q.tracked && FreeWaiter(t.acks) < |t.acks| {
      assert Covered(t, q.thing, q.action);
      forall thing, action
        ensures Covered(t', thing, action) && Unique(t'.subs)
        ensures Exact(t, thing, action) && Plain(Ask(q)) ==> Exact(t', thing, action)
      {
        AskKeepsOne(t, q, period, thing, action);
      }
      assert Covered(t', q.thing, q.action);
    }
  }

  lemma EngageLook(subs: seq<Record>, q: Request, thing: string, action: ShadowAction, kind: AckKind)
    requires Unique(subs)
    requires Look(subs, Topic(q.thing, q.action, Accepted)) == Look(subs, Topic(q.thing, q.action, Rejected))
    ensures var (later, ok) := Engage(subs, q);
            var was := Look(subs, Topic(thing, action, kind));
            && Unique(later)
            && (Present(subs, q.thing, q.action) || !TwoFree(subs) ==> ok)
            && Look(later, Topic(thing, action, kind)) ==
                 if thing != q.thing || action != q.action then was
                 else if was.Held? then Held((was.count + 1) % 256, q.sticky)
                 else if TwoFree(subs) && ok then Held(1, q.sticky)
                 else Absent
  {
    hide Topic, Find, FreeFrom, SecondFree, SubscribePair, Increment;
    TopicInjective(thing, action, kind, q.thing, q.action, Accepted);
    TopicInjective(thing, action, kind, q.thing, q.action, Rejected);
    if Present(subs, q.thing, q.action) {
      IncrementKeepsPlaces(subs, q.thing, q.action, q.sticky, Topic(thing, action, kind));
    } else {
      SubscribePairLook(subs, q.thing, q.action, q.sticky, q.subscribed, Topic(thing, action, kind));
    }
  }

  lemma AskKeepsOne(t: Tables, q: Request, period: nat, thing: string, action: ShadowAction)
    requires period >= 1 && Room(t, q) && q.tracked && FreeWaiter(t.acks) < |t.acks|
    requires Unique(t.subs) && Covered(t, q.thing, q.action) && Covered(t, thing, action)
    ensures var t' := AskFor(t, q, period).0;
            && Covered(t', thing, action) && Unique(t'.subs)
            && (Exact(t, thing, action) && Plain(Ask(q)) ==> Exact(t', thing, action))
  {
    hide Look, Topic, Engage, TwoFree, Unique, Outstanding;
    EngageLook(t.subs, q, thing, action, Accepted);
    EngageLook(t.subs, q, thing, action, Rejected);
    OutstandingAfter(t.acks, FreeWaiter(t.acks), WaiterFor(q, period), thing, action);
  }

  lemma RetireKeeps(t: Tables, i: nat)
    requires i < |t.acks| && !t.acks[i].isFree && AllCovered(t)
    ensures AllCovered(Retire(t, i, Broker(true, true)))
    ensures AllExact(t) ==> AllExact(Retire(t, i, Broker(true, true)))
  {
    var t' := Retire(t, i, Broker(true, true));
    forall thing, action
      ensures Covered(t', thing, action) && Unique(t'.subs)
      ensures Exact(t, thing, action) ==> Exact(t', thing, action)
    {
      RetireKeepsOne(t, i, thing, action);
    }
    assert Covered(t', t.acks[i].thing, t.acks[i].action);
  }

  lemma RetireKeepsOne(t: Tables, i: nat, thing: string, action: ShadowAction)
    requires i < |t.acks| && !t.acks[i].isFree && Unique(t.subs) && Covered(t, thing, action)
    ensures var t' := Retire(t, i, Broker(true, true));
            && Covered(t', thing, action) && Unique(t'.subs)
            && (Exact(t, thing, action) ==> Exact(t', thing, action))
  {
    hide Look, Topic, Release, Unique, Outstanding;
    var w := t.acks[i];
    forall kind: AckKind
      ensures Topic(thing, action, kind) == Topic(w.thing, w.action, Accepted) <==> thing == w.thing && action == w.action && kind == Accepted
      ensures Topic(thing, action, kind) == Topic(w.thing, w.action, Rejected) <==> thing == w.thing && action == w.action && kind == Rejected
    {
      TopicInjective(thing, action, kind, w.thing, w.action, Accepted);
      TopicInjective(thing, action, kind, w.thing, w.action, Rejected);
    }
    ReleaseLook(t.subs, w.thing, w.action, Broker(true, true), Topic(thing, action, Accepted));
    ReleaseLook(t.subs, w.thing, w.action, Broker(true, true), Topic(thing, action, Rejected));
    OutstandingAfter(t.acks, i, w.(isFree := true), thing, action);
  }

  lemma {:induction false} SweepKeeps(t: Tables, i: nat, now: nat)
    requires i <= |t.acks| && AllCovered(t)
    ensures var t' := SweepFrom(t, i, now, Broker(true, true));
            AllCovered(t') && (AllExact(t) ==> AllExact(t'))
    decreases |t.acks| - i
  {
    hide AllCovered, AllExact, Retire;
    if i < |t.acks| {
      if Overdue(t.acks[i], now) { RetireKeeps(t, i); }
      SweepKeeps(if Overdue(t.acks[i], now) then Retire(t, i, Broker(true, true)) else t, i + 1, now);
    }
  }

  lemma StepKeeps(t: Tables, e: Event, period: nat)
    requires period >= 1 && AllCovered(t) && Orderly(t, e)
    ensures AllCovered(Step(t, e, period))
    ensures AllExact(t) && Plain(e) ==> AllExact(Step(t, e, period))
  {
    hide AllCovered, AllExact, Retire, AskFor;
    match e {
      case Ask(q) => AskKeeps(t, q, period);
      case Answer(token, unsub) =>
        if Waiting(t.acks, token) < |t.acks| { RetireKeeps(t, Waiting(t.acks, token)); }
      case Sweep(now, unsub) => SweepKeeps(t, 0, now);
    }
  }

  lemma {:induction false} RunKeeps(t: Tables, events: seq<Event>, period: nat)
    requires period >= 1 && AllCovered(t) && OrderlyRun(t, events, period)
    ensures AllCovered(Run(t, events, period))
    ensures AllExact(t) && (forall e :: e in events ==> Plain(e)) ==> AllExact(Run(t, events, period))
    decreases |events|
  {
    hide AllCovered, AllExact, Step;
    if events != [] {
      StepKeeps(t, events[0], period);
      RunKeeps(Step(t, events[0], period), events[1..], period);
    }
  }

  // ---------------------------------------------------------------- what that means

  /** initializeRecords */
  predicate Initial(t: Tables) {
    && (forall i :: 0 <= i < |t.acks| ==> t.acks[i].isFree)
    && (forall i :: 0 <= i < |t.subs| ==> t.subs[i].isFree)
  }

  lemma {:induction false} NobodyWaits(acks: seq<Waiter>, thing: string, action: ShadowAction)
    requires forall i :: 0 <= i < |acks| ==> acks[i].isFree
    ensures Outstanding(acks, thing, action) == 0
  {
    if acks != [] { NobodyWaits(acks[1..], thing, action); }
  }

  lemma InitialCovered(t: Tables)
    requires Initial(t)
    ensures AllCovered(t) && AllExact(t)
  {
    forall thing, action
      ensures Covered(t, thing, action) && Exact(t, thing, action)
    {
      NobodyWaits(t.acks, thing, action);
    }
  }

  lemma {:induction false} WaiterCounts(acks: seq<Waiter>, i: nat)
    requires i < |acks| && !acks[i].isFree
    ensures Outstanding(acks, acks[i].thing, acks[i].action) >= 1
  {
    if i > 0 { WaiterCounts(acks[1..], i - 1); }
  }

  /** In every orderly run, both topics of every waiting request are subscribed, held by equal counts that are at
      least the number of requests waiting on them. */
  lemma SubscriptionsOutliveWaiters(t: Tables, events: seq<Event>, period: nat, i: nat)
    requires period >= 1 && Initial(t) && OrderlyRun(t, events, period)
    ensures var r := Run(t, events, period);
            i < |r.acks| && !r.acks[i].isFree ==>
              var w := r.acks[i];
              var held := Look(r.subs, Topic(w.thing, w.action, Accepted));
              && held.Held? && held.count >= Outstanding(r.acks, w.thing, w.action) >= 1
              && Look(r.subs, Topic(w.thing, w.action, Rejected)) == held
  {
    InitialCovered(t);
    RunKeeps(t, events, period);
    var r := Run(t, events, period);
    if i < |r.acks| && !r.acks[i].isFree {
      WaiterCounts(r.acks, i);
      assert Covered(r, r.acks[i].thing, r.acks[i].action);
    }
  }

  /** With no sticky request and no failed publish, a pair is subscribed exactly while somebody waits on it: the last
      answer or time-out removes both records. */
  lemma LastAnswerRemovesBoth(t: Tables, events: seq<Event>, period: nat, thing: string, action: ShadowAction, kind: AckKind)
    requires period >= 1 && Initial(t) && OrderlyRun(t, events, period)
    requires forall e :: e in events ==> Plain(e)
    ensures var r := Run(t, events, period);
            var n := Outstanding(r.acks, thing, action);
            && n < 256
            && Look(r.subs, Topic(thing, action, kind)) == if n > 0 then Held(n, false) else Absent
  {
    InitialCovered(t);
    RunKeeps(t, events, period);
    assert Covered(Run(t, events, period), thing, action) && Exact(Run(t, events, period), thing, action);
  }

  // ---------------------------------------------------------------- what one step does

  /** The waiter that an answer with this client token is for: the first one in use. */
  predicate IsFor(acks: seq<Waiter>, token: string, i: nat) {
    && i < |acks| && !acks[i].isFree && acks[i].token == token
    && forall k :: 0 <= k < i ==> acks[k].isFree || acks[k].token != token
  }

  /** An answer frees the first waiter in use with its client token and no other, and changes nothing when there is
      none; one request fewer is outstanding on that waiter's pair, which is counted down. */
  lemma AnswerExactly(t: Tables, token: string, unsub: Broker)
    ensures var r := AnswerFor(t, token, unsub);
            && ((forall k :: 0 <= k < |t.acks| ==> t.acks[k].isFree || t.acks[k].token != token) ==> r == t)
            && forall i: nat :: IsFor(t.acks, token, i) ==>
                 && r.acks == t.acks[i := t.acks[i].(isFree := true)]
                 && PairReleased(t, r, t.acks[i].thing, t.acks[i].action, unsub)
  {
    hide Topic, Release;
    var r := AnswerFor(t, token, unsub);
    forall i: nat | IsFor(t.acks, token, i)
      ensures r.acks == t.acks[i := t.acks[i].(isFree := true)]
      ensures PairReleased(t, r, t.acks[i].thing, t.acks[i].action, unsub)
    {
      assert Waiting(t.acks, token) == i;
      RetireReleases(t, i, unsub);
    }
  }

  /** One request fewer waits on this pair; its two topics are counted down, and all else is as it was. */
  ghost predicate PairReleased(t: Tables, r: Tables, thing: string, action: ShadowAction, unsub: Broker) {
    && (forall other, act :: Outstanding(t.acks, other, act)
                             == Outstanding(r.acks, other, act) + (if other == thing && act == action then 1 else 0))
    && (Unique(t.subs) ==>
          && Unique(r.subs)
          && Look(r.subs, Topic(thing, action, Accepted)) == CountedDown(Look(t.subs, Topic(thing, action, Accepted)), unsub.accepted)
          && Look(r.subs, Topic(thing, action, Rejected)) == CountedDown(Look(t.subs, Topic(thing, action, Rejected)), unsub.rejected)
          && forall topic :: topic != Topic(thing, action, Accepted) && topic != Topic(thing, action, Rejected) ==>
               Look(r.subs, topic) == Look(t.subs, topic))
  }

  lemma RetireReleases(t: Tables, i: nat, unsub: Broker)
    requires i < |t.acks| && !t.acks[i].isFree
    ensures PairReleased(t, Retire(t, i, unsub), t.acks[i].thing, t.acks[i].action, unsub)
  {
    hide Topic, Look, Release, CountedDown, Outstanding, Unique;
    var w := t.acks[i];
    forall other, act
      ensures Outstanding(t.acks, other, act) == Outstanding(Retire(t, i, unsub).acks, other, act)
                                                 + (if other == w.thing && act == w.action then 1 else 0)
    {
      OutstandingAfter(t.acks, i, w.(isFree := true), other, act);
    }
    TopicInjective(w.thing, w.action, Accepted, w.thing, w.action, Rejected);
    if Unique(t.subs) {
      forall topic
        ensures Unique(Release(t.subs, w.thing, w.action, unsub))
        ensures Look(Release(t.subs, w.thing, w.action, unsub), topic) ==
                  if topic == Topic(w.thing, w.action, Accepted) then CountedDown(Look(t.subs, topic), unsub.accepted)
                  else if topic == Topic(w.thing, w.action, Rejected) then CountedDown(Look(t.subs, topic), unsub.rejected)
                  else Look(t.subs, topic)
      {
        ReleaseLook(t.subs, w.thing, w.action, unsub, topic);
      }
      assert Unique(Release(t.subs, w.thing, w.action, unsub)) by { ReleaseLook(t.subs, w.thing, w.action, unsub, ""); }
    }
  }

  /** A tracked request succeeds exactly when a waiter is free, the broker accepts a pair it has to subscribe, and the
      publish succeeds; an untracked one when the publish does. */
  lemma AskCode(t: Tables, q: Request, period: nat)
    requires period >= 1
    ensures var room := exists k :: 0 <= k < |t.acks| && t.acks[k].isFree;
            AskFor(t, q, period).1 == (q.published && (q.tracked ==> room && Heard(t, q)))
  {
    hide Look, Topic, FreeFrom, Increment;
  }

  /** A tracked request that succeeds takes the first free waiter, with its token, pair and timeout; otherwise no waiter
      changes, and without a free waiter or untracked nothing does. */
  lemma AskWaits(t: Tables, q: Request, period: nat, i: nat)
    requires period >= 1
    ensures var (r, ok) := AskFor(t, q, period);
            && (!q.tracked || (forall k :: 0 <= k < |t.acks| ==> !t.acks[k].isFree) ==> r == t)
            && (!ok ==> r.acks == t.acks)
            && (q.tracked && ok && IsFirstFree(t.acks, i) ==>
                  r.acks == t.acks[i := Waiter(false, q.token, q.thing, q.action, Started(q.now, Seconds(q.timeout), period))])
  {
    hide Engage, Started, Seconds;
  }

  /** The pair is there, or there is no room for it, or the broker accepts it. */
  predicate Heard(t: Tables, q: Request) {
    Present(t.subs, q.thing, q.action) || !TwoFree(t.subs) || (q.subscribed.accepted && q.subscribed.rejected)
  }

  predicate IsFirstFree(acks: seq<Waiter>, i: nat) {
    i < |acks| && acks[i].isFree && forall k :: 0 <= k < i ==> !acks[k].isFree
  }

  /** A sweep frees exactly the overdue waiters. */
  lemma {:induction false} SweepExactly(t: Tables, i: nat, now: nat, unsub: Broker)
    requires i <= |t.acks|
    ensures var r := SweepFrom(t, i, now, unsub);
            && |r.acks| == |t.acks|
            && forall k :: 0 <= k < |t.acks| ==>
                 r.acks[k] == if k >= i && !t.acks[k].isFree && Expired(t.acks[k].timer, now) then t.acks[k].(isFree := true)
                              else t.acks[k]
    decreases |t.acks| - i
  {
    hide Release;
    if i < |t.acks| {
      SweepExactly(if Overdue(t.acks[i], now) then Retire(t, i, unsub) else t, i + 1, now, unsub);
    }
  }

  /** So a request made at `q.now` is given up by a sweep, within one turn of the counter, exactly when its timeout has
      run in true time, and stays as it is otherwise. */
  lemma SweptExactly(t: Tables, q: Request, i: nat, now: nat, unsub: Broker, period: nat)
    requires period >= 1 && i < |t.acks| && t.acks[i] == WaiterFor(q, period)
    requires q.now <= now && now - q.now < WRAP && q.timeout * 1000 < WRAP
    ensures |SweepFrom(t, 0, now, unsub).acks| == |t.acks|
    ensures SweepFrom(t, 0, now, unsub).acks[i]
            == WaiterFor(q, period).(isFree := now - q.now >= q.timeout * 1000 / period)
  {
    hide Release, Expired, Started;
    SweepExactly(t, 0, now, unsub);
    ExpiryExactly(q.now, now, q.timeout * 1000, period);
    TicksOf(q.timeout * 1000, period);
  }

  lemma TicksOf(ms: Word, period: nat)
    requires period >= 1
    ensures Ticks(ms, period) == ms / period
  {
  }

  // ---------------------------------------------------------------- and where it fails

  /** A tracked request that returns SUCCESS can hear its answer exactly when its pair was there already or two
      records were free: without room it is published and waits, with nothing subscribed. */
  lemma HeardExactlyWithRoom(t: Tables, q: Request, period: nat)
    requires period >= 1 && AllCovered(t) && q.tracked && AskFor(t, q, period).1
    ensures var r := AskFor(t, q, period).0;
            && Outstanding(r.acks, q.thing, q.action) >= 1
            && (Present(r.subs, q.thing, q.action) <==> Present(t.subs, q.thing, q.action) || TwoFree(t.subs))
  {
    var r := AskFor(t, q, period).0;
    assert Covered(t, q.thing, q.action);
    EngageLook(t.subs, q, q.thing, q.action, Accepted);
    EngageLook(t.subs, q, q.thing, q.action, Rejected);
    WaiterCounts(r.acks, FreeWaiter(t.acks));
  }

  /** A count that stands at 255 wraps to zero, below the number waiting; any other count covers the new waiter. */
  lemma CountWraps(t: Tables, q: Request, period: nat)
    requires period >= 1 && AllCovered(t) && q.tracked && AskFor(t, q, period).1 && Present(t.subs, q.thing, q.action)
    ensures Covered(AskFor(t, q, period).0, q.thing, q.action)
            <==> Look(t.subs, Topic(q.thing, q.action, Accepted)).count < 255
  {
    hide Look, Topic, Engage, TwoFree, Unique, Outstanding;
    assert Covered(t, q.thing, q.action);
    EngageLook(t.subs, q, q.thing, q.action, Accepted);
    EngageLook(t.subs, q, q.thing, q.action, Rejected);
    OutstandingAfter(t.acks, FreeWaiter(t.acks), WaiterFor(q, period), q.thing, q.action);
  }

  // ---------------------------------------------------------------- the tables in place

  /** AckWaitList and SubscriptionList, changed in place.  What the broker, the application's document and the clock
      bring is passed in; waiting for the subscriptions to settle is not modelled. */
  class ShadowRecords {
    const period: nat
    const ackWaitList: array<Waiter>
    const subscriptionList: array<Record>

    ghost function State(): Tables
      reads ackWaitList, subscriptionList
    {
      Tables(ackWaitList[..], subscriptionList[..])
    }

    /** initializeRecords */
    constructor (tickPeriodMs: nat, waiters: nat, topics: nat)
      ensures period == tickPeriodMs && Initial(State())
      ensures ackWaitList.Length == waiters && subscriptionList.Length == topics
      ensures fresh(ackWaitList) && fresh(subscriptionList)
    {
      period := tickPeriodMs;
      ackWaitList := new Waiter[waiters](_ => Waiter(true, "", "", Get, Countdown(0, 0)));
      subscriptionList := new Record[topics](_ => Record(true, "", 0, false));
    }

    /** getNextFreeIndexOfSubscriptionList: a free record, marked used. */
    method GetNextFreeIndexOfSubscriptionList() returns (index: int)
      modifies subscriptionList
      ensures var was := old(subscriptionList[..]);
              var j := FreeFrom(was, 0);
              if j < |was| then index == j && subscriptionList[..] == was[j := was[j].(isFree := false)]
              else index == -1 && subscriptionList[..] == was
    {
      var i := 0;
      while i < subscriptionList.Length
        invariant i <= subscriptionList.Length
        invariant subscriptionList[..] == old(subscriptionList[..])
        invariant FreeFrom(subscriptionList[..], 0) == FreeFrom(subscriptionList[..], i)
      {
        if subscriptionList[i].isFree {
          subscriptionList[i] := subscriptionList[i].(isFree := false);
          return i;
        }
        i := i + 1;
      }
      return -1;
    }

    /** findIndexOfSubscriptionList */
    method FindIndexOfSubscriptionList(topic: string) returns (index: int)
      ensures var i := Find(subscriptionList[..], topic);
              index == if i < subscriptionList.Length then i else -1
    {
      var i := 0;
      while i < subscriptionList.Length
        invariant i <= subscriptionList.Length
        invariant forall k :: 0 <= k < i ==> subscriptionList[k].isFree || subscriptionList[k].topic != topic
      {
        if !subscriptionList[i].isFree && subscriptionList[i].topic == topic {
          return i;
        }
        i := i + 1;
      }
      return -1;
    }

    /** isSubscriptionPresent */
    method IsSubscriptionPresent(thing: string, action: ShadowAction) returns (present: bool)
      ensures present <==> Present(subscriptionList[..], thing, action)
    {
      hide Topic;
      var accepted, rejected := Topic(thing, action, Accepted), Topic(thing, action, Rejected);
      TopicInjective(thing, action, Accepted, thing, action, Rejected);
      var isAcceptedPresent, isRejectedPresent := false, false;
      for i := 0 to subscriptionList.Length
        invariant isAcceptedPresent <==> exists k :: 0 <= k < i && !subscriptionList[k].isFree && subscriptionList[k].topic == accepted
        invariant isRejectedPresent <==> exists k :: 0 <= k < i && !subscriptionList[k].isFree && subscriptionList[k].topic == rejected
      {
        if !subscriptionList[i].isFree {
          if subscriptionList[i].topic == accepted {
            isAcceptedPresent := true;
          } else if subscriptionList[i].topic == rejected {
            isRejectedPresent := true;
          }
        }
      }
      HeldWhen(subscriptionList[..], accepted);
      HeldWhen(subscriptionList[..], rejected);
      present := isAcceptedPresent && isRejectedPresent;
    }

    /** The clean-up of a pair that is not complete. */
    method ClearBoth(a: int, r: int)
      requires -1 <= a < subscriptionList.Length && -1 <= r < subscriptionList.Length
      modifies subscriptionList
      ensures subscriptionList[..] == Freed(Freed(old(subscriptionList[..]), a), r)
    {
      if a >= 0 {
        subscriptionList[a] := subscriptionList[a].(isFree := true);
      }
      if r >= 0 {
        subscriptionList[r] := subscriptionList[r].(isFree := true);
      }
    }

    /** The two records found are filled in as the broker accepts the subscriptions; ok when it accepts both. */
    method FillBoth(a: nat, r: nat, thing: string, action: ShadowAction, sticky: bool, broker: Broker) returns (ok: bool)
      requires a < subscriptionList.Length && r < subscriptionList.Length && a != r
      modifies subscriptionList
      ensures ok == (broker.accepted && broker.rejected)
      ensures subscriptionList[..] == Filled(old(subscriptionList[..]), a, r, thing, action, sticky, broker)
    {
      hide Topic;
      subscriptionList[a] := subscriptionList[a].(topic := Topic(thing, action, Accepted));
      ok := broker.accepted;
      if ok {
        subscriptionList[a] := subscriptionList[a].(count := 1, isSticky := sticky);
        subscriptionList[r] := subscriptionList[r].(topic := Topic(thing, action, Rejected));
        ok := broker.rejected;
        if ok {
          subscriptionList[r] := subscriptionList[r].(count := 1, isSticky := sticky);
        }
      }
    }

    /** subscribeToShadowActionAcks */
    method SubscribeToShadowActionAcks(thing: string, action: ShadowAction, sticky: bool, broker: Broker) returns (ok: bool)
      modifies subscriptionList
      ensures (subscriptionList[..], ok) == SubscribePair(old(subscriptionList[..]), thing, action, sticky, broker)
    {
      hide Topic, Filled, SubscribePair, FreeFrom, SecondFree, Freed;
      ok := true;
      var clearBoth := true;
      var a := GetNextFreeIndexOfSubscriptionList();
      var r := GetNextFreeIndexOfSubscriptionList();
      PairFilled(old(subscriptionList[..]), thing, action, sticky, broker);
      if a >= 0 && r >= 0 {
        ok := FillBoth(a, r, thing, action, sticky, broker);
        clearBoth := !ok;
      }
      if clearBoth {
        ClearBoth(a, r);
      }
    }

    /** incrementSubscriptionCnt */
    method IncrementSubscriptionCnt(thing: string, action: ShadowAction, sticky: bool)
      modifies subscriptionList
      ensures subscriptionList[..] == Increment(old(subscriptionList[..]), thing, action, sticky)
    {
      hide Topic;
      var accepted, rejected := Topic(thing, action, Accepted), Topic(thing, action, Rejected);
      for i := 0 to subscriptionList.Length
        invariant forall k :: 0 <= k < i ==> subscriptionList[k] == Bump(old(subscriptionList[k]), thing, action, sticky)
        invariant forall k :: i <= k < subscriptionList.Length ==> subscriptionList[k] == old(subscriptionList[k])
      {
        if !subscriptionList[i].isFree {
          if subscriptionList[i].topic == accepted || subscriptionList[i].topic == rejected {
            subscriptionList[i] := subscriptionList[i].(count := (subscriptionList[i].count + 1) % 256, isSticky := sticky);
          }
        }
      }
    }

    /** getNextFreeIndexOfAckWaitList */
    method GetNextFreeIndexOfAckWaitList() returns (found: bool, index: nat)
      ensures var i := FreeWaiter(ackWaitList[..]);
              found == (i < ackWaitList.Length) && (found ==> index == i)
    {
      found, index := false, 0;
      var i := 0;
      while i < ackWaitList.Length
        invariant i <= ackWaitList.Length
        invariant forall k :: 0 <= k < i ==> !ackWaitList[k].isFree
      {
        if ackWaitList[i].isFree {
          return true, i;
        }
        i := i + 1;
      }
    }

    method ReleaseOneTopic(topic: string, unsubscribed: bool)
      modifies subscriptionList
      ensures subscriptionList[..] == ReleaseTopic(old(subscriptionList[..]), topic, unsubscribed)
    {
      var i := FindIndexOfSubscriptionList(topic);
      if i >= 0 {
        if !subscriptionList[i].isSticky && subscriptionList[i].count == 1 {
          if unsubscribed {
            subscriptionList[i] := subscriptionList[i].(isFree := true);
          }
        } else if subscriptionList[i].count > 1 {
          subscriptionList[i] := subscriptionList[i].(count := subscriptionList[i].count - 1);
        }
      }
    }

    /** unsubscribeFromAcceptedAndRejected */
    method UnsubscribeFromAcceptedAndRejected(i: nat, unsub: Broker)
      requires i < ackWaitList.Length
      modifies subscriptionList
      ensures subscriptionList[..] == Release(old(subscriptionList[..]), ackWaitList[i].thing, ackWaitList[i].action, unsub)
    {
      ReleaseOneTopic(Topic(ackWaitList[i].thing, ackWaitList[i].action, Accepted), unsub.accepted);
      ReleaseOneTopic(Topic(ackWaitList[i].thing, ackWaitList[i].action, Rejected), unsub.rejected);
    }

    /** aws_iot_shadow_internal_action */
    method InternalAction(q: Request) returns (ok: bool)
      requires period >= 1
      modifies ackWaitList, subscriptionList
      ensures (State(), ok) == AskFor(old(State()), q, period)
    {
      hide Present, Increment, SubscribePair;
      ok := true;
      var isAckWaitListFree, index := false, 0;
      if q.tracked {
        isAckWaitListFree, index := GetNextFreeIndexOfAckWaitList();
        if isAckWaitListFree {
          var present := IsSubscriptionPresent(q.thing, q.action);
          if !present {
            ok := SubscribeToShadowActionAcks(q.thing, q.action, q.sticky, q.subscribed);
          } else {
            IncrementSubscriptionCnt(q.thing, q.action, q.sticky);
          }
        } else {
          ok := false;
        }
      }
      if ok {
        ok := q.published;
      }
      if q.tracked && ok && isAckWaitListFree {
        ackWaitList[index] := WaiterFor(q, period);
      }
    }

    /** AckStatusCallback */
    method AckStatus(token: string, unsub: Broker)
      modifies ackWaitList, subscriptionList
      ensures State() == AnswerFor(old(State()), token, unsub)
    {
      hide Release;
      var i := 0;
      while i < ackWaitList.Length
        invariant i <= ackWaitList.Length
        invariant State() == old(State())
        invariant forall k :: 0 <= k < i ==> ackWaitList[k].isFree || ackWaitList[k].token != token
      {
        if !ackWaitList[i].isFree && ackWaitList[i].token == token {
          UnsubscribeFromAcceptedAndRejected(i, unsub);
          ackWaitList[i] := ackWaitList[i].(isFree := true);
          return;
        }
        i := i + 1;
      }
    }

    /** HandleExpiredResponseCallbacks */
    method HandleExpiredResponseCallbacks(now: nat, unsub: Broker)
      modifies ackWaitList, subscriptionList
      ensures State() == SweepFrom(old(State()), 0, now, unsub)
    {
      hide Release;
      var i := 0;
      while i < ackWaitList.Length
        invariant i <= ackWaitList.Length
        invariant SweepFrom(State(), i, now, unsub) == SweepFrom(old(State()), 0, now, unsub)
      {
        if !ackWaitList[i].isFree && Expired(ackWaitList[i].timer, now) {
          ghost var was := State();
          ackWaitList[i] := ackWaitList[i].(isFree := true);
          UnsubscribeFromAcceptedAndRejected(i, unsub);
          assert State() == Retire(was, i, unsub);
        }
        i := i + 1;
      }
    }
  }

  lemma HeldWhen(subs: seq<Record>, topic: string)
    ensures Look(subs, topic).Held? <==> exists k :: 0 <= k < |subs| && !subs[k].isFree && subs[k].topic == topic
  {
  }

  /** Marking the first free record makes the second free record the first. */
  ghost function Freed(subs: seq<Record>, i: int): seq<Record>
    requires -1 <= i < |subs|
  {
    if i == -1 then subs else subs[i := subs[i].(isFree := true)]
  }

  /** Records a and r as the broker's answers leave them. */
  ghost function Filled(subs: seq<Record>, a: nat, r: nat, thing: string, action: ShadowAction, sticky: bool, broker: Broker)
    : seq<Record>
    requires a < |subs| && r < |subs|
  {
    var once := subs[a := subs[a].(topic := Topic(thing, action, Accepted))];
    if !broker.accepted then once
    else
      var held := once[a := once[a].(count := 1, isSticky := sticky)];
      var twice := held[r := held[r].(topic := Topic(thing, action, Rejected))];
      if !broker.rejected then twice else twice[r := twice[r].(count := 1, isSticky := sticky)]
  }

  /** Marking two records, filling them, and freeing them again when the broker refuses is SubscribePair. */
  lemma PairFilled(subs: seq<Record>, thing: string, action: ShadowAction, sticky: bool, broker: Broker)
    ensures var a, pair := FreeFrom(subs, 0), SubscribePair(subs, thing, action, sticky, broker);
            if a == |subs| then pair == (Freed(Freed(subs, -1), -1), true)
            else
              var one := subs[a := subs[a].(isFree := false)];
              var r := FreeFrom(one, 0);
              if r == |subs| then pair == (Freed(Freed(one, a), -1), true)
              else
                a != r &&
                var ok := broker.accepted && broker.rejected;
                var full := Filled(one[r := one[r].(isFree := false)], a, r, thing, action, sticky, broker);
                pair == (if ok then full else Freed(Freed(full, a), r), ok)
  {
    hide Topic, FreeFrom;
    SecondAfterFirst(subs);
    var a, pair := FreeFrom(subs, 0), SubscribePair(subs, thing, action, sticky, broker).0;
    if a < |subs| {
      var one := subs[a := subs[a].(isFree := false)];
      var r := FreeFrom(one, 0);
      if r == |subs| {
        assert Freed(one, a) == subs;
      } else {
        assert a != r && one[r] == subs[r];
        var full := Filled(one[r := one[r].(isFree := false)], a, r, thing, action, sticky, broker);
        var after := if broker.accepted && broker.rejected then full else Freed(Freed(full, a), r);
        assert after[a] == pair[a] && after[r] == pair[r];
        assert after == pair;
      }
    }
  }

  lemma SecondAfterFirst(subs: seq<Record>)
    ensures var a := FreeFrom(subs, 0);
            a < |subs| ==> FreeFrom(subs[a := subs[a].(isFree := false)], 0) == SecondFree(subs)
  {
    var a, r := FreeFrom(subs, 0), SecondFree(subs);
    if a < |subs| {
      var marked := subs[a := subs[a].(isFree := false)];
      assert forall k :: 0 <= k < r ==> !marked[k].isFree;
      assert r < |subs| ==> marked[r] == subs[r];
    }
  }
}
