/**
 The single-slot, stale-while-revalidate telemetry cache of
 apps/api/src/monitoring/monitoring.service.ts, under every interleaving.

 Each stretch of code between two awaits is one event: a call, the arrival of a backend value
 (which writes the cache), a backend failure, and the later clean-up that clears the in-flight
 slot.  Backend requests are numbered in the order in which they start.
 */
module TelemetryCache {
  import opened Options

  datatype Entry<V> = Entry(key: string, expiresAt: int, value: V)

  datatype Phase<V> = Running | Fulfilled(value: V) | Failed

  /** A backend request; only coalesced ones go through the in-flight map and the cache. */
  datatype Request<V> = Request(key: string, ttl: nat, coalesced: bool, phase: Phase<V>, settled: bool)

  /** What a call returns: the pending answer, a cached value, or the promise of a request. */
  datatype Reply<V> = Placeholder | Cached(value: V) | Await(request: nat)

  datatype Serving<V> = Serving(key: string, fast: bool, reply: Reply<V>)

  /** The two cache fields, and the history of requests, cache writes and replies. */
  datatype State<V> = State(
    cache: Option<Entry<V>>,
    inflight: map<string, nat>,
    requests: seq<Request<V>>,
    writes: seq<nat>,
    served: seq<Serving<V>>)

  datatype Event<V> =
    | Call(key: string, ttl: nat, fast: bool, now: int)
    | Arrive(request: nat, value: V, now: int)
    | Fail(request: nat)
    | Settle(request: nat)

  function Initial<V>(): State<V> {
    State(None, map[], [], [], [])
  }

  // ---------- the steps ----------

  function StartRequest<V>(s: State<V>, key: string, ttl: nat, coalesced: bool): State<V> {
    var id := |s.requests|;
    s.(requests := s.requests + [Request(key, ttl, coalesced, Running, false)],
       inflight := if coalesced then s.inflight[key := id] else s.inflight)
  }

  /** The state after a call decided its reply, before the reply is recorded. */
  function Consult<V>(s: State<V>, key: string, ttl: nat, fast: bool, now: int): (State<V>, Reply<V>) {
    if ttl == 0 then (StartRequest(s, key, ttl, false), Await(|s.requests|))
    else if s.cache.Some? && s.cache.value.key == key then
      if s.cache.value.expiresAt > now || key in s.inflight then (s, Cached(s.cache.value.value))
      else (StartRequest(s, key, ttl, true), Cached(s.cache.value.value))
    else if key in s.inflight then
      (s, if fast then Placeholder else Await(s.inflight[key]))
    else
      (StartRequest(s, key, ttl, true), if fast then Placeholder else Await(|s.requests|))
  }

  function CallStep<V>(s: State<V>, key: string, ttl: nat, fast: bool, now: int): State<V> {
    var (next, reply) := Consult(s, key, ttl, fast, now);
    next.(served := next.served + [Serving(key, fast, reply)])
  }

  predicate IsRunning<V>(s: State<V>, id: nat) {
    id < |s.requests| && s.requests[id].phase.Running?
  }

  function ArriveStep<V>(s: State<V>, id: nat, value: V, now: int): State<V>
    requires IsRunning(s, id)
  {
    var r := s.requests[id];
    var next := s.(requests := s.requests[id := r.(phase := Fulfilled(value))]);
    if r.coalesced then next.(cache := Some(Entry(r.key, now + r.ttl, value)), writes := s.writes + [id]) else next
  }

  function FailStep<V>(s: State<V>, id: nat): State<V>
    requires IsRunning(s, id)
  {
    s.(requests := s.requests[id := s.requests[id].(phase := Failed)])
  }

  predicate CanSettle<V>(s: State<V>, id: nat) {
    id < |s.requests| && s.requests[id].coalesced && !s.requests[id].phase.Running? && !s.requests[id].settled
  }

  /** The clean-up deletes by key, whatever request the slot names. */
  function SettleStep<V>(s: State<V>, id: nat): State<V>
    requires CanSettle(s, id)
  {
    var r := s.requests[id];
    s.(requests := s.requests[id := r.(settled := true)], inflight := s.inflight - {r.key})
  }

  /** One event; an event that cannot happen now is skipped. */
  function Step<V>(s: State<V>, e: Event<V>): State<V> {
    match e
    case Call(key, ttl, fast, now) => CallStep(s, key, ttl, fast, now)
    case Arrive(id, value, now) => if IsRunning(s, id) then ArriveStep(s, id, value, now) else s
    case Fail(id) => if IsRunning(s, id) then FailStep(s, id) else s
    case Settle(id) => if CanSettle(s, id) then SettleStep(s, id) else s
  }

  function Run<V>(events: seq<Event<V>>): State<V> {
    if events == [] then Initial() else Step(Run(events[..|events| - 1]), events[|events| - 1])
  }

  // ---------- the invariant ----------

  ghost predicate Outstanding<V>(s: State<V>, id: nat) {
    id < |s.requests| && s.requests[id].coalesced && !s.requests[id].settled
  }

  /** The in-flight map lists exactly the outstanding coalesced requests, under their own keys. */
  ghost predicate InflightExact<V>(s: State<V>) {
    && (forall k :: k in s.inflight ==> Outstanding(s, s.inflight[k]) && s.requests[s.inflight[k]].key == k)
    && (forall id: nat :: Outstanding(s, id) ==>
          s.requests[id].key in s.inflight && s.inflight[s.requests[id].key] == id)
    && (forall id :: 0 <= id < |s.requests| && s.requests[id].phase.Running? ==> !s.requests[id].settled)
  }

  ghost predicate WroteCache<V>(s: State<V>, id: nat) {
    id < |s.requests| && s.requests[id].coalesced && s.requests[id].phase.Fulfilled?
  }

  /** The cache holds what the last write computed, under the key it was computed for. */
  ghost predicate CacheHonest<V>(s: State<V>) {
    && (forall w :: 0 <= w < |s.writes| ==> WroteCache(s, s.writes[w]))
    && (s.cache.Some? <==> s.writes != [])
    && (s.cache.Some? ==>
          var r := s.requests[s.writes[|s.writes| - 1]];
          r.key == s.cache.value.key && r.phase.value == s.cache.value.value)
  }

  /** Successive results cached under one key come from requests that started later and later. */
  ghost predicate StartsIncrease<V>(s: State<V>)
    requires CacheHonest(s)
  {
    forall a, b :: 0 <= a < b < |s.writes| && s.requests[s.writes[a]].key == s.requests[s.writes[b]].key ==>
      s.writes[a] < s.writes[b]
  }

  /** A request still running started after everything cached so far under its key. */
  ghost predicate RunningIsNewest<V>(s: State<V>)
    requires CacheHonest(s)
  {
    forall w, id: nat ::
      (0 <= w < |s.writes| && IsRunning(s, id) && Outstanding(s, id)
       && s.requests[s.writes[w]].key == s.requests[id].key)
      ==> s.writes[w] < id
  }

  /**
   A reply given under a key is the pending answer of a fast call, a value computed under that key, or such a
   promise.
   */
  ghost predicate HonestReply<V>(s: State<V>, serving: Serving<V>) {
    match serving.reply
    case Placeholder => serving.fast
    case Cached(value) => exists id: nat :: WroteCache(s, id) && s.requests[id].key == serving.key
                                       && s.requests[id].phase.value == value
    case Await(id) => id < |s.requests| && s.requests[id].key == serving.key
  }

  ghost predicate RepliesHonest<V>(s: State<V>) {
    forall i :: 0 <= i < |s.served| ==> HonestReply(s, s.served[i])
  }

  ghost predicate Core<V>(s: State<V>) {
    InflightExact(s) && CacheHonest(s) && StartsIncrease(s) && RunningIsNewest(s)
  }

  ghost predicate Inv<V>(s: State<V>) {
    Core(s) && RepliesHonest(s)
  }

  // ---------- every step keeps it ----------

  /** A step only adds requests and completes running ones; it never rewrites a finished one. */
  ghost predicate Grows<V>(s: State<V>, t: State<V>) {
    && |s.requests| <= |t.requests|
    && forall id :: 0 <= id < |s.requests| ==>
         && t.requests[id].key == s.requests[id].key
         && t.requests[id].coalesced == s.requests[id].coalesced
         && (!s.requests[id].phase.Running? ==> t.requests[id].phase == s.requests[id].phase)
  }

  lemma ReplyStaysHonest<V>(s: State<V>, t: State<V>, serving: Serving<V>)
    requires Grows(s, t) && HonestReply(s, serving)
    ensures HonestReply(t, serving)
  {
    if serving.reply.Cached? {
      var id: nat :| WroteCache(s, id) && s.requests[id].key == serving.key
          && s.requests[id].phase.value == serving.reply.value;
      assert WroteCache(t, id);
    }
  }

  lemma RepliesStayHonest<V>(s: State<V>, t: State<V>)
    requires Grows(s, t) && RepliesHonest(s) && t.served == s.served
    ensures RepliesHonest(t)
  {
    forall i | 0 <= i < |t.served| ensures HonestReply(t, t.served[i]) {
      ReplyStaysHonest(s, t, s.served[i]);
    }
  }

  lemma StartKeeps<V>(s: State<V>, key: string, ttl: nat, coalesced: bool)
    requires Inv(s) && (coalesced ==> key !in s.inflight)
    ensures Inv(StartRequest(s, key, ttl, coalesced))
  {
    hide RepliesHonest, HonestReply;
    var t := StartRequest(s, key, ttl, coalesced);
    assert forall id: nat :: Outstanding(t, id) <==> Outstanding(s, id) || (id == |s.requests| && coalesced);
    assert forall id: nat :: WroteCache(s, id) ==> WroteCache(t, id);
    RepliesStayHonest(s, t);
  }

  lemma ServeKeeps<V>(s: State<V>, serving: Serving<V>)
    requires Inv(s) && HonestReply(s, serving)
    ensures Inv(s.(served := s.served + [serving]))
  {
    hide HonestReply;
    var t := s.(served := s.served + [serving]);
    assert forall id: nat :: Outstanding(t, id) == Outstanding(s, id);
    assert forall id: nat :: WroteCache(t, id) == WroteCache(s, id);
    forall i | 0 <= i < |t.served| ensures HonestReply(t, t.served[i]) {
      ReplyStaysHonest(s, t, t.served[i]);
    }
  }

  lemma ConsultKeeps<V>(s: State<V>, key: string, ttl: nat, fast: bool, now: int)
    requires Inv(s)
    ensures var (next, reply) := Consult(s, key, ttl, fast, now);
            Inv(next) && HonestReply(next, Serving(key, fast, reply))
  {
    hide StartsIncrease, RunningIsNewest, RepliesHonest;
    var (next, reply) := Consult(s, key, ttl, fast, now);
    if next != s {
      StartKeeps(s, key, ttl, ttl != 0);
    }
    if reply.Cached? {
      assert WroteCache(next, s.writes[|s.writes| - 1]);
    }
  }

  lemma CallKeeps<V>(s: State<V>, key: string, ttl: nat, fast: bool, now: int)
    requires Inv(s)
    ensures Inv(CallStep(s, key, ttl, fast, now))
  {
    hide Inv, HonestReply;
    var (next, reply) := Consult(s, key, ttl, fast, now);
    ConsultKeeps(s, key, ttl, fast, now);
    ServeKeeps(next, Serving(key, fast, reply));
  }

  lemma ArriveKeeps<V>(s: State<V>, id: nat, value: V, now: int)
    requires Inv(s) && IsRunning(s, id)
    ensures Inv(ArriveStep(s, id, value, now))
  {
    hide RepliesHonest, HonestReply;
    var t := ArriveStep(s, id, value, now);
    assert forall i: nat :: Outstanding(t, i) == Outstanding(s, i);
    assert forall i: nat :: WroteCache(s, i) ==> WroteCache(t, i);
    assert s.requests[id].coalesced ==> Outstanding(s, id);
    RepliesStayHonest(s, t);
  }

  lemma FailKeeps<V>(s: State<V>, id: nat)
    requires Inv(s) && IsRunning(s, id)
    ensures Inv(FailStep(s, id))
  {
    hide RepliesHonest, HonestReply;
    var t := FailStep(s, id);
    assert forall i: nat :: Outstanding(t, i) == Outstanding(s, i);
    assert forall i: nat :: WroteCache(s, i) ==> WroteCache(t, i);
    RepliesStayHonest(s, t);
  }

  lemma SettleKeeps<V>(s: State<V>, id: nat)
    requires Inv(s) && CanSettle(s, id)
    ensures Inv(SettleStep(s, id))
  {
    hide RepliesHonest, HonestReply;
    var t := SettleStep(s, id);
    assert Outstanding(s, id);
    assert forall i: nat :: Outstanding(t, i) <==> Outstanding(s, i) && i != id;
    assert forall i: nat :: WroteCache(s, i) ==> WroteCache(t, i);
    RepliesStayHonest(s, t);
  }

  lemma StepKeeps<V>(s: State<V>, e: Event<V>)
    requires Inv(s)
    ensures Inv(Step(s, e))
  {
    hide Inv, CallStep, ArriveStep, FailStep, SettleStep;
    match e
    case Call(key, ttl, fast, now) => CallKeeps(s, key, ttl, fast, now);
    case Arrive(id, value, now) => if IsRunning(s, id) { ArriveKeeps(s, id, value, now); }
    case Fail(id) => if IsRunning(s, id) { FailKeeps(s, id); }
    case Settle(id) => if CanSettle(s, id) { SettleKeeps(s, id); }
  }

  lemma {:induction false} RunKeeps<V>(events: seq<Event<V>>)
    ensures Inv(Run(events))
  {
    if events != [] {
      RunKeeps(events[..|events| - 1]);
      StepKeeps(Run(events[..|events| - 1]), events[|events| - 1]);
    }
  }

  // ---------- main results ----------

  /** At most one coalesced backend request per key is outstanding, in every interleaving. */
  lemma OneRequestPerKey<V>(events: seq<Event<V>>, a: nat, b: nat)
    requires var s := Run(events);
             Outstanding(s, a) && Outstanding(s, b) && s.requests[a].key == s.requests[b].key
    ensures a == b
  {
    RunKeeps(events);
  }

  /** No call is ever answered with another key's data, and only fast calls see the placeholder. */
  lemma EveryReplyHonest<V>(events: seq<Event<V>>, i: nat)
    requires i < |Run(events).served|
    ensures HonestReply(Run(events), Run(events).served[i])
  {
    RunKeeps(events);
  }

  /** Of two results cached one after the other under one key, the later comes from the later request. */
  lemma CachedStartsIncrease<V>(events: seq<Event<V>>, a: nat, b: nat)
    requires var s := Run(events);
             && a < b < |s.writes| && s.writes[a] < |s.requests| && s.writes[b] < |s.requests|
             && s.requests[s.writes[a]].key == s.requests[s.writes[b]].key
    ensures Run(events).writes[a] < Run(events).writes[b]
  {
    RunKeeps(events);
  }

  /**
   A failed refresh never touches the cached entry, and its clean-up frees the key: after the
   failure, whatever else happens before the clean-up, the slot of that key is empty again.
   */
  lemma FailureFreesKey<V>(events: seq<Event<V>>, id: nat, between: seq<Event<V>>)
    requires IsRunning(Run(events), id) && Run(events).requests[id].coalesced
    requires CanSettle(Run(events + [Fail(id)] + between), id)
    ensures Run(events + [Fail(id)]).cache == Run(events).cache
    ensures var before := Run(events + [Fail(id)] + between);
            var after := Run(events + [Fail(id)] + between + [Settle(id)]);
            && after.cache == before.cache
            && before.requests[id].key in before.inflight && before.inflight[before.requests[id].key] == id
            && after.inflight == before.inflight - {before.requests[id].key}
  {
    var failed := events + [Fail(id)];
    assert failed[..|failed| - 1] == events;
    var all := failed + between + [Settle(id)];
    assert all[..|all| - 1] == failed + between;
    RunKeeps(failed + between);
    assert Outstanding(Run(failed + between), id);
  }

  /** A call under a cached key gets the cached value at once; if that value has expired, a refresh is under way. */
  lemma StaleIsRevalidated<V>(s: State<V>, key: string, ttl: nat, fast: bool, now: int)
    requires Inv(s) && ttl > 0 && s.cache.Some? && s.cache.value.key == key
    ensures Consult(s, key, ttl, fast, now).1 == Cached(s.cache.value.value)
    ensures var next := Consult(s, key, ttl, fast, now).0;
            && next.cache == s.cache
            && (s.cache.value.expiresAt > now ==> next == s)
            && (s.cache.value.expiresAt <= now ==>
                  key in next.inflight && Outstanding(next, next.inflight[key]) && |next.requests| <= |s.requests| + 1)
  {
  }

  // ---------- runs, in terms of their events ----------

  lemma RunNext<V>(events: seq<Event<V>>, e: Event<V>)
    ensures Run(events + [e]) == Step(Run(events), e)
  {
    assert (events + [e])[..|events|] == events;
  }

  /** A request of the key is under way. */
  ghost predicate UnderWay<V>(s: State<V>, key: string) {
    exists id: nat :: Outstanding(s, id) && s.requests[id].key == key
  }

  /** The cache holds an entry of the key that has not expired. */
  ghost predicate HasFresh<V>(s: State<V>, key: string, now: int) {
    s.cache.Some? && s.cache.value.key == key && s.cache.value.expiresAt > now
  }

  /**
   After any history a call starts a request if and only if caching is off, or it finds no unexpired entry of its key
   and no request of it under way.  It is answered with the entry of its key, expired or not, else with the
   placeholder if it is fast, else with the request of its key that is then under way.
   */
  lemma CallMeans<V>(events: seq<Event<V>>, key: string, ttl: nat, fast: bool, now: int)
    ensures var s, t := Run(events), Run(events + [Call(key, ttl, fast, now)]);
            && t.cache == s.cache && t.writes == s.writes && |t.served| == |s.served| + 1
            && t.served == s.served + [Serving(key, fast, t.served[|s.served|].reply)]
            && t.requests == (if ttl == 0 || !(HasFresh(s, key, now) || UnderWay(s, key))
                              then s.requests + [Request(key, ttl, ttl > 0, Running, false)] else s.requests)
            && var reply := t.served[|s.served|].reply;
               if ttl == 0 then reply == Await(|s.requests|)
               else if s.cache.Some? && s.cache.value.key == key then reply == Cached(s.cache.value.value)
               else if fast then reply == Placeholder
               else reply.Await? && Outstanding(t, reply.request) && t.requests[reply.request].key == key
  {
    var s := Run(events);
    RunNext(events, Call(key, ttl, fast, now));
    RunKeeps(events);
    hide CacheHonest, StartsIncrease, RunningIsNewest, RepliesHonest, Run;
    assert UnderWay(s, key) <==> key in s.inflight;
  }

  /** The event answers the request, which was started before; a first answer of it is the one that counts. */
  ghost predicate Answers<V>(events: seq<Event<V>>, i: nat, id: nat) {
    && i < |events| && id < |Run(events[..i]).requests|
    && ((events[i].Arrive? && events[i].request == id) || events[i] == Fail(id))
  }

  ghost predicate FirstAnswer<V>(events: seq<Event<V>>, i: nat, id: nat) {
    Answers(events, i, id) && forall j: nat :: j < i ==> !Answers(events, j, id)
  }

  lemma AnswersStay<V>(events: seq<Event<V>>, e: Event<V>, i: nat, id: nat)
    requires i < |events|
    ensures Answers(events + [e], i, id) <==> Answers(events, i, id)
    ensures FirstAnswer(events + [e], i, id) <==> FirstAnswer(events, i, id)
  {
    hide Run;
    assert (events + [e])[..i] == events[..i];
    forall j: nat | j < i ensures Answers(events + [e], j, id) <==> Answers(events, j, id) {
      assert (events + [e])[..j] == events[..j];
    }
  }

  /** What the first answer of a request made of it. */
  ghost predicate AnsweredAs<V>(events: seq<Event<V>>, id: nat, phase: Phase<V>) {
    || (phase == Running && forall i: nat :: !Answers(events, i, id))
    || exists i: nat :: FirstAnswer(events, i, id)
                        && phase == if events[i].Arrive? then Fulfilled(events[i].value) else Failed
  }

  /** What a request was started with never changes. */
  ghost predicate Lasts<V>(s: State<V>, t: State<V>) {
    && |s.requests| <= |t.requests|
    && forall id :: 0 <= id < |s.requests| ==>
         t.requests[id].key == s.requests[id].key && t.requests[id].ttl == s.requests[id].ttl
         && t.requests[id].coalesced == s.requests[id].coalesced
  }

  lemma {:induction false} RunLasts<V>(events: seq<Event<V>>, i: nat)
    requires i <= |events|
    ensures Lasts(Run(events[..i]), Run(events))
    decreases |events|
  {
    if i < |events| {
      var init := events[..|events| - 1];
      RunLasts(init, i);
      assert init[..i] == events[..i];
    } else {
      assert events[..i] == events;
    }
  }

  lemma NewIsUnanswered<V>(events: seq<Event<V>>, e: Event<V>, id: nat)
    requires id >= |Run(events).requests|
    ensures forall i: nat :: !Answers(events + [e], i, id)
  {
    forall i: nat | i <= |events| ensures !Answers(events + [e], i, id) {
      assert (events + [e])[..i] == events[..i];
      RunLasts(events, i);
    }
  }

  lemma AnswersLast<V>(events: seq<Event<V>>, e: Event<V>, id: nat)
    ensures Answers(events + [e], |events|, id)
        <==> id < |Run(events).requests| && ((e.Arrive? && e.request == id) || e == Fail(id))
  {
    assert (events + [e])[..|events|] == events;
  }

  /** What one event makes of a request that was there before. */
  ghost predicate AnsweredBy<V>(before: Phase<V>, e: Event<V>, id: nat, after: Phase<V>) {
    after == if !before.Running? then before
             else if e.Arrive? && e.request == id then Fulfilled(e.value)
             else if e == Fail(id) then Failed else Running
  }

  lemma StepAnswers<V>(s: State<V>, e: Event<V>, id: nat)
    requires id < |Step(s, e).requests|
    ensures if id < |s.requests| then AnsweredBy(s.requests[id].phase, e, id, Step(s, e).requests[id].phase)
            else Step(s, e).requests[id].phase == Running
  {
  }

  lemma AnsweredNext<V>(events: seq<Event<V>>, e: Event<V>, id: nat, before: Phase<V>, after: Phase<V>)
    requires id < |Run(events).requests| && AnsweredAs(events, id, before) && AnsweredBy(before, e, id, after)
    ensures AnsweredAs(events + [e], id, after)
  {
    hide Run, Answers, FirstAnswer;
    forall i: nat | i < |events|
      ensures Answers(events + [e], i, id) <==> Answers(events, i, id)
      ensures FirstAnswer(events + [e], i, id) <==> FirstAnswer(events, i, id)
    {
      AnswersStay(events, e, i, id);
    }
    AnswersLast(events, e, id);
    AnswersWithin(events, id);
    AnswersWithin(events + [e], id);
    if i: nat :|
      FirstAnswer(events, i, id) && before == if events[i].Arrive? then Fulfilled(events[i].value) else Failed {
      assert FirstAnswer(events + [e], i, id) && (events + [e])[i] == events[i];
    } else if after != Running {
      FirstIsLast(events, e, id);
      assert FirstAnswer(events + [e], |events|, id) && (events + [e])[|events|] == e;
    }
  }

  lemma AnswersWithin<V>(events: seq<Event<V>>, id: nat)
    ensures forall i: nat :: Answers(events, i, id) ==> i < |events|
    ensures forall i: nat :: FirstAnswer(events, i, id) ==> Answers(events, i, id)
  {
    hide Run;
  }

  lemma FirstIsLast<V>(events: seq<Event<V>>, e: Event<V>, id: nat)
    requires Answers(events + [e], |events|, id) && forall i: nat :: i < |events| ==> !Answers(events + [e], i, id)
    ensures FirstAnswer(events + [e], |events|, id)
  {
    hide Answers, Run;
  }

  /** A request stands as the first of its answers says; every later answer is ignored. */
  lemma {:induction false} FirstAnswerCounts<V>(events: seq<Event<V>>, id: nat)
    requires id < |Run(events).requests|
    ensures AnsweredAs(events, id, Run(events).requests[id].phase)
  {
    var init, e := events[..|events| - 1], events[|events| - 1];
    assert events == init + [e];
    RunNext(init, e);
    hide Run, AnsweredAs, AnsweredBy, Answers, Step;
    StepAnswers(Run(init), e, id);
    if id < |Run(init).requests| {
      FirstAnswerCounts(init, id);
      AnsweredNext(init, e, id, Run(init).requests[id].phase, Run(events).requests[id].phase);
    } else {
      NewIsUnanswered(init, e, id);
      Unanswered(events, id);
    }
  }

  lemma Unanswered<V>(events: seq<Event<V>>, id: nat)
    requires forall i: nat :: !Answers(events, i, id)
    ensures AnsweredAs(events, id, Running)
  {
    hide Answers;
  }

  /** The event brings the value of a request that goes through the cache. */
  ghost predicate Brings<V>(s: State<V>, e: Event<V>) {
    e.Arrive? && IsRunning(s, e.request) && s.requests[e.request].coalesced
  }

  /** What it puts into the cache: the life of an entry counts from the arrival. */
  ghost function Brought<V>(s: State<V>, e: Event<V>): Entry<V>
    requires Brings(s, e)
  {
    Entry(s.requests[e.request].key, e.now + s.requests[e.request].ttl, e.value)
  }

  ghost predicate Delivers<V>(events: seq<Event<V>>, i: nat) {
    i < |events| && Brings(Run(events[..i]), events[i])
  }

  ghost function Delivered<V>(events: seq<Event<V>>, i: nat): Entry<V>
    requires Delivers(events, i)
  {
    Brought(Run(events[..i]), events[i])
  }

  ghost predicate LastDelivery<V>(events: seq<Event<V>>, i: nat) {
    Delivers(events, i) && forall j: nat :: Delivers(events, j) ==> j <= i
  }

  /** The cache holds the last delivery, whatever key it was of; nothing else ever changes it. */
  lemma {:induction false} CacheIsLastDelivery<V>(events: seq<Event<V>>)
    ensures var cache := Run(events).cache;
            if exists i: nat :: Delivers(events, i)
            then exists i: nat :: LastDelivery(events, i) && cache == Some(Delivered(events, i))
            else cache.None?
  {
    if events != [] {
      var init, e := events[..|events| - 1], events[|events| - 1];
      assert events == init + [e];
      RunNext(init, e);
      CacheIsLastDelivery(init);
      DeliversStay(init, e);
      StepBrings(Run(init), e);
      LastOne(init, e);
      hide Run, Delivers, Delivered;
      if Delivers(events, |init|) {
        assert LastDelivery(events, |init|);
      } else {
        if i: nat :| LastDelivery(init, i) && Run(init).cache == Some(Delivered(init, i)) {
          assert LastDelivery(events, i) && Delivered(events, i) == Delivered(init, i);
        }
      }
    }
  }

  lemma DeliversStay<V>(events: seq<Event<V>>, e: Event<V>)
    ensures forall i: nat :: i < |events| ==>
              (Delivers(events + [e], i) <==> Delivers(events, i))
              && (Delivers(events, i) ==> Delivered(events + [e], i) == Delivered(events, i))
    ensures forall i: nat :: (Delivers(events, i) ==> i < |events|) && (Delivers(events + [e], i) ==> i <= |events|)
  {
    hide Run, Brings, Brought;
    forall i: nat | i < |events|
      ensures Delivers(events + [e], i) <==> Delivers(events, i)
      ensures Delivers(events, i) ==> Delivered(events + [e], i) == Delivered(events, i)
    {
      assert (events + [e])[..i] == events[..i];
    }
  }

  lemma LastOne<V>(events: seq<Event<V>>, e: Event<V>)
    ensures Delivers(events + [e], |events|) <==> Brings(Run(events), e)
    ensures Brings(Run(events), e) ==> Delivered(events + [e], |events|) == Brought(Run(events), e)
  {
    hide Run, Brings, Brought;
    assert (events + [e])[..|events|] == events;
  }

  lemma StepBrings<V>(s: State<V>, e: Event<V>)
    ensures Step(s, e).cache == if Brings(s, e) then Some(Brought(s, e)) else s.cache
  {
  }

  /** A clean-up of the request comes after an answer of it. */
  ghost predicate CleanedUp<V>(events: seq<Event<V>>, id: nat) {
    exists j: nat :: j < |events| && events[j] == Settle(id) && id < |Run(events[..j]).requests|
                     && !Run(events[..j]).requests[id].phase.Running?
  }

  lemma StepSettles<V>(s: State<V>, e: Event<V>, id: nat)
    requires id < |Step(s, e).requests| && Step(s, e).requests[id].coalesced
    ensures Outstanding(Step(s, e), id)
        <==> id >= |s.requests| || (Outstanding(s, id) && (e != Settle(id) || s.requests[id].phase.Running?))
    ensures id < |s.requests| ==> s.requests[id].coalesced
  {
  }

  /** A request is outstanding from its start to its first clean-up after an answer. */
  lemma {:induction false} OutstandingIff<V>(events: seq<Event<V>>, id: nat)
    requires id < |Run(events).requests| && Run(events).requests[id].coalesced
    ensures Outstanding(Run(events), id) <==> !CleanedUp(events, id)
  {
    var init, e := events[..|events| - 1], events[|events| - 1];
    assert events == init + [e];
    RunNext(init, e);
    hide Run, CleanedUp, Step, Outstanding;
    CleanedUpNext(init, e, id);
    StepSettles(Run(init), e, id);
    if id < |Run(init).requests| {
      OutstandingIff(init, id);
    } else {
      NotCleanedUpYet(init, id);
    }
  }

  lemma CleanedUpNext<V>(events: seq<Event<V>>, e: Event<V>, id: nat)
    ensures CleanedUp(events + [e], id)
        <==> CleanedUp(events, id)
             || (e == Settle(id) && id < |Run(events).requests| && !Run(events).requests[id].phase.Running?)
  {
    hide Run;
    var all := events + [e];
    assert all[..|events|] == events;
    assert forall j: nat :: j < |events| ==> all[..j] == events[..j];
    if j: nat :| j < |events| && events[j] == Settle(id) && id < |Run(events[..j]).requests|
                 && !Run(events[..j]).requests[id].phase.Running? {
      assert all[j] == Settle(id) && all[..j] == events[..j];
    }
    if e == Settle(id) && id < |Run(events).requests| && !Run(events).requests[id].phase.Running? {
      assert all[|events|] == Settle(id);
    }
  }

  lemma NotCleanedUpYet<V>(events: seq<Event<V>>, id: nat)
    requires id >= |Run(events).requests|
    ensures !CleanedUp(events, id)
  {
    forall j: nat | j < |events| ensures id >= |Run(events[..j]).requests| {
      RunLasts(events, j);
    }
  }

  // ---------- the service's fields ----------

  /** The cache fields of the monitoring service; the ghost fields are the history. */
  class UnitHostTelemetry<V> {
    var cache: Option<Entry<V>>
    var inflight: map<string, nat>
    var nextRequest: nat
    ghost var requests: seq<Request<V>>
    ghost var writes: seq<nat>
    ghost var served: seq<Serving<V>>

    ghost function View(): State<V>
      reads this
    {
      State(cache, inflight, requests, writes, served)
    }

    ghost predicate Valid()
      reads this
    {
      nextRequest == |requests| && Inv(View())
    }

    constructor ()
      ensures Valid() && View() == Initial<V>()
    {
      cache, inflight, nextRequest := None, map[], 0;
      requests, writes, served := [], [], [];
    }

    /** `refreshUnitHostTelemetryCache`: join the outstanding request of the key or start one. */
    method Refresh(key: string, ttl: nat) returns (promise: nat)
      requires Valid()
      modifies this
      ensures nextRequest == |requests|
      ensures if key in old(inflight) then promise == old(inflight)[key] && View() == old(View())
              else promise == old(nextRequest) && View() == StartRequest(old(View()), key, ttl, true)
    {
      if key in inflight {
        return inflight[key];
      }
      promise := nextRequest;
      nextRequest := nextRequest + 1;
      requests := requests + [Request(key, ttl, true, Running, false)];
      inflight := inflight[key := promise];
    }

    method GetUnitHostTelemetry(key: string, ttl: nat, fast: bool, now: int) returns (reply: Reply<V>)
      requires Valid()
      modifies this
      ensures Valid()
      ensures View() == CallStep(old(View()), key, ttl, fast, now)
      ensures reply == Consult(old(View()), key, ttl, fast, now).1
    {
      ghost var before := View();
      CallKeeps(before, key, ttl, fast, now);
      hide Inv;
      if ttl == 0 {
        reply := Await(nextRequest);
        nextRequest := nextRequest + 1;
        requests := requests + [Request(key, ttl, false, Running, false)];
      } else if cache.Some? && cache.value.key == key {
        if !(cache.value.expiresAt > now) && key !in inflight {
          var _ := Refresh(key, ttl);
        }
        reply := Cached(cache.value.value);
      } else if key in inflight {
        reply := if fast then Placeholder else Await(inflight[key]);
      } else {
        var promise := Refresh(key, ttl);
        reply := if fast then Placeholder else Await(promise);
      }
      served := served + [Serving(key, fast, reply)];
    }

    /** The `then` callback of the request, which closed over its key and time to live. */
    method OnValue(id: nat, key: string, ttl: nat, value: V, now: int)
      requires Valid() && IsRunning(View(), id)
      requires requests[id].key == key && requests[id].ttl == ttl && requests[id].coalesced
      modifies this
      ensures Valid() && View() == ArriveStep(old(View()), id, value, now)
    {
      ArriveKeeps(View(), id, value, now);
      hide Inv;
      requests := requests[id := requests[id].(phase := Fulfilled(value))];
      writes := writes + [id];
      cache := Some(Entry(key, now + ttl, value));
    }

    /** The `finally` callback. */
    method OnSettled(id: nat, key: string)
      requires Valid() && CanSettle(View(), id) && requests[id].key == key
      modifies this
      ensures Valid() && View() == SettleStep(old(View()), id)
    {
      SettleKeeps(View(), id);
      hide Inv;
      requests := requests[id := requests[id].(settled := true)];
      inflight := inflight - {key};
    }
  }
}
