/**
 The report-export queue of apps/api/src/monitoring/monitoring.service.ts under every interleaving
 of the immediate worker, the cron worker, the stale requeue and late finishers.

 Every database call is one event.  A claim or a requeue carries the time stamp its caller computed
 before the call, which may lie before the moment the call takes effect.  The worker a request starts
 right away acts once per run; every later claim is the cron worker's.  The model lets cron workers
 overlap and act on a row long after they read it, so it covers more runs than the source has; the
 counterexamples below use one pick that is handled at once.
 */
module ExportQueue {
  import opened ExportPayload

  const STALE_MS: int := 30 * 60 * 1000

  datatype Status = Queued | Running | Success | Error

  /** One successful claim: the stored stamp, the moment it took effect, and the worker it started. */
  datatype Claim<X> = Claim(stamp: int, at: int, payload: Payload<X>, active: bool)

  /** A queue row (`status`, `startedAt`, `summary`) with its history. */
  datatype Run<X> = Run(
    status: Status, startedAt: int, summary: string,
    payload: Payload<X>, claims: seq<Claim<X>>, requeues: nat)

  /** A row the cron worker has read and not yet acted on. */
  datatype Pick = Pick(run: nat, summary: string)

  /** `begun` names the runs whose own worker, started by their request, has tried to claim them. */
  datatype State<X> = State(clock: int, runs: seq<Run<X>>, picks: seq<Pick>, begun: set<nat>)

  datatype Config<!X> = Config(json: Json<Payload<X>>, cal: Calendar)

  datatype Event<X> =
    | Advance(ms: nat)
    | Enqueue(request: Payload<X>)
    | Immediate(run: nat, stamp: int)
    | Requeue(stamp: int)
    | PickUp(run: nat)
    | Handle(pick: nat, stamp: int)
    | Finish(run: nat, claim: nat, ok: bool, note: string)

  // ---------- the steps ----------

  function JobSummary<X>(cfg: Config<X>, p: Payload<X>): string {
    EncodeJob(cfg.json, p, |p.unitIds|)
  }

  function EnqueueStep<X>(cfg: Config<X>, s: State<X>, request: Payload<X>): State<X> {
    match Normalize(cfg.cal, s.clock, request)
    case Err(_) => s
    case Ok(p) => s.(runs := s.runs + [Run(Queued, s.clock, JobSummary(cfg, p), p, [], 0)])
  }

  /** The compare-and-set: only a queued row is claimed. */
  function ClaimRun<X>(run: Run<X>, payload: Payload<X>, stamp: int, now: int): Run<X> {
    if run.status != Queued then run
    else run.(status := Running, startedAt := stamp, claims := run.claims + [Claim(stamp, now, payload, true)])
  }

  function RequeueRun<X>(run: Run<X>, stamp: int): Run<X> {
    if run.status == Running && run.startedAt < stamp - STALE_MS then
      run.(status := Queued, requeues := run.requeues + 1)
    else run
  }

  function RequeueAll<X>(runs: seq<Run<X>>, stamp: int): seq<Run<X>> {
    seq(|runs|, i requires 0 <= i < |runs| => RequeueRun(runs[i], stamp))
  }

  /** A finishing worker writes its outcome whatever the row's status has become meanwhile. */
  function FinishRun<X>(run: Run<X>, claim: nat, ok: bool, note: string): Run<X>
    requires claim < |run.claims|
  {
    run.(status := if ok then Success else Error,
         summary := note,
         claims := run.claims[claim := run.claims[claim].(active := false)])
  }

  function HandleStep<X>(cfg: Config<X>, s: State<X>, pick: Pick, stamp: int): State<X>
    requires pick.run < |s.runs|
  {
    var run := s.runs[pick.run];
    match DecodeJob(cfg.json, cfg.cal, s.clock, pick.summary)
    case Ok(p) => s.(runs := s.runs[pick.run := ClaimRun(run, p, stamp, s.clock)])
    case Err(_) =>
      s.(runs := s.runs[pick.run := run.(status := Error, summary := "exportação manual com payload inválido")])
  }

  /** One event; an event that cannot happen now is skipped. */
  function Step<X>(cfg: Config<X>, s: State<X>, e: Event<X>): State<X> {
    match e
    case Advance(ms) => s.(clock := s.clock + ms)
    case Enqueue(request) => EnqueueStep(cfg, s, request)
    case Immediate(id, stamp) =>
      if id < |s.runs| && id !in s.begun && stamp <= s.clock then
        s.(runs := s.runs[id := ClaimRun(s.runs[id], s.runs[id].payload, stamp, s.clock)], begun := s.begun + {id})
      else s
    case Requeue(stamp) => if stamp <= s.clock then s.(runs := RequeueAll(s.runs, stamp)) else s
    case PickUp(id) =>
      if id < |s.runs| && s.runs[id].status == Queued then s.(picks := s.picks + [Pick(id, s.runs[id].summary)]) else s
    case Handle(i, stamp) =>
      if i < |s.picks| && s.picks[i].run < |s.runs| && stamp <= s.clock then HandleStep(cfg, s, s.picks[i], stamp)
      else s
    case Finish(id, claim, ok, note) =>
      if id < |s.runs| && claim < |s.runs[id].claims| && s.runs[id].claims[claim].active then
        s.(runs := s.runs[id := FinishRun(s.runs[id], claim, ok, note)])
      else s
  }

  function After<X>(cfg: Config<X>, s: State<X>, events: seq<Event<X>>): State<X>
    decreases |events|
  {
    if events == [] then s else After(cfg, Step(cfg, s, events[0]), events[1..])
  }

  function Start<X>(clock: int): State<X> {
    State(clock, [], [], {})
  }

  // ---------- the invariant of one run ----------

  predicate Terminal(status: Status) {
    status == Success || status == Error
  }

  /** No claim is younger than the clock, and only the last one can be less than 30 minutes old. */
  ghost predicate ClaimsInTime<X>(run: Run<X>, clock: int) {
    forall i :: 0 <= i < |run.claims| ==>
      && run.claims[i].stamp <= run.claims[i].at <= clock
      && (i < |run.claims| - 1 || run.status == Queued ==> run.claims[i].stamp + STALE_MS < clock)
  }

  /** Each claim of a run takes effect more than 30 minutes after the stamp of every earlier one. */
  ghost predicate ClaimsApart<X>(run: Run<X>) {
    forall i, j :: 0 <= i < j < |run.claims| ==> run.claims[j].at > run.claims[i].stamp + STALE_MS
  }

  ghost predicate ClaimsCounted<X>(run: Run<X>) {
    match run.status
    case Queued => |run.claims| == run.requeues
    case Running => |run.claims| == run.requeues + 1
    case _ => run.requeues <= |run.claims| <= run.requeues + 1
  }

  ghost predicate WorkersKnown<X>(run: Run<X>) {
    && (run.status == Running ==>
          && run.claims != [] && run.claims[|run.claims| - 1].active
          && run.startedAt == run.claims[|run.claims| - 1].stamp)
    && (Terminal(run.status) ==> exists i :: 0 <= i < |run.claims| && !run.claims[i].active)
  }

  /** Every worker works on the enqueued payload, and the summary carries it until the run ends. */
  ghost predicate PayloadKept<X>(cfg: Config<X>, run: Run<X>) {
    && (exists t :: NormalAt(cfg, run.payload, t))
    && (forall i :: 0 <= i < |run.claims| ==> run.claims[i].payload == run.payload)
    && (!Terminal(run.status) ==> run.summary == JobSummary(cfg, run.payload))
  }

  ghost predicate NormalAt<X>(cfg: Config<X>, p: Payload<X>, t: int) {
    Normalize(cfg.cal, t, p) == Ok(p)
  }

  ghost predicate RunInv<X>(cfg: Config<X>, run: Run<X>, clock: int) {
    ClaimsInTime(run, clock) && ClaimsApart(run) && ClaimsCounted(run) && WorkersKnown(run) && PayloadKept(cfg, run)
  }

  ghost predicate Inv<X>(cfg: Config<X>, s: State<X>) {
    && (forall i :: 0 <= i < |s.runs| ==> RunInv(cfg, s.runs[i], s.clock))
    && forall i :: 0 <= i < |s.picks| ==>
         s.picks[i].run < |s.runs| && s.picks[i].summary == JobSummary(cfg, s.runs[s.picks[i].run].payload)
  }

  ghost predicate Sound<X(!new)>(cfg: Config<X>) {
    Faithful(cfg.cal) && Invertible(cfg.json)
  }

  // ---------- every step keeps it ----------

  lemma ClockKeeps<X>(cfg: Config<X>, run: Run<X>, clock: int, later: int)
    requires RunInv(cfg, run, clock) && clock <= later
    ensures RunInv(cfg, run, later)
  {
    hide PayloadKept;
  }

  lemma ClaimKeeps<X>(cfg: Config<X>, run: Run<X>, stamp: int, clock: int)
    requires RunInv(cfg, run, clock) && stamp <= clock
    ensures RunInv(cfg, ClaimRun(run, run.payload, stamp, clock), clock)
  {
    hide NormalAt, JobSummary;
    var t := ClaimRun(run, run.payload, stamp, clock);
    assert t.payload == run.payload;
  }

  lemma RequeueKeeps<X>(cfg: Config<X>, run: Run<X>, stamp: int, clock: int)
    requires RunInv(cfg, run, clock) && stamp <= clock
    ensures RunInv(cfg, RequeueRun(run, stamp), clock)
  {
    hide NormalAt, JobSummary;
  }

  lemma FinishKeeps<X>(cfg: Config<X>, run: Run<X>, claim: nat, ok: bool, note: string, clock: int)
    requires RunInv(cfg, run, clock) && claim < |run.claims|
    ensures RunInv(cfg, FinishRun(run, claim, ok, note), clock)
  {
    hide NormalAt, JobSummary;
    var t := FinishRun(run, claim, ok, note);
    assert !t.claims[claim].active;
    assert t.payload == run.payload;
  }

  lemma EnqueueKeeps<X>(cfg: Config<X>, s: State<X>, request: Payload<X>)
    requires Faithful(cfg.cal) && Normalize(cfg.cal, s.clock, request).Ok?
    ensures var p := Normalize(cfg.cal, s.clock, request).value;
            RunInv(cfg, Run(Queued, s.clock, JobSummary(cfg, p), p, [], 0), s.clock)
  {
    hide JobSummary, Normalize;
    NormalizeIdempotent(cfg.cal, s.clock, s.clock, request);
    assert NormalAt(cfg, Normalize(cfg.cal, s.clock, request).value, s.clock);
  }

  /** What the cron worker read decodes to the enqueued payload, so its error branch is never taken. */
  lemma PickDecodes<X(!new)>(cfg: Config<X>, s: State<X>, i: nat)
    requires Sound(cfg) && Inv(cfg, s) && i < |s.picks|
    ensures DecodeJob(cfg.json, cfg.cal, s.clock, s.picks[i].summary) == Ok(s.runs[s.picks[i].run].payload)
  {
    hide Normalize, DecodeJob, EncodeJob;
    var p := s.runs[s.picks[i].run].payload;
    assert PayloadKept(cfg, s.runs[s.picks[i].run]);
    var t :| NormalAt(cfg, p, t);
    DecodeInvertsEncode(cfg.json, cfg.cal, t, s.clock, p, |p.unitIds|);
  }

  /** Replacing one run by a run of the same payload. */
  lemma ReplaceKeeps<X>(cfg: Config<X>, s: State<X>, id: nat, run: Run<X>)
    requires Inv(cfg, s) && id < |s.runs| && RunInv(cfg, run, s.clock) && run.payload == s.runs[id].payload
    ensures Inv(cfg, s.(runs := s.runs[id := run]))
  {
    hide RunInv, JobSummary;
  }

  lemma RequeueAllKeeps<X>(cfg: Config<X>, s: State<X>, stamp: int)
    requires Inv(cfg, s) && stamp <= s.clock
    ensures Inv(cfg, s.(runs := RequeueAll(s.runs, stamp)))
  {
    hide RunInv, JobSummary;
    forall i | 0 <= i < |s.runs| ensures RunInv(cfg, RequeueRun(s.runs[i], stamp), s.clock) {
      RequeueKeeps(cfg, s.runs[i], stamp, s.clock);
    }
  }

  lemma StepKeeps<X(!new)>(cfg: Config<X>, s: State<X>, e: Event<X>)
    requires Sound(cfg) && Inv(cfg, s)
    ensures Inv(cfg, Step(cfg, s, e))
  {
    hide RunInv, JobSummary, DecodeJob, Normalize, ClaimRun, FinishRun, RequeueAll, Sound;
    match e
    case Advance(ms) =>
      forall i | 0 <= i < |s.runs| ensures RunInv(cfg, s.runs[i], s.clock + ms) {
        ClockKeeps(cfg, s.runs[i], s.clock, s.clock + ms);
      }
    case Enqueue(request) =>
      if Normalize(cfg.cal, s.clock, request).Ok? {
        assert Faithful(cfg.cal) by { SoundFaithful(cfg); }
        EnqueueKeeps(cfg, s, request);
      }
    case Immediate(id, stamp) =>
      if id < |s.runs| && id !in s.begun && stamp <= s.clock {
        ClaimKeeps(cfg, s.runs[id], stamp, s.clock);
        ClaimKeepsPayload(s.runs[id], s.runs[id].payload, stamp, s.clock);
        ReplaceKeeps(cfg, s, id, ClaimRun(s.runs[id], s.runs[id].payload, stamp, s.clock));
      }
    case Requeue(stamp) => if stamp <= s.clock { RequeueAllKeeps(cfg, s, stamp); }
    case PickUp(id) =>
      if id < |s.runs| && s.runs[id].status == Queued {
        assert RunInv(cfg, s.runs[id], s.clock);
        QueuedSummary(cfg, s.runs[id], s.clock);
      }
    case Handle(i, stamp) =>
      if i < |s.picks| && s.picks[i].run < |s.runs| && stamp <= s.clock {
        var run := s.runs[s.picks[i].run];
        PickDecodes(cfg, s, i);
        ClaimKeeps(cfg, run, stamp, s.clock);
        ClaimKeepsPayload(run, run.payload, stamp, s.clock);
        ReplaceKeeps(cfg, s, s.picks[i].run, ClaimRun(run, run.payload, stamp, s.clock));
      }
    case Finish(id, claim, ok, note) =>
      if id < |s.runs| && claim < |s.runs[id].claims| && s.runs[id].claims[claim].active {
        FinishKeeps(cfg, s.runs[id], claim, ok, note, s.clock);
        FinishKeepsPayload(s.runs[id], claim, ok, note);
        ReplaceKeeps(cfg, s, id, FinishRun(s.runs[id], claim, ok, note));
      }
  }

  lemma SoundFaithful<X(!new)>(cfg: Config<X>)
    requires Sound(cfg)
    ensures Faithful(cfg.cal)
  {
  }

  lemma ClaimKeepsPayload<X>(run: Run<X>, payload: Payload<X>, stamp: int, now: int)
    ensures ClaimRun(run, payload, stamp, now).payload == run.payload
  {
  }

  lemma FinishKeepsPayload<X>(run: Run<X>, claim: nat, ok: bool, note: string)
    requires claim < |run.claims|
    ensures FinishRun(run, claim, ok, note).payload == run.payload
  {
  }

  lemma QueuedSummary<X>(cfg: Config<X>, run: Run<X>, clock: int)
    requires RunInv(cfg, run, clock) && run.status == Queued
    ensures run.summary == JobSummary(cfg, run.payload)
  {
  }

  lemma {:induction false} AfterKeeps<X(!new)>(cfg: Config<X>, s: State<X>, events: seq<Event<X>>)
    requires Sound(cfg) && Inv(cfg, s)
    ensures Inv(cfg, After(cfg, s, events))
    decreases |events|
  {
    hide Inv, Step, Sound;
    if events != [] {
      StepKeeps(cfg, s, events[0]);
      AfterKeeps(cfg, Step(cfg, s, events[0]), events[1..]);
    }
  }

  lemma {:induction false} AfterConcat<X>(cfg: Config<X>, s: State<X>, a: seq<Event<X>>, b: seq<Event<X>>)
    ensures After(cfg, s, a + b) == After(cfg, After(cfg, s, a), b)
    decreases |a|
  {
    hide Step;
    if a == [] {
      assert a + b == b;
    } else {
      assert (a + b)[1..] == a[1..] + b;
      AfterConcat(cfg, Step(cfg, s, a[0]), a[1..], b);
    }
  }

  // ---------- main results ----------

  /** Every state a queue can reach from empty keeps the invariant. */
  lemma ReachableInv<X(!new)>(cfg: Config<X>, clock: int, events: seq<Event<X>>)
    requires Sound(cfg)
    ensures Inv(cfg, After(cfg, Start(clock), events))
  {
    hide RunInv, After;
    AfterKeeps(cfg, Start(clock), events);
  }

  /**
   A request that normalisation accepts adds one queued run for what was asked, at the end of the table; any
   other request changes nothing.
   */
  lemma EnqueueAdds<X(!new)>(cfg: Config<X>, s: State<X>, request: Payload<X>)
    requires Sound(cfg)
    ensures var after := Step(cfg, s, Enqueue(request));
            if Normalize(cfg.cal, s.clock, request).Ok? then
              && |after.runs| == |s.runs| + 1 && after.runs[..|s.runs|] == s.runs
              && after.runs[|s.runs|].status == Queued && after.runs[|s.runs|].claims == []
              && Keeps(cfg.cal, s.clock, request, after.runs[|s.runs|].payload)
              && DecodeJob(cfg.json, cfg.cal, s.clock, after.runs[|s.runs|].summary) == Ok(after.runs[|s.runs|].payload)
              && after.clock == s.clock && after.picks == s.picks
            else after == s
  {
    hide DecodeJob, Keeps, EncodeJob;
    NormalizeMeans(cfg.cal, s.clock, request);
    if Normalize(cfg.cal, s.clock, request).Ok? {
      var p := Normalize(cfg.cal, s.clock, request).value;
      DecodeInvertsEncode(cfg.json, cfg.cal, s.clock, s.clock, request, |p.unitIds|);
    }
  }

  /**
   Each claim of a run takes effect more than 30 minutes after the stamp of every earlier one, and a run is
   claimed at most once more than requeued.
   */
  lemma ClaimsAreApart<X(!new)>(cfg: Config<X>, clock: int, events: seq<Event<X>>, id: nat)
    requires Sound(cfg) && id < |After(cfg, Start(clock), events).runs|
    ensures var run := After(cfg, Start(clock), events).runs[id];
            && |run.claims| <= run.requeues + 1
            && forall i, j :: 0 <= i < j < |run.claims| ==> run.claims[j].at > run.claims[i].stamp + 1_800_000
  {
    ReachableInv(cfg, clock, events);
    hide Sound, After, Start;
    var s := After(cfg, Start(clock), events);
    assert RunInv(cfg, s.runs[id], s.clock);
  }

  /** The event claims the run for a worker: its request's own, once, or the cron worker, which has read it. */
  ghost predicate Claims<X>(s: State<X>, e: Event<X>, id: nat)
    requires id < |s.runs|
  {
    && s.runs[id].status == Queued
    && ((e.Immediate? && e.run == id && id !in s.begun && e.stamp <= s.clock)
        || (e.Handle? && e.pick < |s.picks| && s.picks[e.pick].run == id && e.stamp <= s.clock))
  }

  /** The event puts the run, claimed more than 30 minutes before, back into the queue. */
  ghost predicate PutsBack<X>(s: State<X>, e: Event<X>, id: nat)
    requires id < |s.runs|
  {
    s.runs[id].status == Running && e.Requeue? && e.stamp <= s.clock && s.runs[id].startedAt + 1_800_000 < e.stamp
  }

  /** The event is the end of one of the workers of the run. */
  ghost predicate Ends<X>(s: State<X>, e: Event<X>, id: nat)
    requires id < |s.runs|
  {
    e.Finish? && e.run == id && e.claim < |s.runs[id].claims| && s.runs[id].claims[e.claim].active
  }

  /** A run is claimed, put back or ended by exactly these events, and nothing else ever changes it. */
  lemma RunMoves<X(!new)>(cfg: Config<X>, s: State<X>, e: Event<X>, id: nat)
    requires Sound(cfg) && Inv(cfg, s) && id < |s.runs|
    ensures id < |Step(cfg, s, e).runs|
    ensures var before, after := s.runs[id], Step(cfg, s, e).runs[id];
            if Claims(s, e, id) then
              after == before.(status := Running, startedAt := e.stamp,
                               claims := before.claims + [Claim(e.stamp, s.clock, before.payload, true)])
            else if PutsBack(s, e, id) then after == before.(status := Queued, requeues := before.requeues + 1)
            else if Ends(s, e, id) then
              after == before.(status := if e.ok then Success else Error, summary := e.note,
                               claims := before.claims[e.claim := before.claims[e.claim].(active := false)])
            else after == before
  {
    hide DecodeJob, Normalize, JobSummary, Sound;
    if e.Handle? && e.pick < |s.picks| {
      PickDecodes(cfg, s, e.pick);
    }
  }

  /** The request's own worker acts once, the cron worker reads queued rows only, and time never runs back. */
  lemma WorkersMove<X>(cfg: Config<X>, s: State<X>, e: Event<X>)
    ensures var t := Step(cfg, s, e);
            && t.clock == s.clock + (if e.Advance? then e.ms else 0)
            && t.begun == s.begun + (if e.Immediate? && e.run < |s.runs| && e.stamp <= s.clock then {e.run} else {})
            && t.picks == s.picks + (if e.PickUp? && e.run < |s.runs| && s.runs[e.run].status == Queued
                                     then [Pick(e.run, s.runs[e.run].summary)] else [])
            && (!e.Enqueue? ==> |t.runs| == |s.runs|)
  {
    hide DecodeJob, Normalize, JobSummary, RequeueRun;
  }

  /** A row whose summary does not decode is ended with an error when the cron worker gets to it, and no other is. */
  lemma UnreadableEnds<X>(cfg: Config<X>, s: State<X>, i: nat, stamp: int)
    requires i < |s.picks| && s.picks[i].run < |s.runs| && stamp <= s.clock
    requires DecodeJob(cfg.json, cfg.cal, s.clock, s.picks[i].summary).Err?
    ensures var id, t := s.picks[i].run, Step(cfg, s, Handle(i, stamp));
            && t.runs == s.runs[id := s.runs[id].(status := Error,
                                                  summary := "exportação manual com payload inválido")]
            && t.clock == s.clock && t.picks == s.picks && t.begun == s.begun
  {
    hide DecodeJob, Normalize;
  }

  /** While a run is open its summary decodes to the enqueued payload, and no worker ever had another payload. */
  lemma OpenRunsDecode<X(!new)>(cfg: Config<X>, clock: int, events: seq<Event<X>>, id: nat, later: int)
    requires Sound(cfg) && id < |After(cfg, Start(clock), events).runs|
    ensures var run := After(cfg, Start(clock), events).runs[id];
            && (!Terminal(run.status) ==> DecodeJob(cfg.json, cfg.cal, later, run.summary) == Ok(run.payload))
            && forall i :: 0 <= i < |run.claims| ==> run.claims[i].payload == run.payload
  {
    ReachableInv(cfg, clock, events);
    hide After, Start, Normalize, DecodeJob, EncodeJob;
    var s := After(cfg, Start(clock), events);
    var run := s.runs[id];
    assert RunInv(cfg, run, s.clock);
    var t :| NormalAt(cfg, run.payload, t);
    DecodeInvertsEncode(cfg.json, cfg.cal, t, later, run.payload, |run.payload.unitIds|);
  }

  lemma StepKeepsRun<X>(cfg: Config<X>, s: State<X>, e: Event<X>, id: nat)
    requires id < |s.runs|
    ensures var t := Step(cfg, s, e);
            && |s.runs| <= |t.runs| && t.runs[id].payload == s.runs[id].payload
            && (Terminal(s.runs[id].status) ==> Terminal(t.runs[id].status))
  {
    hide DecodeJob, Normalize, JobSummary;
  }

  /** A run never leaves {success, error} and never changes its payload, whatever happens later. */
  lemma {:induction false} TerminalStays<X>(cfg: Config<X>, s: State<X>, events: seq<Event<X>>, id: nat)
    requires id < |s.runs|
    ensures var t := After(cfg, s, events);
            && |s.runs| <= |t.runs| && t.runs[id].payload == s.runs[id].payload
            && (Terminal(s.runs[id].status) ==> Terminal(t.runs[id].status))
    decreases |events|
  {
    hide Step;
    if events != [] {
      StepKeepsRun(cfg, s, events[0], id);
      TerminalStays(cfg, Step(cfg, s, events[0]), events[1..], id);
    }
  }

  ghost predicate NoWorker<X>(run: Run<X>) {
    forall i :: 0 <= i < |run.claims| ==> !run.claims[i].active
  }

  lemma FrozenStep<X(!new)>(cfg: Config<X>, s: State<X>, e: Event<X>, id: nat)
    requires Sound(cfg) && Inv(cfg, s) && id < |s.runs| && Terminal(s.runs[id].status) && NoWorker(s.runs[id])
    ensures id < |Step(cfg, s, e).runs| && Step(cfg, s, e).runs[id] == s.runs[id]
  {
    hide DecodeJob, Normalize, JobSummary, Sound;
    if e.Handle? && e.pick < |s.picks| {
      PickDecodes(cfg, s, e.pick);
    }
  }

  /** The outcome of an ended run can still change exactly when one of its workers is still active. */
  lemma OutcomeFrozenIff<X(!new)>(cfg: Config<X>, s: State<X>, id: nat)
    requires Sound(cfg) && Inv(cfg, s) && id < |s.runs| && Terminal(s.runs[id].status)
    ensures (forall e :: id < |Step(cfg, s, e).runs| && Step(cfg, s, e).runs[id].status == s.runs[id].status)
            <==> NoWorker(s.runs[id])
  {
    hide Step, Inv, Sound;
    var run := s.runs[id];
    if NoWorker(run) {
      forall e ensures id < |Step(cfg, s, e).runs| && Step(cfg, s, e).runs[id].status == run.status {
        FrozenStep(cfg, s, e, id);
      }
    } else {
      var i :| 0 <= i < |run.claims| && run.claims[i].active;
      LateFinish(cfg, s, id, i, run.status != Success);
      assert Step(cfg, s, Finish(id, i, run.status != Success, "")).runs[id].status != run.status;
    }
  }

  lemma LateFinish<X>(cfg: Config<X>, s: State<X>, id: nat, claim: nat, ok: bool)
    requires id < |s.runs| && claim < |s.runs[id].claims| && s.runs[id].claims[claim].active
    ensures var t := Step(cfg, s, Finish(id, claim, ok, ""));
            id < |t.runs| && t.runs[id].status == if ok then Success else Error
  {
  }

  /** Without active workers an ended run stays as it is for good. */
  lemma {:induction false} FrozenForever<X(!new)>(cfg: Config<X>, s: State<X>, events: seq<Event<X>>, id: nat)
    requires Sound(cfg) && Inv(cfg, s) && id < |s.runs| && Terminal(s.runs[id].status) && NoWorker(s.runs[id])
    ensures id < |After(cfg, s, events).runs| && After(cfg, s, events).runs[id] == s.runs[id]
    decreases |events|
  {
    hide Step, Inv, Sound;
    if events != [] {
      FrozenStep(cfg, s, events[0], id);
      StepKeeps(cfg, s, events[0]);
      FrozenForever(cfg, Step(cfg, s, events[0]), events[1..], id);
    }
  }

  /** A run that was never requeued is final as soon as it ends. */
  lemma NeverRequeuedIsFinal<X>(cfg: Config<X>, s: State<X>, id: nat)
    requires Inv(cfg, s) && id < |s.runs| && Terminal(s.runs[id].status) && s.runs[id].requeues == 0
    ensures NoWorker(s.runs[id])
  {
    assert RunInv(cfg, s.runs[id], s.clock);
  }

  /**
   A run after the worker its request started has claimed it, `delay` after reading the clock, and nobody else
   has.
   */
  ghost predicate ClaimedFirst<X>(cfg: Config<X>, s: State<X>, stamp: int, delay: nat) {
    && s.clock == stamp + delay && s.picks == [] && |s.runs| == 1
    && s.runs[0].status == Running && s.runs[0].startedAt == stamp
    && s.runs[0].summary == JobSummary(cfg, s.runs[0].payload)
    && s.runs[0].claims == [Claim(stamp, stamp + delay, s.runs[0].payload, true)]
  }

  lemma RequestClaims<X>(cfg: Config<X>, clock: int, request: Payload<X>, delay: nat)
    requires Normalize(cfg.cal, clock, request).Ok?
    ensures ClaimedFirst(cfg, After(cfg, Start(clock), [Enqueue(request), Advance(delay), Immediate(0, clock)]),
                         clock, delay)
  {
    hide Normalize, JobSummary, After;
    var s1 := Step(cfg, Start(clock), Enqueue(request));
    assert |s1.runs| == 1 && s1.runs[0].status == Queued && 0 !in s1.begun;
    ThreeSteps(cfg, Start(clock), [Enqueue(request), Advance(delay), Immediate(0, clock)]);
  }

  /** What the cron worker does once the stamp of a running row is older than 30 minutes. */
  function CronTurn<X>(late: int): seq<Event<X>> {
    [Requeue(late), PickUp(0), Handle(0, late)]
  }

  /** The cron worker puts the run back, reads it, decodes what it read, and claims it a second time. */
  lemma CronClaims<X(!new)>(cfg: Config<X>, s: State<X>, stamp: int, delay: nat)
    requires Sound(cfg) && Inv(cfg, s) && ClaimedFirst(cfg, s, stamp, delay) && delay <= STALE_MS + 1
    ensures var late := stamp + STALE_MS + 1;
            var t := After(cfg, Step(cfg, s, Advance(STALE_MS + 1 - delay)), CronTurn(late));
            && |t.runs| == 1 && t.runs[0].status == Running
            && t.runs[0].claims == s.runs[0].claims + [Claim(late, late, s.runs[0].payload, true)]
  {
    hide Inv, Sound, JobSummary, DecodeJob, After;
    var late := stamp + STALE_MS + 1;
    var s1 := Step(cfg, s, Advance(STALE_MS + 1 - delay));
    StepKeeps(cfg, s, Advance(STALE_MS + 1 - delay));
    var s2 := Step(cfg, s1, Requeue(late));
    StepKeeps(cfg, s1, Requeue(late));
    assert s2.runs[0] == RequeueRun(s1.runs[0], late) && s2.runs[0].status == Queued;
    var s3 := Step(cfg, s2, PickUp(0));
    StepKeeps(cfg, s2, PickUp(0));
    PickDecodes(cfg, s3, 0);
    ThreeSteps(cfg, s1, CronTurn(late));
  }

  /** A worker that its request started is slow, the cron worker takes the run over, and both hold a claim. */
  function Overtaken<X>(clock: int, request: Payload<X>, delay: nat): seq<Event<X>>
    requires delay <= STALE_MS + 1
  {
    [Enqueue(request), Advance(delay), Immediate(0, clock)] + [Advance(STALE_MS + 1 - delay)]
    + CronTurn(clock + STALE_MS + 1)
  }

  lemma OvertakenHasTwo<X(!new)>(cfg: Config<X>, clock: int, request: Payload<X>, delay: nat)
    requires Sound(cfg) && Normalize(cfg.cal, clock, request).Ok? && delay <= STALE_MS + 1
    ensures var late := clock + STALE_MS + 1;
            var runs := After(cfg, Start(clock), Overtaken(clock, request, delay)).runs;
            && |runs| == 1 && runs[0].status == Running && |runs[0].claims| == 2
            && runs[0].claims == [Claim(clock, clock + delay, runs[0].claims[0].payload, true),
                                  Claim(late, late, runs[0].claims[0].payload, true)]
  {
    var first: seq<Event<X>> := [Enqueue(request), Advance(delay), Immediate(0, clock)];
    var wait: seq<Event<X>> := [Advance(STALE_MS + 1 - delay)];
    var turn: seq<Event<X>> := CronTurn(clock + STALE_MS + 1);
    var s := After(cfg, Start(clock), first);
    RequestClaims(cfg, clock, request, delay);
    ReachableInv(cfg, clock, first);
    AfterConcat(cfg, Start(clock), first + wait, turn);
    AfterConcat(cfg, Start(clock), first, wait);
    assert After(cfg, s, wait) == Step(cfg, s, wait[0]);
    hide After, Step, Inv, Sound, Normalize, CronTurn;
    CronClaims(cfg, s, clock, delay);
  }

  /**
   The request's own worker is slow, the cron worker takes its run over and succeeds, and then the first
   one fails: the success becomes an error.
   */
  lemma SuccessCanBecomeError<X(!new)>(cfg: Config<X>, clock: int, request: Payload<X>)
    requires Sound(cfg) && Normalize(cfg.cal, clock, request).Ok?
    ensures var first := Overtaken(clock, request, 0) + [Finish(0, 1, true, "")];
            var before := After(cfg, Start(clock), first).runs;
            var after := After(cfg, Start(clock), first + [Finish(0, 0, false, "")]).runs;
            |before| == |after| == 1 && before[0].status == Success && after[0].status == Error
  {
    var overtaken := Overtaken(clock, request, 0);
    var s := After(cfg, Start(clock), overtaken);
    OvertakenHasTwo(cfg, clock, request, 0);
    AfterConcat(cfg, Start(clock), overtaken, [Finish(0, 1, true, "")]);
    AfterConcat(cfg, Start(clock), overtaken + [Finish(0, 1, true, "")], [Finish(0, 0, false, "")]);
    var t := Step(cfg, s, Finish(0, 1, true, ""));
    assert After(cfg, s, [Finish(0, 1, true, "")]) == t;
    assert After(cfg, t, [Finish(0, 0, false, "")]) == Step(cfg, t, Finish(0, 0, false, ""));
    assert t.runs[0].status == Success && t.runs[0].claims[0].active;
    hide After, Step;
    LateFinish(cfg, t, 0, 0, false);
    StepCounts(cfg, t, Finish(0, 0, false, ""));
  }

  lemma StepCounts<X>(cfg: Config<X>, s: State<X>, e: Event<X>)
    ensures e.Finish? ==> |Step(cfg, s, e).runs| == |s.runs|
  {
    hide DecodeJob, Normalize, JobSummary;
  }

  /**
   The distance between claims counts from the stored stamp: a claim that takes effect `delay` after
   its stamp was read can be followed by the cron worker's that much sooner, and the bound is tight.
   */
  lemma SlowClaimShrinksGap<X(!new)>(cfg: Config<X>, clock: int, request: Payload<X>, delay: nat)
    requires Sound(cfg) && Normalize(cfg.cal, clock, request).Ok? && delay <= 1_800_001
    ensures var runs := After(cfg, Start(clock), Overtaken(clock, request, delay)).runs;
            && |runs| == 1 && |runs[0].claims| == 2
            && runs[0].claims[0].stamp == clock && runs[0].claims[0].at == clock + delay
            && runs[0].claims[1].stamp == runs[0].claims[1].at == clock + 1_800_001
            && runs[0].claims[1].at - runs[0].claims[0].at == 1_800_001 - delay
  {
    hide After, Normalize, Sound, Overtaken;
    OvertakenHasTwo(cfg, clock, request, delay);
  }

  /** Every claim took effect at most `delay` after its stamp was read. */
  ghost predicate Prompt<X>(run: Run<X>, delay: nat) {
    forall i :: 0 <= i < |run.claims| ==> run.claims[i].at <= run.claims[i].stamp + delay
  }

  /** Any two claims took effect more than 30 minutes apart. */
  ghost predicate Apart<X>(run: Run<X>) {
    forall i, j :: 0 <= i < j < |run.claims| ==> run.claims[j].at > run.claims[i].at + 1_800_000
  }

  ghost predicate PromptRunsAreApart<X(!new)>(cfg: Config<X>, clock: int, delay: nat) {
    forall events: seq<Event<X>>, id: nat ::
      var runs := After(cfg, Start(clock), events).runs;
      id < |runs| && Prompt(runs[id], delay) ==> Apart(runs[id])
  }

  /** Claims delayed by at most `delay` always take effect more than 30 minutes apart exactly when the delay is zero. */
  lemma ClaimsAreApartIff<X(!new)>(cfg: Config<X>, clock: int, request: Payload<X>, delay: nat)
    requires Sound(cfg) && Normalize(cfg.cal, clock, request).Ok?
    ensures PromptRunsAreApart(cfg, clock, delay) <==> delay == 0
  {
    hide After, Normalize, Sound;
    if delay == 0 {
      forall events: seq<Event<X>>, id: nat |
        id < |After(cfg, Start(clock), events).runs| && Prompt(After(cfg, Start(clock), events).runs[id], 0)
        ensures Apart(After(cfg, Start(clock), events).runs[id])
      {
        ClaimsAreApart(cfg, clock, events, id);
      }
    } else {
      SlowClaimShrinksGap(cfg, clock, request, 1);
      var run := After(cfg, Start(clock), Overtaken(clock, request, 1)).runs[0];
      assert Prompt(run, delay) && !Apart(run);
    }
  }

  lemma ThreeSteps<X>(cfg: Config<X>, s: State<X>, es: seq<Event<X>>)
    requires |es| == 3
    ensures After(cfg, s, es) == Step(cfg, Step(cfg, Step(cfg, s, es[0]), es[1]), es[2])
  {
    hide Step;
    assert es == [es[0]] + ([es[1]] + [es[2]]);
    AfterConcat(cfg, s, [es[0]], [es[1]] + [es[2]]);
    AfterConcat(cfg, Step(cfg, s, es[0]), [es[1]], [es[2]]);
  }

  // ---------- the queue table ----------

  /** The run rows, changed in place by the worker's and the requeue's database calls. */
  class RunTable<X> {
    var runs: seq<Run<X>>

    constructor ()
      ensures runs == []
    {
      runs := [];
    }

    /** The conditional update that claims a run: it counts one row exactly when the run was queued. */
    method TryClaim(id: nat, payload: Payload<X>, stamp: int, now: int) returns (count: nat)
      requires id < |runs|
      modifies this
      ensures runs == old(runs)[id := ClaimRun(old(runs[id]), payload, stamp, now)]
      ensures count == if old(runs[id]).status == Queued then 1 else 0
    {
      count := 0;
      if runs[id].status == Queued {
        var claim := Claim(stamp, now, payload, true);
        runs := runs[id := runs[id].(status := Running, startedAt := stamp, claims := runs[id].claims + [claim])];
        count := 1;
      }
    }

    /** The conditional update that puts stale runs back in the queue. */
    method RequeueStale(now: int)
      modifies this
      ensures runs == RequeueAll(old(runs), now)
      ensures |runs| == |old(runs)| && forall i :: 0 <= i < |runs| ==>
                runs[i] == if old(runs)[i].status == Running && old(runs)[i].startedAt + 1_800_000 < now
                           then old(runs)[i].(status := Queued, requeues := old(runs)[i].requeues + 1)
                           else old(runs)[i]
    {
      var staleBefore := now - STALE_MS;
      var i := 0;
      while i < |runs|
        invariant 0 <= i <= |runs| == |old(runs)|
        invariant forall k :: 0 <= k < i ==> runs[k] == RequeueRun(old(runs)[k], now)
        invariant forall k :: i <= k < |runs| ==> runs[k] == old(runs)[k]
      {
        if runs[i].status == Running && runs[i].startedAt < staleBefore {
          runs := runs[i := runs[i].(status := Queued, requeues := runs[i].requeues + 1)];
        }
        i := i + 1;
      }
    }

    /** The unconditional update at the end of a worker. */
    method Complete(id: nat, claim: nat, ok: bool, note: string)
      requires id < |runs| && claim < |runs[id].claims|
      modifies this
      ensures runs == old(runs)[id := FinishRun(old(runs[id]), claim, ok, note)]
      ensures Terminal(runs[id].status) && (runs[id].status == Success <==> ok) && runs[id].summary == note
      ensures runs[id].payload == old(runs[id].payload) && runs[id].startedAt == old(runs[id].startedAt)
      ensures runs[id].requeues == old(runs[id].requeues) && |runs[id].claims| == |old(runs[id].claims)|
      ensures forall c :: 0 <= c < |runs[id].claims| ==>
                runs[id].claims[c] == old(runs[id].claims)[c].(active := old(runs[id].claims)[c].active && c != claim)
    {
      var run := runs[id];
      var worker := run.claims[claim].(active := false);
      if ok {
        runs := runs[id := run.(status := Success, summary := note, claims := run.claims[claim := worker])];
      } else {
        runs := runs[id := run.(status := Error, summary := note, claims := run.claims[claim := worker])];
      }
    }
  }
}
