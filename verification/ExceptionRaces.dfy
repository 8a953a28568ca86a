/**
 Exception cases under every interleaving of requests: an operation reads a row, later reads the
 policies and computes, and later still writes, when other operations may have changed both.

 A computed write stays available for good, so writes may also be repeated.  Two policy updates may
 overlap as well: the second check of each reads the policy before the other has written.
 */
module ExceptionRaces {
  import opened Exceptions
  import opened Options
  import opened Sla
  import opened Text
  import opened Uniqueness

  // ---------- prepared writes ----------

  /** What an operation does to the row it read. */
  datatype Job = UpdateJob(edit: CaseEdit) | HitJob(hit: Hit) | RecoveryJob | RecalculationJob

  /** The policies an operation read, and its clock. */
  datatype Reading = Reading(policies: seq<Policy>, now: int)

  /** An operation on its way: the row as it was read, and the policies once they are read. */
  datatype Pending =
    | RowWrite(id: nat, job: Job, seen: Case, reading: Option<Reading>)
    | NewRow(rule: nat, hit: Hit, createdAt: int, reading: Option<Reading>)

  /** A policy update that passed its checks. */
  datatype PolicyWrite = PolicyWrite(id: nat, patch: PolicyEdit)

  datatype Racing = Racing(desk: Desk, pending: seq<Pending>, policyWrites: seq<PolicyWrite>)

  /** The row an operation meant to write, computed from the row it read. */
  function Intended(job: Job, seen: Case, r: Reading): Case {
    match job
    case UpdateJob(edit) => Edited(r.policies, seen, edit, NextAssignee(seen, edit), r.now)
    case HitJob(hit) => Confirmed(r.policies, seen, hit, r.now)
    case RecoveryJob => Recovered(seen, r.now)
    case RecalculationJob => Recomputed(r.policies, seen, r.now)
  }

  /** The write itself: only the fields the operation names, on the row as it is by now. */
  function Landed(current: Case, job: Job, seen: Case, r: Reading): Case {
    var t := Intended(job, seen, r);
    match job
    case UpdateJob(edit) =>
      current.(kind := if edit.kind.Some? then t.kind else current.kind,
               severity := if edit.severity.Some? then t.severity else current.severity,
               status := if edit.status.Some? then t.status else current.status,
               assignee := if edit.assignee.Some? then t.assignee else current.assignee,
               acknowledgedAt := if edit.status.Some? then t.acknowledgedAt else current.acknowledgedAt,
               resolvedAt := if edit.status.Some? then t.resolvedAt else current.resolvedAt,
               silencedUntil := if edit.silencedUntil.Some? || edit.status in {Some(Open), Some(Silenced)}
                                then t.silencedUntil else current.silencedUntil,
               op := t.op)
    case HitJob(hit) =>
      current.(kind := hit.kind, severity := hit.severity, status := t.status, acknowledgedAt := t.acknowledgedAt,
               resolvedAt := if t.status.Open? then None else current.resolvedAt,
               silencedUntil := if t.status.Open? then None else current.silencedUntil,
               op := t.op)
    case RecoveryJob => Recovered(current, r.now)
    case RecalculationJob => current.(op := t.op)
  }

  /** Nothing overtook the operation: its write makes the row it intended. */
  lemma LandedOnSeen(job: Job, seen: Case, r: Reading)
    ensures Landed(seen, job, seen, r) == Intended(job, seen, r)
  {
    hide Build, NormalizeKind, NormalizeSeverity, Trim;
  }

  // ---------- the machine ----------

  datatype Move =
    | Whole(event: Event)
    | ReadRow(users: set<string>, caseId: nat, job: Job)
    | MissRow(rule: nat, hit: Hit, createdAt: int)
    | ReadPolicies(which: nat, now: int)
    | Carry(which: nat)
    | CheckPolicy(policyId: nat, change: PolicyEdit)
    | CarryPolicy(which: nat)

  predicate JobAllowed(users: set<string>, c: Case, job: Job) {
    match job
    case UpdateJob(edit) => edit.assignee.Some? ==> UserOk(users, edit.assignee.value)
    case HitJob(hit) => c.fingerprint == Some(hit.fingerprint)
    case RecoveryJob => true
    case RecalculationJob => true
  }

  /** The database refuses a second case with one fingerprint. */
  function LandedNew(cases: seq<Case>, rule: nat, hit: Hit, createdAt: int, r: Reading): seq<Case> {
    if Find(cases, hit.fingerprint).Some? then cases else cases + [Raised(r.policies, rule, hit, r.now, createdAt)]
  }

  function CarryOut(s: Racing, p: Pending): Racing {
    match p
    case RowWrite(id, job, seen, Some(r)) =>
      if id >= |s.desk.cases| then s
      else s.(desk := s.desk.(cases := s.desk.cases[id := Landed(s.desk.cases[id], job, seen, r)]))
    case NewRow(rule, hit, createdAt, Some(r)) =>
      s.(desk := s.desk.(cases := LandedNew(s.desk.cases, rule, hit, createdAt, r)))
    case _ => s
  }

  /**
   The fields of a checked update written to the policy as it is by now; the unique index refuses a code that
   is taken.
   */
  function CarryPolicyOut(ps: seq<Policy>, w: PolicyWrite): seq<Policy> {
    if w.id >= |ps| then ps
    else
      var p := Apply(ps[w.id], w.patch);
      if p.code != ps[w.id].code && HasPolicy(ps, p.code) then ps else ps[w.id := p]
  }

  function Play(s: Racing, m: Move): Racing {
    match m
    case Whole(event) => s.(desk := Step(s.desk, event))
    case ReadRow(users, id, job) =>
      if id < |s.desk.cases| && JobAllowed(users, s.desk.cases[id], job) then
        s.(pending := s.pending + [RowWrite(id, job, s.desk.cases[id], None)])
      else s
    case MissRow(rule, hit, createdAt) =>
      if Find(s.desk.cases, hit.fingerprint).Some? then s
      else s.(pending := s.pending + [NewRow(rule, hit, createdAt, None)])
    case ReadPolicies(k, now) =>
      if k < |s.pending| && s.pending[k].reading.None? then
        var ps := WithDefaults(s.desk.policies);
        s.(desk := s.desk.(policies := ps), pending := s.pending[k := s.pending[k].(reading := Some(Reading(ps, now)))])
      else s
    case Carry(k) => if k < |s.pending| then CarryOut(s, s.pending[k]) else s
    case CheckPolicy(id, change) =>
      if id < |s.desk.policies| && EditError(s.desk.policies, s.desk.policies[id], change).None? then
        s.(policyWrites := s.policyWrites + [PolicyWrite(id, PatchOf(s.desk.policies[id], change))])
      else s
    case CarryPolicy(k) =>
      if k >= |s.policyWrites| then s
      else s.(desk := s.desk.(policies := CarryPolicyOut(s.desk.policies, s.policyWrites[k])))
  }

  function Race(s: Racing, moves: seq<Move>): Racing
    decreases |moves|
  {
    if moves == [] then s else Race(Play(s, moves[0]), moves[1..])
  }

  // ---------- when a write keeps triage and breach right ----------

  predicate TriageRight(c: Case) {
    c.op.triage == TriageOf(c.status, c.acknowledgedAt, c.assignee)
  }

  predicate BreachRight(c: Case) {
    c.op.breachedAt.Some? ==> OpenLike(c.status)
  }

  /** Whether the row is assigned to somebody once the edit is written. */
  predicate AssignedAfter(c: Case, edit: CaseEdit) {
    NextAssignee(c, edit).Some?
  }

  /** Two rows that triage cannot tell apart. */
  predicate SameStage(a: Case, aAssigned: bool, b: Case, bAssigned: bool) {
    && (a.status.Resolved? <==> b.status.Resolved?)
    && (!a.status.Resolved? ==> (a.acknowledgedAt.Some? || aAssigned <==> b.acknowledgedAt.Some? || bAssigned))
  }

  /** What must still hold of the row for the write to leave its triage right; a caller can ask it before writing. */
  predicate StillFits(current: Case, job: Job, seen: Case) {
    match job
    case UpdateJob(edit) =>
      var sameAssigned := AssignedAfter(current, edit) <==> AssignedAfter(seen, edit);
      (match edit.status
       case Some(Resolved) => true
       case Some(Acknowledged) => true
       case Some(Silenced) => seen.acknowledgedAt.Some? || sameAssigned
       case Some(Open) => sameAssigned
       case None => SameStage(current, AssignedAfter(current, edit), seen, AssignedAfter(seen, edit)))
    case HitJob(_) =>
      (seen.acknowledgedAt.Some? && !seen.status.Resolved? && !seen.status.Open?)
      || (current.assignee.Some? <==> seen.assignee.Some?)
    case RecoveryJob => true
    case RecalculationJob => SameStage(current, current.assignee.Some?, seen, seen.assignee.Some?)
  }

  lemma BuildStage(ps: seq<Policy>, kind: string, severity: string, status: Status, createdAt: int,
                   acknowledgedAt: Option<int>, assignee: Option<string>, now: int)
    ensures var o := Build(ps, kind, severity, status, createdAt, acknowledgedAt, assignee, now);
            && o.triage == TriageOf(status, acknowledgedAt, assignee)
            && (o.breachedAt.Some? ==> OpenLike(status)) && 0 <= o.priority <= 100
  {
    hide NormalizeKind, NormalizeSeverity, SelectPolicy, Level, DefaultQueue, Weight;
  }

  /**
   A late write leaves the triage of its row right exactly when the row still fits what the operation
   read; the breach is then right as well.
   */
  lemma LateWriteIff(current: Case, job: Job, seen: Case, r: Reading)
    ensures TriageRight(Landed(current, job, seen, r)) <==> StillFits(current, job, seen)
    ensures StillFits(current, job, seen) ==> BreachRight(Landed(current, job, seen, r))
  {
    hide Build, NormalizeKind, NormalizeSeverity, Trim;
    var t := Intended(job, seen, r);
    match job
    case UpdateJob(edit) =>
      BuildStage(r.policies, t.kind, t.severity, t.status, seen.createdAt, t.acknowledgedAt, t.assignee, r.now);
    case HitJob(hit) =>
      BuildStage(r.policies, hit.kind, hit.severity, t.status, seen.createdAt, t.acknowledgedAt, seen.assignee, r.now);
    case RecoveryJob =>
    case RecalculationJob =>
      BuildStage(r.policies, seen.kind, seen.severity, seen.status, seen.createdAt, seen.acknowledgedAt, seen.assignee,
                 r.now);
  }

  /** A breach can be left on a resolved row, exactly by a write that sets no status on a row resolved meanwhile. */
  lemma LateBreachIff(current: Case, job: Job, seen: Case, r: Reading)
    requires BreachRight(current)
    ensures !BreachRight(Landed(current, job, seen, r))
            <==> current.status.Resolved? && Intended(job, seen, r).op.breachedAt.Some?
                 && (job.RecalculationJob? || (job.UpdateJob? && job.edit.status.None?))
  {
    hide Build, NormalizeKind, NormalizeSeverity, Trim;
    var t := Intended(job, seen, r);
    match job
    case UpdateJob(edit) =>
      BuildStage(r.policies, t.kind, t.severity, t.status, seen.createdAt, t.acknowledgedAt, t.assignee, r.now);
    case HitJob(hit) =>
      BuildStage(r.policies, hit.kind, hit.severity, t.status, seen.createdAt, t.acknowledgedAt, seen.assignee, r.now);
    case RecoveryJob =>
    case RecalculationJob =>
  }

  // ---------- what no interleaving breaks ----------

  /** Status and time stamps agree with each other. */
  ghost predicate StampsOk(c: Case) {
    && (c.status.Open? ==> c.acknowledgedAt.None? && c.resolvedAt.None?)
    && (c.status.Acknowledged? ==> c.acknowledgedAt.Some?)
    && (c.status.Resolved? ==> c.resolvedAt.Some?)
  }

  /** All that `CaseOk` says except triage and breach; deadlines in order only where policies always fit. */
  ghost predicate SoundCase(c: Case, fit: bool) {
    && StampsOk(c) && 0 <= c.op.priority <= 100 && (fit ==> c.op.firstDue <= c.op.resolveDue)
    && (c.automation.Some? ==> c.fingerprint.Some? && c.source == "automation")
  }

  ghost predicate SoundDesk(d: Desk, fit: bool) {
    && (fit ==> AllFit(d.policies)) && OneCasePerFingerprint(d.cases)
    && forall i :: 0 <= i < |d.cases| ==> SoundCase(d.cases[i], fit)
  }

  ghost predicate SoundPending(p: Pending, fit: bool) {
    && (p.RowWrite? ==> SoundCase(p.seen, fit))
    && (p.reading.Some? && fit ==> AllFit(p.reading.value.policies))
  }

  ghost predicate SoundRace(s: Racing, fit: bool) {
    SoundDesk(s.desk, fit) && forall k :: 0 <= k < |s.pending| ==> SoundPending(s.pending[k], fit)
  }

  /** No policy update is written late. */
  ghost predicate PoliciesWhole(moves: seq<Move>) {
    forall i :: 0 <= i < |moves| ==> !moves[i].CarryPolicy?
  }

  /** A case that is sound, with its triage and breach right, is all right. */
  lemma SoundAndRight(c: Case)
    ensures CaseOk(c) <==> SoundCase(c, true) && TriageRight(c) && BreachRight(c)
  {
  }

  lemma BuiltSound(ps: seq<Policy>, kind: string, severity: string, status: Status, createdAt: int,
                   acknowledgedAt: Option<int>, assignee: Option<string>, now: int, fit: bool)
    requires fit ==> AllFit(ps)
    ensures var o := Build(ps, kind, severity, status, createdAt, acknowledgedAt, assignee, now);
            0 <= o.priority <= 100 && (fit ==> o.firstDue <= o.resolveDue)
  {
    hide Build, AllFit;
    BuildStage(ps, kind, severity, status, createdAt, acknowledgedAt, assignee, now);
    if fit {
      BreachIsOneDeadline(ps, kind, severity, status, createdAt, acknowledgedAt, assignee, now);
    }
  }

  lemma IntendedSound(job: Job, seen: Case, r: Reading, fit: bool)
    requires SoundCase(seen, fit) && (fit ==> AllFit(r.policies))
    ensures SoundCase(Intended(job, seen, r), fit) && Intended(job, seen, r).fingerprint == seen.fingerprint
  {
    hide Build, AllFit, NormalizeKind, NormalizeSeverity, Trim;
    var t := Intended(job, seen, r);
    match job
    case UpdateJob(edit) =>
      BuiltSound(r.policies, t.kind, t.severity, t.status, seen.createdAt, t.acknowledgedAt, t.assignee, r.now, fit);
    case HitJob(hit) =>
      BuiltSound(r.policies, hit.kind, hit.severity, t.status, seen.createdAt, t.acknowledgedAt, seen.assignee, r.now,
                 fit);
    case RecoveryJob =>
    case RecalculationJob =>
      BuiltSound(r.policies, seen.kind, seen.severity, seen.status, seen.createdAt, seen.acknowledgedAt, seen.assignee,
                 r.now, fit);
  }

  /** Whatever the row has become meanwhile, a late write leaves it sound. */
  lemma LandedSound(current: Case, job: Job, seen: Case, r: Reading, fit: bool)
    requires SoundCase(current, fit) && SoundCase(seen, fit) && (fit ==> AllFit(r.policies))
    ensures SoundCase(Landed(current, job, seen, r), fit)
    ensures Landed(current, job, seen, r).fingerprint == current.fingerprint
  {
    IntendedSound(job, seen, r, fit);
    hide Build, AllFit, NormalizeKind, NormalizeSeverity, Trim;
  }

  lemma ReplacedSound(d: Desk, ps: seq<Policy>, id: nat, c: Case, fit: bool)
    requires SoundDesk(d, fit) && (fit ==> AllFit(ps)) && SoundCase(c, fit) && id < |d.cases|
    requires c.fingerprint == d.cases[id].fingerprint
    ensures SoundDesk(Desk(ps, d.cases[id := c]), fit)
  {
    hide AllFit, SoundCase;
  }

  lemma AppendedSound(d: Desk, ps: seq<Policy>, c: Case, fit: bool)
    requires SoundDesk(d, fit) && (fit ==> AllFit(ps)) && SoundCase(c, fit)
    requires c.fingerprint.Some? ==> Find(d.cases, c.fingerprint.value).None?
    ensures SoundDesk(Desk(ps, d.cases + [c]), fit)
  {
    hide AllFit, SoundCase;
  }

  lemma DefaultsSound(d: Desk, fit: bool)
    requires SoundDesk(d, fit)
    ensures fit ==> AllFit(WithDefaults(d.policies))
  {
    hide WithDefaults, AllFit, SoundCase;
    if fit {
      DefaultsFit(d.policies);
    }
  }

  // ---------- whole operations among the pending ones ----------

  lemma CreateSound(d: Desk, users: set<string>, input: NewCase, now: int, createdAt: int, fit: bool)
    requires SoundDesk(d, fit)
    ensures SoundDesk(CreateCase(d, users, input, now, createdAt).desk, fit)
  {
    hide Build, WithDefaults, AllFit, Trim, Lower, NormalizeKind, NormalizeSeverity, SoundDesk;
    if UserOk(users, input.assignee) {
      DefaultsSound(d, fit);
      var c := CreateCase(d, users, input, now, createdAt).desk.cases[|d.cases|];
      BuiltSound(WithDefaults(d.policies), c.kind, c.severity, c.status, now, c.acknowledgedAt, c.assignee, now, fit);
      AppendedSound(d, WithDefaults(d.policies), c, fit);
    }
  }

  lemma UpdateSound(d: Desk, users: set<string>, id: nat, edit: CaseEdit, now: int, fit: bool)
    requires SoundDesk(d, fit)
    ensures SoundDesk(UpdateCase(d, users, id, edit, now).desk, fit)
  {
    hide Edited, WithDefaults, AllFit, UserOk, NextAssignee, SoundCase;
    if UpdateCase(d, users, id, edit, now).error.None? {
      var r := Reading(WithDefaults(d.policies), now);
      DefaultsSound(d, fit);
      IntendedSound(UpdateJob(edit), d.cases[id], r, fit);
      ReplacedSound(d, WithDefaults(d.policies), id, Intended(UpdateJob(edit), d.cases[id], r), fit);
    }
  }

  lemma {:induction false} UpdateFirstSound(d: Desk, users: set<string>, ids: seq<nat>, action: Action,
                                            assignee: string,
                                            until: Option<int>, clock: nat -> int, n: nat, fit: bool)
    requires SoundDesk(d, fit) && n <= |ids|
    ensures SoundDesk(UpdateFirst(d, users, ids, action, assignee, until, clock, n).desk, fit)
  {
    hide UpdateCase, EditFor, SoundDesk;
    if n > 0 {
      UpdateFirstSound(d, users, ids, action, assignee, until, clock, n - 1, fit);
      var before := UpdateFirst(d, users, ids, action, assignee, until, clock, n - 1);
      UpdateSound(before.desk, users, ids[n - 1], EditFor(action, assignee, until, clock(n - 1)), clock(n - 1), fit);
    }
  }

  lemma UpsertSound(d: Desk, rule: nat, hit: Hit, now: int, createdAt: int, fit: bool)
    requires SoundDesk(d, fit)
    ensures SoundDesk(UpsertHit(d, rule, hit, now, createdAt), fit)
  {
    hide Build, WithDefaults, AllFit, Find, Confirmed;
    var ps := WithDefaults(d.policies);
    DefaultsSound(d, fit);
    match Find(d.cases, hit.fingerprint)
    case None =>
      RaisedSound(ps, rule, hit, now, createdAt, fit);
      AppendedSound(d, ps, Raised(ps, rule, hit, now, createdAt), fit);
    case Some(id) =>
      IntendedSound(HitJob(hit), d.cases[id], Reading(ps, now), fit);
      ReplacedSound(d, ps, id, Confirmed(ps, d.cases[id], hit, now), fit);
  }

  lemma RaisedSound(ps: seq<Policy>, rule: nat, hit: Hit, now: int, createdAt: int, fit: bool)
    requires fit ==> AllFit(ps)
    ensures SoundCase(Raised(ps, rule, hit, now, createdAt), fit)
  {
    hide Build, AllFit;
    BuiltSound(ps, hit.kind, hit.severity, Open, now, None, None, now, fit);
  }

  lemma RecoverSound(d: Desk, rule: nat, fingerprints: seq<string>, clock: nat -> int, k: nat, fit: bool)
    requires SoundDesk(d, fit)
    ensures SoundDesk(ResolveFirst(d, rule, fingerprints, clock, k), fit)
  {
    hide WithDefaults, AllFit, StaleCount, Stale, Reached;
    DefaultsSound(d, fit);
  }

  lemma SlaSound(d: Desk, input: NewPolicy, id: nat, edit: PolicyEdit, fit: bool)
    requires SoundDesk(d, fit)
    ensures SoundDesk(Kept(d, CreatePolicy(d.policies, input)), fit)
        && SoundDesk(Kept(d, UpdatePolicy(d.policies, id, edit)), fit)
  {
    hide AllFit, CreatePolicy, UpdatePolicy, SoundCase;
    if fit {
      SavedPoliciesFit(d.policies, input, id, edit);
    }
  }

  /**
   One undisturbed recalculation repairs whatever triage and breach the races left behind; it also puts
   the deadlines in order if the policies fit.
   */
  lemma RecalculationRepairs(d: Desk, times: seq<int>, fit: bool)
    requires SoundDesk(d, fit) && |times| == |d.cases|
    ensures var after := Recalculate(d, times).0;
            && SoundDesk(after, fit) && |after.cases| == |d.cases|
            && (forall i :: 0 <= i < |after.cases| ==> TriageRight(after.cases[i]) && BreachRight(after.cases[i]))
            && (AllFit(d.policies) ==> DeskOk(after))
  {
    hide WithDefaults, AllFit, RecomputeFirst, Recomputed, SoundCase, CaseOk, TriageRight, BreachRight;
    var ps := WithDefaults(d.policies);
    DefaultsSound(d, fit);
    if AllFit(d.policies) {
      DefaultsFit(d.policies);
    }
    RecomputeFirstIs(ps, d.cases, times, |d.cases|);
    forall i | 0 <= i < |d.cases|
      ensures RepairedCase(ps, d.cases[i], times[i], fit)
    {
      RecomputedRepairs(ps, d.cases[i], times[i], fit);
    }
  }

  /** What recomputing a sound row makes of it. */
  ghost predicate RepairedCase(ps: seq<Policy>, c: Case, now: int, fit: bool) {
    var t := Recomputed(ps, c, now);
    && SoundCase(t, fit) && TriageRight(t) && BreachRight(t) && t.fingerprint == c.fingerprint
    && (AllFit(ps) ==> CaseOk(t))
  }

  lemma RecomputedRepairs(ps: seq<Policy>, c: Case, now: int, fit: bool)
    requires SoundCase(c, fit) && (fit ==> AllFit(ps))
    ensures RepairedCase(ps, c, now, fit)
  {
    hide Build, AllFit;
    BuildStage(ps, c.kind, c.severity, c.status, c.createdAt, c.acknowledgedAt, c.assignee, now);
    BuiltSound(ps, c.kind, c.severity, c.status, c.createdAt, c.acknowledgedAt, c.assignee, now, fit);
    if AllFit(ps) {
      BuiltSound(ps, c.kind, c.severity, c.status, c.createdAt, c.acknowledgedAt, c.assignee, now, true);
    }
  }

  lemma WholeSound(d: Desk, e: Event, fit: bool)
    requires SoundDesk(d, fit)
    ensures SoundDesk(Step(d, e), fit)
  {
    hide SoundDesk, DeskOk, CreateCase, UpdateCase, UpdateFirst, UpsertHit, ResolveFirst, Recalculate, CreatePolicy,
         UpdatePolicy,
         Kept, Unique, Trim;
    match e
    case Create(users, input, now, createdAt) => CreateSound(d, users, input, now, createdAt, fit);
    case Update(users, id, edit, now) => UpdateSound(d, users, id, edit, now, fit);
    case Bulk(users, ids, action, assignee, until, clock) =>
      UpdateFirstSound(d, users, Unique(ids), action, assignee, until, clock, |Unique(ids)|, fit);
    case Upsert(rule, hit, now, createdAt) => UpsertSound(d, rule, hit, now, createdAt, fit);
    case Recover(rule, fingerprints, clock, reached) => RecoverSound(d, rule, fingerprints, clock, reached, fit);
    case Recalculation(clock) => RecalculationRepairs(d, seq(|d.cases|, clock), fit);
    case CreateSla(policy) => SlaSound(d, policy, 0, NO_EDIT, fit);
    case UpdateSla(policyId, change) => SlaSound(d, NO_POLICY, policyId, change, fit);
  }

  lemma PendingStays(s: Racing, d: Desk, fit: bool)
    requires SoundRace(s, fit) && SoundDesk(d, fit)
    ensures SoundRace(s.(desk := d), fit)
  {
    hide SoundDesk, SoundPending;
  }

  lemma PendingAdded(s: Racing, p: Pending, fit: bool)
    requires SoundRace(s, fit) && SoundPending(p, fit)
    ensures SoundRace(s.(pending := s.pending + [p]), fit)
  {
    hide SoundDesk, SoundPending;
  }

  lemma PoliciesRead(s: Racing, k: nat, now: int, fit: bool)
    requires SoundRace(s, fit) && k < |s.pending|
    ensures SoundRace(Play(s, ReadPolicies(k, now)), fit)
  {
    hide WithDefaults, AllFit, SoundCase;
    DefaultsSound(s.desk, fit);
  }

  lemma CarriedSound(s: Racing, p: Pending, fit: bool)
    requires SoundRace(s, fit) && SoundPending(p, fit)
    ensures SoundRace(CarryOut(s, p), fit)
  {
    hide AllFit, SoundCase, Landed, Raised, Find;
    match p
    case RowWrite(id, job, seen, Some(r)) =>
      if id < |s.desk.cases| {
        LandedSound(s.desk.cases[id], job, seen, r, fit);
        ReplacedSound(s.desk, s.desk.policies, id, Landed(s.desk.cases[id], job, seen, r), fit);
      }
    case NewRow(rule, hit, createdAt, Some(r)) =>
      RaisedSound(r.policies, rule, hit, r.now, createdAt, fit);
      if Find(s.desk.cases, hit.fingerprint).None? {
        RaisedIs(r.policies, rule, hit, r.now, createdAt);
        AppendedSound(s.desk, s.desk.policies, Raised(r.policies, rule, hit, r.now, createdAt), fit);
      }
    case _ =>
  }

  lemma RaisedIs(ps: seq<Policy>, rule: nat, hit: Hit, now: int, createdAt: int)
    ensures Raised(ps, rule, hit, now, createdAt).fingerprint == Some(hit.fingerprint)
  {
  }

  lemma PlaySound(s: Racing, m: Move, fit: bool)
    requires SoundRace(s, fit) && (fit ==> !m.CarryPolicy?)
    ensures SoundRace(Play(s, m), fit)
  {
    hide Step, WithDefaults, AllFit, SoundCase, CarryOut, EditError, PatchOf, CarryPolicyOut, Find, JobAllowed;
    match m
    case Whole(event) =>
      WholeSound(s.desk, event, fit);
      PendingStays(s, Step(s.desk, event), fit);
    case ReadRow(users, id, job) =>
      if id < |s.desk.cases| {
        PendingAdded(s, RowWrite(id, job, s.desk.cases[id], None), fit);
      }
    case MissRow(rule, hit, createdAt) => PendingAdded(s, NewRow(rule, hit, createdAt, None), fit);
    case ReadPolicies(k, now) =>
      if k < |s.pending| {
        PoliciesRead(s, k, now, fit);
      }
    case Carry(k) =>
      if k < |s.pending| {
        CarriedSound(s, s.pending[k], fit);
      }
    case CheckPolicy(id, change) =>
    case CarryPolicy(k) =>
  }

  /**
   Under every interleaving of reads and late writes, policy writes included, status and time stamps of
   every case agree with each other and priorities are in range; without late policy writes the deadlines
   are in order too.
   */
  lemma {:induction false} RaceKeepsStamps(s: Racing, moves: seq<Move>, fit: bool)
    requires SoundRace(s, fit) && (fit ==> PoliciesWhole(moves))
    ensures SoundRace(Race(s, moves), fit)
    decreases |moves|
  {
    hide SoundRace, Play;
    if moves != [] {
      PlaySound(s, moves[0], fit);
      TailWhole(moves);
      RaceKeepsStamps(Play(s, moves[0]), moves[1..], fit);
    }
  }

  lemma TailWhole(moves: seq<Move>)
    requires moves != []
    ensures PoliciesWhole(moves) ==> PoliciesWhole(moves[1..])
  {
  }

  const QUIET := Racing(Desk([], []), [], [])

  lemma QuietSound(fit: bool)
    ensures SoundRace(QUIET, fit)
  {
  }

  /**
   From an empty desk, after any interleaving, one undisturbed recalculation makes every triage and breach
   right again.
   */
  lemma RacesAreRepaired(moves: seq<Move>, times: seq<int>)
    requires |times| == |Race(QUIET, moves).desk.cases|
    ensures var after := Recalculate(Race(QUIET, moves).desk, times).0;
            && (forall i :: 0 <= i < |after.cases| ==>
                  TriageRight(after.cases[i]) && BreachRight(after.cases[i]) && StampsOk(after.cases[i]))
            && (PoliciesWhole(moves) ==> DeskOk(after))
  {
    hide Race, Recalculate, CaseOk, TriageRight, BreachRight, StampsOk, AllFit;
    QuietSound(false);
    QuietSound(true);
    RaceKeepsStamps(QUIET, moves, false);
    RecalculationRepairs(Race(QUIET, moves).desk, times, false);
    if PoliciesWhole(moves) {
      RaceKeepsStamps(QUIET, moves, true);
    }
  }

  // ---------- races that stay right ----------

  /** Carrying out a row write keeps the desk right exactly when the row still fits what the operation read. */
  lemma CarryKeepsIff(s: Racing, p: Pending)
    requires DeskOk(s.desk) && SoundPending(p, true) && p.RowWrite? && p.reading.Some? && p.id < |s.desk.cases|
    ensures DeskOk(CarryOut(s, p).desk) <==> StillFits(s.desk.cases[p.id], p.job, p.seen)
  {
    hide AllFit, SoundCase, CaseOk, Landed, StillFits, OneCasePerFingerprint, TriageRight, BreachRight;
    var current, r := s.desk.cases[p.id], p.reading.value;
    var after := Landed(current, p.job, p.seen, r);
    assert CaseOk(current);
    SoundAndRight(current);
    LandedSound(current, p.job, p.seen, r, true);
    SoundAndRight(after);
    LateWriteIff(current, p.job, p.seen, r);
    if CaseOk(after) {
      ReplaceOk(s.desk, s.desk.policies, p.id, after);
    } else {
      assert CarryOut(s, p).desk.cases[p.id] == after;
    }
  }

  /** Every row write of the race lands on a row it still fits. */
  ghost predicate AllFitting(s: Racing, moves: seq<Move>)
    decreases |moves|
  {
    moves == []
    || (&& (moves[0].Carry? && moves[0].which < |s.pending| ==> Fitting(s, s.pending[moves[0].which]))
        && AllFitting(Play(s, moves[0]), moves[1..]))
  }

  ghost predicate Fitting(s: Racing, p: Pending) {
    p.RowWrite? && p.id < |s.desk.cases| ==> StillFits(s.desk.cases[p.id], p.job, p.seen)
  }

  lemma PlayKeepsRight(s: Racing, m: Move)
    requires DeskOk(s.desk) && SoundRace(s, true) && !m.CarryPolicy?
    requires m.Carry? && m.which < |s.pending| ==> Fitting(s, s.pending[m.which])
    ensures DeskOk(Play(s, m).desk)
  {
    hide DeskOk, Step, SoundDesk, StillFits, WithDefaults, EditError, PatchOf, Find, JobAllowed, Landed;
    match m
    case Whole(event) => StepKeeps(s.desk, event);
    case ReadRow(users, id, job) =>
    case MissRow(rule, hit, createdAt) =>
    case ReadPolicies(k, now) => PoliciesReadKeeps(s.desk);
    case Carry(k) =>
      if k < |s.pending| {
        var p := s.pending[k];
        if p.reading.Some? && p.RowWrite? && p.id < |s.desk.cases| {
          CarryKeepsIff(s, p);
        } else if p.reading.Some? && p.NewRow? {
          NewRowKeeps(s.desk, p.rule, p.hit, p.createdAt, p.reading.value);
        }
      }
    case CheckPolicy(id, change) =>
  }

  lemma PoliciesReadKeeps(d: Desk)
    requires DeskOk(d)
    ensures DeskOk(d.(policies := WithDefaults(d.policies)))
  {
    hide WithDefaults, AllFit, CaseOk;
    DefaultsFit(d.policies);
  }

  lemma NewRowKeeps(d: Desk, rule: nat, hit: Hit, createdAt: int, r: Reading)
    requires DeskOk(d) && AllFit(r.policies)
    ensures DeskOk(d.(cases := LandedNew(d.cases, rule, hit, createdAt, r)))
  {
    hide Build, AllFit, Find;
    if Find(d.cases, hit.fingerprint).None? {
      BuildOk(r.policies, hit.kind, hit.severity, Open, r.now, None, None, r.now);
      AppendOk(d, d.policies, Raised(r.policies, rule, hit, r.now, createdAt));
    }
  }

  /** A race whose writes all land on rows they still fit keeps every case right throughout. */
  lemma {:induction false} FittingRaceKeepsRight(s: Racing, moves: seq<Move>)
    requires DeskOk(s.desk) && SoundRace(s, true) && PoliciesWhole(moves) && AllFitting(s, moves)
    ensures DeskOk(Race(s, moves).desk)
    decreases |moves|
  {
    hide DeskOk, SoundRace, Play, Fitting;
    if moves != [] {
      PlayKeepsRight(s, moves[0]);
      PlaySound(s, moves[0], true);
      FittingRaceKeepsRight(Play(s, moves[0]), moves[1..]);
    }
  }

  // ---------- races that go wrong ----------

  /** Reopening and assigning the same acknowledged case at once leaves an assigned case pending triage. */
  lemma OverlapBreaksTriage(c: Case, user: string, r: Reading)
    requires CaseOk(c) && c.status.Acknowledged? && c.assignee.None? && Trim(user) != ""
    ensures var assign := UpdateJob(EditFor(Assign, user, None, r.now));
            var reopen := UpdateJob(EditFor(Reopen, "", None, r.now));
            var after := Landed(Landed(c, assign, c, r), reopen, c, r);
            after.assignee.Some? && after.op.triage.Pending? && !CaseOk(after)
  {
    hide Build, NormalizeKind, NormalizeSeverity, Trim;
    var assign, reopen := UpdateJob(EditFor(Assign, user, None, r.now)), UpdateJob(EditFor(Reopen, "", None, r.now));
    var between := Landed(c, assign, c, r);
    LateWriteIff(between, reopen, c, r);
    var t := Intended(reopen, c, r);
    BuildStage(r.policies, t.kind, t.severity, t.status, c.createdAt, t.acknowledgedAt, t.assignee, r.now);
  }

  /**
   A recalculation reads a case in breach, a user resolves it, and the late result leaves a breach on the
   resolved case.
   */
  lemma OverlapBreaksBreach(c: Case, r: Reading)
    requires CaseOk(c) && OpenLike(c.status) && Intended(RecalculationJob, c, r).op.breachedAt.Some?
    ensures var resolve := UpdateJob(EditFor(Resolve, "", None, r.now));
            var after := Landed(Landed(c, resolve, c, r), RecalculationJob, c, r);
            after.status.Resolved? && after.op.breachedAt.Some? && !CaseOk(after)
  {
    hide Build, NormalizeKind, NormalizeSeverity, Trim;
    var resolve := UpdateJob(EditFor(Resolve, "", None, r.now));
    var between := Landed(c, resolve, c, r);
    LateWriteIff(c, resolve, c, r);
    LateBreachIff(between, RecalculationJob, c, r);
  }

  /** A confirmed hit undoes a change of status made meanwhile, exactly when the status is not the one it computed. */
  lemma LateHitUndoesStatusIff(current: Case, hit: Hit, seen: Case, r: Reading)
    ensures Landed(current, HitJob(hit), seen, r).status == current.status
            <==> current.status == if seen.status.Resolved? then Open else seen.status
  {
    hide Build;
  }

  /** A hit that read an acknowledged case takes back a user's resolution of it. */
  lemma LateHitUndoesResolution(c: Case, hit: Hit, r: Reading)
    requires c.status.Acknowledged?
    ensures var resolved := Landed(c, UpdateJob(EditFor(Resolve, "", None, r.now)), c, r);
            var after := Landed(resolved, HitJob(hit), c, r);
            resolved.status.Resolved? && after.status.Acknowledged? && after.resolvedAt == Some(r.now)
  {
    hide Build, NormalizeKind, NormalizeSeverity, Trim;
  }
}
