/**
 Exception cases of apps/api/src/exceptions/exceptions.service.ts: six operations that write them, and
 what holds of every case after every run of operations.

 Cases and policies are never deleted, so both are named by their position.  Every operation is one
 step; a loop reads the clock once per case.
 */
module Exceptions {
  import opened Options
  import opened Sla
  import opened Text
  import opened Uniqueness

  datatype Case = Case(
    kind: string, severity: string, status: Status, source: string, fingerprint: Option<string>,
    automation: Option<nat>,
    assignee: Option<string>, createdAt: int, acknowledgedAt: Option<int>, resolvedAt: Option<int>,
        silencedUntil: Option<int>,
    op: Operational)

  datatype Desk = Desk(policies: seq<Policy>, cases: seq<Case>)

  datatype CaseError = UnknownCase | UnknownUser | NothingSelected | InvalidSelection | AssigneeMissing
      | SlaFailed(error: SlaError)

  /** The desk an operation leaves behind, and the error it ended in, if any. */
  datatype Outcome = Outcome(desk: Desk, error: Option<CaseError>)

  predicate OpenLike(status: Status) {
    !status.Resolved?
  }

  // ---------- creating ----------

  /** Absent texts are empty. */
  datatype NewCase = NewCase(
    kind: string, severity: string, status: Option<Status>, source: string, assignee: string,
    silencedUntil: Option<int>)

  predicate UserOk(users: set<string>, raw: string) {
    Trim(raw) == "" || Trim(raw) in users
  }

  function CreateCase(d: Desk, users: set<string>, input: NewCase, now: int, createdAt: int): Outcome {
    if !UserOk(users, input.assignee) then Outcome(d, Some(UnknownUser))
    else
      var ps := WithDefaults(d.policies);
      var kind, severity, status := NormalizeKind(input.kind), NormalizeSeverity(input.severity),
          Get(input.status, Open);
      var acknowledgedAt := if status.Acknowledged? then Some(now) else None;
      var assignee := OrNull(Trim(input.assignee));
      var c := Case(kind, severity, status, Or(Lower(Trim(Or(input.source, "manual"))), "manual"), None, None,
                    assignee, createdAt,
                    acknowledgedAt, if status.Resolved? then Some(now) else None, input.silencedUntil,
                    Build(ps, kind, severity, status, now, acknowledgedAt, assignee, now));
      Outcome(Desk(ps, d.cases + [c]), None)
  }

  // ---------- updating ----------

  /** None for a field that is not part of the request; `silencedUntil` may also be cleared. */
  datatype CaseEdit = CaseEdit(
    kind: Option<string>, severity: Option<string>, status: Option<Status>, assignee: Option<string>,
    silencedUntil: Option<Option<int>>)

  const HOUR := 60 * MINUTE

  /** The case after an update, given the user it is assigned to. */
  function Edited(ps: seq<Policy>, c: Case, edit: CaseEdit, assignee: Option<string>, now: int): Case {
    var kind := if edit.kind.Some? then NormalizeKind(edit.kind.value) else c.kind;
    var severity := if edit.severity.Some? then NormalizeSeverity(edit.severity.value) else c.severity;
    var status := Get(edit.status, c.status);
    var acknowledgedAt := if edit.status == Some(Open) then None
                          else if edit.status == Some(Acknowledged) && c.acknowledgedAt.None? then Some(now)
                          else c.acknowledgedAt;
    var resolvedAt := if edit.status == Some(Open) then None else if edit.status == Some(Resolved) then Some(now)
        else c.resolvedAt;
    var silencedUntil := if edit.status == Some(Open) then None
                         else if edit.silencedUntil.Some? then edit.silencedUntil.value
                         else if edit.status == Some(Silenced) then Some(now + HOUR)
                         else c.silencedUntil;
    c.(kind := kind, severity := severity, status := status, assignee := assignee, acknowledgedAt := acknowledgedAt,
       resolvedAt := resolvedAt, silencedUntil := silencedUntil,
       op := Build(ps, kind, severity, status, c.createdAt, acknowledgedAt, assignee, now))
  }

  function NextAssignee(c: Case, edit: CaseEdit): Option<string> {
    if edit.assignee.Some? then OrNull(Trim(edit.assignee.value)) else c.assignee
  }

  function UpdateCase(d: Desk, users: set<string>, id: nat, edit: CaseEdit, now: int): Outcome {
    if id >= |d.cases| then Outcome(d, Some(UnknownCase))
    else if edit.assignee.Some? && !UserOk(users, edit.assignee.value) then Outcome(d, Some(UnknownUser))
    else
      var ps := WithDefaults(d.policies);
      Outcome(Desk(ps, d.cases[id := Edited(ps, d.cases[id], edit, NextAssignee(d.cases[id], edit), now)]), None)
  }

  // ---------- bulk updates ----------

  datatype Action = Ack | Resolve | Reopen | SilenceOneHour | Assign | Unassign

  /** The update a bulk action makes to every selected case. */
  function EditFor(action: Action, assignee: string, silencedUntil: Option<int>, now: int): CaseEdit {
    match action
    case Ack => CaseEdit(None, None, Some(Acknowledged), None, None)
    case Resolve => CaseEdit(None, None, Some(Resolved), None, None)
    case Reopen => CaseEdit(None, None, Some(Open), None, None)
    case SilenceOneHour =>
      CaseEdit(None, None, Some(Silenced), None,
               Some(Some(if silencedUntil.Some? then silencedUntil.value else now + HOUR)))
    case Assign => CaseEdit(None, None, None, Some(assignee), None)
    case Unassign => CaseEdit(None, None, None, Some(""), None)
  }

  /** The first n of the selected cases updated, each at its own time; an error ends the loop. */
  function UpdateFirst(d: Desk, users: set<string>, ids: seq<nat>, action: Action, assignee: string,
                       silencedUntil: Option<int>, clock: nat -> int, n: nat): Outcome
    requires n <= |ids|
  {
    if n == 0 then Outcome(d, None)
    else
      var before := UpdateFirst(d, users, ids, action, assignee, silencedUntil, clock, n - 1);
      if before.error.Some? then before
      else UpdateCase(before.desk, users, ids[n - 1], EditFor(action, assignee, silencedUntil, clock(n - 1)),
                      clock(n - 1))
  }

  function BulkUpdate(d: Desk, users: set<string>, ids: seq<nat>, action: Action, assignee: string,
                      silencedUntil: Option<int>, clock: nat -> int): Outcome {
    var chosen := Unique(ids);
    if chosen == [] then Outcome(d, Some(NothingSelected))
    else if exists i :: 0 <= i < |chosen| && chosen[i] >= |d.cases| then Outcome(d, Some(InvalidSelection))
    else if action.Assign? && Trim(assignee) == "" then Outcome(d, Some(AssigneeMissing))
    else UpdateFirst(d, users, chosen, action, assignee, silencedUntil, clock, |chosen|)
  }

  // ---------- automation hits and recovery ----------

  datatype Hit = Hit(fingerprint: string, kind: string, severity: string)

  function Find(cases: seq<Case>, fingerprint: string): (found: Option<nat>)
    ensures found.Some? ==> found.value < |cases| && cases[found.value].fingerprint == Some(fingerprint)
    ensures found.None? ==> forall i :: 0 <= i < |cases| ==> cases[i].fingerprint != Some(fingerprint)
  {
    if cases == [] then None
    else
      var last := |cases| - 1;
      if cases[last].fingerprint == Some(fingerprint) then Some(last) else Find(cases[..last], fingerprint)
  }

  /** A case hit again: a resolved one is opened anew, any other keeps its status. */
  function Confirmed(ps: seq<Policy>, c: Case, hit: Hit, now: int): Case {
    var status := if c.status.Resolved? then Open else c.status;
    var acknowledgedAt := if status.Open? then None else c.acknowledgedAt;
    c.(kind := hit.kind, severity := hit.severity, status := status, acknowledgedAt := acknowledgedAt,
       resolvedAt := if status.Open? then None else c.resolvedAt,
       silencedUntil := if status.Open? then None else c.silencedUntil,
       op := Build(ps, hit.kind, hit.severity, status, c.createdAt, acknowledgedAt, c.assignee, now))
  }

  function Raised(ps: seq<Policy>, rule: nat, hit: Hit, now: int, createdAt: int): Case {
    Case(hit.kind, hit.severity, Open, "automation", Some(hit.fingerprint), Some(rule), None, createdAt, None, None,
         None, Build(ps, hit.kind, hit.severity, Open, now, None, None, now))
  }

  function UpsertHit(d: Desk, rule: nat, hit: Hit, now: int, createdAt: int): Desk {
    var ps := WithDefaults(d.policies);
    match Find(d.cases, hit.fingerprint)
    case None => Desk(ps, d.cases + [Raised(ps, rule, hit, now, createdAt)])
    case Some(id) => Desk(ps, d.cases[id := Confirmed(ps, d.cases[id], hit, now)])
  }

  /** An open case of the rule that the rule no longer hits; a case without fingerprint is never in `notIn`. */
  predicate Stale(c: Case, rule: nat, fingerprints: seq<string>) {
    && c.automation == Some(rule) && c.source == "automation" && OpenLike(c.status)
    && (fingerprints != [] ==> c.fingerprint.Some? && c.fingerprint.value !in fingerprints)
  }

  function Recovered(c: Case, now: int): Case {
    c.(status := Resolved, resolvedAt := Some(now), silencedUntil := None,
       op := c.op.(triage := TriageOf(Resolved, None, None), breachedAt := None))
  }

  function StaleCount(cases: seq<Case>, rule: nat, fingerprints: seq<string>): nat {
    if cases == [] then 0
    else
      var last := |cases| - 1;
      StaleCount(cases[..last], rule, fingerprints) + if Stale(cases[last], rule, fingerprints) then 1 else 0
  }

  /** The row is stale and among the first k of the stale rows. */
  predicate Reached(cases: seq<Case>, rule: nat, fingerprints: seq<string>, k: nat, i: nat)
    requires i < |cases|
  {
    Stale(cases[i], rule, fingerprints) && StaleCount(cases[..i], rule, fingerprints) < k
  }

  /** The first k stale rows resolved, each at its own time. */
  function RecoverFirst(cases: seq<Case>, rule: nat, fingerprints: seq<string>, clock: nat -> int,
                        k: nat): (after: seq<Case>)
    ensures |after| == |cases|
    ensures forall i :: 0 <= i < |cases| ==>
              after[i] == if Reached(cases, rule, fingerprints, k, i) then Recovered(cases[i], clock(i)) else cases[i]
  {
    seq(|cases|, i requires 0 <= i < |cases| =>
          if Reached(cases, rule, fingerprints, k, i) then Recovered(cases[i], clock(i)) else cases[i])
  }

  /**
   A recovery that gets to its first k stale cases; reading the policies puts the defaults in place once a case
   is handled.
   */
  function ResolveFirst(d: Desk, rule: nat, fingerprints: seq<string>, clock: nat -> int, k: nat): Desk {
    Desk(if k > 0 && StaleCount(d.cases, rule, fingerprints) > 0 then WithDefaults(d.policies) else d.policies,
         RecoverFirst(d.cases, rule, fingerprints, clock, k))
  }

  function ResolveRecovered(d: Desk, rule: nat, fingerprints: seq<string>, clock: nat -> int): Desk {
    ResolveFirst(d, rule, fingerprints, clock, |d.cases|)
  }

  lemma {:induction false} FewStale(cases: seq<Case>, rule: nat, fingerprints: seq<string>)
    ensures StaleCount(cases, rule, fingerprints) <= |cases|
  {
    hide Stale;
    if cases != [] {
      FewStale(cases[..|cases| - 1], rule, fingerprints);
    }
  }

  /** The rows the recovery's query returns, in row order. */
  function StaleIds(cases: seq<Case>, rule: nat, fingerprints: seq<string>): (ids: seq<nat>)
    ensures |ids| == StaleCount(cases, rule, fingerprints)
    ensures forall i :: 0 <= i < |ids| ==> ids[i] < |cases| && Stale(cases[ids[i]], rule, fingerprints)
  {
    if cases == [] then []
    else
      var last := |cases| - 1;
      StaleIds(cases[..last], rule, fingerprints) + if Stale(cases[last], rule, fingerprints) then [last] else []
  }

  /** Row number k of the query is the one the recovery gets to after k others. */
  lemma {:induction false} StaleInOrder(cases: seq<Case>, rule: nat, fingerprints: seq<string>, i: nat)
    requires i < |cases| && Stale(cases[i], rule, fingerprints)
    ensures var k := StaleCount(cases[..i], rule, fingerprints);
            k < |StaleIds(cases, rule, fingerprints)| && StaleIds(cases, rule, fingerprints)[k] == i
  {
    hide Stale;
    var last := |cases| - 1;
    if i < last {
      assert cases[..last][..i] == cases[..i];
      StaleInOrder(cases[..last], rule, fingerprints, i);
    }
  }

  lemma {:induction false} StaleAt(cases: seq<Case>, rule: nat, fingerprints: seq<string>, k: nat)
    requires k < |StaleIds(cases, rule, fingerprints)|
    ensures StaleCount(cases[..StaleIds(cases, rule, fingerprints)[k]], rule, fingerprints) == k
  {
    hide Stale;
    var last := |cases| - 1;
    var before := StaleIds(cases[..last], rule, fingerprints);
    if k < |before| {
      StaleAt(cases[..last], rule, fingerprints, k);
      assert cases[..last][..before[k]] == cases[..before[k]];
    }
  }

  /** One more step of a recovery resolves exactly the next row of its query. */
  lemma NextReached(cases: seq<Case>, rule: nat, fingerprints: seq<string>, clock: nat -> int, k: nat)
    requires k < |StaleIds(cases, rule, fingerprints)|
    ensures var id := StaleIds(cases, rule, fingerprints)[k];
            && RecoverFirst(cases, rule, fingerprints, clock, k)[id] == cases[id]
            && RecoverFirst(cases, rule, fingerprints, clock, k + 1)
               == RecoverFirst(cases, rule, fingerprints, clock, k)[id := Recovered(cases[id], clock(id))]
  {
    hide Stale, Recovered;
    var ids := StaleIds(cases, rule, fingerprints);
    StaleAt(cases, rule, fingerprints, k);
    forall i | 0 <= i < |cases| && i != ids[k]
      ensures Reached(cases, rule, fingerprints, k + 1, i) <==> Reached(cases, rule, fingerprints, k, i)
    {
      if Stale(cases[i], rule, fingerprints) {
        StaleInOrder(cases, rule, fingerprints, i);
      }
    }
  }

  /** A recovery that gets through all of its query is a whole one. */
  lemma ReachedAll(cases: seq<Case>, rule: nat, fingerprints: seq<string>, clock: nat -> int, k: nat)
    requires k >= StaleCount(cases, rule, fingerprints)
    ensures RecoverFirst(cases, rule, fingerprints, clock, k) == RecoverFirst(cases, rule, fingerprints, clock, |cases|)
  {
    hide Stale, Recovered;
    forall i | 0 <= i < |cases|
      ensures Reached(cases, rule, fingerprints, k, i) <==> Reached(cases, rule, fingerprints, |cases|, i)
    {
      FewStale(cases[..i], rule, fingerprints);
      if Stale(cases[i], rule, fingerprints) {
        StaleInOrder(cases, rule, fingerprints, i);
      }
    }
  }

  /** A whole recovery resolves every stale case, and nothing else. */
  lemma WholeRecovery(d: Desk, rule: nat, fingerprints: seq<string>, clock: nat -> int, i: nat)
    requires i < |d.cases|
    ensures ResolveRecovered(d, rule, fingerprints, clock).cases[i]
         == if Stale(d.cases[i], rule, fingerprints) then Recovered(d.cases[i], clock(i)) else d.cases[i]
  {
    hide Stale, StaleCount, WithDefaults;
    FewStale(d.cases[..i], rule, fingerprints);
  }

  // ---------- recalculation ----------

  datatype Changes = Changes(policy: nat, queue: nat, triage: nat, deadlines: nat)

  function Recomputed(ps: seq<Policy>, c: Case, now: int): Case {
    c.(op := Build(ps, c.kind, c.severity, c.status, c.createdAt, c.acknowledgedAt, c.assignee, now))
  }

  function Counted(changes: Changes, before: Operational, after: Operational): Changes {
    Changes(changes.policy + (if after.policy != before.policy then 1 else 0),
            changes.queue + (if after.queueKey != before.queueKey then 1 else 0),
            changes.triage + (if after.triage != before.triage then 1 else 0),
            changes.deadlines
            + if after.firstDue != before.firstDue || after.resolveDue != before.resolveDue then 1 else 0)
  }

  /** The cases up to number `n` recomputed, each at its own time, and what that changed. */
  function RecomputeFirst(ps: seq<Policy>, cases: seq<Case>, times: seq<int>, n: nat): (seq<Case>, Changes)
    requires n <= |cases| == |times|
  {
    if n == 0 then ([], Changes(0, 0, 0, 0))
    else
      var (done, changes) := RecomputeFirst(ps, cases, times, n - 1);
      var c := Recomputed(ps, cases[n - 1], times[n - 1]);
      (done + [c], Counted(changes, cases[n - 1].op, c.op))
  }

  function Recalculate(d: Desk, times: seq<int>): (Desk, Changes)
    requires |times| == |d.cases|
  {
    var ps := WithDefaults(d.policies);
    var (cases, changes) := RecomputeFirst(ps, d.cases, times, |d.cases|);
    (Desk(ps, cases), changes)
  }

  // ---------- runs ----------

  datatype Event =
    | Create(users: set<string>, input: NewCase, now: int, createdAt: int)
    | Update(users: set<string>, id: nat, edit: CaseEdit, now: int)
    | Bulk(users: set<string>, ids: seq<nat>, action: Action, assignee: string, until: Option<int>, clock: nat -> int)
    | Upsert(rule: nat, hit: Hit, now: int, createdAt: int)
    | Recover(rule: nat, fingerprints: seq<string>, recoveryClock: nat -> int, reached: nat)
    | Recalculation(recalculationClock: nat -> int)
    | CreateSla(policy: NewPolicy)
    | UpdateSla(policyId: nat, change: PolicyEdit)

  function Kept(d: Desk, saved: Saved): Desk {
    if saved.Saved? then d.(policies := saved.policies) else d
  }

  function Step(d: Desk, e: Event): Desk {
    match e
    case Create(users, input, now, createdAt) => CreateCase(d, users, input, now, createdAt).desk
    case Update(users, id, edit, now) => UpdateCase(d, users, id, edit, now).desk
    case Bulk(users, ids, action, assignee, until, clock) =>
      BulkUpdate(d, users, ids, action, assignee, until, clock).desk
    case Upsert(rule, hit, now, createdAt) => UpsertHit(d, rule, hit, now, createdAt)
    case Recover(rule, fingerprints, clock, reached) => ResolveFirst(d, rule, fingerprints, clock, reached)
    case Recalculation(clock) => Recalculate(d, seq(|d.cases|, clock)).0
    case CreateSla(policy) => Kept(d, CreatePolicy(d.policies, policy))
    case UpdateSla(policyId, change) => Kept(d, UpdatePolicy(d.policies, policyId, change))
  }

  function After(d: Desk, events: seq<Event>): Desk
    decreases |events|
  {
    if events == [] then d else After(Step(d, events[0]), events[1..])
  }

  // ---------- what holds of every case ----------

  /** What the stored fields of a case promise each other. */
  ghost predicate CaseOk(c: Case) {
    && c.op.triage == TriageOf(c.status, c.acknowledgedAt, c.assignee)
    && (c.op.breachedAt.Some? ==> OpenLike(c.status))
    && (c.status.Open? ==> c.acknowledgedAt.None? && c.resolvedAt.None?)
    && (c.status.Acknowledged? ==> c.acknowledgedAt.Some?)
    && (c.status.Resolved? ==> c.resolvedAt.Some?)
    && c.op.firstDue <= c.op.resolveDue
    && 0 <= c.op.priority <= 100
    && (c.automation.Some? ==> c.fingerprint.Some? && c.source == "automation")
  }

  ghost predicate OneCasePerFingerprint(cases: seq<Case>) {
    forall i, j :: 0 <= i < j < |cases| && cases[i].fingerprint.Some? ==> cases[i].fingerprint != cases[j].fingerprint
  }

  ghost predicate DeskOk(d: Desk) {
    && AllFit(d.policies) && OneCasePerFingerprint(d.cases)
    && forall i :: 0 <= i < |d.cases| ==> CaseOk(d.cases[i])
  }

  /** What a computed operational state is worth. */
  lemma BuildOk(ps: seq<Policy>, kind: string, severity: string, status: Status, createdAt: int,
                acknowledgedAt: Option<int>, assignee: Option<string>, now: int)
    requires AllFit(ps)
    ensures var o := Build(ps, kind, severity, status, createdAt, acknowledgedAt, assignee, now);
            && o.triage == TriageOf(status, acknowledgedAt, assignee)
            && (o.breachedAt.Some? ==> OpenLike(status)) && o.firstDue <= o.resolveDue && 0 <= o.priority <= 100
  {
    BreachIsOneDeadline(ps, kind, severity, status, createdAt, acknowledgedAt, assignee, now);
    hide NormalizeKind, NormalizeSeverity, SelectPolicy, Level, DefaultQueue, AllFit;
  }

  lemma DefaultsFit(ps: seq<Policy>)
    requires AllFit(ps)
    ensures AllFit(WithDefaults(ps))
  {
    hide WithDefaults, AllFit;
    DefaultsSettle(ps);
  }

  lemma AppendOk(d: Desk, ps: seq<Policy>, c: Case)
    requires DeskOk(d) && AllFit(ps) && CaseOk(c)
    requires c.fingerprint.Some? ==> Find(d.cases, c.fingerprint.value).None?
    ensures DeskOk(Desk(ps, d.cases + [c]))
  {
    hide AllFit, CaseOk;
  }

  lemma ReplaceOk(d: Desk, ps: seq<Policy>, id: nat, c: Case)
    requires DeskOk(d) && AllFit(ps) && CaseOk(c) && id < |d.cases| && c.fingerprint == d.cases[id].fingerprint
    ensures DeskOk(Desk(ps, d.cases[id := c]))
  {
    hide AllFit, CaseOk;
  }

  lemma CreateKeeps(d: Desk, users: set<string>, input: NewCase, now: int, createdAt: int)
    requires DeskOk(d)
    ensures DeskOk(CreateCase(d, users, input, now, createdAt).desk)
  {
    hide Build, WithDefaults, AllFit, Trim, Lower, NormalizeKind, NormalizeSeverity, DeskOk;
    if UserOk(users, input.assignee) {
      var ps := WithDefaults(d.policies);
      FitPolicies(d);
      DefaultsFit(d.policies);
      var c := CreateCase(d, users, input, now, createdAt).desk.cases[|d.cases|];
      BuildOk(ps, c.kind, c.severity, c.status, now, c.acknowledgedAt, c.assignee, now);
      AppendOk(d, ps, c);
    }
  }

  lemma FitPolicies(d: Desk)
    requires DeskOk(d)
    ensures AllFit(d.policies)
  {
  }

  lemma EditedOk(ps: seq<Policy>, c: Case, edit: CaseEdit, assignee: Option<string>, now: int)
    requires AllFit(ps) && CaseOk(c)
    ensures CaseOk(Edited(ps, c, edit, assignee, now))
        && Edited(ps, c, edit, assignee, now).fingerprint == c.fingerprint
  {
    hide Build, AllFit, NormalizeKind, NormalizeSeverity;
    var t := Edited(ps, c, edit, assignee, now);
    BuildOk(ps, t.kind, t.severity, t.status, c.createdAt, t.acknowledgedAt, assignee, now);
  }

  lemma UpdateKeeps(d: Desk, users: set<string>, id: nat, edit: CaseEdit, now: int)
    requires DeskOk(d)
    ensures DeskOk(UpdateCase(d, users, id, edit, now).desk)
  {
    hide Edited, WithDefaults, AllFit, UserOk, NextAssignee, CaseOk;
    if UpdateCase(d, users, id, edit, now).error.None? {
      var ps := WithDefaults(d.policies);
      DefaultsFit(d.policies);
      EditedOk(ps, d.cases[id], edit, NextAssignee(d.cases[id], edit), now);
      ReplaceOk(d, ps, id, Edited(ps, d.cases[id], edit, NextAssignee(d.cases[id], edit), now));
    }
  }

  lemma {:induction false} UpdateFirstKeeps(d: Desk, users: set<string>, ids: seq<nat>, action: Action,
                                            assignee: string, silencedUntil: Option<int>, clock: nat -> int, n: nat)
    requires DeskOk(d) && n <= |ids|
    ensures DeskOk(UpdateFirst(d, users, ids, action, assignee, silencedUntil, clock, n).desk)
  {
    hide UpdateCase, EditFor, DeskOk;
    if n > 0 {
      UpdateFirstKeeps(d, users, ids, action, assignee, silencedUntil, clock, n - 1);
      var before := UpdateFirst(d, users, ids, action, assignee, silencedUntil, clock, n - 1);
      UpdateKeeps(before.desk, users, ids[n - 1], EditFor(action, assignee, silencedUntil, clock(n - 1)), clock(n - 1));
    }
  }

  lemma UpsertKeeps(d: Desk, rule: nat, hit: Hit, now: int, createdAt: int)
    requires DeskOk(d)
    ensures DeskOk(UpsertHit(d, rule, hit, now, createdAt))
  {
    hide Build, WithDefaults, AllFit, Find;
    var ps := WithDefaults(d.policies);
    DefaultsFit(d.policies);
    match Find(d.cases, hit.fingerprint)
    case None =>
      BuildOk(ps, hit.kind, hit.severity, Open, now, None, None, now);
      AppendOk(d, ps, Raised(ps, rule, hit, now, createdAt));
    case Some(id) =>
      ConfirmedOk(ps, d.cases[id], hit, now);
      ReplaceOk(d, ps, id, Confirmed(ps, d.cases[id], hit, now));
  }

  lemma ConfirmedOk(ps: seq<Policy>, c: Case, hit: Hit, now: int)
    requires AllFit(ps) && CaseOk(c)
    ensures CaseOk(Confirmed(ps, c, hit, now))
  {
    hide Build, AllFit;
    var t := Confirmed(ps, c, hit, now);
    BuildOk(ps, hit.kind, hit.severity, t.status, c.createdAt, t.acknowledgedAt, c.assignee, now);
  }

  lemma RecoverKeeps(d: Desk, rule: nat, fingerprints: seq<string>, clock: nat -> int, k: nat)
    requires DeskOk(d)
    ensures DeskOk(ResolveFirst(d, rule, fingerprints, clock, k))
  {
    hide WithDefaults, AllFit, StaleCount, Stale, Reached;
    DefaultsFit(d.policies);
  }

  lemma {:induction false} RecomputeFirstIs(ps: seq<Policy>, cases: seq<Case>, times: seq<int>, n: nat)
    requires n <= |cases| == |times|
    ensures var (done, _) := RecomputeFirst(ps, cases, times, n);
            |done| == n && forall i :: 0 <= i < n ==> done[i] == Recomputed(ps, cases[i], times[i])
  {
    hide Recomputed, Counted;
    if n > 0 {
      RecomputeFirstIs(ps, cases, times, n - 1);
    }
  }

  lemma RecomputedOk(ps: seq<Policy>, c: Case, now: int)
    requires AllFit(ps) && CaseOk(c)
    ensures CaseOk(Recomputed(ps, c, now)) && Recomputed(ps, c, now).fingerprint == c.fingerprint
  {
    hide Build, AllFit;
    BuildOk(ps, c.kind, c.severity, c.status, c.createdAt, c.acknowledgedAt, c.assignee, now);
  }

  lemma RecalculateKeeps(d: Desk, times: seq<int>)
    requires DeskOk(d) && |times| == |d.cases|
    ensures DeskOk(Recalculate(d, times).0)
  {
    hide WithDefaults, AllFit, RecomputeFirst, Recomputed, CaseOk;
    var ps := WithDefaults(d.policies);
    DefaultsFit(d.policies);
    RecomputeFirstIs(ps, d.cases, times, |d.cases|);
    forall i | 0 <= i < |d.cases|
      ensures CaseOk(Recomputed(ps, d.cases[i], times[i]))
          && Recomputed(ps, d.cases[i], times[i]).fingerprint == d.cases[i].fingerprint
    {
      RecomputedOk(ps, d.cases[i], times[i]);
    }
  }

  lemma SlaKeeps(d: Desk, input: NewPolicy, id: nat, edit: PolicyEdit)
    requires DeskOk(d)
    ensures DeskOk(Kept(d, CreatePolicy(d.policies, input))) && DeskOk(Kept(d, UpdatePolicy(d.policies, id, edit)))
  {
    hide AllFit, CreatePolicy, UpdatePolicy, CaseOk;
    SavedPoliciesFit(d.policies, input, id, edit);
  }

  const NO_EDIT := PolicyEdit(None, None, None, None, None, None, None, None)
  const NO_POLICY := NewPolicy("", "", "", "", "", None, None, None)

  lemma StepKeeps(d: Desk, e: Event)
    requires DeskOk(d)
    ensures DeskOk(Step(d, e))
  {
    hide DeskOk, CreateCase, UpdateCase, UpdateFirst, UpsertHit, ResolveFirst, Recalculate, CreatePolicy, UpdatePolicy,
         Kept, Unique, Trim;
    match e
    case Create(users, input, now, createdAt) => CreateKeeps(d, users, input, now, createdAt);
    case Update(users, id, edit, now) => UpdateKeeps(d, users, id, edit, now);
    case Bulk(users, ids, action, assignee, until, clock) =>
      UpdateFirstKeeps(d, users, Unique(ids), action, assignee, until, clock, |Unique(ids)|);
    case Upsert(rule, hit, now, createdAt) => UpsertKeeps(d, rule, hit, now, createdAt);
    case Recover(rule, fingerprints, clock, reached) => RecoverKeeps(d, rule, fingerprints, clock, reached);
    case Recalculation(clock) => RecalculateKeeps(d, seq(|d.cases|, clock));
    case CreateSla(policy) => SlaKeeps(d, policy, 0, NO_EDIT);
    case UpdateSla(policyId, change) => SlaKeeps(d, NO_POLICY, policyId, change);
  }

  /** Every run of operations, from an empty desk or from any good one, keeps every case and every policy good. */
  lemma {:induction false} RunKeeps(d: Desk, events: seq<Event>)
    requires DeskOk(d)
    ensures DeskOk(After(d, events))
    decreases |events|
  {
    hide DeskOk, Step;
    if events != [] {
      StepKeeps(d, events[0]);
      RunKeeps(Step(d, events[0]), events[1..]);
    }
  }

  lemma EmptyDeskOk()
    ensures DeskOk(Desk([], []))
  {
  }
}
