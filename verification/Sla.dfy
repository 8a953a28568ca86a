/**
 SLA policies of apps/api/src/exceptions/exceptions.service.ts and the operational state computed
 from them: queue, triage, deadlines, breach and priority.

 Policies stand in creation order, so a policy is named by its position.  Times are milliseconds.
 */
module Sla {
  import opened Options
  import opened Text

  datatype Policy = Policy(
    code: string, name: string, kind: string, severity: string, queueKey: string,
    firstResponse: int, resolution: int, active: bool)

  /** A policy every deadline can rely on. */
  predicate Fits(p: Policy) {
    1 <= p.firstResponse <= p.resolution && p.code != "" && p.queueKey != ""
  }

  predicate HasPolicy(ps: seq<Policy>, code: string) {
    exists i :: 0 <= i < |ps| && ps[i].code == code
  }

  /** All policies fit, and no code is used twice. */
  ghost predicate AllFit(ps: seq<Policy>) {
    && (forall i :: 0 <= i < |ps| ==> Fits(ps[i]))
    && forall i, j :: 0 <= i < j < |ps| ==> ps[i].code != ps[j].code
  }

  function NormalizeKind(value: string): string {
    Or(Lower(Trim(Or(value, "generic"))), "generic")
  }

  function NormalizeSeverity(value: string): string {
    Or(Lower(Trim(Or(value, "medium"))), "medium")
  }

  function DefaultQueue(kind: string): (queue: string)
    ensures queue != ""
  {
    match kind
    case "integration" => "ops-integracoes"
    case "occurrence" => "ops-ocorrencias"
    case "maintenance" => "ops-manutencao"
    case "sla" => "ops-sla"
    case "automation" => "ops-automacoes"
    case _ => "ops-general"
  }

  // ---------- the default policies ----------

  const DEFAULTS := [
    Policy("SLA-GENERIC-LOW", "Genérico low", "generic", "low", "ops-general", 120, 1440, true),
    Policy("SLA-GENERIC-MEDIUM", "Genérico medium", "generic", "medium", "ops-general", 30, 240, true),
    Policy("SLA-GENERIC-HIGH", "Genérico high", "generic", "high", "ops-general", 15, 120, true),
    Policy("SLA-GENERIC-CRITICAL", "Genérico critical", "generic", "critical", "ops-general", 5, 60, true),
    Policy("SLA-INTEGRATION-CRITICAL", "Integração critical", "integration", "critical", "ops-integracoes", 5, 30,
           true),
    Policy("SLA-OCCURRENCE-CRITICAL", "Ocorrência critical", "occurrence", "critical", "ops-ocorrencias", 5, 60, true),
    Policy("SLA-MAINTENANCE-HIGH", "Manutenção high", "maintenance", "high", "ops-manutencao", 30, 480, true)]

  /** An upsert that leaves an existing code alone. */
  function WithMissing(ps: seq<Policy>, defaults: seq<Policy>): seq<Policy>
    decreases |defaults|
  {
    if defaults == [] then ps
    else WithMissing(if HasPolicy(ps, defaults[0].code) then ps else ps + [defaults[0]], defaults[1..])
  }

  function WithDefaults(ps: seq<Policy>): seq<Policy> {
    WithMissing(ps, DEFAULTS)
  }

  lemma AppendFits(ps: seq<Policy>, p: Policy)
    requires AllFit(ps) && Fits(p) && !HasPolicy(ps, p.code)
    ensures AllFit(ps + [p])
  {
  }

  lemma {:induction false} WithMissingFacts(ps: seq<Policy>, defaults: seq<Policy>)
    requires forall i :: 0 <= i < |defaults| ==> Fits(defaults[i])
    ensures var t := WithMissing(ps, defaults);
            && ps <= t && (AllFit(ps) ==> AllFit(t))
            && forall i :: 0 <= i < |defaults| ==> HasPolicy(t, defaults[i].code)
    decreases |defaults|
  {
    hide AllFit, Fits;
    if defaults != [] {
      var next := if HasPolicy(ps, defaults[0].code) then ps else ps + [defaults[0]];
      if AllFit(ps) && next != ps {
        AppendFits(ps, defaults[0]);
      }
      WithMissingFacts(next, defaults[1..]);
      var t := WithMissing(ps, defaults);
      assert next[|next| - 1] == defaults[0] || next == ps;
      var k :| 0 <= k < |next| && next[k].code == defaults[0].code;
      assert t[k].code == defaults[0].code;
      forall i | 0 <= i < |defaults| ensures HasPolicy(t, defaults[i].code) {
        if i > 0 {
          assert defaults[i] == defaults[1..][i - 1];
        }
      }
    }
  }

  lemma {:induction false} NothingMissing(ps: seq<Policy>, defaults: seq<Policy>)
    requires forall i :: 0 <= i < |defaults| ==> HasPolicy(ps, defaults[i].code)
    ensures WithMissing(ps, defaults) == ps
    decreases |defaults|
  {
    hide HasPolicy;
    if defaults != [] {
      assert HasPolicy(ps, defaults[0].code);
      forall i | 0 <= i < |defaults[1..]| ensures HasPolicy(ps, defaults[1..][i].code) {
        assert defaults[1..][i] == defaults[i + 1];
      }
      NothingMissing(ps, defaults[1..]);
    }
  }

  /** Adding the defaults keeps every policy in its place and all of them fit; adding them again changes nothing. */
  lemma DefaultsSettle(ps: seq<Policy>)
    ensures ps <= WithDefaults(ps) && (AllFit(ps) ==> AllFit(WithDefaults(ps)))
    ensures WithDefaults(WithDefaults(ps)) == WithDefaults(ps)
  {
    hide WithMissing, AllFit, HasPolicy;
    WithMissingFacts(ps, DEFAULTS);
    NothingMissing(WithDefaults(ps), DEFAULTS);
  }

  // ---------- creating and changing policies ----------

  datatype SlaError = MissingCodeOrName | BadCode | BadName | BadFirstResponse | BadResolution | ResolutionTooShort
      | CodeTaken | NotFound

  datatype Saved = Saved(policies: seq<Policy>) | Rejected(error: SlaError)

  /** Absent texts are empty, absent numbers and flags None. */
  datatype NewPolicy = NewPolicy(
    code: string, name: string, kind: string, severity: string, queueKey: string,
    firstResponse: Option<int>, resolution: Option<int>, active: Option<bool>)

  function Get<T>(value: Option<T>, default: T): T {
    if value.Some? then value.value else default
  }

  function CreatePolicy(ps: seq<Policy>, input: NewPolicy): Saved {
    var code, name, kind := Upper(Trim(input.code)), Trim(input.name), NormalizeKind(input.kind);
    var first, resolution := Get(input.firstResponse, 30), Get(input.resolution, 240);
    if code == "" || name == "" then Rejected(MissingCodeOrName)
    else if first < 1 then Rejected(BadFirstResponse)
    else if resolution < 1 then Rejected(BadResolution)
    else if resolution < first then Rejected(ResolutionTooShort)
    else if HasPolicy(ps, code) then Rejected(CodeTaken)
    else
      Saved(ps + [Policy(code, name, kind, NormalizeSeverity(input.severity),
                         Or(Trim(input.queueKey), DefaultQueue(kind)), first, resolution, Get(input.active, true))])
  }

  /** None for a field that is not part of the request. */
  datatype PolicyEdit = PolicyEdit(
    code: Option<string>, name: Option<string>, kind: Option<string>, severity: Option<string>,
    queueKey: Option<string>,
    firstResponse: Option<int>, resolution: Option<int>, active: Option<bool>)

  function CleanedCode(value: Option<string>): Option<string> {
    if value.Some? then Some(Upper(Trim(value.value))) else None
  }

  function CleanedName(value: Option<string>): Option<string> {
    if value.Some? then Some(Trim(value.value)) else None
  }

  function CleanedWord(value: Option<string>): Option<string> {
    if value.Some? then Some(Lower(Trim(value.value))) else None
  }

  function CleanedKind(value: Option<string>): Option<string> {
    if value.Some? then Some(NormalizeKind(value.value)) else None
  }

  function CleanedSeverity(value: Option<string>): Option<string> {
    if value.Some? then Some(NormalizeSeverity(value.value)) else None
  }

  function CleanedQueue(value: Option<string>, kind: string): Option<string> {
    if value.Some? then Some(Or(Trim(value.value), DefaultQueue(kind))) else None
  }

  /** The fields to write, cleaned, computed from the policy as it was read. */
  function PatchOf(p: Policy, edit: PolicyEdit): PolicyEdit {
    var kind := if edit.kind.Some? then NormalizeKind(edit.kind.value) else p.kind;
    edit.(code := CleanedCode(edit.code), name := CleanedName(edit.name), kind := CleanedKind(edit.kind),
          severity := CleanedSeverity(edit.severity), queueKey := CleanedQueue(edit.queueKey, kind))
  }

  function Apply(p: Policy, patch: PolicyEdit): Policy {
    Policy(Get(patch.code, p.code), Get(patch.name, p.name), Get(patch.kind, p.kind), Get(patch.severity, p.severity),
           Get(patch.queueKey, p.queueKey), Get(patch.firstResponse, p.firstResponse),
           Get(patch.resolution, p.resolution), Get(patch.active, p.active))
  }

  function TextError(ps: seq<Policy>, p: Policy, patch: PolicyEdit): Option<SlaError> {
    if patch.code == Some("") then Some(BadCode)
    else if patch.code.Some? && patch.code.value != p.code && HasPolicy(ps, patch.code.value) then Some(CodeTaken)
    else if patch.name == Some("") then Some(BadName)
    else None
  }

  function NumberError(p: Policy, patch: PolicyEdit): Option<SlaError> {
    if patch.firstResponse.Some? && patch.firstResponse.value < 1 then Some(BadFirstResponse)
    else if patch.resolution.Some? && patch.resolution.value < 1 then Some(BadResolution)
    else if Get(patch.resolution, p.resolution) < Get(patch.firstResponse, p.firstResponse)
        then Some(ResolutionTooShort)
    else None
  }

  /** The first check of an update that fails. */
  function EditError(ps: seq<Policy>, p: Policy, edit: PolicyEdit): Option<SlaError> {
    var patch := PatchOf(p, edit);
    if TextError(ps, p, patch).Some? then TextError(ps, p, patch) else NumberError(p, patch)
  }

  function UpdatePolicy(ps: seq<Policy>, id: nat, edit: PolicyEdit): Saved {
    if id >= |ps| then Rejected(NotFound)
    else
      match EditError(ps, ps[id], edit)
      case Some(error) => Rejected(error)
      case None => Saved(ps[id := Apply(ps[id], PatchOf(ps[id], edit))])
  }

  /** Whatever is saved fits, and every other policy is as before. */
  lemma SavedPoliciesFit(ps: seq<Policy>, input: NewPolicy, id: nat, edit: PolicyEdit)
    requires AllFit(ps)
    ensures CreatePolicy(ps, input).Saved? ==>
        AllFit(CreatePolicy(ps, input).policies) && ps <= CreatePolicy(ps, input).policies
    ensures UpdatePolicy(ps, id, edit).Saved? ==>
              AllFit(UpdatePolicy(ps, id, edit).policies) && |UpdatePolicy(ps, id, edit).policies| == |ps|
              && forall i :: 0 <= i < |ps| && i != id ==> UpdatePolicy(ps, id, edit).policies[i] == ps[i]
  {
    hide AllFit, HasPolicy, EditError, Apply, PatchOf, Upper, Trim, NormalizeKind, NormalizeSeverity;
    CreatedFits(ps, input);
    UpdatedFits(ps, id, edit);
  }

  lemma CreatedFits(ps: seq<Policy>, input: NewPolicy)
    requires AllFit(ps)
    ensures CreatePolicy(ps, input).Saved? ==> AllFit(CreatePolicy(ps, input).policies)
  {
    hide Upper, Trim, NormalizeKind, NormalizeSeverity, AllFit, HasPolicy;
    if CreatePolicy(ps, input).Saved? {
      var t := CreatePolicy(ps, input).policies;
      AppendFits(ps, t[|ps|]);
    }
  }

  lemma UpdatedFits(ps: seq<Policy>, id: nat, edit: PolicyEdit)
    requires AllFit(ps)
    ensures UpdatePolicy(ps, id, edit).Saved? ==> AllFit(UpdatePolicy(ps, id, edit).policies)
  {
    hide Upper, Trim, NormalizeKind, NormalizeSeverity, Lower;
    if UpdatePolicy(ps, id, edit).Saved? {
      var t := UpdatePolicy(ps, id, edit).policies;
      assert Fits(t[id]);
      forall i, j | 0 <= i < j < |t| ensures t[i].code != t[j].code {
        if i == id {
          assert t[id].code == ps[id].code || !HasPolicy(ps, t[id].code);
        } else if j == id {
          assert t[id].code == ps[id].code || !HasPolicy(ps, t[id].code);
        }
      }
    }
  }

  /** An update wrote the requested times and flag of one policy, left it fitting, and touched no other. */
  ghost predicate OnlyRequested(before: seq<Policy>, id: nat, edit: PolicyEdit, after: seq<Policy>) {
    && id < |before| == |after| && (forall i :: 0 <= i < |before| && i != id ==> after[i] == before[i])
    && after[id].firstResponse == Get(edit.firstResponse, before[id].firstResponse)
    && after[id].resolution == Get(edit.resolution, before[id].resolution)
    && after[id].active == Get(edit.active, before[id].active)
    && after[id].firstResponse <= after[id].resolution
    && (edit.name.None? ==> after[id].name == before[id].name)
    && (edit.code.None? ==> after[id].code == before[id].code)
    && (edit.kind.None? ==> after[id].kind == before[id].kind)
    && (edit.severity.None? ==> after[id].severity == before[id].severity)
    && (edit.queueKey.None? ==> after[id].queueKey == before[id].queueKey)
  }

  lemma SavedOnlyRequested(ps: seq<Policy>, id: nat, edit: PolicyEdit)
    requires UpdatePolicy(ps, id, edit).Saved?
    ensures OnlyRequested(ps, id, edit, UpdatePolicy(ps, id, edit).policies)
  {
    hide Upper, Trim, Lower, NormalizeKind, NormalizeSeverity, HasPolicy, DefaultQueue;
  }

  // ---------- two updates that overlap ----------

  /** The second request's fields where it has them, else the first's. */
  function Over(first: PolicyEdit, second: PolicyEdit): PolicyEdit {
    PolicyEdit(if second.code.Some? then second.code else first.code,
               if second.name.Some? then second.name else first.name,
               if second.kind.Some? then second.kind else first.kind,
               if second.severity.Some? then second.severity else first.severity,
               if second.queueKey.Some? then second.queueKey else first.queueKey,
               if second.firstResponse.Some? then second.firstResponse else first.firstResponse,
               if second.resolution.Some? then second.resolution else first.resolution,
               if second.active.Some? then second.active else first.active)
  }

  /**
   When both updates are checked before either is written, the policy still fits exactly when the two
   requests together keep the resolution time at or above the first response time.
   */
  lemma OverlappingUpdatesFitIff(ps: seq<Policy>, p: Policy, a: PolicyEdit, b: PolicyEdit)
    requires Fits(p) && EditError(ps, p, a).None? && EditError(ps, p, b).None?
    ensures var both := Over(a, b);
            var after := Apply(Apply(p, PatchOf(p, a)), PatchOf(p, b));
            && after == Apply(p, Over(PatchOf(p, a), PatchOf(p, b)))
            && (Fits(after) <==> Get(both.firstResponse, p.firstResponse) <= Get(both.resolution, p.resolution))
  {
    hide Upper, Trim, NormalizeKind, NormalizeSeverity;
  }

  /** One request raises the first response time while the other lowers the resolution time: each is valid, together
   they are not. */
  lemma OverlapCanBreak()
    ensures var p := DEFAULTS[1];
            var raise := PolicyEdit(None, None, None, None, None, Some(200), None, None);
            var lower := PolicyEdit(None, None, None, None, None, None, Some(100), None);
            && Fits(p) && EditError([p], p, raise).None? && EditError([p], p, lower).None?
            && !Fits(Apply(Apply(p, PatchOf(p, raise)), PatchOf(p, lower)))
  {
    hide Upper, Trim, Lower, HasPolicy, DefaultQueue;
    var p := DEFAULTS[1];
    assert p == Policy("SLA-GENERIC-MEDIUM", "Genérico medium", "generic", "medium", "ops-general", 30, 240, true);
  }

  // ---------- choosing a policy ----------

  /** The position of the first active policy with this kind and severity, from `from` on. */
  function FirstMatch(ps: seq<Policy>, kind: string, severity: string, from: nat): (found: Option<nat>)
    ensures found.Some? ==> from <= found.value < |ps|
    decreases |ps| - from
  {
    if from >= |ps| then None
    else if ps[from].active && ps[from].kind == kind && ps[from].severity == severity then Some(from)
    else FirstMatch(ps, kind, severity, from + 1)
  }

  function ActiveCode(ps: seq<Policy>, code: string, from: nat): (found: Option<nat>)
    ensures found.Some? ==> from <= found.value < |ps|
    decreases |ps| - from
  {
    if from >= |ps| then None
    else if ps[from].active && ps[from].code == code then Some(from)
    else ActiveCode(ps, code, from + 1)
  }

  function SelectPolicy(ps: seq<Policy>, kind: string, severity: string): (found: Option<nat>)
    ensures found.Some? ==> found.value < |ps|
  {
    if FirstMatch(ps, kind, severity, 0).Some? then FirstMatch(ps, kind, severity, 0)
    else if FirstMatch(ps, "generic", severity, 0).Some? then FirstMatch(ps, "generic", severity, 0)
    else ActiveCode(ps, "SLA-GENERIC-MEDIUM", 0)
  }

  ghost predicate Matches(p: Policy, kind: string, severity: string) {
    p.active && p.kind == kind && p.severity == severity
  }

  lemma {:induction false} FirstMatchIs(ps: seq<Policy>, kind: string, severity: string, from: nat)
    ensures var found := FirstMatch(ps, kind, severity, from);
            && (found.Some? ==> Matches(ps[found.value], kind, severity)
                                && forall i :: from <= i < found.value ==> !Matches(ps[i], kind, severity))
            && (found.None? ==> forall i :: from <= i < |ps| ==> !Matches(ps[i], kind, severity))
    decreases |ps| - from
  {
    if from < |ps| {
      FirstMatchIs(ps, kind, severity, from + 1);
    }
  }

  lemma {:induction false} FirstMatchGrows(ps: seq<Policy>, more: seq<Policy>, kind: string, severity: string,
                                           from: nat)
    requires FirstMatch(ps, kind, severity, from).Some?
    ensures FirstMatch(ps + more, kind, severity, from) == FirstMatch(ps, kind, severity, from)
    decreases |ps| - from
  {
    if !(ps[from].active && ps[from].kind == kind && ps[from].severity == severity) {
      FirstMatchGrows(ps, more, kind, severity, from + 1);
    }
  }

  /** A policy of the case's own kind wins over generic ones, the oldest first, and later policies never displace it. */
  lemma OldestExactPolicyWins(ps: seq<Policy>, more: seq<Policy>, kind: string, severity: string, k: nat)
    requires k < |ps| && Matches(ps[k], kind, severity) && forall i :: 0 <= i < k ==> !Matches(ps[i], kind, severity)
    ensures SelectPolicy(ps, kind, severity) == Some(k) == SelectPolicy(ps + more, kind, severity)
  {
    FirstMatchIs(ps, kind, severity, 0);
    FirstMatchGrows(ps, more, kind, severity, 0);
  }

  // ---------- the operational state ----------

  datatype Status = Open | Acknowledged | Silenced | Resolved

  datatype Triage = Pending | Triaged | Closed

  const MINUTE := 60000

  datatype Operational = Operational(
    policy: Option<nat>, queueKey: string, classification: string, impact: string, urgency: string, priority: int,
    triage: Triage, firstDue: int, resolveDue: int, breachedAt: Option<int>)

  function TriageOf(status: Status, acknowledgedAt: Option<int>, assignee: Option<string>): Triage {
    if status.Resolved? then Closed
    else if acknowledgedAt.Some? || assignee.Some? then Triaged
    else Pending
  }

  function Weight(severity: string): int {
    match severity
    case "critical" => 95
    case "high" => 78
    case "medium" => 55
    case _ => 25
  }

  /** The default impact, and the default urgency. */
  function Level(severity: string): string {
    match severity
    case "critical" => "critical"
    case "high" => "high"
    case "medium" => "medium"
    case _ => "low"
  }

  function Clamp(score: int): int {
    if score < 0 then 0 else if score > 100 then 100 else score
  }

  function Score(severity: string, triage: Triage, assignee: Option<string>, breached: bool): int {
    Clamp(Weight(severity) + (if triage.Pending? then 5 else 0) + (if assignee.None? then 5 else 0) + if breached
          then 10 else 0)
  }

  /** `buildOperationalState`, the defaults being in place. */
  function Build(ps: seq<Policy>, rawKind: string, rawSeverity: string, status: Status, createdAt: int,
                 acknowledgedAt: Option<int>, assignee: Option<string>, now: int): Operational {
    var kind, severity := NormalizeKind(rawKind), NormalizeSeverity(rawSeverity);
    var policy := SelectPolicy(ps, kind, severity);
    var triage := TriageOf(status, acknowledgedAt, assignee);
    var firstDue := createdAt + (if policy.Some? then ps[policy.value].firstResponse else 30) * MINUTE;
    var resolveDue := createdAt + (if policy.Some? then ps[policy.value].resolution else 240) * MINUTE;
    var breached := !status.Resolved? && (resolveDue <= now || (triage.Pending? && firstDue <= now));
    Operational(
      policy, if policy.Some? then Or(ps[policy.value].queueKey, DefaultQueue(kind)) else DefaultQueue(kind), kind,
          Level(severity),
      if status.Resolved? then "low" else Level(severity), Score(severity, triage, assignee, breached),
      triage, firstDue, resolveDue, if breached then Some(now) else None)
  }

  /** The one deadline that matters: a first response while nobody looked at the case, then the resolution. */
  function Deadline(o: Operational): int {
    if o.triage.Pending? then o.firstDue else o.resolveDue
  }

  /**
   With fitting policies the deadlines are in order, and a case is in breach exactly when its one deadline has
   passed.
   */
  lemma BreachIsOneDeadline(ps: seq<Policy>, kind: string, severity: string, status: Status, createdAt: int,
                            acknowledgedAt: Option<int>, assignee: Option<string>, now: int)
    requires AllFit(ps)
    ensures var o := Build(ps, kind, severity, status, createdAt, acknowledgedAt, assignee, now);
            && createdAt < o.firstDue <= o.resolveDue
            && (o.breachedAt.Some? <==> status != Resolved && Deadline(o) <= now)
  {
    hide NormalizeKind, NormalizeSeverity, SelectPolicy, Score, Level, DefaultQueue;
    var policy := SelectPolicy(ps, NormalizeKind(kind), NormalizeSeverity(severity));
    assert policy.Some? ==> Fits(ps[policy.value]);
  }

  /** The breach test asks whether the one deadline has passed. */
  ghost predicate FollowsDeadline(ps: seq<Policy>, kind: string, severity: string, status: Status, createdAt: int,
                                  acknowledgedAt: Option<int>, assignee: Option<string>, now: int) {
    var o := Build(ps, kind, severity, status, createdAt, acknowledgedAt, assignee, now);
    o.breachedAt.Some? <==> status != Resolved && Deadline(o) <= now
  }

  /**
   It asks that at all times, whatever the policies, exactly when the case is resolved, or looked at, or its
   deadlines are in order.
   */
  lemma BreachFollowsDeadlineIff(ps: seq<Policy>, kind: string, severity: string, status: Status, createdAt: int,
                                 acknowledgedAt: Option<int>, assignee: Option<string>)
    ensures var o := Build(ps, kind, severity, status, createdAt, acknowledgedAt, assignee, createdAt);
            (forall now :: FollowsDeadline(ps, kind, severity, status, createdAt, acknowledgedAt, assignee, now))
            <==> status.Resolved? || !o.triage.Pending? || o.firstDue <= o.resolveDue
  {
    hide NormalizeKind, NormalizeSeverity, SelectPolicy, Score, Level, DefaultQueue;
    var o := Build(ps, kind, severity, status, createdAt, acknowledgedAt, assignee, createdAt);
    assert FollowsDeadline(ps, kind, severity, status, createdAt, acknowledgedAt, assignee, o.resolveDue)
           <==> status.Resolved? || !o.triage.Pending? || o.firstDue <= o.resolveDue;
  }

  /** A policy that does not fit can hide a missed first response: the ordering is what the breach test rests on. */
  lemma UnfitPolicyMovesBreach()
    ensures var p := DEFAULTS[1].(firstResponse := 200, resolution := 100);
            var o := Build([p], "generic", "medium", Open, 0, None, None, 150 * MINUTE);
            o.firstDue > o.resolveDue && o.breachedAt.Some? && Deadline(o) > 150 * MINUTE
  {
    hide Trim;
    TrimIdentity("generic");
    TrimIdentity("medium");
    LowerIdentity("generic");
    LowerIdentity("medium");
    hide Lower;
    assert FirstMatch([DEFAULTS[1].(firstResponse := 200, resolution := 100)], "generic", "medium", 0) == Some(0);
  }

  /** The policy, queue, triage and deadlines of a case do not depend on when they are computed. */
  lemma OnlyBreachAndScoreDependOnTime(ps: seq<Policy>, kind: string, severity: string, status: Status, createdAt: int,
                                       acknowledgedAt: Option<int>, assignee: Option<string>, now: int, later: int)
    requires now <= later
    ensures var a := Build(ps, kind, severity, status, createdAt, acknowledgedAt, assignee, now);
            var b := Build(ps, kind, severity, status, createdAt, acknowledgedAt, assignee, later);
            && b == a.(priority := b.priority, breachedAt := b.breachedAt)
            && (a.breachedAt.Some? ==> b.breachedAt.Some? && b.priority == a.priority)
            && a.priority <= b.priority
  {
    hide NormalizeKind, NormalizeSeverity, SelectPolicy, Level, DefaultQueue, Weight;
  }

  /** Priorities lie between 0 and 100 and follow the severity, except that one high case can pass a critical one. */
  lemma PriorityFollowsSeverity(triage: Triage, assignee: Option<string>, breached: bool,
                                otherTriage: Triage, otherAssignee: Option<string>, otherBreached: bool)
    ensures 0 <= Score("low", triage, assignee, breached) < Score("medium", otherTriage, otherAssignee, otherBreached)
    ensures Score("medium", triage, assignee, breached) < Score("high", otherTriage, otherAssignee, otherBreached)
    ensures Score("critical", otherTriage, otherAssignee, otherBreached) <= 100
    ensures Score("high", triage, assignee, breached) > Score("critical", otherTriage, otherAssignee, otherBreached)
            <==> triage.Pending? && assignee.None? && breached
                 && !otherTriage.Pending? && otherAssignee.Some? && !otherBreached
  {
  }
}
