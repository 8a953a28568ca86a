/**
 Automation rules, their runs and the tick of apps/api/src/automations/automations.service.ts.

 Rules are never deleted and are named by their position, which is also their creation order.  What a
 detector finds, and where a run breaks off, is given from outside.
 */
module Automations {
  import opened Exceptions
  import opened Options
  import opened Reconciliation
  import opened Sla
  import opened Text
  import opened Uniqueness

  datatype Rule = Rule(
    code: string, name: string, detector: string, severity: string, cadence: string, template: Option<string>,
    enabled: bool, createExceptions: bool, resolveOnRecovery: bool, lastRunAt: Option<int>, nextRunAt: Option<int>)

  datatype RunStatus = Running | Succeeded | Failed

  datatype Run = Run(rule: nat, status: RunStatus, startedAt: int, finishedAt: Option<int>, hits: nat, created: nat,
                     updated: nat)

  datatype World = World(desk: Desk, rules: seq<Rule>, runs: seq<Run>)

  /**
   Where something throws: after so many hits, 0 being a failure of the detector; or, with all hits
   handled, after so many recovered cases, all of them being a failure to write the result.
   */
  datatype Break = Never | InHits(handled: nat) | InRecovery(resolved: nat)

  /** What a detector finds, and where the run breaks off. */
  datatype Finding = Finding(items: seq<string>, breaks: Break)

  const EXPORT := "monitoring_report_export"

  function NextRunAt(cadence: string, from: int): int {
    if cadence == "every_minute" then from + MINUTE
    else if cadence == "every_5_minutes" then from + 5 * MINUTE
    else from + HOUR
  }

  // ---------- hits ----------

  /** The detector that runs for a rule; anything unknown counts as aged occurrences. */
  function DetectorOf(rule: Rule): string {
    if rule.detector in {"maintenance_overdue", "critical_open_occurrence", "integration_failure"} then rule.detector
    else "aged_open_occurrence"
  }

  function KindOf(detector: string): string {
    match detector
    case "maintenance_overdue" => "maintenance"
    case "critical_open_occurrence" => "occurrence"
    case "integration_failure" => "integration"
    case _ => "sla"
  }

  function FingerprintOf(code: string, detector: string, item: string): string {
    code + ":" + detector + ":" + item
  }

  function HitsOf(rule: Rule, items: seq<string>): (hits: seq<Hit>)
    ensures |hits| == |items|
  {
    var detector := DetectorOf(rule);
    var severity := if detector == "critical_open_occurrence" then "critical" else rule.severity;
    seq(|items|, i requires 0 <= i < |items| => Hit(FingerprintOf(rule.code, detector, items[i]), KindOf(detector),
                                                    severity))
  }

  /** The fingerprint starts with the code, a colon and a small letter. */
  ghost predicate MadeBy(code: string, fingerprint: string) {
    && |code| + 1 < |fingerprint| && fingerprint[..|code|] == code
    && fingerprint[|code|] == ':' && 'a' <= fingerprint[|code| + 1] <= 'z'
  }

  lemma HitsAreMade(rule: Rule, items: seq<string>, i: nat)
    requires i < |items|
    ensures MadeBy(rule.code, HitsOf(rule, items)[i].fingerprint)
  {
    var detector := DetectorOf(rule);
    assert 'a' <= detector[0] <= 'z';
    var fingerprint := FingerprintOf(rule.code, detector, items[i]);
    assert fingerprint == rule.code + (":" + detector + ":" + items[i]);
  }

  lemma MadeMeans(code: string, fingerprint: string)
    requires MadeBy(code, fingerprint)
    ensures |code| + 1 < |fingerprint| && fingerprint[..|code|] == code
    ensures forall i :: 0 <= i < |code| ==> fingerprint[i] == code[i]
    ensures fingerprint[|code|] == ':' && 'a' <= fingerprint[|code| + 1] <= 'z'
  {
  }

  /** Codes are in capitals and detectors in small letters, so a fingerprint tells which code made it. */
  lemma FingerprintTellsCode(a: string, b: string, fingerprint: string)
    requires IsUpper(a) && IsUpper(b) && MadeBy(a, fingerprint) && MadeBy(b, fingerprint)
    ensures a == b
  {
    hide MadeBy;
    MadeMeans(a, fingerprint);
    MadeMeans(b, fingerprint);
    assert |a| == |b|;
  }

  lemma FirstColon(detector: string, item: string)
    requires ':' !in detector
    ensures var s := detector + ":" + item;
            && s[|detector|] == ':' && (forall i :: 0 <= i < |detector| ==> s[i] != ':')
            && s[..|detector|] == detector && s[|detector| + 1..] == item
  {
  }

  /** Of one rule, different detectors or items have different fingerprints. */
  lemma FingerprintTellsItem(code: string, a: string, x: string, b: string, y: string)
    requires ':' !in a && ':' !in b && FingerprintOf(code, a, x) == FingerprintOf(code, b, y)
    ensures a == b && x == y
  {
    var s, t := a + ":" + x, b + ":" + y;
    assert FingerprintOf(code, a, x) == (code + ":") + s && FingerprintOf(code, b, y) == (code + ":") + t;
    assert FingerprintOf(code, a, x)[|code| + 1..] == s && FingerprintOf(code, b, y)[|code| + 1..] == t;
    FirstColon(a, x);
    FirstColon(b, y);
    assert |a| == |b|;
  }

  // ---------- a run ----------

  /** How many hits are handled before the run breaks off. */
  function Handled(finding: Finding): nat {
    if finding.breaks.InHits? then Least(finding.breaks.handled, |finding.items|) else |finding.items|
  }

  function DeskAfterHits(d: Desk, id: nat, rule: Rule, finding: Finding, t: Timing): Desk {
    if rule.createExceptions then UpsertHits(d, id, HitsOf(rule, finding.items), t, Handled(finding)) else d
  }

  function DeskAfter(d: Desk, id: nat, rule: Rule, finding: Finding, t: Timing): Desk {
    var looped := DeskAfterHits(d, id, rule, finding, t);
    if rule.detector == EXPORT then d
    else if rule.resolveOnRecovery && !finding.breaks.InHits? then
      ResolveFirst(looped, id, Fingerprints(HitsOf(rule, finding.items)), t.recoveredAt,
                   if finding.breaks.InRecovery? then finding.breaks.resolved else |looped.cases|)
    else looped
  }

  function ResolvedCount(d: Desk, id: nat, rule: Rule, finding: Finding, t: Timing): nat {
    if rule.resolveOnRecovery
    then StaleCount(DeskAfterHits(d, id, rule, finding, t).cases, id, Fingerprints(HitsOf(rule, finding.items))) else 0
  }

  function RunRow(d: Desk, id: nat, rule: Rule, finding: Finding, t: Timing): Run {
    var hits := HitsOf(rule, finding.items);
    if !finding.breaks.Never? then Run(id, Failed, t.started, Some(t.finished), 0, 0, 0)
    else if rule.detector == EXPORT then Run(id, Succeeded, t.started, Some(t.finished), |finding.items|, 1, 0)
    else
      var created := if rule.createExceptions then CreatedBy(d, id, hits, t, |hits|) else 0;
      var updated := if rule.createExceptions then UpdatedBy(d, id, hits, t, |hits|) else 0;
      Run(id, Succeeded, t.started, Some(t.finished), |hits|, created, updated + ResolvedCount(d, id, rule, finding, t))
  }

  function Rescheduled(stored: Rule, cadence: string, finished: int): Rule {
    stored.(lastRunAt := Some(finished), nextRunAt := Some(NextRunAt(cadence, finished)))
  }

  /** `executeRule` with the rule as it was read. */
  function Execute(w: World, id: nat, rule: Rule, finding: Finding, t: Timing): World
    requires id < |w.rules|
  {
    World(DeskAfter(w.desk, id, rule, finding, t),
          w.rules[id := Rescheduled(w.rules[id], rule.cadence, t.finished)],
          w.runs + [RunRow(w.desk, id, rule, finding, t)])
  }

  // ---------- creating and changing rules ----------

  datatype RuleError = RuleCodeTaken | RuleNotFound | TemplateRequired | TemplateInvalid

  datatype NewRule = NewRule(
    code: string, name: string, detector: string, severity: string, cadence: string, template: string,
    enabled: Option<bool>, createExceptions: Option<bool>, resolveOnRecovery: Option<bool>)

  datatype RuleOutcome = RuleOutcome(rules: seq<Rule>, error: Option<RuleError>)

  predicate HasRule(rules: seq<Rule>, code: string) {
    exists i :: 0 <= i < |rules| && rules[i].code == code
  }

  function TemplateError(detector: string, template: Option<string>, templates: set<string>): Option<RuleError> {
    if detector == EXPORT && template.None? then Some(TemplateRequired)
    else if template.Some? && template.value !in templates then Some(TemplateInvalid)
    else None
  }

  function CreateRule(rules: seq<Rule>, templates: set<string>, input: NewRule, now: int): RuleOutcome {
    var code, detector, template := Upper(Trim(input.code)), Lower(Trim(input.detector)), OrNull(Trim(input.template));
    var enabled := Get(input.enabled, true);
    if HasRule(rules, code) then RuleOutcome(rules, Some(RuleCodeTaken))
    else if TemplateError(detector, template, templates).Some?
        then RuleOutcome(rules, TemplateError(detector, template, templates))
    else
      RuleOutcome(rules + [Rule(code, Trim(input.name), detector, Lower(Trim(Or(input.severity, "high"))),
                                Lower(Trim(Or(input.cadence, "every_5_minutes"))), template, enabled,
                                Get(input.createExceptions, true), Get(input.resolveOnRecovery, true),
                                None, if enabled then Some(now) else None)], None)
  }

  /** The code is not among the fields a request can change. */
  datatype RuleEdit = RuleEdit(
    name: Option<string>, detector: Option<string>, severity: Option<string>, cadence: Option<string>,
        template: Option<string>,
    enabled: Option<bool>, createExceptions: Option<bool>, resolveOnRecovery: Option<bool>)

  function EditedRule(r: Rule, edit: RuleEdit, now: int): Rule {
    var nextRunAt := if edit.enabled.Some? then (if edit.enabled.value then Some(now) else None)
                     else if edit.cadence.Some? && r.enabled then Some(now)
                     else r.nextRunAt;
    r.(name := Get(CleanedName(edit.name), r.name),
       detector := Get(CleanedWord(edit.detector), r.detector),
       severity := Get(CleanedWord(edit.severity), r.severity),
       cadence := Get(CleanedWord(edit.cadence), r.cadence),
       template := if edit.template.Some? then OrNull(Trim(edit.template.value)) else r.template,
       enabled := Get(edit.enabled, r.enabled), createExceptions := Get(edit.createExceptions, r.createExceptions),
       resolveOnRecovery := Get(edit.resolveOnRecovery, r.resolveOnRecovery), nextRunAt := nextRunAt)
  }

  function UpdateRule(rules: seq<Rule>, templates: set<string>, id: nat, edit: RuleEdit, now: int): RuleOutcome {
    if id >= |rules| then RuleOutcome(rules, Some(RuleNotFound))
    else
      var next := EditedRule(rules[id], edit, now);
      var detector := Lower(Trim(Or(next.detector, rules[id].detector)));
      if TemplateError(detector, next.template, templates).Some?
          then RuleOutcome(rules, TemplateError(detector, next.template, templates))
      else RuleOutcome(rules[id := next], None)
  }

  // ---------- the tick ----------

  predicate IsDue(rule: Rule, now: int) {
    rule.enabled && (rule.nextRunAt.None? || rule.nextRunAt.value <= now)
  }

  /** The due rules among the first n, oldest first. */
  function Due(rules: seq<Rule>, now: int, n: nat): (due: seq<nat>)
    requires n <= |rules|
    ensures forall i :: 0 <= i < |due| ==> due[i] < n
  {
    if n == 0 then []
    else if IsDue(rules[n - 1], now) then Due(rules, now, n - 1) + [n - 1]
    else Due(rules, now, n - 1)
  }

  lemma {:induction false} DueIs(rules: seq<Rule>, now: int, n: nat)
    requires n <= |rules|
    ensures forall i, j :: 0 <= i < j < |Due(rules, now, n)| ==> Due(rules, now, n)[i] < Due(rules, now, n)[j]
    ensures forall id :: 0 <= id < n ==> (id in Due(rules, now, n) <==> IsDue(rules[id], now))
  {
    hide IsDue;
    if n > 0 {
      DueIs(rules, now, n - 1);
    }
  }

  /** The first n due rules run one after another, each as it was read at the start. */
  function RunDue(w: World, read: seq<Rule>, due: seq<nat>, findings: nat -> Finding, timings: nat -> Timing,
                  n: nat): (after: World)
    requires n <= |due| && |read| == |w.rules| && forall i :: 0 <= i < |due| ==> due[i] < |read|
    ensures |after.rules| == |w.rules|
  {
    if n == 0 then w
    else Execute(RunDue(w, read, due, findings, timings, n - 1), due[n - 1], read[due[n - 1]], findings(n - 1),
                 timings(n - 1))
  }

  function Tick(w: World, now: int, findings: nat -> Finding, timings: nat -> Timing): World {
    var due := Due(w.rules, now, |w.rules|);
    RunDue(w, w.rules, due, findings, timings, |due|)
  }

  // ---------- runs of the whole system ----------

  datatype Act =
    | OnDesk(event: Event)
    | AddRule(templates: set<string>, input: NewRule, now: int)
    | EditRule(templates: set<string>, id: nat, edit: RuleEdit, now: int)
    | RunNow(id: nat, finding: Finding, timing: Timing)
    | TickAt(now: int, findings: nat -> Finding, timings: nat -> Timing)

  /** Requests reach the desk through everything but hits and recoveries, which only runs make. */
  predicate FromUser(e: Event) {
    !e.Upsert? && !e.Recover?
  }

  function StepWorld(w: World, a: Act): World {
    match a
    case OnDesk(event) => if FromUser(event) then w.(desk := Step(w.desk, event)) else w
    case AddRule(templates, input, now) => w.(rules := CreateRule(w.rules, templates, input, now).rules)
    case EditRule(templates, id, edit, now) => w.(rules := UpdateRule(w.rules, templates, id, edit, now).rules)
    case RunNow(id, finding, timing) => if id < |w.rules| then Execute(w, id, w.rules[id], finding, timing) else w
    case TickAt(now, findings, timings) => Tick(w, now, findings, timings)
  }

  function Worlds(w: World, acts: seq<Act>): World
    decreases |acts|
  {
    if acts == [] then w else Worlds(StepWorld(w, acts[0]), acts[1..])
  }

  // ---------- what every run keeps ----------

  ghost predicate RulesOk(rules: seq<Rule>) {
    && (forall i :: 0 <= i < |rules| ==> IsUpper(rules[i].code))
    && forall i, j :: 0 <= i < j < |rules| ==> rules[i].code != rules[j].code
  }

  /** A fingerprint is on a case of the rule whose code made it. */
  ghost predicate OwnedBy(c: Case, rules: seq<Rule>) {
    c.fingerprint.Some? ==>
      && c.automation.Some? && c.automation.value < |rules| && c.source == "automation"
      && MadeBy(rules[c.automation.value].code, c.fingerprint.value)
  }

  ghost predicate RunOk(r: Run, rules: seq<Rule>) {
    && r.rule < |rules| && (r.status.Running? <==> r.finishedAt.None?)
    && (!r.status.Succeeded? ==> r.hits == r.created == r.updated == 0)
  }

  ghost predicate WorldOk(w: World) {
    && DeskOk(w.desk) && RulesOk(w.rules)
    && (forall j :: 0 <= j < |w.desk.cases| ==> OwnedBy(w.desk.cases[j], w.rules))
    && forall i :: 0 <= i < |w.runs| ==> RunOk(w.runs[i], w.rules)
  }

  /** Rules keep their codes and places. */
  ghost predicate CodesKept(before: seq<Rule>, after: seq<Rule>) {
    |before| <= |after| && forall i :: 0 <= i < |before| ==> after[i].code == before[i].code
  }

  /** Nothing a user does touches the owner of a case, and what users create has none. */
  ghost predicate OwnersKept(before: seq<Case>, after: seq<Case>) {
    && |before| <= |after|
    && (forall j :: 0 <= j < |before| ==>
          after[j].fingerprint == before[j].fingerprint && after[j].automation == before[j].automation
          && after[j].source == before[j].source)
    && forall j :: |before| <= j < |after| ==> after[j].fingerprint.None?
  }

  lemma UpdateKeepsOwners(d: Desk, users: set<string>, id: nat, edit: CaseEdit, now: int)
    ensures OwnersKept(d.cases, UpdateCase(d, users, id, edit, now).desk.cases)
  {
    hide Build, WithDefaults, UserOk, NextAssignee, NormalizeKind, NormalizeSeverity;
  }

  lemma OwnersKeptTrans(a: seq<Case>, b: seq<Case>, c: seq<Case>)
    requires OwnersKept(a, b) && OwnersKept(b, c)
    ensures OwnersKept(a, c)
  {
  }

  lemma {:induction false} UpdateFirstKeepsOwners(d: Desk, users: set<string>, ids: seq<nat>, action: Action,
                                                  assignee: string, silencedUntil: Option<int>, clock: nat -> int,
                                                  n: nat)
    requires n <= |ids|
    ensures OwnersKept(d.cases, UpdateFirst(d, users, ids, action, assignee, silencedUntil, clock, n).desk.cases)
  {
    hide UpdateCase, EditFor;
    if n > 0 {
      var before := UpdateFirst(d, users, ids, action, assignee, silencedUntil, clock, n - 1);
      var edit := EditFor(action, assignee, silencedUntil, clock(n - 1));
      UpdateFirstKeepsOwners(d, users, ids, action, assignee, silencedUntil, clock, n - 1);
      UpdateKeepsOwners(before.desk, users, ids[n - 1], edit, clock(n - 1));
      OwnersKeptTrans(d.cases, before.desk.cases,
                      UpdateCase(before.desk, users, ids[n - 1], edit, clock(n - 1)).desk.cases);
    }
  }

  lemma CreateKeepsOwners(d: Desk, users: set<string>, input: NewCase, now: int, createdAt: int)
    ensures OwnersKept(d.cases, CreateCase(d, users, input, now, createdAt).desk.cases)
  {
    hide Build, WithDefaults, UserOk, NormalizeKind, NormalizeSeverity, Trim, Lower;
  }

  lemma RecalculateKeepsOwners(d: Desk, times: seq<int>)
    requires |times| == |d.cases|
    ensures OwnersKept(d.cases, Recalculate(d, times).0.cases)
  {
    hide WithDefaults, Build, RecomputeFirst;
    RecomputeFirstIs(WithDefaults(d.policies), d.cases, times, |d.cases|);
  }

  lemma UserKeepsOwners(d: Desk, e: Event)
    requires FromUser(e)
    ensures OwnersKept(d.cases, Step(d, e).cases)
  {
    hide CreateCase, UpdateCase, UpdateFirst, Recalculate, CreatePolicy, UpdatePolicy, Unique, EditFor, Trim,
         UpsertHit, ResolveFirst;
    match e
    case Create(users, input, now, createdAt) => CreateKeepsOwners(d, users, input, now, createdAt);
    case Update(users, id, edit, now) => UpdateKeepsOwners(d, users, id, edit, now);
    case Bulk(users, ids, action, assignee, until, clock) =>
      UpdateFirstKeepsOwners(d, users, Unique(ids), action, assignee, until, clock, |Unique(ids)|);
    case Recalculation(clock) => RecalculateKeepsOwners(d, seq(|d.cases|, clock));
    case CreateSla(policy) =>
    case UpdateSla(policyId, change) =>
  }

  /** In a good world the hits of a rule can only meet cases of that rule. */
  lemma OwnHits(w: World, id: nat, rule: Rule, items: seq<string>)
    requires WorldOk(w) && id < |w.rules| && rule.code == w.rules[id].code
    ensures HitsAreOwn(w.desk, id, HitsOf(rule, items)) && OwnedHaveFingerprints(w.desk)
        && OneCasePerFingerprint(w.desk.cases)
  {
    hide HitsOf, MadeBy, AllFit, RunOk, OneCasePerFingerprint;
    var hits := HitsOf(rule, items);
    forall j | 0 <= j < |w.desk.cases| && HitBy(hits, |hits|, w.desk.cases[j].fingerprint)
      ensures w.desk.cases[j].automation == Some(id) && w.desk.cases[j].source == "automation"
    {
      var c := w.desk.cases[j];
      var k :| 0 <= k < |hits| && c.fingerprint == Some(hits[k].fingerprint);
      HitsAreMade(rule, items, k);
      assert OwnedBy(c, w.rules);
      FingerprintTellsCode(rule.code, w.rules[c.automation.value].code, hits[k].fingerprint);
    }
    forall j | 0 <= j < |w.desk.cases| && w.desk.cases[j].automation.Some? ensures w.desk.cases[j].fingerprint.Some? {
      assert CaseOk(w.desk.cases[j]);
    }
  }

  lemma {:induction false} HitLoopKeepsDesk(d: Desk, rule: nat, hits: seq<Hit>, t: Timing, n: nat)
    requires n <= |hits| && DeskOk(d)
    ensures DeskOk(UpsertHits(d, rule, hits, t, n))
  {
    hide DeskOk, UpsertHit;
    if n > 0 {
      HitLoopKeepsDesk(d, rule, hits, t, n - 1);
      UpsertKeeps(UpsertHits(d, rule, hits, t, n - 1), rule, hits[n - 1], t.hitAt(n - 1), t.createdAt(n - 1));
    }
  }

  lemma OwnedAfterLoop(w: World, id: nat, rule: Rule, items: seq<string>, t: Timing, n: nat)
    requires WorldOk(w) && id < |w.rules| && rule.code == w.rules[id].code && n <= |items|
    ensures var after := UpsertHits(w.desk, id, HitsOf(rule, items), t, n);
            forall j :: 0 <= j < |after.cases| ==> OwnedBy(after.cases[j], w.rules)
  {
    hide HitsOf, MadeBy, AllFit, RunOk, OneCasePerFingerprint, UpsertHits, CaseOk;
    var hits := HitsOf(rule, items);
    HitLoop(w.desk, id, hits, t, n);
    var after := UpsertHits(w.desk, id, hits, t, n);
    forall j | 0 <= j < |after.cases| ensures OwnedBy(after.cases[j], w.rules) {
      if j < |w.desk.cases| {
        assert OwnedBy(w.desk.cases[j], w.rules);
      } else {
        assert HitBy(hits, n, after.cases[j].fingerprint);
        var k :| 0 <= k < n && after.cases[j].fingerprint == Some(hits[k].fingerprint);
        HitsAreMade(rule, items, k);
      }
    }
  }

  lemma DeskAfterOk(w: World, id: nat, rule: Rule, finding: Finding, t: Timing)
    requires WorldOk(w) && id < |w.rules| && rule.code == w.rules[id].code
    ensures var after := DeskAfter(w.desk, id, rule, finding, t);
            DeskOk(after) && forall j :: 0 <= j < |after.cases| ==> OwnedBy(after.cases[j], w.rules)
  {
    hide HitsOf, MadeBy, RulesOk, RunOk, UpsertHits, DeskOk, Stale, StaleCount, WithDefaults, Fingerprints, Reached;
    var hits, looped := HitsOf(rule, finding.items), DeskAfterHits(w.desk, id, rule, finding, t);
    HitLoopKeepsDesk(w.desk, id, hits, t, Handled(finding));
    OwnedAfterLoop(w, id, rule, finding.items, t, Handled(finding));
    RecoverKeeps(looped, id, Fingerprints(hits), t.recoveredAt,
                 if finding.breaks.InRecovery? then finding.breaks.resolved else |looped.cases|);
  }

  lemma OwnedStays(c: Case, before: seq<Rule>, after: seq<Rule>)
    requires OwnedBy(c, before) && CodesKept(before, after)
    ensures OwnedBy(c, after)
  {
  }

  lemma ExecuteKeeps(w: World, id: nat, rule: Rule, finding: Finding, t: Timing)
    requires WorldOk(w) && id < |w.rules| && rule.code == w.rules[id].code
    ensures WorldOk(Execute(w, id, rule, finding, t)) && CodesKept(w.rules, Execute(w, id, rule, finding, t).rules)
  {
    hide DeskOk, DeskAfter, CreatedBy, UpdatedBy, ResolvedCount, HitsOf, OwnedBy;
    DeskAfterOk(w, id, rule, finding, t);
    var after := Execute(w, id, rule, finding, t);
    forall j | 0 <= j < |after.desk.cases| ensures OwnedBy(after.desk.cases[j], after.rules) {
      OwnedStays(after.desk.cases[j], w.rules, after.rules);
    }
  }

  lemma RulesKept(w: World, rules: seq<Rule>)
    requires WorldOk(w) && RulesOk(rules) && CodesKept(w.rules, rules)
    ensures WorldOk(w.(rules := rules))
  {
    hide DeskOk, OwnedBy, RulesOk;
    forall j | 0 <= j < |w.desk.cases| ensures OwnedBy(w.desk.cases[j], rules) {
      OwnedStays(w.desk.cases[j], w.rules, rules);
    }
  }

  lemma CreatedRules(rules: seq<Rule>, templates: set<string>, input: NewRule, now: int)
    requires RulesOk(rules)
    ensures var after := CreateRule(rules, templates, input, now).rules;
            RulesOk(after) && CodesKept(rules, after)
  {
    hide Trim, Lower, TemplateError, Upper, IsUpper;
    UpperIdentity(Trim(input.code));
  }

  lemma UpdatedRules(rules: seq<Rule>, templates: set<string>, id: nat, edit: RuleEdit, now: int)
    requires RulesOk(rules)
    ensures var after := UpdateRule(rules, templates, id, edit, now).rules;
            RulesOk(after) && CodesKept(rules, after)
  {
    hide Trim, Lower, TemplateError, IsUpper;
  }

  lemma {:induction false} RunDueKeeps(w: World, read: seq<Rule>, due: seq<nat>, findings: nat -> Finding,
                                       timings: nat -> Timing, n: nat)
    requires WorldOk(w) && n <= |due| && read == w.rules && forall i :: 0 <= i < |due| ==> due[i] < |read|
    ensures WorldOk(RunDue(w, read, due, findings, timings, n))
        && CodesKept(w.rules, RunDue(w, read, due, findings, timings, n).rules)
  {
    hide WorldOk, Execute;
    if n > 0 {
      RunDueKeeps(w, read, due, findings, timings, n - 1);
      ExecuteKeeps(RunDue(w, read, due, findings, timings, n - 1), due[n - 1], read[due[n - 1]], findings(n - 1),
                   timings(n - 1));
    }
  }

  lemma UserStepKeeps(w: World, e: Event)
    requires WorldOk(w) && FromUser(e)
    ensures WorldOk(w.(desk := Step(w.desk, e)))
  {
    hide Step, DeskOk, RulesOk, RunOk;
    StepKeeps(w.desk, e);
    UserKeepsOwners(w.desk, e);
  }

  lemma GoodRules(w: World)
    requires WorldOk(w)
    ensures RulesOk(w.rules)
  {
  }

  lemma StepWorldKeeps(w: World, a: Act)
    requires WorldOk(w)
    ensures WorldOk(StepWorld(w, a))
  {
    hide WorldOk, Step, CreateRule, UpdateRule, Execute, RunDue, Due, RulesOk;
    match a
    case OnDesk(event) =>
      if FromUser(event) {
        UserStepKeeps(w, event);
      }
    case AddRule(templates, input, now) =>
      GoodRules(w);
      CreatedRules(w.rules, templates, input, now);
      RulesKept(w, CreateRule(w.rules, templates, input, now).rules);
    case EditRule(templates, id, edit, now) =>
      GoodRules(w);
      UpdatedRules(w.rules, templates, id, edit, now);
      RulesKept(w, UpdateRule(w.rules, templates, id, edit, now).rules);
    case RunNow(id, finding, timing) =>
      if id < |w.rules| {
        ExecuteKeeps(w, id, w.rules[id], finding, timing);
      }
    case TickAt(now, findings, timings) =>
      var due := Due(w.rules, now, |w.rules|);
      RunDueKeeps(w, w.rules, due, findings, timings, |due|);
  }

  /** Every run of requests, manual runs and ticks keeps the cases good, the codes unique and every fingerprint with
   its rule. */
  lemma {:induction false} WorldsKeep(w: World, acts: seq<Act>)
    requires WorldOk(w)
    ensures WorldOk(Worlds(w, acts))
    decreases |acts|
  {
    hide WorldOk, StepWorld;
    if acts != [] {
      StepWorldKeeps(w, acts[0]);
      WorldsKeep(StepWorld(w, acts[0]), acts[1..]);
    }
  }

  lemma EmptyWorldOk()
    ensures WorldOk(World(Desk([], []), [], []))
  {
  }

  // ---------- main results about runs ----------

  /** A rule that writes cases and resolves recovered ones. */
  predicate Reconciling(rule: Rule) {
    rule.detector != EXPORT && rule.createExceptions && rule.resolveOnRecovery
  }

  /**
   A successful run of a reconciling rule, after any history, leaves its open cases equal to its hits and
   counts every hit as created or updated; a second run with the same findings creates and resolves nothing.
   */
  lemma SuccessfulRunReconciles(acts: seq<Act>, id: nat, items: seq<string>, t: Timing, later: Timing)
    requires var w := Worlds(World(Desk([], []), [], []), acts); id < |w.rules| && Reconciling(w.rules[id])
    ensures var w := Worlds(World(Desk([], []), [], []), acts);
            var hits := HitsOf(w.rules[id], items);
            var after := Execute(w, id, w.rules[id], Finding(items, Never), t);
            var run := after.runs[|w.runs|];
            && InStep(after.desk, id, hits)
            && run.status.Succeeded? && run.hits == |items|
            && run.created + run.updated == |items| + ResolvedCount(w.desk, id, w.rules[id], Finding(items, Never), t)
            && |after.desk.cases| == |w.desk.cases| + run.created
            && (forall j :: 0 <= j < |w.desk.cases| ==> OldCaseAfter(id, hits, w.desk.cases[j], after.desk.cases[j]))
            && var again := Execute(after, id, after.rules[id], Finding(items, Never), later).runs[|after.runs|];
            again.created == 0 && again.updated == |items|
  {
    var w := Worlds(World(Desk([], []), [], []), acts);
    EmptyWorldOk();
    WorldsKeep(World(Desk([], []), [], []), acts);
    hide Worlds;
    RunFromGoodWorld(w, id, items, t, later);
  }

  lemma RunFromGoodWorld(w: World, id: nat, items: seq<string>, t: Timing, later: Timing)
    requires WorldOk(w) && id < |w.rules| && Reconciling(w.rules[id])
    ensures var hits := HitsOf(w.rules[id], items);
            var after := Execute(w, id, w.rules[id], Finding(items, Never), t);
            var run := after.runs[|w.runs|];
            && InStep(after.desk, id, hits)
            && run.status.Succeeded? && run.hits == |items|
            && run.created + run.updated == |items| + ResolvedCount(w.desk, id, w.rules[id], Finding(items, Never), t)
            && |after.desk.cases| == |w.desk.cases| + run.created
            && (forall j :: 0 <= j < |w.desk.cases| ==> OldCaseAfter(id, hits, w.desk.cases[j], after.desk.cases[j]))
            && var again := Execute(after, id, after.rules[id], Finding(items, Never), later).runs[|after.runs|];
            again.created == 0 && again.updated == |items|
  {
    var hits := HitsOf(w.rules[id], items);
    var after := Execute(w, id, w.rules[id], Finding(items, Never), t);
    OwnHits(w, id, w.rules[id], items);
    WholeRun(w, id, items, t);
    SameHits(w.rules[id], after.rules[id], items);
    WholeRun(after, id, items, later);
    hide WorldOk, HitsOf, InStep, CreatedBy, UpdatedBy, OldCaseAfter, HitsAreOwn, OwnedHaveFingerprints,
         OneCasePerFingerprint, Execute, Reconciled, ResolvedBy, ResolvedCount;
    RunReconciles(w.desk, id, hits, t);
    SecondRunIsQuiet(w.desk, id, hits, t, later);
  }

  /** What a run that does not break off does, in the terms of the reconciliation. */
  lemma WholeRun(w: World, id: nat, items: seq<string>, t: Timing)
    requires id < |w.rules| && Reconciling(w.rules[id])
    ensures var hits, finding := HitsOf(w.rules[id], items), Finding(items, Never);
            var after := Execute(w, id, w.rules[id], finding, t);
            && after.desk == Reconciled(w.desk, id, hits, t)
            && after.rules == w.rules[id := Rescheduled(w.rules[id], w.rules[id].cadence, t.finished)]
            && |after.runs| == |w.runs| + 1
            && ResolvedCount(w.desk, id, w.rules[id], finding, t) == ResolvedBy(w.desk, id, hits, t)
            && after.runs[|w.runs|] == Run(id, Succeeded, t.started, Some(t.finished), |items|,
                                           CreatedBy(w.desk, id, hits, t, |hits|),
                                           UpdatedBy(w.desk, id, hits, t, |hits|) + ResolvedBy(w.desk, id, hits, t))
  {
    hide HitsOf, UpsertHits, CreatedBy, UpdatedBy, StaleCount, ResolveFirst, Fingerprints, Rescheduled;
  }

  /** What a run that breaks off does. */
  lemma BrokenRun(w: World, id: nat, items: seq<string>, breaks: Break, t: Timing)
    requires id < |w.rules| && Reconciling(w.rules[id]) && !breaks.Never?
    ensures var hits, finding := HitsOf(w.rules[id], items), Finding(items, breaks);
            var after := Execute(w, id, w.rules[id], finding, t);
            && after.desk == BrokenOff(w.desk, id, hits, t, Handled(finding), RecoveredBy(breaks))
            && after.rules == w.rules[id := Rescheduled(w.rules[id], w.rules[id].cadence, t.finished)]
            && |after.runs| == |w.runs| + 1
            && after.runs[|w.runs|] == Run(id, Failed, t.started, Some(t.finished), 0, 0, 0)
  {
    hide HitsOf, UpsertHits, CreatedBy, UpdatedBy, ResolvedCount, ResolveFirst, Fingerprints, Rescheduled;
    var hits := HitsOf(w.rules[id], items);
    NothingRecovered(UpsertHits(w.desk, id, hits, t, Handled(Finding(items, breaks))), id, Fingerprints(hits),
                     t.recoveredAt);
  }

  function RecoveredBy(breaks: Break): nat {
    if breaks.InRecovery? then breaks.resolved else 0
  }

  lemma SameHits(a: Rule, b: Rule, items: seq<string>)
    requires a.code == b.code && a.detector == b.detector && a.severity == b.severity
    ensures HitsOf(a, items) == HitsOf(b, items)
  {
  }

  /**
   What the run and the desk show when a run repeats, with the same hits, one that broke off after k recovered
   cases.
   */
  ghost predicate MakesUp(d: Desk, id: nat, hits: seq<Hit>, t: Timing, k: nat, repeated: Run, after: Desk) {
    var stale := StaleCount(d.cases, id, Fingerprints(hits));
    && repeated.status.Succeeded? && repeated.hits == |hits|
    && repeated.created + repeated.updated == |hits| + stale - Least(k, stale)
    && |after.cases| == |d.cases| + CreatedBy(d, id, hits, t, |hits|)
    && InStep(after, id, hits)
  }

  /**
   After any history, a run that breaks off, in its hits or in its recovery, is reported without counts,
   yet it has handled exactly the hits before the break and resolved exactly as many of the first stale
   cases as it got to.  The world stays good, and repeating the run makes up for it: what the two create
   and resolve together is what one whole run would, and the rule is in step with its hits.
   */
  lemma BrokenRunIsMadeUpFor(acts: seq<Act>, id: nat, items: seq<string>, breaks: Break, t: Timing, later: Timing)
    requires var w := Worlds(World(Desk([], []), [], []), acts); id < |w.rules| && Reconciling(w.rules[id])
    requires !breaks.Never?
    ensures var w := Worlds(World(Desk([], []), [], []), acts);
            var hits, n := HitsOf(w.rules[id], items), Handled(Finding(items, breaks));
            var broken := Execute(w, id, w.rules[id], Finding(items, breaks), t);
            && WorldOk(broken)
            && broken.runs[|w.runs|] == Run(id, Failed, t.started, Some(t.finished), 0, 0, 0)
            && StoppedAt(w.desk, id, hits, n, RecoveredBy(breaks), broken.desk)
            && var repeated := Execute(broken, id, broken.rules[id], Finding(items, Never), later);
            MakesUp(w.desk, id, hits, t, RecoveredBy(breaks), repeated.runs[|broken.runs|], repeated.desk)
  {
    var w := Worlds(World(Desk([], []), [], []), acts);
    EmptyWorldOk();
    WorldsKeep(World(Desk([], []), [], []), acts);
    hide Worlds, WorldOk, Execute, Handled, StoppedAt, MakesUp;
    ExecuteKeeps(w, id, w.rules[id], Finding(items, breaks), t);
    BrokenRun(w, id, items, breaks, t);
    RunStopsAt(w, id, items, breaks, t);
    RepeatMakesUp(w, id, items, breaks, t, later);
  }

  lemma RunStopsAt(w: World, id: nat, items: seq<string>, breaks: Break, t: Timing)
    requires WorldOk(w) && id < |w.rules| && Reconciling(w.rules[id]) && !breaks.Never?
    ensures StoppedAt(w.desk, id, HitsOf(w.rules[id], items), Handled(Finding(items, breaks)), RecoveredBy(breaks),
                      Execute(w, id, w.rules[id], Finding(items, breaks), t).desk)
  {
    BrokenRun(w, id, items, breaks, t);
    OwnHits(w, id, w.rules[id], items);
    hide WorldOk, HitsOf, Execute, Handled, StoppedAt, BrokenOff, HitsAreOwn, OneCasePerFingerprint,
         OwnedHaveFingerprints;
    BrokenRunIsPrefix(w.desk, id, HitsOf(w.rules[id], items), t, Handled(Finding(items, breaks)), RecoveredBy(breaks));
  }

  lemma RepeatMakesUp(w: World, id: nat, items: seq<string>, breaks: Break, t: Timing, later: Timing)
    requires WorldOk(w) && id < |w.rules| && Reconciling(w.rules[id]) && !breaks.Never?
    ensures var broken := Execute(w, id, w.rules[id], Finding(items, breaks), t);
            var repeated := Execute(broken, id, broken.rules[id], Finding(items, Never), later);
            MakesUp(w.desk, id, HitsOf(w.rules[id], items), t, RecoveredBy(breaks), repeated.runs[|broken.runs|],
                    repeated.desk)
  {
    var hits := HitsOf(w.rules[id], items);
    var broken := Execute(w, id, w.rules[id], Finding(items, breaks), t);
    var repeated := Execute(broken, id, broken.rules[id], Finding(items, Never), later);
    OwnHits(w, id, w.rules[id], items);
    BrokenRun(w, id, items, breaks, t);
    SameHits(w.rules[id], broken.rules[id], items);
    WholeRun(broken, id, items, later);
    hide *;
    BrokenDeskMakesUp(w.desk, id, hits, t, Handled(Finding(items, breaks)), RecoveredBy(breaks), later,
                      repeated.runs[|broken.runs|]);
  }

  lemma BrokenDeskMakesUp(d: Desk, id: nat, hits: seq<Hit>, t: Timing, n: nat, k: nat, later: Timing, repeated: Run)
    requires n <= |hits| && OneCasePerFingerprint(d.cases) && OwnedHaveFingerprints(d) && HitsAreOwn(d, id, hits)
    requires var broken := BrokenOff(d, id, hits, t, n, k);
             repeated == Run(id, Succeeded, later.started, Some(later.finished), |hits|,
                             CreatedBy(broken, id, hits, later, |hits|),
                             UpdatedBy(broken, id, hits, later, |hits|) + ResolvedBy(broken, id, hits, later))
    ensures MakesUp(d, id, hits, t, k, repeated, Reconciled(BrokenOff(d, id, hits, t, n, k), id, hits, later))
  {
    hide BrokenOff, Reconciled, CreatedBy, UpdatedBy, ResolvedBy, InStep, HitsAreOwn, OneCasePerFingerprint,
         OwnedHaveFingerprints, Fingerprints, StaleIds, StaleCount, UpsertHits;
    BrokenRunIsResumed(d, id, hits, t, n, k, later);
  }

  lemma NothingRecovered(d: Desk, rule: nat, fingerprints: seq<string>, clock: nat -> int)
    ensures ResolveFirst(d, rule, fingerprints, clock, 0) == d
  {
    hide Stale, StaleCount, WithDefaults;
    assert RecoverFirst(d.cases, rule, fingerprints, clock, 0) == d.cases;
  }

  lemma ExecuteIs(w: World, id: nat, rule: Rule, finding: Finding, t: Timing)
    requires id < |w.rules|
    ensures var after := Execute(w, id, rule, finding, t);
            && after.rules == w.rules[id := Rescheduled(w.rules[id], rule.cadence, t.finished)]
            && |after.runs| == |w.runs| + 1 && after.runs[..|w.runs|] == w.runs && after.runs[|w.runs|].rule == id
  {
    hide DeskAfter, HitsOf, CreatedBy, UpdatedBy, ResolvedCount;
  }

  /** One finished run per due rule, in order, after the runs there were. */
  ghost predicate RunsRecorded(before: seq<Run>, due: seq<nat>, n: nat, after: seq<Run>)
    requires n <= |due|
  {
    && |after| == |before| + n && after[..|before|] == before
    && forall k :: 0 <= k < n ==> after[|before| + k].rule == due[k]
  }

  lemma RunsRecordedNext(before: seq<Run>, due: seq<nat>, n: nat, mid: seq<Run>, after: seq<Run>)
    requires n < |due| && RunsRecorded(before, due, n, mid)
    requires |after| == |mid| + 1 && after[..|mid|] == mid && after[|mid|].rule == due[n]
    ensures RunsRecorded(before, due, n + 1, after)
  {
    assert after[..|before|] == after[..|mid|][..|before|];
    forall k | 0 <= k < n ensures after[|before| + k].rule == due[k] {
      assert after[|before| + k] == after[..|mid|][|before| + k];
    }
  }

  /** The first n due rules are rescheduled from their own cadence; all others are as they were. */
  ghost predicate RulesServed(before: seq<Rule>, due: seq<nat>, timings: nat -> Timing, n: nat, after: seq<Rule>)
    requires n <= |due| && forall i :: 0 <= i < |due| ==> due[i] < |before|
  {
    && |after| == |before|
    && (forall k :: 0 <= k < n ==>
          after[due[k]] == Rescheduled(before[due[k]], before[due[k]].cadence, timings(k).finished))
    && forall i :: 0 <= i < |before| && i !in due[..n] ==> after[i] == before[i]
  }

  lemma RulesServedNext(before: seq<Rule>, due: seq<nat>, timings: nat -> Timing, n: nat, mid: seq<Rule>,
                        after: seq<Rule>)
    requires n < |due| && (forall i :: 0 <= i < |due| ==> due[i] < |before|)
    requires forall i, j :: 0 <= i < j < |due| ==> due[i] < due[j]
    requires RulesServed(before, due, timings, n, mid)
    requires after == mid[due[n] := Rescheduled(mid[due[n]], before[due[n]].cadence, timings(n).finished)]
    ensures RulesServed(before, due, timings, n + 1, after)
  {
    hide Rescheduled;
    assert due[..n + 1] == due[..n] + [due[n]];
    assert due[n] !in due[..n];
  }

  lemma NothingServed(w: World, due: seq<nat>, timings: nat -> Timing)
    requires forall i :: 0 <= i < |due| ==> due[i] < |w.rules|
    ensures RunsRecorded(w.runs, due, 0, w.runs) && RulesServed(w.rules, due, timings, 0, w.rules)
  {
    hide Rescheduled;
    assert w.runs[..|w.runs|] == w.runs;
  }

  lemma {:induction false} TickRecords(w: World, due: seq<nat>, findings: nat -> Finding, timings: nat -> Timing,
                                       n: nat)
    requires n <= |due| && (forall i :: 0 <= i < |due| ==> due[i] < |w.rules|)
    requires forall i, j :: 0 <= i < j < |due| ==> due[i] < due[j]
    ensures var after := RunDue(w, w.rules, due, findings, timings, n);
            RunsRecorded(w.runs, due, n, after.runs) && RulesServed(w.rules, due, timings, n, after.rules)
  {
    hide Execute, Rescheduled, RunsRecorded, RulesServed;
    if n == 0 {
      NothingServed(w, due, timings);
    } else {
      TickRecords(w, due, findings, timings, n - 1);
      var before := RunDue(w, w.rules, due, findings, timings, n - 1);
      var after := RunDue(w, w.rules, due, findings, timings, n);
      ExecuteIs(before, due[n - 1], w.rules[due[n - 1]], findings(n - 1), timings(n - 1));
      RunsRecordedNext(w.runs, due, n - 1, before.runs, after.runs);
      RulesServedNext(w.rules, due, timings, n - 1, before.rules, after.rules);
    }
  }

  lemma {:induction false} NoneDue(rules: seq<Rule>, now: int, n: nat)
    requires n <= |rules| && forall i :: 0 <= i < n ==> !IsDue(rules[i], now)
    ensures Due(rules, now, n) == []
  {
    hide IsDue;
    if n > 0 {
      NoneDue(rules, now, n - 1);
    }
  }

  lemma ServedIsNotDue(rule: Rule, cadence: string, finished: int, now: int)
    requires now <= finished
    ensures !IsDue(Rescheduled(rule, cadence, finished), now)
  {
  }

  /**
   A tick runs every due rule exactly once, oldest first, and touches no other rule; when it is over no
   rule is due at the time it read the table.
   */
  lemma TickServesEveryDueRule(w: World, now: int, findings: nat -> Finding, timings: nat -> Timing)
    requires forall k :: 0 <= k < |Due(w.rules, now, |w.rules|)| ==> now <= timings(k).finished
    ensures var due := Due(w.rules, now, |w.rules|);
            var after := Tick(w, now, findings, timings);
            && RunsRecorded(w.runs, due, |due|, after.runs) && RulesServed(w.rules, due, timings, |due|, after.rules)
            && (forall i :: 0 <= i < |w.rules| && !IsDue(w.rules[i], now) ==> after.rules[i] == w.rules[i])
            && Due(after.rules, now, |after.rules|) == []
  {
    var due := Due(w.rules, now, |w.rules|);
    var after := Tick(w, now, findings, timings);
    DueIs(w.rules, now, |w.rules|);
    TickRecords(w, due, findings, timings, |due|);
    hide RunDue, Due, RunsRecorded, RulesServed;
    ServedNoneDue(w.rules, due, timings, after.rules, now);
    NoneDue(after.rules, now, |after.rules|);
  }

  lemma ServedNoneDue(before: seq<Rule>, due: seq<nat>, timings: nat -> Timing, after: seq<Rule>, now: int)
    requires forall i :: 0 <= i < |due| ==> due[i] < |before| && now <= timings(i).finished
    requires forall id :: 0 <= id < |before| ==> (id in due <==> IsDue(before[id], now))
    requires RulesServed(before, due, timings, |due|, after)
    ensures forall i :: 0 <= i < |after| ==> !IsDue(after[i], now)
    ensures forall i :: 0 <= i < |before| && !IsDue(before[i], now) ==> after[i] == before[i]
  {
    hide IsDue, Rescheduled;
    assert due[..|due|] == due;
    forall i | 0 <= i < |after| ensures !IsDue(after[i], now) {
      if i in due {
        var k :| 0 <= k < |due| && due[k] == i;
        ServedIsNotDue(before[i], before[i].cadence, timings(k).finished, now);
      }
    }
  }
}
