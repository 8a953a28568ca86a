/**
 What requests, runs and ticks make of a rule and of the cases it raises: when it is due again, and what its
 cases show.  Periods are in milliseconds.
 */
module RuleLaws {
  import opened Automations
  import opened Exceptions
  import opened Options
  import opened Reconciliation
  import opened Sla
  import opened Text

  // ---------- when a rule is due again ----------

  /** The rule's period has passed since the run ended: one minute, five minutes, or an hour for any other cadence. */
  predicate PeriodOver(cadence: string, finished: int, now: int) {
    && (cadence == "every_minute" ==> now - finished >= 60_000)
    && (cadence == "every_5_minutes" ==> now - finished >= 300_000)
    && (cadence !in {"every_minute", "every_5_minutes"} ==> now - finished >= 3_600_000)
  }

  /**
   After a run, however it ended, an enabled rule is due if and only if the period of the cadence it ran with
   is over.
   */
  lemma DueAgainIff(w: World, id: nat, rule: Rule, finding: Finding, t: Timing, now: int)
    requires id < |w.rules|
    ensures IsDue(Execute(w, id, rule, finding, t).rules[id], now)
        <==> w.rules[id].enabled && PeriodOver(rule.cadence, t.finished, now)
    ensures Execute(w, id, rule, finding, t).rules[id].lastRunAt == Some(t.finished)
    ensures forall i :: 0 <= i < |w.rules| && i != id ==> Execute(w, id, rule, finding, t).rules[i] == w.rules[i]
  {
    hide DeskAfter, RunRow;
  }

  /**
   After a tick every rule it served is due when its own period is over, and every other rule when it was due
   before.
   */
  lemma DueAfterTickIff(w: World, now: int, findings: nat -> Finding, timings: nat -> Timing, id: nat, later: int)
    requires id < |w.rules|
    ensures id < |Tick(w, now, findings, timings).rules|
    ensures !IsDue(w.rules[id], now) ==> Tick(w, now, findings, timings).rules[id] == w.rules[id]
    ensures IsDue(w.rules[id], now) ==>
              exists k :: 0 <= k < |Due(w.rules, now, |w.rules|)| && Due(w.rules, now, |w.rules|)[k] == id
                          && (IsDue(Tick(w, now, findings, timings).rules[id], later)
                              <==> PeriodOver(w.rules[id].cadence, timings(k).finished, later))
  {
    var due := Due(w.rules, now, |w.rules|);
    DueIs(w.rules, now, |w.rules|);
    TickRecords(w, due, findings, timings, |due|);
    hide RunDue, Due;
    assert due[..|due|] == due;
    if id in due {
      var k :| 0 <= k < |due| && due[k] == id;
      ServedDueIff(w.rules[id], timings(k).finished, later);
      assert Tick(w, now, findings, timings).rules[id]
          == Rescheduled(w.rules[id], w.rules[id].cadence, timings(k).finished);
      assert w.rules[id].enabled;
    }
  }

  lemma ServedDueIff(rule: Rule, finished: int, later: int)
    ensures IsDue(Rescheduled(rule, rule.cadence, finished), later)
        <==> rule.enabled && PeriodOver(rule.cadence, finished, later)
  {
  }

  // ---------- what a request makes of a rule ----------

  /**
   The rule a creation request asks for: trimmed, its code in capitals, its other words in small letters, with
   the usual defaults.
   */
  ghost predicate RuleAsAsked(input: NewRule, r: Rule) {
    && r.code == Upper(Trim(input.code)) && r.name == Trim(input.name) && r.detector == Lower(Trim(input.detector))
    && r.severity == (if input.severity == "" then "high" else Lower(Trim(input.severity)))
    && r.cadence == (if input.cadence == "" then "every_5_minutes" else Lower(Trim(input.cadence)))
    && (Trim(input.template) == "" ==> r.template.None?)
    && (Trim(input.template) != "" ==> r.template == Some(Trim(input.template)))
    && (r.enabled <==> input.enabled != Some(false))
    && (r.createExceptions <==> input.createExceptions != Some(false))
    && (r.resolveOnRecovery <==> input.resolveOnRecovery != Some(false))
    && r.lastRunAt.None?
  }

  /** A template is missing where an export needs one, or names none there is. */
  predicate TemplateWrong(detector: string, template: Option<string>, templates: set<string>) {
    (template.None? && detector == "monitoring_report_export") || (template.Some? && template.value !in templates)
  }

  /**
   A rule is created, as it was asked for, if and only if its code is free and its template is right; enabled
   it is due from then on, disabled it never is.
   */
  lemma CreateRuleMeans(rules: seq<Rule>, templates: set<string>, input: NewRule, now: int)
    ensures var outcome := CreateRule(rules, templates, input, now);
            var free := forall i :: 0 <= i < |rules| ==> rules[i].code != Upper(Trim(input.code));
            var template := if Trim(input.template) == "" then None else Some(Trim(input.template));
            && (outcome.error.None? <==> free && !TemplateWrong(Lower(Trim(input.detector)), template, templates))
            && (outcome.error.Some? ==> outcome.rules == rules)
            && (outcome.error == Some(RuleCodeTaken) <==> !free)
            && (outcome.error.None? ==>
                  && |outcome.rules| == |rules| + 1 && outcome.rules[..|rules|] == rules
                  && RuleAsAsked(input, outcome.rules[|rules|])
                  && forall later ::
                    IsDue(outcome.rules[|rules|], later) <==> input.enabled != Some(false) && now <= later)
  {
    hide Upper, Lower, Trim;
    TrimEmpty();
    NeverNone(input.severity, "high");
  }

  lemma TrimEmpty()
    ensures Trim("") == "" && Lower(Trim("high")) == "high" && Lower(Trim("every_5_minutes")) == "every_5_minutes"
  {
    TrimIdentity("");
    TrimIdentity("high");
    TrimIdentity("every_5_minutes");
    hide Trim;
    LowerIdentity("high");
    LowerIdentity("every_5_minutes");
  }

  lemma NeverNone(a: string, b: string)
    ensures Or(a, b) == if a == "" then b else a
  {
  }

  /** The field a change request leaves: the one asked for in its form, else the old one. */
  ghost predicate Changed(asked: Option<string>, small: bool, before: string, after: string) {
    match asked
    case None => after == before
    case Some(value) => after == if small then Lower(Trim(value)) else Trim(value)
  }

  predicate Kept<T(==)>(asked: Option<T>, before: T, after: T) {
    match asked
    case None => after == before
    case Some(value) => after == value
  }

  ghost predicate RuleAsChanged(edit: RuleEdit, before: Rule, after: Rule) {
    && after.code == before.code && after.lastRunAt == before.lastRunAt
    && Changed(edit.name, false, before.name, after.name)
    && Changed(edit.detector, true, before.detector, after.detector)
    && Changed(edit.severity, true, before.severity, after.severity)
    && Changed(edit.cadence, true, before.cadence, after.cadence)
    && (edit.template.None? ==> after.template == before.template)
    && (edit.template.Some? && Trim(edit.template.value) == "" ==> after.template.None?)
    && (edit.template.Some? && Trim(edit.template.value) != "" ==> after.template == Some(Trim(edit.template.value)))
    && Kept(edit.enabled, before.enabled, after.enabled)
    && Kept(edit.createExceptions, before.createExceptions, after.createExceptions)
    && Kept(edit.resolveOnRecovery, before.resolveOnRecovery, after.resolveOnRecovery)
  }

  lemma EditedMeans(r: Rule, edit: RuleEdit, now: int, later: int)
    ensures RuleAsChanged(edit, r, EditedRule(r, edit, now))
    ensures IsDue(EditedRule(r, edit, now), later) <==> DueAfterChange(edit, r, now, later)
  {
    hide Upper, Lower, Trim;
  }

  /** The detector and the template a change leaves; an empty detector counts as the old one. */
  ghost predicate TemplateStaysRight(edit: RuleEdit, before: Rule, templates: set<string>) {
    var detector := if edit.detector.Some? && Lower(Trim(edit.detector.value)) != ""
                    then Lower(Trim(edit.detector.value))
                    else before.detector;
    var template := if edit.template.None? then before.template
                    else if Trim(edit.template.value) == "" then None else Some(Trim(edit.template.value));
    !TemplateWrong(Lower(Trim(detector)), template, templates)
  }

  /**
   A change is carried out, in the fields asked for and in no other rule, if and only if the rule exists and
   its template stays right.  Switching it on, or changing the cadence of an enabled rule, makes it due at
   once; switching it off makes it never due; any other change leaves it due when it was.
   */
  lemma UpdateRuleMeans(rules: seq<Rule>, templates: set<string>, id: nat, edit: RuleEdit, now: int)
    ensures var outcome := UpdateRule(rules, templates, id, edit, now);
            && (outcome.error.None? <==> id < |rules| && TemplateStaysRight(edit, rules[id], templates))
            && (outcome.error == Some(RuleNotFound) <==> id >= |rules|)
            && (outcome.error.Some? ==> outcome.rules == rules)
            && (outcome.error.None? ==> id < |rules| && ChangedOnly(edit, rules, id, now, outcome.rules))
  {
    hide Upper, Lower, Trim, TemplateError, EditedRule, TemplateStaysRight, ChangedOnly;
    if id < |rules| {
      TemplateChecked(rules[id], edit, templates, now);
      EditedChangesOnly(rules, id, edit, now);
    }
  }

  /** Only this rule has changed, in the fields asked for, and is due when the change makes it due. */
  ghost predicate ChangedOnly(edit: RuleEdit, rules: seq<Rule>, id: nat, now: int, after: seq<Rule>)
    requires id < |rules|
  {
    && |after| == |rules| && (forall i :: 0 <= i < |rules| && i != id ==> after[i] == rules[i])
    && RuleAsChanged(edit, rules[id], after[id])
    && forall later :: IsDue(after[id], later) <==> DueAfterChange(edit, rules[id], now, later)
  }

  lemma EditedChangesOnly(rules: seq<Rule>, id: nat, edit: RuleEdit, now: int)
    requires id < |rules|
    ensures ChangedOnly(edit, rules, id, now, rules[id := EditedRule(rules[id], edit, now)])
  {
    hide EditedRule, DueAfterChange, RuleAsChanged, IsDue;
    EditedMeans(rules[id], edit, now, now);
    forall later
      ensures IsDue(EditedRule(rules[id], edit, now), later) <==> DueAfterChange(edit, rules[id], now, later)
    {
      EditedMeans(rules[id], edit, now, later);
    }
  }

  lemma TemplateChecked(r: Rule, edit: RuleEdit, templates: set<string>, now: int)
    ensures var next := EditedRule(r, edit, now);
            TemplateError(Lower(Trim(Or(next.detector, r.detector))), next.template, templates).None?
            <==> TemplateStaysRight(edit, r, templates)
    ensures var next := EditedRule(r, edit, now);
            TemplateError(Lower(Trim(Or(next.detector, r.detector))), next.template, templates) != Some(RuleNotFound)
  {
    hide Upper, Lower, Trim, IsDue;
    EditedMeans(r, edit, now, now);
    NeverNone(EditedRule(r, edit, now).detector, r.detector);
  }

  predicate DueAfterChange(edit: RuleEdit, before: Rule, now: int, later: int) {
    if edit.enabled.Some? then edit.enabled.value && now <= later
    else if edit.cadence.Some? && before.enabled then now <= later
    else IsDue(before, later)
  }

  // ---------- what a rule's cases show ----------

  /**
   What a rule's detector reports: the kind, the rule's severity unless the detector has its own, and the
   fingerprint.
   */
  ghost predicate HitAsFound(rule: Rule, item: string, hit: Hit) {
    && (rule.detector == "maintenance_overdue" ==>
          hit == Hit(rule.code + ":maintenance_overdue:" + item, "maintenance", rule.severity))
    && (rule.detector == "critical_open_occurrence" ==>
          hit == Hit(rule.code + ":critical_open_occurrence:" + item, "occurrence", "critical"))
    && (rule.detector == "integration_failure" ==>
          hit == Hit(rule.code + ":integration_failure:" + item, "integration", rule.severity))
    && (rule.detector !in {"maintenance_overdue", "critical_open_occurrence", "integration_failure"} ==>
          hit == Hit(rule.code + ":aged_open_occurrence:" + item, "sla", rule.severity))
  }

  lemma HitsAsFound(rule: Rule, items: seq<string>, i: nat)
    requires i < |items|
    ensures HitAsFound(rule, items[i], HitsOf(rule, items)[i])
  {
    Joined(rule.code, "maintenance_overdue", items[i], ":maintenance_overdue:");
    Joined(rule.code, "critical_open_occurrence", items[i], ":critical_open_occurrence:");
    Joined(rule.code, "integration_failure", items[i], ":integration_failure:");
    Joined(rule.code, "aged_open_occurrence", items[i], ":aged_open_occurrence:");
    hide FingerprintOf;
  }

  lemma Joined(code: string, word: string, item: string, joined: string)
    requires joined == ":" + word + ":"
    ensures FingerprintOf(code, word, item) == code + joined + item
  {
  }

  ghost predicate Shows(c: Case, kind: string, severity: string) {
    c.kind == kind && c.severity == severity
  }

  /** While all hits agree on kind and severity, every case hit so far shows them. */
  lemma {:induction false} HitCasesShow(d: Desk, rule: nat, hits: seq<Hit>, t: Timing, n: nat, kind: string,
                                        severity: string)
    requires n <= |hits| && OneCasePerFingerprint(d.cases)
    requires forall k :: 0 <= k < |hits| ==> hits[k].kind == kind && hits[k].severity == severity
    ensures var after := UpsertHits(d, rule, hits, t, n).cases;
            forall j :: 0 <= j < |after| && HitBy(hits, n, after[j].fingerprint) ==> Shows(after[j], kind, severity)
  {
    hide UpsertHit, Find, HitBy;
    if n == 0 {
      NobodyHit(hits);
    } else {
      HitCasesShow(d, rule, hits, t, n - 1, kind, severity);
      var mid := UpsertHits(d, rule, hits, t, n - 1);
      HitLoop(d, rule, hits, t, n - 1);
      ProgressOnce(d, rule, hits, n - 1, mid);
      var after := UpsertHits(d, rule, hits, t, n).cases;
      hide Progress, UpsertHits;
      forall j | 0 <= j < |after| && HitBy(hits, n, after[j].fingerprint) ensures Shows(after[j], kind, severity) {
        HitByNext(hits, n - 1, after[j].fingerprint);
        OneHitShows(mid, rule, hits[n - 1], t.hitAt(n - 1), t.createdAt(n - 1), j);
      }
    }
  }

  lemma NobodyHit(hits: seq<Hit>)
    ensures forall f: Option<string> :: !HitBy(hits, 0, f)
  {
  }

  /** A hit shows on its own case and leaves every other one alone. */
  lemma OneHitShows(d: Desk, rule: nat, hit: Hit, now: int, createdAt: int, j: nat)
    requires OneCasePerFingerprint(d.cases) && j < |UpsertHit(d, rule, hit, now, createdAt).cases|
    ensures var after := UpsertHit(d, rule, hit, now, createdAt).cases;
            if after[j].fingerprint == Some(hit.fingerprint) then Shows(after[j], hit.kind, hit.severity)
            else j < |d.cases| && after[j] == d.cases[j]
  {
    hide Build, WithDefaults, Find;
  }

  /**
   After any history and a successful run of a rule that writes cases, every case it hit shows the kind and
   the severity its detector stands for.
   */
  lemma RunCasesShow(acts: seq<Act>, id: nat, items: seq<string>, t: Timing)
    requires var w := Worlds(World(Desk([], []), [], []), acts); id < |w.rules| && Reconciling(w.rules[id])
    ensures var w := Worlds(World(Desk([], []), [], []), acts);
            var rule, hits := w.rules[id], HitsOf(w.rules[id], items);
            var after := Execute(w, id, rule, Finding(items, Never), t).desk.cases;
            forall j, k :: 0 <= j < |after| && 0 <= k < |items| && after[j].fingerprint == Some(hits[k].fingerprint) ==>
              HitAsFound(rule, items[k], Hit(hits[k].fingerprint, after[j].kind, after[j].severity))
  {
    var w := Worlds(World(Desk([], []), [], []), acts);
    EmptyWorldOk();
    WorldsKeep(World(Desk([], []), [], []), acts);
    hide Worlds;
    var rule := w.rules[id];
    WholeRun(w, id, items, t);
    OwnHits(w, id, rule, items);
    hide WorldOk, Execute, HitsOf, Reconciled, HitAsFound;
    forall j, k | 0 <= j < |Reconciled(w.desk, id, HitsOf(rule, items), t).cases| && 0 <= k < |items|
                  && Reconciled(w.desk, id, HitsOf(rule, items), t).cases[j].fingerprint
                     == Some(HitsOf(rule, items)[k].fingerprint)
      ensures var c := Reconciled(w.desk, id, HitsOf(rule, items), t).cases[j];
              HitAsFound(rule, items[k], Hit(HitsOf(rule, items)[k].fingerprint, c.kind, c.severity))
    {
      ReconciledShows(w.desk, id, rule, items, t, j, k);
    }
  }

  lemma ReconciledShows(d: Desk, id: nat, rule: Rule, items: seq<string>, t: Timing, j: nat, k: nat)
    requires OneCasePerFingerprint(d.cases) && k < |items|
    requires var after := Reconciled(d, id, HitsOf(rule, items), t).cases;
             j < |after| && after[j].fingerprint == Some(HitsOf(rule, items)[k].fingerprint)
    ensures var c := Reconciled(d, id, HitsOf(rule, items), t).cases[j];
            HitAsFound(rule, items[k], Hit(HitsOf(rule, items)[k].fingerprint, c.kind, c.severity))
  {
    hide HitAsFound;
    var hits := HitsOf(rule, items);
    OneKind(rule, items, hits[k].kind, hits[k].severity, k);
    HitsAsFound(rule, items, k);
    hide HitsOf, Reconciled, OneCasePerFingerprint;
    ReconciledKind(d, id, hits, t, j, k, hits[k].kind, hits[k].severity);
  }

  lemma ReconciledKind(d: Desk, id: nat, hits: seq<Hit>, t: Timing, j: nat, k: nat, kind: string, severity: string)
    requires OneCasePerFingerprint(d.cases) && k < |hits|
    requires forall i :: 0 <= i < |hits| ==> hits[i].kind == kind && hits[i].severity == severity
    requires var after := Reconciled(d, id, hits, t).cases;
             j < |after| && after[j].fingerprint == Some(hits[k].fingerprint)
    ensures var c := Reconciled(d, id, hits, t).cases[j]; c.kind == kind && c.severity == severity
  {
    hide *;
    ReconciledIs(d, id, hits, t, j);
    HitIsBy(hits, k);
    LoopShows(d, id, hits, t, kind, severity, j);
  }

  lemma ReconciledIs(d: Desk, id: nat, hits: seq<Hit>, t: Timing, j: nat)
    ensures var looped, after := UpsertHits(d, id, hits, t, |hits|).cases, Reconciled(d, id, hits, t).cases;
            && |after| == |looped|
            && (j < |after| ==> after[j].kind == looped[j].kind && after[j].severity == looped[j].severity
                                && after[j].fingerprint == looped[j].fingerprint)
  {
    hide UpsertHits, Fingerprints, ResolveFirst;
    var looped := UpsertHits(d, id, hits, t, |hits|);
    RecoveryLength(looped, id, Fingerprints(hits), t.recoveredAt);
    if j < |looped.cases| {
      RecoveryShows(looped, id, Fingerprints(hits), t.recoveredAt, j);
    }
  }

  lemma LoopShows(d: Desk, id: nat, hits: seq<Hit>, t: Timing, kind: string, severity: string, j: nat)
    requires OneCasePerFingerprint(d.cases)
    requires forall i :: 0 <= i < |hits| ==> hits[i].kind == kind && hits[i].severity == severity
    ensures var looped := UpsertHits(d, id, hits, t, |hits|).cases;
            j < |looped| && HitBy(hits, |hits|, looped[j].fingerprint) ==>
              looped[j].kind == kind && looped[j].severity == severity
  {
    hide UpsertHits, HitBy, OneCasePerFingerprint;
    HitCasesShow(d, id, hits, t, |hits|, kind, severity);
  }

  lemma RecoveryLength(d: Desk, rule: nat, fingerprints: seq<string>, clock: nat -> int)
    ensures |ResolveRecovered(d, rule, fingerprints, clock).cases| == |d.cases|
  {
    hide WithDefaults, StaleCount;
  }

  lemma HitIsBy(hits: seq<Hit>, k: nat)
    requires k < |hits|
    ensures HitBy(hits, |hits|, Some(hits[k].fingerprint))
  {
  }

  lemma OneKind(rule: Rule, items: seq<string>, kind: string, severity: string, k: nat)
    requires k < |items| && HitsOf(rule, items)[k].kind == kind && HitsOf(rule, items)[k].severity == severity
    ensures forall i :: 0 <= i < |items| ==>
              HitsOf(rule, items)[i].kind == kind && HitsOf(rule, items)[i].severity == severity
  {
  }

  lemma RecoveryShows(d: Desk, rule: nat, fingerprints: seq<string>, clock: nat -> int, j: nat)
    requires j < |d.cases|
    ensures var after := ResolveRecovered(d, rule, fingerprints, clock).cases[j];
            after.kind == d.cases[j].kind && after.severity == d.cases[j].severity
            && after.fingerprint == d.cases[j].fingerprint
  {
    hide Stale, WithDefaults, Reached;
    WholeRecovery(d, rule, fingerprints, clock, j);
  }
}
