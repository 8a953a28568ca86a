/**
 What the operational state of a case is, field by field, and what every operation of
 apps/api/src/exceptions/exceptions.service.ts leaves of the case it writes.
 */
module CaseLaws {
  import opened Exceptions
  import opened Options
  import opened Sla
  import opened Text

  // ---------- the policy that governs a case ----------

  /** The oldest active policy of the kind and severity. */
  ghost predicate Oldest(ps: seq<Policy>, kind: string, severity: string, k: nat) {
    k < |ps| && Matches(ps[k], kind, severity) && forall i :: 0 <= i < k ==> !Matches(ps[i], kind, severity)
  }

  ghost predicate Missing(ps: seq<Policy>, kind: string, severity: string) {
    forall i :: 0 <= i < |ps| ==> !Matches(ps[i], kind, severity)
  }

  ghost predicate LastResort(p: Policy) {
    p.active && p.code == "SLA-GENERIC-MEDIUM"
  }

  /**
   A policy of the case's kind and severity; without one a generic policy of the severity; without that the
   medium generic one; each time the oldest active.  None only without any of them.
   */
  ghost predicate Governs(ps: seq<Policy>, kind: string, severity: string, policy: Option<nat>) {
    match policy
    case Some(k) =>
      || Oldest(ps, kind, severity, k)
      || (Missing(ps, kind, severity) && Oldest(ps, "generic", severity, k))
      || (Missing(ps, kind, severity) && Missing(ps, "generic", severity)
          && k < |ps| && LastResort(ps[k]) && forall i :: 0 <= i < k ==> !LastResort(ps[i]))
    case None =>
      && Missing(ps, kind, severity) && Missing(ps, "generic", severity)
      && forall i :: 0 <= i < |ps| ==> !LastResort(ps[i])
  }

  lemma {:induction false} ActiveCodeIs(ps: seq<Policy>, from: nat)
    ensures var found := ActiveCode(ps, "SLA-GENERIC-MEDIUM", from);
            && (found.Some? ==>
                  LastResort(ps[found.value]) && forall i :: from <= i < found.value ==> !LastResort(ps[i]))
            && (found.None? ==> forall i :: from <= i < |ps| ==> !LastResort(ps[i]))
    decreases |ps| - from
  {
    if from < |ps| {
      ActiveCodeIs(ps, from + 1);
    }
  }

  lemma OneGoverns(ps: seq<Policy>, kind: string, severity: string, a: Option<nat>, b: Option<nat>)
    requires Governs(ps, kind, severity, a) && Governs(ps, kind, severity, b)
    ensures a == b
  {
    hide Matches, LastResort;
  }

  /** The search finds the policy that governs, and no other governs. */
  lemma PolicyChosenIff(ps: seq<Policy>, kind: string, severity: string, policy: Option<nat>)
    ensures SelectPolicy(ps, kind, severity) == policy <==> Governs(ps, kind, severity, policy)
  {
    hide Matches, LastResort;
    FirstMatchIs(ps, kind, severity, 0);
    FirstMatchIs(ps, "generic", severity, 0);
    ActiveCodeIs(ps, 0);
    var chosen := SelectPolicy(ps, kind, severity);
    assert Governs(ps, kind, severity, chosen);
    if Governs(ps, kind, severity, policy) {
      OneGoverns(ps, kind, severity, chosen, policy);
    }
  }

  // ---------- the defaults ----------

  /** The missing defaults stand behind the policies there were, in their order. */
  lemma {:induction false} DefaultsAdded(ps: seq<Policy>, defaults: seq<Policy>)
    requires forall i, j :: 0 <= i < j < |defaults| ==> defaults[i].code != defaults[j].code
    ensures WithMissing(ps, defaults) == ps + NotIn(ps, defaults)
    decreases |defaults|
  {
    hide HasPolicy;
    if defaults == [] {
      assert ps + [] == ps;
    } else {
      var next := if HasPolicy(ps, defaults[0].code) then ps else ps + [defaults[0]];
      DefaultsAdded(next, defaults[1..]);
      assert forall i :: 0 <= i < |defaults| - 1 ==> defaults[1..][i] == defaults[i + 1];
      SameNotIn(ps, defaults[0], defaults[1..]);
      assert ps + [defaults[0]] + NotIn(ps, defaults[1..]) == ps + ([defaults[0]] + NotIn(ps, defaults[1..]));
      assert ps + ([] + NotIn(ps, defaults[1..])) == ps + NotIn(ps, defaults[1..]);
    }
  }

  /** The policies whose code is not taken. */
  function NotIn(ps: seq<Policy>, defaults: seq<Policy>): seq<Policy> {
    if defaults == [] then []
    else (if HasPolicy(ps, defaults[0].code) then [] else [defaults[0]]) + NotIn(ps, defaults[1..])
  }

  lemma {:induction false} SameNotIn(ps: seq<Policy>, p: Policy, defaults: seq<Policy>)
    requires forall i :: 0 <= i < |defaults| ==> defaults[i].code != p.code
    ensures NotIn(ps + [p], defaults) == NotIn(ps, defaults)
  {
    if defaults != [] {
      assert HasPolicy(ps + [p], defaults[0].code) <==> HasPolicy(ps, defaults[0].code) by {
        OneMore(ps, p, defaults[0].code);
      }
      SameNotIn(ps, p, defaults[1..]);
    }
  }

  lemma OneMore(ps: seq<Policy>, p: Policy, code: string)
    requires p.code != code
    ensures HasPolicy(ps + [p], code) <==> HasPolicy(ps, code)
  {
    if HasPolicy(ps, code) {
      var i :| 0 <= i < |ps| && ps[i].code == code;
      assert (ps + [p])[i].code == code;
    }
  }

  /** Minutes until the first response and until the resolution, and the queue. */
  predicate DueAfter(ps: seq<Policy>, kind: string, severity: string, first: int, resolve: int, queue: string) {
    var policy := SelectPolicy(ps, kind, severity);
    policy.Some? && ps[policy.value].firstResponse == first && ps[policy.value].resolution == resolve
    && ps[policy.value].queueKey == queue
  }

  /** What the untouched defaults promise a case of any kind, by its severity. */
  lemma DefaultPromises(kind: string)
    ensures var ps := WithDefaults([]);
            && DueAfter(ps, kind, "low", 120, 1440, "ops-general")
            && DueAfter(ps, kind, "medium", 30, 240, "ops-general")
            && (if kind == "maintenance" then DueAfter(ps, kind, "high", 30, 480, "ops-manutencao")
                else DueAfter(ps, kind, "high", 15, 120, "ops-general"))
            && (if kind == "integration" then DueAfter(ps, kind, "critical", 5, 30, "ops-integracoes")
                else if kind == "occurrence" then DueAfter(ps, kind, "critical", 5, 60, "ops-ocorrencias")
                else DueAfter(ps, kind, "critical", 5, 60, "ops-general"))
  {
    UntouchedDefaults();
    LowAndMedium(kind);
    HighGoverned(kind);
    CriticalGoverned(kind);
    hide WithDefaults, SelectPolicy;
  }

  /** Whatever policies there are, each of these codes has one afterwards, and those there were stay as they are. */
  lemma DefaultCodes(ps: seq<Policy>, code: string)
    requires code in {"SLA-GENERIC-LOW", "SLA-GENERIC-MEDIUM", "SLA-GENERIC-HIGH", "SLA-GENERIC-CRITICAL",
                      "SLA-INTEGRATION-CRITICAL", "SLA-OCCURRENCE-CRITICAL", "SLA-MAINTENANCE-HIGH"}
    ensures HasPolicy(WithDefaults(ps), code) && ps <= WithDefaults(ps)
    ensures |WithDefaults(ps)| <= |ps| + 7
  {
    hide WithMissing, HasPolicy, AllFit, Fits;
    AllDefaultsFit();
    WithMissingFacts(ps, DEFAULTS);
    CodesApart();
    DefaultsAdded(ps, DEFAULTS);
    NotInIsShort(ps, DEFAULTS);
    assert DEFAULTS[0].code == "SLA-GENERIC-LOW" && DEFAULTS[1].code == "SLA-GENERIC-MEDIUM";
    assert DEFAULTS[2].code == "SLA-GENERIC-HIGH" && DEFAULTS[3].code == "SLA-GENERIC-CRITICAL";
    assert DEFAULTS[4].code == "SLA-INTEGRATION-CRITICAL" && DEFAULTS[5].code == "SLA-OCCURRENCE-CRITICAL";
    assert DEFAULTS[6].code == "SLA-MAINTENANCE-HIGH";
  }

  lemma AllDefaultsFit()
    ensures forall i :: 0 <= i < |DEFAULTS| ==> Fits(DEFAULTS[i])
  {
  }

  lemma {:induction false} NotInIsShort(ps: seq<Policy>, defaults: seq<Policy>)
    ensures |NotIn(ps, defaults)| <= |defaults|
  {
    if defaults != [] {
      NotInIsShort(ps, defaults[1..]);
    }
  }

  lemma LowAndMedium(kind: string)
    ensures SelectPolicy(DEFAULTS, kind, "low") == Some(0) && SelectPolicy(DEFAULTS, kind, "medium") == Some(1)
  {
    PolicyChosenIff(DEFAULTS, kind, "low", Some(0));
    PolicyChosenIff(DEFAULTS, kind, "medium", Some(1));
    hide SelectPolicy;
  }

  lemma HighGoverned(kind: string)
    ensures SelectPolicy(DEFAULTS, kind, "high") == Some(if kind == "maintenance" then 6 else 2)
  {
    PolicyChosenIff(DEFAULTS, kind, "high", Some(if kind == "maintenance" then 6 else 2));
    hide SelectPolicy;
  }

  lemma CriticalGoverned(kind: string)
    ensures SelectPolicy(DEFAULTS, kind, "critical")
         == Some(if kind == "integration" then 4 else if kind == "occurrence" then 5 else 3)
  {
    PolicyChosenIff(DEFAULTS, kind, "critical",
                    Some(if kind == "integration" then 4 else if kind == "occurrence" then 5 else 3));
    hide SelectPolicy;
  }

  /** The codes differ in length, but for two. */
  lemma CodesApart()
    ensures forall i, j :: 0 <= i < j < |DEFAULTS| ==> DEFAULTS[i].code != DEFAULTS[j].code
  {
    var lengths := [15, 18, 16, 20, 24, 23, 20];
    assert |DEFAULTS| == 7;
    assert |DEFAULTS[0].code| == 15 && |DEFAULTS[1].code| == 18 && |DEFAULTS[2].code| == 16;
    assert |DEFAULTS[3].code| == 20 && |DEFAULTS[4].code| == 24 && |DEFAULTS[5].code| == 23;
    assert |DEFAULTS[6].code| == 20 && DEFAULTS[3].code[4] == 'G' && DEFAULTS[6].code[4] == 'M';
    hide DEFAULTS;
    forall i, j | 0 <= i < j < |DEFAULTS| ensures DEFAULTS[i].code != DEFAULTS[j].code {
      assert |DEFAULTS[i].code| == lengths[i] && |DEFAULTS[j].code| == lengths[j];
    }
  }

  lemma UntouchedDefaults()
    ensures WithDefaults([]) == DEFAULTS
  {
    hide DEFAULTS;
    CodesApart();
    DefaultsAdded([], DEFAULTS);
    NothingTaken(DEFAULTS);
    assert [] + DEFAULTS == DEFAULTS;
  }

  lemma {:induction false} NothingTaken(defaults: seq<Policy>)
    ensures NotIn([], defaults) == defaults
  {
    if defaults != [] {
      NothingTaken(defaults[1..]);
      assert !HasPolicy([], defaults[0].code);
      assert [defaults[0]] + defaults[1..] == defaults;
    }
  }

  // ---------- the ten fields ----------

  /** The word that is meant: small and trimmed, or the usual one if there is none. */
  ghost predicate Word(raw: string, usual: string, word: string) {
    if Trim(raw) == "" then word == usual else word == Lower(Trim(raw))
  }

  lemma UsualWords()
    ensures Trim("generic") == "generic" && Lower("generic") == "generic"
    ensures Trim("medium") == "medium" && Lower("medium") == "medium"
    ensures Trim("") == "" && Lower("") == ""
  {
    TrimIdentity("generic");
    TrimIdentity("medium");
    LowerIdentity("generic");
    LowerIdentity("medium");
    TrimIdentity("");
  }

  lemma WordsMean(raw: string)
    ensures Word(raw, "generic", NormalizeKind(raw)) && Word(raw, "medium", NormalizeSeverity(raw))
  {
    UsualWords();
    assert |Lower(Trim(raw))| == |Trim(raw)|;
    hide Trim, Lower;
  }

  predicate QueueOf(kind: string, queue: string) {
    && (kind == "integration" ==> queue == "ops-integracoes") && (kind == "occurrence" ==> queue == "ops-ocorrencias")
    && (kind == "maintenance" ==> queue == "ops-manutencao") && (kind == "sla" ==> queue == "ops-sla")
    && (kind == "automation" ==> queue == "ops-automacoes")
    && (kind !in {"integration", "occurrence", "maintenance", "sla", "automation"} ==> queue == "ops-general")
  }

  /** What a severity weighs before anything else is known of the case. */
  predicate Weighs(severity: string, weight: int) {
    && (severity == "critical" ==> weight == 95) && (severity == "high" ==> weight == 78)
    && (severity == "medium" ==> weight == 55) && (severity !in {"critical", "high", "medium"} ==> weight == 25)
  }

  /** The operational state of a case whose clock started at `start`, as computed now. */
  ghost predicate Stands(ps: seq<Policy>, kind: string, severity: string, status: Status, start: int,
                         acknowledgedAt: Option<int>, assignee: Option<string>, now: int, o: Operational) {
    exists word, level, weight ::
      && Word(kind, "generic", word) && Word(severity, "medium", level) && Weighs(level, weight)
      && Governs(ps, word, level, o.policy)
      && o.firstDue == start + 60_000 * (if o.policy.Some? then ps[o.policy.value].firstResponse else 30)
      && o.resolveDue == start + 60_000 * (if o.policy.Some? then ps[o.policy.value].resolution else 240)
      && (o.policy.Some? && ps[o.policy.value].queueKey != "" ==> o.queueKey == ps[o.policy.value].queueKey)
      && (o.policy.None? || ps[o.policy.value].queueKey == "" ==> QueueOf(word, o.queueKey))
      && o.classification == word
      && o.impact == (if level in {"critical", "high", "medium"} then level else "low")
      && o.urgency == (if status.Resolved? then "low" else o.impact)
      && (o.triage.Closed? <==> status.Resolved?)
      && (o.triage.Pending? <==> !status.Resolved? && acknowledgedAt.None? && assignee.None?)
      && o.breachedAt in {None, Some(now)}
      && (o.breachedAt.Some? <==>
            !status.Resolved? && (o.resolveDue <= now || (o.triage.Pending? && o.firstDue <= now)))
      && o.priority == AtMost100(weight + (if o.triage.Pending? then 5 else 0) + (if assignee.None? then 5 else 0)
                                 + (if o.breachedAt.Some? then 10 else 0))
  }

  function AtMost100(score: int): int {
    if score <= 100 then score else 100
  }

  lemma BuildStands(ps: seq<Policy>, kind: string, severity: string, status: Status, start: int,
                    acknowledgedAt: Option<int>, assignee: Option<string>, now: int)
    ensures Stands(ps, kind, severity, status, start, acknowledgedAt, assignee, now,
                   Build(ps, kind, severity, status, start, acknowledgedAt, assignee, now))
  {
    var word, level := NormalizeKind(kind), NormalizeSeverity(severity);
    var o := Build(ps, kind, severity, status, start, acknowledgedAt, assignee, now);
    WordsMean(kind);
    WordsMean(severity);
    PolicyChosenIff(ps, word, level, o.policy);
    hide NormalizeKind, NormalizeSeverity, SelectPolicy, Governs, Word;
    assert Weighs(level, Weight(level));
  }

  // ---------- what the operations write ----------

  /** The stored state of a case is the one computed for its stored fields. */
  ghost predicate StandsAt(ps: seq<Policy>, c: Case, start: int, now: int) {
    Stands(ps, c.kind, c.severity, c.status, start, c.acknowledgedAt, c.assignee, now, c.op)
  }

  /** The user meant: nobody for an empty text. */
  ghost predicate Person(raw: string, assignee: Option<string>) {
    if Trim(raw) == "" then assignee.None? else assignee == Some(Trim(raw))
  }

  ghost predicate UnknownPerson(users: set<string>, raw: string) {
    Trim(raw) != "" && Trim(raw) !in users
  }

  /** The new case a request asks for. */
  ghost predicate CreatedAs(ps: seq<Policy>, input: NewCase, now: int, createdAt: int, c: Case) {
    && Word(input.kind, "generic", c.kind) && Word(input.severity, "medium", c.severity)
    && c.status == (if input.status.Some? then input.status.value else Open)
    && Word(input.source, "manual", c.source) && c.fingerprint.None? && c.automation.None?
    && Person(input.assignee, c.assignee) && c.createdAt == createdAt
    && c.acknowledgedAt == (if c.status.Acknowledged? then Some(now) else None)
    && c.resolvedAt == (if c.status.Resolved? then Some(now) else None)
    && c.silencedUntil == input.silencedUntil && StandsAt(ps, c, now, now)
  }

  lemma SourceMeans(raw: string)
    ensures Word(raw, "manual", Or(Lower(Trim(Or(raw, "manual"))), "manual"))
  {
    TrimIdentity("manual");
    LowerIdentity("manual");
    assert Trim("") == "";
    assert Trim(raw) != "" ==> Lower(Trim(raw)) != "";
  }

  /** A case is created as asked, behind all others, unless its assignee is unknown. */
  lemma CreateMeans(d: Desk, users: set<string>, input: NewCase, now: int, createdAt: int)
    ensures var outcome := CreateCase(d, users, input, now, createdAt);
            if UnknownPerson(users, input.assignee) then outcome == Outcome(d, Some(UnknownUser))
            else
              && outcome.error.None? && outcome.desk.policies == WithDefaults(d.policies)
              && |outcome.desk.cases| == |d.cases| + 1 && outcome.desk.cases[..|d.cases|] == d.cases
              && CreatedAs(outcome.desk.policies, input, now, createdAt, outcome.desk.cases[|d.cases|])
  {
    hide Trim, Lower, WithDefaults, Build, Stands;
    if !UnknownPerson(users, input.assignee) {
      var ps := WithDefaults(d.policies);
      var c := CreateCase(d, users, input, now, createdAt).desk.cases[|d.cases|];
      WordsMean(input.kind);
      WordsMean(input.severity);
      SourceMeans(input.source);
      BuildStands(ps, c.kind, c.severity, c.status, now, c.acknowledgedAt, c.assignee, now);
    }
  }

  /** What an update leaves of a case: the fields asked for, and the time stamps its status brings. */
  ghost predicate UpdatedAs(ps: seq<Policy>, before: Case, edit: CaseEdit, now: int, after: Case) {
    && (edit.kind.None? ==> after.kind == before.kind)
    && (edit.kind.Some? ==> Word(edit.kind.value, "generic", after.kind))
    && (edit.severity.None? ==> after.severity == before.severity)
    && (edit.severity.Some? ==> Word(edit.severity.value, "medium", after.severity))
    && (edit.assignee.None? ==> after.assignee == before.assignee)
    && (edit.assignee.Some? ==> Person(edit.assignee.value, after.assignee))
    && (match edit.status
        case None =>
          && after.status == before.status && after.acknowledgedAt == before.acknowledgedAt
          && after.resolvedAt == before.resolvedAt
        case Some(Open) => after.status == Open && after.acknowledgedAt.None? && after.resolvedAt.None?
        case Some(Acknowledged) =>
          && after.status == Acknowledged && after.resolvedAt == before.resolvedAt
          && after.acknowledgedAt == (if before.acknowledgedAt.Some? then before.acknowledgedAt else Some(now))
        case Some(Silenced) =>
          && after.status == Silenced && after.acknowledgedAt == before.acknowledgedAt
          && after.resolvedAt == before.resolvedAt
        case Some(Resolved) =>
          after.status == Resolved && after.acknowledgedAt == before.acknowledgedAt && after.resolvedAt == Some(now))
    && SilencedAs(before, edit, now, after)
    && after.source == before.source && after.fingerprint == before.fingerprint && after.automation == before.automation
    && after.createdAt == before.createdAt && StandsAt(ps, after, before.createdAt, now)
  }

  /** Reopening ends a silence; else the time asked for counts, and silencing without one is for an hour. */
  ghost predicate SilencedAs(before: Case, edit: CaseEdit, now: int, after: Case) {
    && (edit.status == Some(Open) ==> after.silencedUntil.None?)
    && (edit.status != Some(Open) && edit.silencedUntil.Some? ==> after.silencedUntil == edit.silencedUntil.value)
    && (edit.status == Some(Silenced) && edit.silencedUntil.None? ==> after.silencedUntil == Some(now + 3_600_000))
    && (edit.status !in {Some(Open), Some(Silenced)} && edit.silencedUntil.None? ==>
          after.silencedUntil == before.silencedUntil)
  }

  /** An update is carried out on its case and no other unless the case or the assignee is unknown. */
  lemma UpdateMeans(d: Desk, users: set<string>, id: nat, edit: CaseEdit, now: int)
    ensures var outcome := UpdateCase(d, users, id, edit, now);
            if id >= |d.cases| then outcome == Outcome(d, Some(UnknownCase))
            else if edit.assignee.Some? && UnknownPerson(users, edit.assignee.value)
                then outcome == Outcome(d, Some(UnknownUser))
            else
              && outcome.error.None? && outcome.desk.policies == WithDefaults(d.policies)
              && |outcome.desk.cases| == |d.cases|
              && (forall i :: 0 <= i < |d.cases| && i != id ==> outcome.desk.cases[i] == d.cases[i])
              && UpdatedAs(outcome.desk.policies, d.cases[id], edit, now, outcome.desk.cases[id])
  {
    hide Trim, WithDefaults, Edited, UpdatedAs;
    if UpdateCase(d, users, id, edit, now).error.None? {
      EditedMeans(WithDefaults(d.policies), d.cases[id], edit, now);
    }
  }

  lemma EditedMeans(ps: seq<Policy>, c: Case, edit: CaseEdit, now: int)
    ensures UpdatedAs(ps, c, edit, now, Edited(ps, c, edit, NextAssignee(c, edit), now))
  {
    hide Trim, Build, Stands, NormalizeKind, NormalizeSeverity, Word;
    var t := Edited(ps, c, edit, NextAssignee(c, edit), now);
    if edit.kind.Some? {
      WordsMean(edit.kind.value);
    }
    if edit.severity.Some? {
      WordsMean(edit.severity.value);
    }
    BuildStands(ps, t.kind, t.severity, t.status, c.createdAt, t.acknowledgedAt, t.assignee, now);
  }

  /** The case a hit raises. */
  ghost predicate RaisedAs(ps: seq<Policy>, rule: nat, hit: Hit, now: int, createdAt: int, c: Case) {
    && c.kind == hit.kind && c.severity == hit.severity && c.status == Open && c.source == "automation"
    && c.fingerprint == Some(hit.fingerprint) && c.automation == Some(rule) && c.assignee.None?
    && c.createdAt == createdAt && c.acknowledgedAt.None? && c.resolvedAt.None? && c.silencedUntil.None?
    && StandsAt(ps, c, now, now)
  }

  /**
   The case a hit confirms: a resolved one is open again, and what is open then is neither acknowledged nor
   silenced.
   */
  ghost predicate ConfirmedAs(ps: seq<Policy>, hit: Hit, now: int, before: Case, after: Case) {
    && after.kind == hit.kind && after.severity == hit.severity
    && after.status == (if before.status == Resolved then Open else before.status)
    && (after.status == Open ==> after.acknowledgedAt.None? && after.resolvedAt.None? && after.silencedUntil.None?)
    && (after.status != Open ==>
          && after.acknowledgedAt == before.acknowledgedAt && after.resolvedAt == before.resolvedAt
          && after.silencedUntil == before.silencedUntil)
    && after.source == before.source && after.fingerprint == before.fingerprint && after.automation == before.automation
    && after.assignee == before.assignee && after.createdAt == before.createdAt
    && StandsAt(ps, after, before.createdAt, now)
  }

  /**
   A hit confirms the case of its fingerprint, or raises one behind all others if there is none; nothing else
   changes.
   */
  lemma HitMeans(d: Desk, rule: nat, hit: Hit, now: int, createdAt: int, id: nat)
    requires OneCasePerFingerprint(d.cases)
    ensures var after := UpsertHit(d, rule, hit, now, createdAt);
            && after.policies == WithDefaults(d.policies)
            && (id < |d.cases| && d.cases[id].fingerprint == Some(hit.fingerprint) ==>
                  && |after.cases| == |d.cases|
                  && (forall i :: 0 <= i < |d.cases| && i != id ==> after.cases[i] == d.cases[i])
                  && ConfirmedAs(after.policies, hit, now, d.cases[id], after.cases[id]))
            && ((forall i :: 0 <= i < |d.cases| ==> d.cases[i].fingerprint != Some(hit.fingerprint)) ==>
                  && |after.cases| == |d.cases| + 1 && after.cases[..|d.cases|] == d.cases
                  && RaisedAs(after.policies, rule, hit, now, createdAt, after.cases[|d.cases|]))
  {
    hide WithDefaults, Build, Stands, Find;
    var ps := WithDefaults(d.policies);
    BuildStands(ps, hit.kind, hit.severity, Open, now, None, None, now);
    if id < |d.cases| && d.cases[id].fingerprint == Some(hit.fingerprint) {
      var c := Confirmed(ps, d.cases[id], hit, now);
      BuildStands(ps, c.kind, c.severity, c.status, c.createdAt, c.acknowledgedAt, c.assignee, now);
    }
  }

  /**
   A recalculation computes every case's state anew, for its stored fields and its own creation time, and
   nothing else.
   */
  lemma RecalculationMeans(d: Desk, times: seq<int>)
    requires |times| == |d.cases|
    ensures var after := Recalculate(d, times).0;
            && after.policies == WithDefaults(d.policies) && |after.cases| == |d.cases|
            && forall i :: 0 <= i < |d.cases| ==>
                 && after.cases[i] == d.cases[i].(op := after.cases[i].op)
                 && StandsAt(after.policies, after.cases[i], d.cases[i].createdAt, times[i])
  {
    hide WithDefaults, Build, Stands, RecomputeFirst;
    var ps := WithDefaults(d.policies);
    RecomputeFirstIs(ps, d.cases, times, |d.cases|);
    forall i | 0 <= i < |d.cases|
      ensures StandsAt(ps, Recomputed(ps, d.cases[i], times[i]), d.cases[i].createdAt, times[i])
    {
      var c := d.cases[i];
      BuildStands(ps, c.kind, c.severity, c.status, c.createdAt, c.acknowledgedAt, c.assignee, times[i]);
    }
  }

  /** What the recovery leaves of a case it gets to: resolved, closed and out of breach, everything else as it was. */
  ghost predicate RecoveredAs(now: int, before: Case, after: Case) {
    && after.status == Resolved && after.resolvedAt == Some(now) && after.silencedUntil.None?
    && after.op.triage.Closed? && after.op.breachedAt.None?
    && after == before.(status := after.status, resolvedAt := after.resolvedAt, silencedUntil := None,
                        op := before.op.(triage := after.op.triage, breachedAt := None))
  }

  /** An open case of the rule that is not among the fingerprints. */
  ghost predicate LeftOut(c: Case, rule: nat, fingerprints: seq<string>) {
    && c.automation == Some(rule) && c.source == "automation" && c.status != Resolved
    && c.fingerprint.Some? && c.fingerprint.value !in fingerprints
  }

  /** A whole recovery recovers exactly the rule's open cases that are left out. */
  lemma RecoveryMeans(d: Desk, rule: nat, fingerprints: seq<string>, clock: nat -> int, i: nat)
    requires i < |d.cases| && (d.cases[i].automation.Some? ==> d.cases[i].fingerprint.Some?)
    ensures var after := ResolveRecovered(d, rule, fingerprints, clock).cases;
            && i < |after|
            && (if LeftOut(d.cases[i], rule, fingerprints) then RecoveredAs(clock(i), d.cases[i], after[i])
                else after[i] == d.cases[i])
  {
    hide WithDefaults, StaleCount, Reached;
    WholeRecovery(d, rule, fingerprints, clock, i);
    assert Stale(d.cases[i], rule, fingerprints) <==> LeftOut(d.cases[i], rule, fingerprints);
  }
}
