/**
 The service of apps/api/src/exceptions/exceptions.service.ts as an object: its methods change the
 stored rows in loops, each tied to the function of Exceptions that says what it leaves behind.
 */
module ExceptionsService {
  import opened Exceptions
  import opened Options
  import opened Sla
  import opened Text
  import opened Uniqueness

  class Service {
    var policies: seq<Policy>
    var cases: seq<Case>

    ghost function View(): Desk
      reads this
    {
      Desk(policies, cases)
    }

    constructor ()
      ensures View() == Desk([], [])
    {
      policies, cases := [], [];
    }

    /** `upsert` of every default with nothing to update. */
    method EnsureDefaultSlaPolicies()
      modifies this`policies
      ensures policies == WithDefaults(old(policies))
    {
      hide HasPolicy;
      var i := 0;
      assert DEFAULTS[0..] == DEFAULTS;
      while i < |DEFAULTS|
        invariant 0 <= i <= |DEFAULTS|
        invariant WithMissing(policies, DEFAULTS[i..]) == WithDefaults(old(policies))
      {
        assert DEFAULTS[i..][1..] == DEFAULTS[i + 1..];
        if !HasPolicy(policies, DEFAULTS[i].code) {
          policies := policies + [DEFAULTS[i]];
        }
        i := i + 1;
      }
    }

    method CreateSlaPolicy(input: NewPolicy) returns (error: Option<SlaError>)
      modifies this`policies
      ensures View() == Kept(old(View()), CreatePolicy(old(policies), input))
      ensures error.Some? <==> CreatePolicy(old(policies), input).Rejected?
    {
      hide Upper, Trim, NormalizeKind, NormalizeSeverity, HasPolicy, DefaultQueue;
      var code, name := Upper(Trim(input.code)), Trim(input.name);
      var kind, severity := NormalizeKind(input.kind), NormalizeSeverity(input.severity);
      var queueKey := Or(Trim(input.queueKey), DefaultQueue(kind));
      var first, resolution := Get(input.firstResponse, 30), Get(input.resolution, 240);
      if code == "" || name == "" {
        return Some(MissingCodeOrName);
      }
      if first < 1 {
        return Some(BadFirstResponse);
      }
      if resolution < 1 {
        return Some(BadResolution);
      }
      if resolution < first {
        return Some(ResolutionTooShort);
      }
      if HasPolicy(policies, code) {
        return Some(CodeTaken);
      }
      policies := policies + [Policy(code, name, kind, severity, queueKey, first, resolution, Get(input.active, true))];
      error := None;
    }

    /** The checks of an update in their order, gathering the fields to write. */
    method CheckEdit(id: nat, edit: PolicyEdit) returns (error: Option<SlaError>, data: Policy)
      requires id < |policies|
      ensures error == EditError(policies, policies[id], edit)
      ensures error.None? ==> data == Apply(policies[id], PatchOf(policies[id], edit))
    {
      hide HasPolicy, Upper, Trim, Lower, DefaultQueue, NormalizeKind, NormalizeSeverity;
      var existing := policies[id];
      error, data := CheckTexts(id, edit);
      if error.Some? {
        return;
      }
      if edit.firstResponse.Some? {
        if edit.firstResponse.value < 1 {
          return Some(BadFirstResponse), existing;
        }
        data := data.(firstResponse := edit.firstResponse.value);
      }
      if edit.resolution.Some? {
        if edit.resolution.value < 1 {
          return Some(BadResolution), existing;
        }
        data := data.(resolution := edit.resolution.value);
      }
      if edit.active.Some? {
        data := data.(active := edit.active.value);
      }
      if data.resolution < data.firstResponse {
        error := Some(ResolutionTooShort);
      }
    }

    method CheckTexts(id: nat, edit: PolicyEdit) returns (error: Option<SlaError>, data: Policy)
      requires id < |policies|
      ensures error == TextError(policies, policies[id], PatchOf(policies[id], edit))
      ensures error.None? ==>
                data == Apply(policies[id],
                              PatchOf(policies[id], edit.(firstResponse := None, resolution := None, active := None)))
    {
      hide HasPolicy, Upper, Trim, Lower, DefaultQueue, NormalizeKind, NormalizeSeverity, TextError;
      var existing := policies[id];
      var code, name;
      error, code, name := CheckNames(id, edit);
      var nextKind := if edit.kind.Some? then NormalizeKind(edit.kind.value) else existing.kind;
      var severity := if edit.severity.Some? then NormalizeSeverity(edit.severity.value) else existing.severity;
      var queueKey := if edit.queueKey.Some? then Or(Trim(edit.queueKey.value), DefaultQueue(nextKind))
          else existing.queueKey;
      data := existing.(code := code, name := name, kind := nextKind, severity := severity, queueKey := queueKey);
    }

    method CheckNames(id: nat, edit: PolicyEdit) returns (error: Option<SlaError>, code: string, name: string)
      requires id < |policies|
      ensures error == TextError(policies, policies[id], PatchOf(policies[id], edit))
      ensures error.None? ==> code == Get(PatchOf(policies[id], edit).code, policies[id].code)
      ensures error.None? ==> name == Get(PatchOf(policies[id], edit).name, policies[id].name)
    {
      hide HasPolicy, Upper, Trim, Lower, DefaultQueue, NormalizeKind, NormalizeSeverity;
      code, name := policies[id].code, policies[id].name;
      if edit.code.Some? {
        code := Upper(Trim(edit.code.value));
        if code == "" {
          return Some(BadCode), code, name;
        }
        if code != policies[id].code && HasPolicy(policies, code) {
          return Some(CodeTaken), code, name;
        }
      }
      if edit.name.Some? {
        name := Trim(edit.name.value);
        if name == "" {
          return Some(BadName), code, name;
        }
      }
      error := None;
    }

    /**
     Nothing is written before the last check; a saved policy fits and differs from the old one in the
     requested fields only.
     */
    method UpdateSlaPolicy(id: nat, edit: PolicyEdit) returns (error: Option<SlaError>)
      modifies this`policies
      ensures View() == Kept(old(View()), UpdatePolicy(old(policies), id, edit))
      ensures error.Some? <==> UpdatePolicy(old(policies), id, edit).Rejected?
      ensures error.Some? ==>
                policies == old(policies) && UpdatePolicy(old(policies), id, edit) == Rejected(error.value)
      ensures error.None? ==> OnlyRequested(old(policies), id, edit, policies)
      ensures AllFit(old(policies)) ==> AllFit(policies)
    {
      hide PatchOf, EditError, Apply, OnlyRequested, AllFit;
      if AllFit(policies) {
        UpdatedFits(policies, id, edit);
      }
      if id >= |policies| {
        return Some(NotFound);
      }
      var data;
      error, data := CheckEdit(id, edit);
      if error.None? {
        SavedOnlyRequested(policies, id, edit);
        policies := policies[id := data];
      }
    }

    /** `ensureDefaultSlaPolicies` and the computation after it. */
    method BuildOperationalState(kind: string, severity: string, status: Status, createdAt: int,
                                 acknowledgedAt: Option<int>,
                                 assignee: Option<string>, now: int) returns (o: Operational)
      modifies this`policies
      ensures policies == WithDefaults(old(policies))
      ensures o == Build(policies, kind, severity, status, createdAt, acknowledgedAt, assignee, now)
    {
      hide SelectPolicy, NormalizeKind, NormalizeSeverity, Score, Level, DefaultQueue, WithDefaults;
      EnsureDefaultSlaPolicies();
      var cleanKind, cleanSeverity := NormalizeKind(kind), NormalizeSeverity(severity);
      var policy := SelectPolicy(policies, cleanKind, cleanSeverity);
      var queueKey, first, resolution := DefaultQueue(cleanKind), 30, 240;
      if policy.Some? {
        var p := policies[policy.value];
        queueKey, first, resolution := Or(p.queueKey, queueKey), p.firstResponse, p.resolution;
      }
      var triage := TriageOf(status, acknowledgedAt, assignee);
      var firstDue, resolveDue := createdAt + first * MINUTE, createdAt + resolution * MINUTE;
      var breachedAt := None;
      if OpenLike(status) && (resolveDue <= now || (triage.Pending? && firstDue <= now)) {
        breachedAt := Some(now);
      }
      o := Operational(policy, queueKey, cleanKind, Level(cleanSeverity), if status.Resolved? then "low"
                       else Level(cleanSeverity),
                       Score(cleanSeverity, triage, assignee, breachedAt.Some?), triage, firstDue, resolveDue,
                       breachedAt);
    }

    method CreateException(users: set<string>, input: NewCase, now: int, createdAt: int)
      returns (error: Option<CaseError>)
      modifies this
      ensures Outcome(View(), error) == CreateCase(old(View()), users, input, now, createdAt)
    {
      hide Build, WithDefaults, NormalizeKind, NormalizeSeverity, Trim, Lower;
      if !UserOk(users, input.assignee) {
        return Some(UnknownUser);
      }
      var kind, severity, status := NormalizeKind(input.kind), NormalizeSeverity(input.severity),
          Get(input.status, Open);
      var source := Or(Lower(Trim(Or(input.source, "manual"))), "manual");
      var assignee := OrNull(Trim(input.assignee));
      var acknowledgedAt, resolvedAt := None, None;
      if status == Acknowledged {
        acknowledgedAt := Some(now);
      }
      if status == Resolved {
        resolvedAt := Some(now);
      }
      var o := BuildOperationalState(kind, severity, status, now, acknowledgedAt, assignee, now);
      cases := cases + [Case(kind, severity, status, source, None, None, assignee, createdAt, acknowledgedAt,
                             resolvedAt, input.silencedUntil, o)];
      error := None;
    }

    method UpdateException(users: set<string>, id: nat, edit: CaseEdit, now: int) returns (error: Option<CaseError>)
      modifies this
      ensures Outcome(View(), error) == UpdateCase(old(View()), users, id, edit, now)
    {
      hide Build, WithDefaults, NormalizeKind, NormalizeSeverity, Trim;
      if id >= |cases| {
        return Some(UnknownCase);
      }
      var c := cases[id];
      var acknowledgedAt, resolvedAt, silencedUntil := c.acknowledgedAt, c.resolvedAt, c.silencedUntil;
      if edit.status.Some? {
        if edit.status == Some(Acknowledged) && acknowledgedAt.None? {
          acknowledgedAt := Some(now);
        }
        if edit.status == Some(Resolved) {
          resolvedAt := Some(now);
        }
        if edit.status == Some(Open) {
          acknowledgedAt, resolvedAt := None, None;
        }
      }
      if edit.assignee.Some? && !UserOk(users, edit.assignee.value) {
        return Some(UnknownUser);
      }
      var assignee := NextAssignee(c, edit);
      if edit.silencedUntil.Some? {
        silencedUntil := edit.silencedUntil.value;
      }
      if edit.status == Some(Open) {
        silencedUntil := None;
      }
      if edit.status == Some(Silenced) && edit.silencedUntil.None? {
        silencedUntil := Some(now + HOUR);
      }
      var kind := if edit.kind.Some? then NormalizeKind(edit.kind.value) else c.kind;
      var severity := if edit.severity.Some? then NormalizeSeverity(edit.severity.value) else c.severity;
      var status := Get(edit.status, c.status);
      var o := BuildOperationalState(kind, severity, status, c.createdAt, acknowledgedAt, assignee, now);
      cases := cases[id := c.(kind := kind, severity := severity, status := status, assignee := assignee,
                              acknowledgedAt := acknowledgedAt, resolvedAt := resolvedAt,
                                  silencedUntil := silencedUntil, op := o)];
      error := None;
    }

    method BulkUpdateExceptions(users: set<string>, ids: seq<nat>, action: Action, assignee: string, until: Option<int>,
                                clock: nat -> int)
      returns (error: Option<CaseError>)
      modifies this
      ensures Outcome(View(), error) == BulkUpdate(old(View()), users, ids, action, assignee, until, clock)
    {
      hide UpdateCase, EditFor, Trim, Unique;
      var chosen := Unique(ids);
      if chosen == [] {
        return Some(NothingSelected);
      }
      if exists i :: 0 <= i < |chosen| && chosen[i] >= |cases| {
        return Some(InvalidSelection);
      }
      if action.Assign? && Trim(assignee) == "" {
        return Some(AssigneeMissing);
      }
      var i := 0;
      error := None;
      while i < |chosen|
        invariant 0 <= i <= |chosen| && error.None?
        invariant Outcome(View(), None) == UpdateFirst(old(View()), users, chosen, action, assignee, until, clock, i)
      {
        error := UpdateException(users, chosen[i], EditFor(action, assignee, until, clock(i)), clock(i));
        i := i + 1;
        if error.Some? {
          ErrorEndsLoop(old(View()), users, chosen, action, assignee, until, clock, i, |chosen|);
          return;
        }
      }
    }

    method UpsertFromAutomation(rule: nat, hit: Hit, now: int, createdAt: int) returns (created: nat, updated: nat)
      modifies this
      ensures View() == UpsertHit(old(View()), rule, hit, now, createdAt)
      ensures (created, updated) == if Find(old(cases), hit.fingerprint).None? then (1, 0) else (0, 1)
    {
      hide Build, WithDefaults, Find;
      var existing := Find(cases, hit.fingerprint);
      if existing.None? {
        var o := BuildOperationalState(hit.kind, hit.severity, Open, now, None, None, now);
        cases := cases + [Case(hit.kind, hit.severity, Open, "automation", Some(hit.fingerprint), Some(rule), None,
                               createdAt,
                               None, None, None, o)];
        return 1, 0;
      }
      var c := cases[existing.value];
      var status := if c.status == Resolved then Open else c.status;
      var acknowledgedAt := if status == Open then None else c.acknowledgedAt;
      var o := BuildOperationalState(hit.kind, hit.severity, status, c.createdAt, acknowledgedAt, c.assignee, now);
      cases := cases[existing.value :=
                       c.(kind := hit.kind, severity := hit.severity, status := status,
                          acknowledgedAt := acknowledgedAt,
                          resolvedAt := if status == Open then None else c.resolvedAt,
                          silencedUntil := if status == Open then None else c.silencedUntil, op := o)];
      return 0, 1;
    }

    /** The query of a recovery: the rows that are stale now. */
    method FindStale(rule: nat, fingerprints: seq<string>) returns (ids: seq<nat>)
      ensures ids == StaleIds(cases, rule, fingerprints)
    {
      hide Stale;
      ids := [];
      var i := 0;
      while i < |cases|
        invariant 0 <= i <= |cases|
        invariant ids == StaleIds(cases[..i], rule, fingerprints)
      {
        assert cases[..i + 1][..i] == cases[..i];
        if Stale(cases[i], rule, fingerprints) {
          ids := ids + [i];
        }
        i := i + 1;
      }
      assert cases[..i] == cases;
    }

    /** The stale rows are found first, then resolved one by one, until the end or until something throws. */
    method ResolveRecoveredCases(rule: nat, fingerprints: seq<string>, clock: nat -> int, breaksAfter: Option<nat>)
      returns (resolved: nat)
      modifies this
      ensures View() == ResolveFirst(old(View()), rule, fingerprints, clock, Get(breaksAfter, |old(cases)|))
      ensures breaksAfter.None? ==> resolved == StaleCount(old(cases), rule, fingerprints)
    {
      hide Build, WithDefaults, Stale, StaleCount, StaleIds, TriageOf, RecoverFirst;
      var before, limit := cases, Get(breaksAfter, |cases|);
      var stale := FindStale(rule, fingerprints);
      FewStale(before, rule, fingerprints);
      DefaultsSettle(policies);
      NothingReached(before, rule, fingerprints, clock);
      resolved := 0;
      while resolved < |stale| && resolved < limit
        invariant 0 <= resolved <= |stale| && resolved <= limit
        invariant policies == if resolved > 0 then WithDefaults(old(policies)) else old(policies)
        invariant cases == RecoverFirst(before, rule, fingerprints, clock, resolved)
      {
        var id := stale[resolved];
        NextReached(before, rule, fingerprints, clock, resolved);
        var c := cases[id];
        var o := BuildOperationalState("automation", c.severity, Resolved, clock(id), None, None, clock(id));
        BuiltTriage(policies, c.severity, clock(id));
        cases := cases[id := c.(status := Resolved, resolvedAt := Some(clock(id)), silencedUntil := None,
                                op := c.op.(triage := o.triage, breachedAt := None))];
        resolved := resolved + 1;
      }
      if resolved < limit {
        ReachedAll(before, rule, fingerprints, clock, resolved);
        ReachedAll(before, rule, fingerprints, clock, limit);
      }
    }

    method RecalculateSlaPolicies(times: seq<int>) returns (changes: Changes)
      requires |times| == |cases|
      modifies this
      ensures (View(), changes) == Recalculate(old(View()), times)
    {
      hide Build, WithDefaults, Counted;
      DefaultsSettle(policies);
      EnsureDefaultSlaPolicies();
      var before := cases;
      changes := Changes(0, 0, 0, 0);
      var i := 0;
      while i < |before|
        invariant 0 <= i <= |before| == |cases|
        invariant policies == WithDefaults(old(policies))
        invariant cases[i..] == before[i..]
        invariant (cases[..i], changes) == RecomputeFirst(policies, before, times, i)
      {
        var c := before[i];
        assert cases[i] == cases[i..][0] == before[i..][0] == c;
        var o := BuildOperationalState(c.kind, c.severity, c.status, c.createdAt, c.acknowledgedAt, c.assignee,
                                       times[i]);
        changes := Counted(changes, c.op, o);
        ghost var earlier := cases;
        cases := cases[i := c.(op := o)];
        assert cases[..i + 1] == earlier[..i] + [c.(op := o)];
        assert cases[i + 1..] == earlier[i..][1..];
        i := i + 1;
      }
      assert cases[..i] == cases;
    }
  }

  lemma NothingReached(cases: seq<Case>, rule: nat, fingerprints: seq<string>, clock: nat -> int)
    ensures RecoverFirst(cases, rule, fingerprints, clock, 0) == cases
  {
    hide Stale, StaleCount, Recovered;
  }

  lemma {:induction false} ErrorEndsLoop(d: Desk, users: set<string>, ids: seq<nat>, action: Action, assignee: string,
                                         until: Option<int>, clock: nat -> int, n: nat, m: nat)
    requires n <= m <= |ids| && UpdateFirst(d, users, ids, action, assignee, until, clock, n).error.Some?
    ensures UpdateFirst(d, users, ids, action, assignee, until, clock, m)
         == UpdateFirst(d, users, ids, action, assignee, until, clock, n)
  {
    hide UpdateCase, EditFor;
    if n < m {
      ErrorEndsLoop(d, users, ids, action, assignee, until, clock, n, m - 1);
    }
  }

  lemma BuiltTriage(ps: seq<Policy>, severity: string, now: int)
    ensures Build(ps, "automation", severity, Resolved, now, None, None, now).triage == TriageOf(Resolved, None, None)
  {
  }
}
