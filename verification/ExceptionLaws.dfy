/**
 Laws of the exception cases: recalculation settles, bulk updates are all or nothing, and what the
 stored fields do not promise.
 */
module ExceptionLaws {
  import opened Exceptions
  import opened Options
  import opened Sla
  import opened Text
  import opened Uniqueness

  // ---------- recalculation ----------

  /** How many of the first n cases a recomputation changes in one of the counted ways. */
  ghost function Differing(ps: seq<Policy>, cases: seq<Case>, n: nat, differs: (Operational, Operational) -> bool): nat
    requires n <= |cases|
  {
    if n == 0 then 0
    else Differing(ps, cases, n - 1, differs)
         + if differs(cases[n - 1].op, Recomputed(ps, cases[n - 1], 0).op) then 1 else 0
  }

  ghost predicate OtherPolicy(a: Operational, b: Operational) {
    a.policy != b.policy
  }

  ghost predicate OtherQueue(a: Operational, b: Operational) {
    a.queueKey != b.queueKey
  }

  ghost predicate OtherTriage(a: Operational, b: Operational) {
    a.triage != b.triage
  }

  ghost predicate OtherDeadlines(a: Operational, b: Operational) {
    a.firstDue != b.firstDue || a.resolveDue != b.resolveDue
  }

  lemma TimelessParts(ps: seq<Policy>, c: Case, now: int, later: int)
    ensures var a, b := Recomputed(ps, c, now).op, Recomputed(ps, c, later).op;
            b == a.(priority := b.priority, breachedAt := b.breachedAt)
  {
    hide Build;
    if now <= later {
      OnlyBreachAndScoreDependOnTime(ps, c.kind, c.severity, c.status, c.createdAt, c.acknowledgedAt, c.assignee,
                                     now, later);
    } else {
      OnlyBreachAndScoreDependOnTime(ps, c.kind, c.severity, c.status, c.createdAt, c.acknowledgedAt, c.assignee,
                                     later, now);
    }
  }

  /** The report counts exactly the cases whose policy, queue, triage or deadlines come out differently, at whatever
   times. */
  lemma {:induction false} ReportCounts(ps: seq<Policy>, cases: seq<Case>, times: seq<int>, n: nat)
    requires n <= |cases| == |times|
    ensures var (_, changes) := RecomputeFirst(ps, cases, times, n);
            && changes.policy == Differing(ps, cases, n, OtherPolicy)
            && changes.queue == Differing(ps, cases, n, OtherQueue)
            && changes.triage == Differing(ps, cases, n, OtherTriage)
            && changes.deadlines == Differing(ps, cases, n, OtherDeadlines)
  {
    hide Recomputed;
    if n > 0 {
      ReportCounts(ps, cases, times, n - 1);
      TimelessParts(ps, cases[n - 1], times[n - 1], 0);
    }
  }

  lemma {:induction false} NoneDiffers(ps: seq<Policy>, cases: seq<Case>, n: nat,
                                       differs: (Operational, Operational) -> bool)
    requires n <= |cases|
    requires forall i :: 0 <= i < n ==> !differs(cases[i].op, Recomputed(ps, cases[i], 0).op)
    ensures Differing(ps, cases, n, differs) == 0
  {
    hide Recomputed;
    if n > 0 {
      NoneDiffers(ps, cases, n - 1, differs);
    }
  }

  lemma RecomputedTwice(ps: seq<Policy>, c: Case, now: int, later: int)
    ensures Recomputed(ps, Recomputed(ps, c, now), later) == Recomputed(ps, c, later)
  {
    hide Build;
  }

  /**
   A second recalculation, at any later times and with the policies unchanged, reports no change at all,
   and alters nothing but breach times and priorities.
   */
  lemma RecalculationSettles(d: Desk, times: seq<int>, later: seq<int>)
    requires |times| == |later| == |d.cases|
    ensures var once := Recalculate(d, times).0;
            && |once.cases| == |d.cases|
            && var (twice, changes) := Recalculate(once, later);
            && changes == Changes(0, 0, 0, 0) && twice.policies == once.policies && |twice.cases| == |once.cases|
            && forall i :: 0 <= i < |once.cases| ==>
                 twice.cases[i] == once.cases[i].(op := once.cases[i].op.(
                   priority := twice.cases[i].op.priority, breachedAt := twice.cases[i].op.breachedAt))
  {
    hide WithDefaults, RecomputeFirst, Recomputed, OtherPolicy, OtherQueue, OtherTriage, OtherDeadlines;
    var ps := WithDefaults(d.policies);
    DefaultsSettle(d.policies);
    RecomputeFirstIs(ps, d.cases, times, |d.cases|);
    var once := Recalculate(d, times).0;
    RecomputeFirstIs(ps, once.cases, later, |once.cases|);
    forall i | 0 <= i < |once.cases| ensures SettledCase(ps, d.cases[i], times[i], later[i], once.cases[i]) {
      SettledHolds(ps, d.cases[i], times[i], later[i]);
    }
    ReportCounts(ps, once.cases, later, |once.cases|);
    NoneDiffers(ps, once.cases, |once.cases|, OtherPolicy);
    NoneDiffers(ps, once.cases, |once.cases|, OtherQueue);
    NoneDiffers(ps, once.cases, |once.cases|, OtherTriage);
    NoneDiffers(ps, once.cases, |once.cases|, OtherDeadlines);
  }

  /** A recomputed case stays as it is, breach time and priority aside. */
  ghost predicate SettledCase(ps: seq<Policy>, original: Case, now: int, later: int, c: Case) {
    var zero, next := Recomputed(ps, c, 0), Recomputed(ps, c, later);
    && c == Recomputed(ps, original, now)
    && !OtherPolicy(c.op, zero.op) && !OtherQueue(c.op, zero.op) && !OtherTriage(c.op, zero.op)
        && !OtherDeadlines(c.op, zero.op)
    && next == c.(op := c.op.(priority := next.op.priority, breachedAt := next.op.breachedAt))
  }

  lemma SettledHolds(ps: seq<Policy>, original: Case, now: int, later: int)
    ensures SettledCase(ps, original, now, later, Recomputed(ps, original, now))
  {
    TimelessParts(ps, original, now, 0);
    TimelessParts(ps, original, now, later);
    RecomputedTwice(ps, original, now, 0);
    RecomputedTwice(ps, original, now, later);
    RecomputedKeepsRest(ps, original, now, later);
    hide Recomputed;
  }

  lemma RecomputedKeepsRest(ps: seq<Policy>, c: Case, now: int, later: int)
    ensures Recomputed(ps, c, later) == Recomputed(ps, c, now).(op := Recomputed(ps, c, later).op)
  {
    hide Build;
  }

  /** On every reachable desk the stored triage is right already, so no recalculation ever corrects one. */
  lemma TriageIsNeverCorrected(events: seq<Event>, times: seq<int>)
    requires |times| == |After(Desk([], []), events).cases|
    ensures Recalculate(After(Desk([], []), events), times).1.triage == 0
  {
    var d := After(Desk([], []), events);
    EmptyDeskOk();
    RunKeeps(Desk([], []), events);
    hide After, WithDefaults, RecomputeFirst;
    ReportCounts(WithDefaults(d.policies), d.cases, times, |d.cases|);
    forall i | 0 <= i < |d.cases| ensures !OtherTriage(d.cases[i].op,
                                                       Recomputed(WithDefaults(d.policies), d.cases[i], 0).op) {
      assert CaseOk(d.cases[i]);
    }
    NoneDiffers(WithDefaults(d.policies), d.cases, |d.cases|, OtherTriage);
  }

  // ---------- bulk updates ----------

  ghost predicate Listed(ids: seq<nat>, d: Desk) {
    Distinct(ids) && forall i :: 0 <= i < |ids| ==> ids[i] < |d.cases|
  }

  /** The case a bulk action makes of a selected one at its turn. */
  ghost function TurnOf(d: Desk, c: Case, action: Action, assignee: string, until: Option<int>, now: int): Case {
    var edit := EditFor(action, assignee, until, now);
    Edited(WithDefaults(d.policies), c, edit, NextAssignee(c, edit), now)
  }

  /** The first n selected cases were edited, each at its own time, and no other. */
  ghost predicate FirstEdited(d: Desk, ids: seq<nat>, action: Action, assignee: string, until: Option<int>,
                              clock: nat -> int, n: nat, after: Desk)
    requires n <= |ids| && forall i :: 0 <= i < |ids| ==> ids[i] < |d.cases|
  {
    && |after.cases| == |d.cases| && WithDefaults(after.policies) == WithDefaults(d.policies)
    && (forall i :: 0 <= i < n ==> after.cases[ids[i]] == TurnOf(d, d.cases[ids[i]], action, assignee, until, clock(i)))
    && forall j :: 0 <= j < |d.cases| && j !in ids[..n] ==> after.cases[j] == d.cases[j]
  }

  /** Nobody is assigned, or somebody who may be. */
  predicate MayAssign(users: set<string>, action: Action, assignee: string) {
    action.Assign? ==> UserOk(users, assignee)
  }

  lemma TurnIs(d: Desk, users: set<string>, id: nat, action: Action, assignee: string, until: Option<int>, now: int)
    requires id < |d.cases| && MayAssign(users, action, assignee)
    ensures var turn := UpdateCase(d, users, id, EditFor(action, assignee, until, now), now);
            && turn.error.None? && turn.desk.policies == WithDefaults(d.policies)
            && turn.desk.cases == d.cases[id := TurnOf(d, d.cases[id], action, assignee, until, now)]
  {
    hide Edited, WithDefaults, NextAssignee;
    TrimIdentity("");
    hide Trim;
  }

  lemma FirstEditedNext(d: Desk, ids: seq<nat>, action: Action, assignee: string, until: Option<int>, clock: nat -> int,
                        n: nat, before: Desk, after: Desk)
    requires n < |ids| && Listed(ids, d) && FirstEdited(d, ids, action, assignee, until, clock, n, before)
    requires after.policies == WithDefaults(before.policies)
    requires after.cases
          == before.cases[ids[n] := TurnOf(before, before.cases[ids[n]], action, assignee, until, clock(n))]
    ensures FirstEdited(d, ids, action, assignee, until, clock, n + 1, after)
  {
    hide Edited, NextAssignee, EditFor, WithDefaults;
    DefaultsSettle(before.policies);
    assert ids[..n + 1] == ids[..n] + [ids[n]];
    assert ids[n] !in ids[..n];
  }

  /** The loop edits every selected case once. */
  lemma {:induction false} UpdateFirstIs(d: Desk, users: set<string>, ids: seq<nat>, action: Action, assignee: string,
                                         until: Option<int>, clock: nat -> int, n: nat)
    requires n <= |ids| && Listed(ids, d) && MayAssign(users, action, assignee)
    ensures var result := UpdateFirst(d, users, ids, action, assignee, until, clock, n);
            result.error.None? && FirstEdited(d, ids, action, assignee, until, clock, n, result.desk)
  {
    hide UpdateCase, EditFor, TurnOf, WithDefaults, MayAssign, FirstEdited;
    if n == 0 {
      NothingEdited(d, ids, action, assignee, until, clock);
    } else {
      UpdateFirstIs(d, users, ids, action, assignee, until, clock, n - 1);
      var before := UpdateFirst(d, users, ids, action, assignee, until, clock, n - 1).desk;
      SameRows(d, ids, action, assignee, until, clock, n - 1, before);
      TurnIs(before, users, ids[n - 1], action, assignee, until, clock(n - 1));
      FirstEditedNext(d, ids, action, assignee, until, clock, n - 1, before,
                      UpdateFirst(d, users, ids, action, assignee, until, clock, n).desk);
    }
  }

  lemma NothingEdited(d: Desk, ids: seq<nat>, action: Action, assignee: string, until: Option<int>, clock: nat -> int)
    requires Listed(ids, d)
    ensures FirstEdited(d, ids, action, assignee, until, clock, 0, d)
  {
  }

  lemma SameRows(d: Desk, ids: seq<nat>, action: Action, assignee: string, until: Option<int>, clock: nat -> int,
                 n: nat, after: Desk)
    requires n <= |ids| && Listed(ids, d) && FirstEdited(d, ids, action, assignee, until, clock, n, after)
    ensures |after.cases| == |d.cases|
  {
  }

  /** What a bulk action leaves of a selected case. */
  ghost predicate ActionDone(action: Action, assignee: string, until: Option<int>, now: int, before: Case,
                             after: Case) {
    match action
    case Ack => after.status.Acknowledged? && after.acknowledgedAt.Some?
    case Resolve => after.status.Resolved? && after.resolvedAt == Some(now) && after.op.triage.Closed?
        && after.op.breachedAt.None?
    case Reopen => after.status.Open? && after.acknowledgedAt.None? && after.resolvedAt.None?
        && after.silencedUntil.None?
    case SilenceOneHour =>
      after.status.Silenced? && after.silencedUntil == Some(if until.Some? then until.value else now + HOUR)
    case Assign => after.assignee == Some(Trim(assignee)) && after.status == before.status && !after.op.triage.Pending?
    case Unassign => after.assignee == None && after.status == before.status
  }

  lemma EditDoesAction(ps: seq<Policy>, c: Case, action: Action, assignee: string, until: Option<int>, now: int)
    requires action.Assign? ==> Trim(assignee) != ""
    ensures var edit := EditFor(action, assignee, until, now);
            ActionDone(action, assignee, until, now, c, Edited(ps, c, edit, NextAssignee(c, edit), now))
  {
    hide NormalizeKind, NormalizeSeverity, SelectPolicy, Score, Level, DefaultQueue, Trim;
    if action.Unassign? {
      TrimIdentity("");
    }
  }

  /** The requests a bulk update accepts. */
  ghost predicate Accepted(d: Desk, users: set<string>, ids: seq<nat>, action: Action, assignee: string) {
    && ids != [] && (forall i :: 0 <= i < |ids| ==> ids[i] < |d.cases|)
    && (action.Assign? ==> Trim(assignee) != "" && Trim(assignee) in users)
  }

  /** Every selected case had the action done to it, each at its own time, and no other case changed. */
  ghost predicate CarriedOut(d: Desk, ids: seq<nat>, action: Action, assignee: string, until: Option<int>,
                             clock: nat -> int, after: Desk) {
    var chosen := Unique(ids);
    && |after.cases| == |d.cases|
    && (forall i :: 0 <= i < |chosen| ==>
          0 <= chosen[i] < |d.cases|
          && ActionDone(action, assignee, until, clock(i), d.cases[chosen[i]], after.cases[chosen[i]]))
    && forall j :: 0 <= j < |d.cases| && j !in ids ==> after.cases[j] == d.cases[j]
  }

  /**
   A bulk update is all or nothing: it refuses without touching anything, or it carries out its action
   on every selected case and touches no other.
   */
  lemma BulkIsAllOrNothing(d: Desk, users: set<string>, ids: seq<nat>, action: Action, assignee: string,
                           until: Option<int>, clock: nat -> int)
    ensures var result := BulkUpdate(d, users, ids, action, assignee, until, clock);
            && (result.error.None? <==> Accepted(d, users, ids, action, assignee))
            && (if result.error.Some? then result.desk == d
                else CarriedOut(d, ids, action, assignee, until, clock, result.desk))
  {
    var chosen := Unique(ids);
    SelectionIs(d, ids);
    hide Trim, Unique, UpdateFirst, CarriedOut;
    UniqueSound(ids);
    if chosen != [] && Listed(chosen, d) && (action.Assign? ==> Trim(assignee) != "") {
      if MayAssign(users, action, assignee) {
        UpdateFirstIs(d, users, chosen, action, assignee, until, clock, |chosen|);
        EditedCarriesOut(d, ids, action, assignee, until, clock,
                         UpdateFirst(d, users, chosen, action, assignee, until, clock, |chosen|).desk);
      } else {
        FirstTurnRefused(d, users, chosen, assignee, until, clock, |chosen|);
      }
    }
  }

  lemma EditedCarriesOut(d: Desk, ids: seq<nat>, action: Action, assignee: string, until: Option<int>,
                         clock: nat -> int, after: Desk)
    requires Listed(Unique(ids), d) && FirstEdited(d, Unique(ids), action, assignee, until, clock, |Unique(ids)|, after)
    requires action.Assign? ==> Trim(assignee) != ""
    ensures CarriedOut(d, ids, action, assignee, until, clock, after)
  {
    hide TurnOf, WithDefaults, ActionDone, Trim, Unique;
    var chosen := Unique(ids);
    UniqueSound(ids);
    assert chosen[..|chosen|] == chosen;
    forall i | 0 <= i < |chosen|
      ensures ActionDone(action, assignee, until, clock(i), d.cases[chosen[i]], after.cases[chosen[i]])
    {
      TurnDoesAction(d, d.cases[chosen[i]], action, assignee, until, clock(i));
    }
  }

  lemma TurnDoesAction(d: Desk, c: Case, action: Action, assignee: string, until: Option<int>, now: int)
    requires action.Assign? ==> Trim(assignee) != ""
    ensures ActionDone(action, assignee, until, now, c, TurnOf(d, c, action, assignee, until, now))
  {
    hide Edited, WithDefaults, ActionDone, EditFor, NextAssignee;
    EditDoesAction(WithDefaults(d.policies), c, action, assignee, until, now);
  }

  /** An unknown assignee stops the loop at its first turn. */
  lemma {:induction false} FirstTurnRefused(d: Desk, users: set<string>, ids: seq<nat>, assignee: string,
                                            until: Option<int>, clock: nat -> int, n: nat)
    requires 0 < n <= |ids| && ids[0] < |d.cases| && !UserOk(users, assignee)
    ensures UpdateFirst(d, users, ids, Assign, assignee, until, clock, n) == Outcome(d, Some(UnknownUser))
  {
    hide Edited, WithDefaults, UserOk;
    if n > 1 {
      FirstTurnRefused(d, users, ids, assignee, until, clock, n - 1);
    }
  }

  lemma SelectionIs(d: Desk, ids: seq<nat>)
    ensures Unique(ids) == [] <==> ids == []
    ensures Listed(Unique(ids), d) <==> forall i :: 0 <= i < |ids| ==> ids[i] < |d.cases|
  {
    hide Unique;
    UniqueSound(ids);
    assert ids != [] ==> ids[0] in Unique(ids);
    assert Unique(ids) != [] ==> Unique(ids)[0] in ids;
    forall i | 0 <= i < |ids| ensures ids[i] in Unique(ids) {
    }
    forall i | 0 <= i < |Unique(ids)| ensures Unique(ids)[i] in ids {
    }
  }

  // ---------- what the stored fields do not promise ----------

  /**
   An update keeps "resolved at is set exactly on resolved cases" unless it acknowledges or silences a resolved
   case.
   */
  lemma ResolvedAtLeavesIff(ps: seq<Policy>, c: Case, edit: CaseEdit, assignee: Option<string>, now: int)
    requires c.resolvedAt.Some? <==> c.status.Resolved?
    ensures var t := Edited(ps, c, edit, assignee, now);
            (t.resolvedAt.Some? <==> t.status.Resolved?)
            <==> !(c.status.Resolved? && (edit.status == Some(Acknowledged) || edit.status == Some(Silenced)))
  {
    hide Build, NormalizeKind, NormalizeSeverity;
  }

  /** A run of two requests that leaves an acknowledged case with a resolution time. */
  lemma ResolvedAtCanRemain()
    ensures var events := [Create({}, NewCase("", "", Some(Resolved), "", "", None), 0, 0),
                           Update({}, 0, CaseEdit(None, None, Some(Acknowledged), None, None), 5)];
            var d := After(Desk([], []), events);
            |d.cases| == 1 && d.cases[0].status.Acknowledged? && d.cases[0].resolvedAt == Some(0)
  {
    hide Build, WithDefaults, NormalizeKind, NormalizeSeverity, Lower, Trim;
    TrimIdentity("");
    var create := Create({}, NewCase("", "", Some(Resolved), "", "", None), 0, 0);
    var update := Update({}, 0, CaseEdit(None, None, Some(Acknowledged), None, None), 5);
    assert [create, update][1..] == [update] && [update][1..] == [];
    var created := Step(Desk([], []), create);
    assert |created.cases| == 1 && created.cases[0].resolvedAt == Some(0);
  }

  /** Recovery keeps the urgency and priority the case had while open; an update to resolved would lower the urgency. */
  lemma RecoveryKeepsUrgency(ps: seq<Policy>, c: Case, before: int, now: int)
    requires OpenLike(c.status) && c.op == Recomputed(ps, c, before).op
    ensures Recovered(c, now).op.priority == c.op.priority
    ensures Recovered(c, now).op.urgency == Recomputed(ps, Recovered(c, now), now).op.urgency
            <==> NormalizeSeverity(c.severity) !in {"critical", "high", "medium"}
  {
    hide NormalizeKind, NormalizeSeverity, SelectPolicy, Score, DefaultQueue;
  }

  /** The stored breach time is the time of the last computation, not of the breach. */
  lemma BreachIsRestamped(ps: seq<Policy>, c: Case, now: int, later: int)
    requires now <= later && Recomputed(ps, c, now).op.breachedAt.Some?
    ensures Recomputed(ps, c, now).op.breachedAt == Some(now)
    ensures Recomputed(ps, Recomputed(ps, c, now), later).op.breachedAt == Some(later)
  {
    hide NormalizeKind, NormalizeSeverity, SelectPolicy, Score, Level, DefaultQueue;
  }
}
