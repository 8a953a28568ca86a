/**
 What creating and changing an SLA policy, and a bulk update of cases, do in
 apps/api/src/exceptions/exceptions.service.ts: when they are refused, for which reason, and what they leave.
 */
module PolicyLaws {
  import opened CaseLaws
  import opened ExceptionLaws
  import opened Exceptions
  import opened Options
  import opened Sla
  import opened Text
  import opened Uniqueness

  // ---------- creating a policy ----------

  /** The number asked for, or the usual one. */
  ghost predicate Asked(given: Option<int>, usual: int, n: int) {
    n == if given.Some? then given.value else usual
  }

  /** The code is that of a policy. */
  ghost predicate Taken(ps: seq<Policy>, code: string) {
    exists i :: 0 <= i < |ps| && ps[i].code == code
  }

  /** The queue asked for, or that of the kind. */
  ghost predicate QueueAsked(raw: string, kind: string, queue: string) {
    if Trim(raw) == "" then QueueOf(kind, queue) else queue == Trim(raw)
  }

  /** Why a new policy is refused: the first of these that holds. */
  ghost predicate NotCreated(ps: seq<Policy>, input: NewPolicy, first: int, resolution: int, error: SlaError) {
    if Trim(input.code) == "" || Trim(input.name) == "" then error.MissingCodeOrName?
    else if first < 1 then error.BadFirstResponse?
    else if resolution < 1 then error.BadResolution?
    else if resolution < first then error.ResolutionTooShort?
    else Taken(ps, Upper(Trim(input.code))) && error.CodeTaken?
  }

  ghost predicate CreatedAsAsked(input: NewPolicy, first: int, resolution: int, p: Policy) {
    && Trim(input.code) != "" && Trim(input.name) != "" && 1 <= first <= resolution
    && p.code == Upper(Trim(input.code)) && p.name == Trim(input.name) && Word(input.kind, "generic", p.kind)
    && Word(input.severity, "medium", p.severity) && QueueAsked(input.queueKey, p.kind, p.queueKey)
    && p.firstResponse == first && p.resolution == resolution
    && p.active == (input.active.None? || input.active.value)
  }

  lemma QueueKinds(kind: string)
    ensures QueueOf(kind, DefaultQueue(kind))
  {
  }

  lemma UpperEmpty(s: string)
    ensures Upper(s) == "" <==> s == ""
  {
    assert |Upper(s)| == |s|;
  }

  /** A new policy stands behind all others with what was asked, 30 and 240 minutes if nothing was, or is refused. */
  lemma CreatePolicyMeans(ps: seq<Policy>, input: NewPolicy, first: int, resolution: int)
    requires Asked(input.firstResponse, 30, first) && Asked(input.resolution, 240, resolution)
    ensures match CreatePolicy(ps, input)
            case Rejected(error) => NotCreated(ps, input, first, resolution, error)
            case Saved(after) =>
              && |after| == |ps| + 1 && after[..|ps|] == ps && CreatedAsAsked(input, first, resolution, after[|ps|])
              && !Taken(ps, after[|ps|].code)
  {
    WordsMean(input.kind);
    WordsMean(input.severity);
    UpperEmpty(Trim(input.code));
    hide Trim, Upper, Lower, Word, QueueOf, DefaultQueue, NormalizeKind, NormalizeSeverity;
    QueueKinds(NormalizeKind(input.kind));
  }

  // ---------- changing a policy ----------

  /** A required text that is given and empty. */
  ghost predicate GivenEmpty(text: Option<string>) {
    text.Some? && Trim(text.value) == ""
  }

  ghost predicate NewCodeTaken(ps: seq<Policy>, p: Policy, edit: PolicyEdit) {
    edit.code.Some? && Upper(Trim(edit.code.value)) != p.code && Taken(ps, Upper(Trim(edit.code.value)))
  }

  /** Why a change is refused: the first of these that holds. */
  ghost predicate NotChanged(ps: seq<Policy>, p: Policy, edit: PolicyEdit, error: SlaError) {
    if GivenEmpty(edit.code) then error.BadCode?
    else if NewCodeTaken(ps, p, edit) then error.CodeTaken?
    else if GivenEmpty(edit.name) then error.BadName?
    else if edit.firstResponse.Some? && edit.firstResponse.value < 1 then error.BadFirstResponse?
    else if edit.resolution.Some? && edit.resolution.value < 1 then error.BadResolution?
    else TooShort(p, edit) && error.ResolutionTooShort?
  }

  /** The resolution time would be below the first response time, taking what the request leaves out as it is. */
  ghost predicate TooShort(p: Policy, edit: PolicyEdit) {
    (if edit.resolution.Some? then edit.resolution.value else p.resolution)
    < (if edit.firstResponse.Some? then edit.firstResponse.value else p.firstResponse)
  }

  /** Nothing stands against the change. */
  ghost predicate MayChange(ps: seq<Policy>, p: Policy, edit: PolicyEdit) {
    && !GivenEmpty(edit.code) && !NewCodeTaken(ps, p, edit) && !GivenEmpty(edit.name) && !TooShort(p, edit)
    && (edit.firstResponse.Some? ==> edit.firstResponse.value >= 1)
    && (edit.resolution.Some? ==> edit.resolution.value >= 1)
  }

  ghost predicate TextsChanged(p: Policy, edit: PolicyEdit, after: Policy) {
    && after.code == (if edit.code.Some? then Upper(Trim(edit.code.value)) else p.code)
    && after.name == (if edit.name.Some? then Trim(edit.name.value) else p.name)
  }

  ghost predicate WordsChanged(p: Policy, edit: PolicyEdit, after: Policy) {
    && (if edit.kind.Some? then Word(edit.kind.value, "generic", after.kind) else after.kind == p.kind)
    && (if edit.severity.Some? then Word(edit.severity.value, "medium", after.severity)
        else after.severity == p.severity)
  }

  /** A queue left empty is that of the kind as it is then. */
  ghost predicate QueueChanged(p: Policy, edit: PolicyEdit, after: Policy) {
    if edit.queueKey.Some? then QueueAsked(edit.queueKey.value, after.kind, after.queueKey)
    else after.queueKey == p.queueKey
  }

  ghost predicate NumbersChanged(p: Policy, edit: PolicyEdit, after: Policy) {
    && Asked(edit.firstResponse, p.firstResponse, after.firstResponse)
    && Asked(edit.resolution, p.resolution, after.resolution)
    && after.active == (if edit.active.Some? then edit.active.value else p.active)
  }

  /** What is given is written, cleaned, and everything else stays. */
  ghost predicate ChangedAsAsked(p: Policy, edit: PolicyEdit, after: Policy) {
    TextsChanged(p, edit, after) && WordsChanged(p, edit, after) && QueueChanged(p, edit, after)
    && NumbersChanged(p, edit, after)
  }

  /** The fields to be written, one by one. */
  lemma PatchTexts(p: Policy, edit: PolicyEdit)
    ensures PatchOf(p, edit).code == if edit.code.Some? then Some(Upper(Trim(edit.code.value))) else None
    ensures PatchOf(p, edit).name == if edit.name.Some? then Some(Trim(edit.name.value)) else None
  {
    hide Trim, Upper, DefaultQueue, NormalizeKind, NormalizeSeverity;
  }

  lemma PatchWords(p: Policy, edit: PolicyEdit)
    ensures PatchOf(p, edit).kind == if edit.kind.Some? then Some(NormalizeKind(edit.kind.value)) else None
    ensures PatchOf(p, edit).severity
         == if edit.severity.Some? then Some(NormalizeSeverity(edit.severity.value)) else None
  {
    hide Trim, Upper, DefaultQueue, NormalizeKind, NormalizeSeverity;
  }

  lemma PatchQueue(p: Policy, edit: PolicyEdit)
    ensures var kind := if edit.kind.Some? then NormalizeKind(edit.kind.value) else p.kind;
            PatchOf(p, edit).queueKey
            == if edit.queueKey.Some? then Some(Or(Trim(edit.queueKey.value), DefaultQueue(kind))) else None
  {
    hide Trim, Upper, DefaultQueue, NormalizeKind, NormalizeSeverity;
  }

  lemma PatchNumbers(p: Policy, edit: PolicyEdit)
    ensures PatchOf(p, edit).firstResponse == edit.firstResponse && PatchOf(p, edit).resolution == edit.resolution
    ensures PatchOf(p, edit).active == edit.active
  {
    hide Trim, Upper, DefaultQueue, NormalizeKind, NormalizeSeverity;
  }

  lemma TextsApplied(p: Policy, edit: PolicyEdit)
    ensures TextsChanged(p, edit, Apply(p, PatchOf(p, edit))) && NumbersChanged(p, edit, Apply(p, PatchOf(p, edit)))
  {
    hide Trim, Upper, PatchOf;
    PatchTexts(p, edit);
    PatchNumbers(p, edit);
  }

  lemma WordsApplied(p: Policy, edit: PolicyEdit)
    ensures WordsChanged(p, edit, Apply(p, PatchOf(p, edit)))
  {
    hide Trim, Upper, Word, NormalizeKind, NormalizeSeverity, PatchOf;
    PatchWords(p, edit);
    if edit.kind.Some? {
      WordsMean(edit.kind.value);
    }
    if edit.severity.Some? {
      WordsMean(edit.severity.value);
    }
  }

  lemma QueueApplied(p: Policy, edit: PolicyEdit)
    ensures QueueChanged(p, edit, Apply(p, PatchOf(p, edit)))
  {
    hide Trim, Upper, QueueOf, DefaultQueue, NormalizeKind, NormalizeSeverity, PatchOf;
    PatchQueue(p, edit);
    PatchWords(p, edit);
    QueueKinds(Apply(p, PatchOf(p, edit)).kind);
  }

  lemma AppliedAsAsked(p: Policy, edit: PolicyEdit)
    ensures ChangedAsAsked(p, edit, Apply(p, PatchOf(p, edit)))
  {
    TextsApplied(p, edit);
    WordsApplied(p, edit);
    QueueApplied(p, edit);
    hide TextsChanged, WordsChanged, QueueChanged, NumbersChanged, Apply, PatchOf;
  }

  lemma TextsChecked(ps: seq<Policy>, p: Policy, edit: PolicyEdit)
    ensures TextError(ps, p, PatchOf(p, edit))
         == if GivenEmpty(edit.code) then Some(BadCode) else if NewCodeTaken(ps, p, edit) then Some(CodeTaken)
            else if GivenEmpty(edit.name) then Some(BadName) else None
  {
    hide Trim, Upper, PatchOf, HasPolicy, Taken;
    PatchTexts(p, edit);
    if edit.code.Some? {
      UpperEmpty(Trim(edit.code.value));
      CodeIsTaken(ps, Upper(Trim(edit.code.value)));
    }
  }

  lemma CodeIsTaken(ps: seq<Policy>, code: string)
    ensures HasPolicy(ps, code) <==> Taken(ps, code)
  {
  }

  lemma NumbersChecked(p: Policy, edit: PolicyEdit, patch: PolicyEdit)
    requires patch.firstResponse == edit.firstResponse && patch.resolution == edit.resolution
    ensures NumberError(p, patch)
         == if edit.firstResponse.Some? && edit.firstResponse.value < 1 then Some(BadFirstResponse)
            else if edit.resolution.Some? && edit.resolution.value < 1 then Some(BadResolution)
            else if TooShort(p, edit) then Some(ResolutionTooShort) else None
  {
  }

  lemma RefusedAsStands(ps: seq<Policy>, p: Policy, edit: PolicyEdit)
    ensures match EditError(ps, p, edit)
            case None => MayChange(ps, p, edit)
            case Some(error) => NotChanged(ps, p, edit, error) && !MayChange(ps, p, edit)
  {
    TextsChecked(ps, p, edit);
    PatchNumbers(p, edit);
    NumbersChecked(p, edit, PatchOf(p, edit));
    hide TextError, NumberError, PatchOf, GivenEmpty, NewCodeTaken, TooShort;
  }

  /** A change writes what it asks of its policy and touches no other, or is refused for the first reason there is. */
  lemma UpdatePolicyMeans(ps: seq<Policy>, id: nat, edit: PolicyEdit)
    ensures match UpdatePolicy(ps, id, edit)
            case Rejected(error) =>
              if id < |ps| then NotChanged(ps, ps[id], edit, error) && !MayChange(ps, ps[id], edit) else error.NotFound?
            case Saved(after) =>
              && id < |ps| == |after| && MayChange(ps, ps[id], edit) && ChangedAsAsked(ps[id], edit, after[id])
              && forall i :: 0 <= i < |ps| && i != id ==> after[i] == ps[i]
  {
    hide EditError, Apply, PatchOf, NotChanged, MayChange, ChangedAsAsked;
    if id < |ps| {
      RefusedAsStands(ps, ps[id], edit);
      AppliedAsAsked(ps[id], edit);
    }
  }

  // ---------- bulk updates ----------

  /** The request a bulk action makes for each selected case at its turn. */
  ghost predicate ActionAsks(action: Action, assignee: string, until: Option<int>, now: int, edit: CaseEdit) {
    && edit.kind.None? && edit.severity.None?
    && (action in {Assign, Unassign} ==> edit.status.None? && edit.silencedUntil.None?)
    && (action !in {Assign, Unassign} ==> edit.assignee.None?)
    && match action
       case Ack => edit.status == Some(Acknowledged) && edit.silencedUntil.None?
       case Resolve => edit.status == Some(Resolved) && edit.silencedUntil.None?
       case Reopen => edit.status == Some(Open) && edit.silencedUntil.None?
       case SilenceOneHour =>
         && edit.status == Some(Silenced)
         && edit.silencedUntil == Some(Some(if until.Some? then until.value else now + 3_600_000))
       case Assign => edit.assignee == Some(assignee)
       case Unassign => edit.assignee == Some("")
  }

  /** What a bulk action makes of a selected case. */
  ghost predicate ActedOn(ps: seq<Policy>, action: Action, assignee: string, until: Option<int>, now: int, before: Case,
                          after: Case) {
    exists edit :: ActionAsks(action, assignee, until, now, edit) && UpdatedAs(ps, before, edit, now, after)
  }

  /** Why a bulk update is refused: the first of these that holds. */
  ghost predicate NotBulked(d: Desk, users: set<string>, ids: seq<nat>, action: Action, assignee: string,
                            error: CaseError) {
    if ids == [] then error.NothingSelected?
    else if exists i :: 0 <= i < |ids| && ids[i] >= |d.cases| then error.InvalidSelection?
    else if action.Assign? && Trim(assignee) == "" then error.AssigneeMissing?
    else action.Assign? && Trim(assignee) !in users && error.UnknownUser?
  }

  lemma TurnActs(d: Desk, c: Case, action: Action, assignee: string, until: Option<int>, now: int)
    ensures ActedOn(WithDefaults(d.policies), action, assignee, until, now, c,
                    TurnOf(d, c, action, assignee, until, now))
  {
    hide UpdatedAs, Edited, NextAssignee, WithDefaults;
    var edit := EditFor(action, assignee, until, now);
    EditedMeans(WithDefaults(d.policies), c, edit, now);
    assert ActionAsks(action, assignee, until, now, edit);
  }

  /**
   A bulk update makes its request of every selected case once, in the order of their first mention and each at its
   own time, and touches no other case; or it is refused for the first reason there is, without a trace.
   */
  lemma BulkMeans(d: Desk, users: set<string>, ids: seq<nat>, action: Action, assignee: string, until: Option<int>,
                  clock: nat -> int)
    ensures var result, chosen := BulkUpdate(d, users, ids, action, assignee, until, clock), Unique(ids);
            if result.error.Some? then
              result.desk == d && NotBulked(d, users, ids, action, assignee, result.error.value)
            else
              && Accepted(d, users, ids, action, assignee) && |result.desk.cases| == |d.cases|
              && (forall i :: 0 <= i < |chosen| ==>
                    0 <= chosen[i] < |d.cases|
                    && ActedOn(WithDefaults(d.policies), action, assignee, until, clock(i), d.cases[chosen[i]],
                               result.desk.cases[chosen[i]]))
              && forall j :: 0 <= j < |d.cases| && j !in ids ==> result.desk.cases[j] == d.cases[j]
  {
    BulkIsAllOrNothing(d, users, ids, action, assignee, until, clock);
    var chosen := Unique(ids);
    SelectionIs(d, ids);
    hide Trim, Unique, UpdateFirst, ActedOn, TurnOf, WithDefaults, ActionDone;
    UniqueSound(ids);
    if BulkUpdate(d, users, ids, action, assignee, until, clock).error.None? {
      UpdateFirstIs(d, users, chosen, action, assignee, until, clock, |chosen|);
      assert chosen[..|chosen|] == chosen;
      forall i | 0 <= i < |chosen|
        ensures ActedOn(WithDefaults(d.policies), action, assignee, until, clock(i), d.cases[chosen[i]],
                        TurnOf(d, d.cases[chosen[i]], action, assignee, until, clock(i)))
      {
        TurnActs(d, d.cases[chosen[i]], action, assignee, until, clock(i));
      }
    } else if chosen != [] && Listed(chosen, d) && !(action.Assign? && Trim(assignee) == "") {
      FirstTurnRefused(d, users, chosen, assignee, until, clock, |chosen|);
    }
  }
}
