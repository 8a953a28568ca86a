/**
 What overlapping runs of one rule leave behind while everything else goes on: runs of other rules, runs of
 this rule begun earlier or later, ticks, changes of rules and policies, and requests that neither resolve
 nor reopen the rule's cases.
 */
module OverlapLaws {
  import opened AutomationRaces
  import opened Automations
  import opened Exceptions
  import opened Options
  import opened Reconciliation
  import opened RunRaces
  import opened Sla
  import opened Uniqueness

  // ---------- rows and lists stay ----------

  /** Rows stay and keep their fingerprints and owners. */
  ghost predicate RowsKept(before: seq<Case>, after: seq<Case>) {
    && |before| <= |after|
    && forall j :: 0 <= j < |before| ==>
         after[j].fingerprint == before[j].fingerprint && after[j].automation == before[j].automation
         && after[j].source == before[j].source
  }

  /** The list of a run holds cases of its rule that it does not hit. */
  ghost predicate ListOk(d: Desk, a: Live) {
    && a.handled <= |a.items| && (a.stale.None? ==> a.fixed == 0)
    && (a.stale.Some? ==>
          && a.handled == |a.items| && a.fixed <= |a.stale.value|
          && forall i :: 0 <= i < |a.stale.value| ==> Target(d, a.id, Hits(a), a.stale.value[i]))
  }

  ghost predicate ListsOk(s: System) {
    forall k :: 0 <= k < |s.lives| ==> ListOk(s.world.desk, s.lives[k])
  }

  lemma LiveGoes(s: System, k: nat)
    requires SystemOk(s) && ListsOk(s) && k < |s.lives|
    ensures Going(s.world.desk, s.lives[k].id, s.lives[k])
    ensures OneCasePerFingerprint(s.world.desk.cases) && OwnedHaveFingerprints(s.world.desk)
    ensures s.lives[k].id < |s.world.rules|
  {
    hide WorldOk, HitsOf, HitsAreOwn, OneCasePerFingerprint, OwnedHaveFingerprints, Target, TickOk;
    var a := s.lives[k];
    assert LiveOk(s.world, a, s.world.runs[k]) && ListOk(s.world.desk, a);
    OwnHits(s.world, a.id, a.rule, a.items);
  }

  lemma RequestRows(w: World, act: Act)
    requires FromOutside(act)
    ensures RowsKept(w.desk.cases, StepWorld(w, act).desk.cases)
  {
    hide Step, CreateRule, UpdateRule;
    if act.OnDesk? && FromUser(act.event) {
      UserKeepsOwners(w.desk, act.event);
    }
  }

  lemma MoveRows(s: System, m: Move)
    requires SystemOk(s) && ListsOk(s)
    ensures RowsKept(s.world.desk.cases, Moved(s, m).world.desk.cases)
  {
    hide StepWorld, Turned, SystemOk, ListsOk, Due, Complete, Begun, Going;
    match m
    case Request(act) =>
      if FromOutside(act) {
        RequestRows(s.world, act);
      }
    case StartRun(_, items, t) =>
    case StartTick(now) =>
    case StartDue(items, t) =>
    case TurnRun(k) =>
      if Runs(s, k) {
        LiveGoes(s, k);
        TurnGrows(s.world.desk, s.lives[k].id, s.lives[k]);
      }
    case EndRun(k) =>
    case BreakRun(k) =>
  }

  lemma ListStays(before: Desk, after: Desk, a: Live)
    requires RowsKept(before.cases, after.cases) && ListOk(before, a)
    ensures ListOk(after, a)
  {
    hide HitBy, HitsOf;
  }

  lemma BegunListOk(d: Desk, id: nat, rule: Rule, items: seq<string>, t: Timing)
    ensures ListOk(d, Begun(id, rule, items, t))
  {
  }

  /** What a move does to a run that there was before: a turn, or nothing. */
  lemma LiveNext(s: System, m: Move, k: nat)
    requires k < |s.lives|
    ensures var after := Moved(s, m);
            && k < |after.lives|
            && after.lives[k] == if m == TurnRun(k) && Runs(s, k) then Turned(s.world.desk, s.lives[k]).1
                                 else s.lives[k]
  {
    hide StepWorld, Turned, Due, Complete, Begun, Close;
  }

  /** What a move adds: at most one run, from its beginning. */
  lemma LiveBegins(s: System, m: Move)
    ensures var after := Moved(s, m);
            |s.lives| <= |after.lives| <= |s.lives| + 1
    ensures var after := Moved(s, m);
            |after.lives| > |s.lives| ==>
              && after.world.desk == s.world.desk
              && exists id, rule, items, t :: after.lives[|s.lives|] == Begun(id, rule, items, t)
  {
    hide StepWorld, Turned, Due, Complete, Begun, Close;
  }

  lemma MoveLists(s: System, m: Move)
    requires SystemOk(s) && ListsOk(s)
    ensures ListsOk(Moved(s, m))
  {
    hide Moved, SystemOk, ListOk, Turned, Runs, Going;
    var after := Moved(s, m);
    MoveRows(s, m);
    LiveBegins(s, m);
    forall k | 0 <= k < |after.lives| ensures ListOk(after.world.desk, after.lives[k]) {
      if k < |s.lives| {
        LiveNext(s, m, k);
        if m == TurnRun(k) && Runs(s, k) {
          TurnLists(s, k);
        } else {
          ListStays(s.world.desk, after.world.desk, s.lives[k]);
        }
      } else {
        var id, rule, items, t :| after.lives[k] == Begun(id, rule, items, t);
        BegunListOk(after.world.desk, id, rule, items, t);
      }
    }
  }

  lemma TurnLists(s: System, k: nat)
    requires SystemOk(s) && ListsOk(s) && Runs(s, k)
    ensures ListOk(Moved(s, TurnRun(k)).world.desk, Turned(s.world.desk, s.lives[k]).1)
  {
    hide SystemOk, ListsOk, Turned, HitsAreOwn;
    LiveGoes(s, k);
    TurnGrows(s.world.desk, s.lives[k].id, s.lives[k]);
  }

  lemma {:induction false} MovesLists(s: System, moves: seq<Move>)
    requires SystemOk(s) && ListsOk(s)
    ensures SystemOk(Moves(s, moves)) && ListsOk(Moves(s, moves))
  {
    hide SystemOk, ListsOk, Moved;
    MovesKeep(s, moves);
    if moves != [] {
      var earlier := moves[..|moves| - 1];
      MovesLists(s, earlier);
      MoveLists(Moves(s, earlier), moves[|moves| - 1]);
    }
  }

  // ---------- moves that leave the rule's cases as open as they are ----------

  predicate KeepsStage(c: Case, edit: CaseEdit) {
    edit.status.None? || (edit.status.value.Resolved? <==> c.status.Resolved?)
  }

  /** A request that neither resolves nor reopens a case of the rule. */
  predicate Calm(d: Desk, e: Event, id: nat) {
    match e
    case Update(_, caseId, edit, _) =>
      caseId < |d.cases| && d.cases[caseId].automation == Some(id) ==> KeepsStage(d.cases[caseId], edit)
    case Bulk(_, ids, action, _, _, _) =>
      || action.Assign? || action.Unassign?
      || forall i :: 0 <= i < |ids| && ids[i] < |d.cases| ==> d.cases[ids[i]].automation != Some(id)
    case _ => true
  }

  predicate CalmMove(s: System, m: Move, id: nat) {
    m.Request? && m.act.OnDesk? ==> Calm(s.world.desk, m.act.event, id)
  }

  /** The rule's cases are as open as before, and there is no new one. */
  ghost predicate SameOpen(before: seq<Case>, after: seq<Case>, id: nat) {
    && RowsKept(before, after)
    && (forall j :: 0 <= j < |before| ==> (OpenCase(after[j], id) <==> OpenCase(before[j], id)))
    && forall j :: |before| <= j < |after| ==> !OpenCase(after[j], id)
  }

  lemma SameOpenFor(before: seq<Case>, after: seq<Case>, id: nat, fingerprint: string)
    requires SameOpen(before, after, id)
    ensures OpenFor(after, id, fingerprint) <==> OpenFor(before, id, fingerprint)
  {
    hide OpenCase;
    if OpenFor(before, id, fingerprint) {
      var j :| 0 <= j < |before| && before[j].fingerprint == Some(fingerprint) && OpenCase(before[j], id);
      assert OpenCase(after[j], id);
    }
  }

  lemma SameOpenTrans(a: seq<Case>, b: seq<Case>, c: seq<Case>, id: nat)
    requires SameOpen(a, b, id) && SameOpen(b, c, id)
    ensures SameOpen(a, c, id)
  {
    hide OpenCase;
  }

  /** Of updates exactly those keep a case as open as it is that set no status or one on the same side of resolved. */
  lemma UpdateIsCalmIff(d: Desk, users: set<string>, caseId: nat, edit: CaseEdit, now: int, id: nat)
    requires UpdateCase(d, users, caseId, edit, now).error.None?
    ensures SameOpen(d.cases, UpdateCase(d, users, caseId, edit, now).desk.cases, id)
        <==> KeepsStage(d.cases[caseId], edit) || d.cases[caseId].automation != Some(id)
             || d.cases[caseId].source != "automation"
  {
    hide Build, WithDefaults, UserOk, NextAssignee, NormalizeKind, NormalizeSeverity;
    var after := UpdateCase(d, users, caseId, edit, now).desk.cases;
    assert forall j :: 0 <= j < |d.cases| && j != caseId ==> after[j] == d.cases[j];
  }

  lemma UpdateOpens(d: Desk, users: set<string>, caseId: nat, edit: CaseEdit, now: int, id: nat)
    requires caseId < |d.cases| && d.cases[caseId].automation == Some(id) ==> KeepsStage(d.cases[caseId], edit)
    ensures SameOpen(d.cases, UpdateCase(d, users, caseId, edit, now).desk.cases, id)
  {
    hide Edited, KeepsStage, SameOpen, UserOk, WithDefaults;
    if UpdateCase(d, users, caseId, edit, now).error.None? {
      UpdateIsCalmIff(d, users, caseId, edit, now, id);
    } else {
      NothingOpens(d.cases, id);
    }
  }

  lemma NothingOpens(cases: seq<Case>, id: nat)
    ensures SameOpen(cases, cases, id)
  {
  }

  lemma {:induction false} UpdateFirstOpens(d: Desk, users: set<string>, ids: seq<nat>, action: Action,
                                            assignee: string, until: Option<int>, clock: nat -> int, n: nat, id: nat)
    requires n <= |ids|
    requires action.Assign? || action.Unassign?
        || forall i :: 0 <= i < |ids| && ids[i] < |d.cases| ==> d.cases[ids[i]].automation != Some(id)
    ensures SameOpen(d.cases, UpdateFirst(d, users, ids, action, assignee, until, clock, n).desk.cases, id)
    ensures |UpdateFirst(d, users, ids, action, assignee, until, clock, n).desk.cases| == |d.cases|
  {
    hide UpdateCase, EditFor, OpenCase;
    if n > 0 {
      var before := UpdateFirst(d, users, ids, action, assignee, until, clock, n - 1);
      UpdateFirstOpens(d, users, ids, action, assignee, until, clock, n - 1, id);
      if before.error.None? {
        var edit := EditFor(action, assignee, until, clock(n - 1));
        BulkEditStages(action, assignee, until, clock(n - 1));
        UpdateOpens(before.desk, users, ids[n - 1], edit, clock(n - 1), id);
        UpdateKeepsLength(before.desk, users, ids[n - 1], edit, clock(n - 1));
        SameOpenTrans(d.cases, before.desk.cases,
                      UpdateCase(before.desk, users, ids[n - 1], edit, clock(n - 1)).desk.cases, id);
      }
    } else {
      NothingOpens(d.cases, id);
    }
  }

  lemma UpdateKeepsLength(d: Desk, users: set<string>, caseId: nat, edit: CaseEdit, now: int)
    ensures |UpdateCase(d, users, caseId, edit, now).desk.cases| == |d.cases|
  {
    hide Edited, WithDefaults, UserOk;
  }

  lemma BulkEditStages(action: Action, assignee: string, until: Option<int>, now: int)
    ensures action.Assign? || action.Unassign? ==> EditFor(action, assignee, until, now).status.None?
  {
  }

  lemma ChosenAreGiven(ids: seq<nat>)
    ensures forall i :: 0 <= i < |Unique(ids)| ==> exists j :: 0 <= j < |ids| && Unique(ids)[i] == ids[j]
  {
    UniqueSound(ids);
    forall i | 0 <= i < |Unique(ids)| ensures exists j :: 0 <= j < |ids| && Unique(ids)[i] == ids[j] {
      assert Unique(ids)[i] in ids;
    }
  }

  lemma CreateOpens(d: Desk, users: set<string>, input: NewCase, now: int, createdAt: int, id: nat)
    ensures SameOpen(d.cases, CreateCase(d, users, input, now, createdAt).desk.cases, id)
  {
    hide Build, WithDefaults, UserOk, NormalizeKind, NormalizeSeverity;
  }

  lemma RecalculateOpens(d: Desk, times: seq<int>, id: nat)
    requires |times| == |d.cases|
    ensures SameOpen(d.cases, Recalculate(d, times).0.cases, id)
  {
    hide WithDefaults, Build, RecomputeFirst;
    RecomputeFirstIs(WithDefaults(d.policies), d.cases, times, |d.cases|);
  }

  lemma CalmOpens(d: Desk, e: Event, id: nat)
    requires FromUser(e) && Calm(d, e, id)
    ensures SameOpen(d.cases, Step(d, e).cases, id)
  {
    hide SameOpen, CreateCase, UpdateCase, UpdateFirst, Recalculate, CreatePolicy, UpdatePolicy, KeepsStage;
    match e
    case Create(users, input, now, createdAt) => CreateOpens(d, users, input, now, createdAt, id);
    case Update(users, caseId, edit, now) => UpdateOpens(d, users, caseId, edit, now, id);
    case Bulk(users, ids, action, assignee, until, clock) =>
      NothingOpens(d.cases, id);
      ChosenAreGiven(ids);
      UpdateFirstOpens(d, users, Unique(ids), action, assignee, until, clock, |Unique(ids)|, id);
    case Recalculation(clock) => RecalculateOpens(d, seq(|d.cases|, clock), id);
    case CreateSla(policy) => NothingOpens(d.cases, id);
    case UpdateSla(policyId, change) => NothingOpens(d.cases, id);
  }

  /** A turn of a run of another rule never meets a case of this one. */
  lemma OtherTurnOpens(d: Desk, a: Live, id: nat)
    requires OneCasePerFingerprint(d.cases) && OwnedHaveFingerprints(d) && Going(d, a.id, a) && a.id != id
    ensures SameOpen(d.cases, Turned(d, a).0.cases, id)
  {
    hide UpsertHit, Find, HitsOf, OneCasePerFingerprint, SameOpen, Target, Fixed, StaleIds;
    NothingOpens(d.cases, id);
    if a.handled < |a.items| {
      OtherHitOpens(d, a.id, Hits(a), a.handled, a.t.hitAt(a.handled), a.t.createdAt(a.handled), id);
    } else if a.stale.Some? && a.fixed < |a.stale.value| {
      OtherFixOpens(d, a.id, Hits(a), a.stale.value[a.fixed], a.t, id);
    }
  }

  lemma OtherFixOpens(d: Desk, rule: nat, hits: seq<Hit>, j: nat, t: Timing, id: nat)
    requires Target(d, rule, hits, j) && rule != id
    ensures SameOpen(d.cases, Fixed(d, j, t).cases, id)
  {
    hide WithDefaults, HitBy;
  }

  lemma OtherHitOpens(d: Desk, rule: nat, hits: seq<Hit>, n: nat, now: int, createdAt: int, id: nat)
    requires OneCasePerFingerprint(d.cases) && HitsAreOwn(d, rule, hits) && n < |hits| && rule != id
    ensures SameOpen(d.cases, UpsertHit(d, rule, hits[n], now, createdAt).cases, id)
  {
    hide UpsertHit, Find, OneCasePerFingerprint, Holds;
    var after, found := UpsertHit(d, rule, hits[n], now, createdAt), Find(d.cases, hits[n].fingerprint);
    UpsertHitIs(d, rule, hits[n], now, createdAt);
    if found.None? {
      assert forall j :: 0 <= j < |d.cases| ==> after.cases[j] == after.cases[..|d.cases|][j];
    } else {
      assert HitBy(hits, |hits|, d.cases[found.value].fingerprint);
    }
  }

  // ---------- touches ----------

  function TouchOfMove(s: System, m: Move, id: nat, fingerprint: string): Touch {
    if m.TurnRun? && Runs(s, m.run) && s.lives[m.run].id == id then TouchOf(s.world.desk, s.lives[m.run], fingerprint)
    else Untouched
  }

  /** The last thing the runs of the rule did to the case of the fingerprint. */
  function LastTouchOf(s: System, moves: seq<Move>, id: nat, fingerprint: string): Touch {
    if moves == [] then Untouched
    else
      var earlier := moves[..|moves| - 1];
      var touch := TouchOfMove(Moves(s, earlier), moves[|moves| - 1], id, fingerprint);
      if touch.Untouched? then LastTouchOf(s, earlier, id, fingerprint) else touch
  }

  ghost predicate AllCalm(s: System, moves: seq<Move>, id: nat) {
    forall n :: 0 <= n < |moves| ==> CalmMove(Moves(s, moves[..n]), moves[n], id)
  }

  lemma AllCalmPrefix(s: System, moves: seq<Move>, id: nat)
    requires moves != [] && AllCalm(s, moves, id)
    ensures AllCalm(s, moves[..|moves| - 1], id)
    ensures CalmMove(Moves(s, moves[..|moves| - 1]), moves[|moves| - 1], id)
  {
    hide CalmMove, Moves;
    var earlier := moves[..|moves| - 1];
    forall n | 0 <= n < |earlier| ensures CalmMove(Moves(s, earlier[..n]), earlier[n], id) {
      assert earlier[..n] == moves[..n];
    }
  }

  lemma MoveOpens(s: System, m: Move, id: nat, fingerprint: string)
    requires SystemOk(s) && ListsOk(s) && CalmMove(s, m, id)
    ensures var touch := TouchOfMove(s, m, id, fingerprint);
            OpenFor(Moved(s, m).world.desk.cases, id, fingerprint)
            <==> touch.Hit? || (touch.Untouched? && OpenFor(s.world.desk.cases, id, fingerprint))
  {
    hide SystemOk, ListsOk, OpenFor, Turned, Step, CreateRule, UpdateRule, Due, Complete, Calm, SameOpen, Going,
         TouchOf;
    match m
    case Request(act) =>
      if act.OnDesk? && FromUser(act.event) {
        CalmOpens(s.world.desk, act.event, id);
        SameOpenFor(s.world.desk.cases, Step(s.world.desk, act.event).cases, id, fingerprint);
      }
    case StartRun(_, items, t) =>
    case StartTick(now) =>
    case StartDue(items, t) =>
    case TurnRun(k) =>
      if Runs(s, k) {
        LiveGoes(s, k);
        if s.lives[k].id == id {
          TurnTouches(s.world.desk, id, s.lives[k], fingerprint);
        } else {
          OtherTurnOpens(s.world.desk, s.lives[k], id);
          SameOpenFor(s.world.desk.cases, Turned(s.world.desk, s.lives[k]).0.cases, id, fingerprint);
        }
      }
    case EndRun(k) =>
    case BreakRun(k) =>
  }

  /**
   Whatever else goes on, as long as no request resolves or reopens a case of the rule: a case is open if
   the runs of the rule touched it last by a hit, closed if by a recovery, and else as it was.
   */
  lemma {:induction false} LastTouchDecides(s: System, moves: seq<Move>, id: nat, fingerprint: string)
    requires SystemOk(s) && ListsOk(s) && AllCalm(s, moves, id)
    ensures var last := LastTouchOf(s, moves, id, fingerprint);
            OpenFor(Moves(s, moves).world.desk.cases, id, fingerprint)
            <==> last.Hit? || (last.Untouched? && OpenFor(s.world.desk.cases, id, fingerprint))
  {
    hide SystemOk, ListsOk, OpenFor, Moved, TouchOfMove, CalmMove;
    if moves != [] {
      var earlier := moves[..|moves| - 1];
      AllCalmPrefix(s, moves, id);
      hide AllCalm;
      LastTouchDecides(s, earlier, id, fingerprint);
      MovesLists(s, earlier);
      MoveOpens(Moves(s, earlier), moves[|moves| - 1], id, fingerprint);
    }
  }

  // ---------- which runs take part ----------

  /** The run may have turns after the state. */
  predicate Takes(s: System, k: nat) {
    k >= |s.lives| || Runs(s, k)
  }

  /** The run has all its turns after the state. */
  predicate TakesAll(s: System, k: nat) {
    k >= |s.lives| || Unstarted(s.lives[k])
  }

  /** What stays of a run: its rule and its hits, and that it has ended. */
  ghost predicate LiveKept(before: System, after: System, k: nat)
    requires k < |before.lives|
  {
    && k < |after.lives| && after.lives[k].id == before.lives[k].id && after.lives[k].rule == before.lives[k].rule
    && after.lives[k].items == before.lives[k].items
    && (Runs(after, k) ==> Runs(before, k))
  }

  lemma MoveKeepsLive(s: System, m: Move, k: nat)
    requires |s.world.runs| == |s.lives| && k < |s.lives|
    ensures LiveKept(s, Moved(s, m), k)
  {
    LiveNext(s, m, k);
    TurnIsOf(s.world.desk, s.lives[k]);
    hide Turned, Due, Complete, Begun, SuccessRow, Rescheduled;
    if m.Request? && FromOutside(m.act) {
      RequestKeepsRuns(s.world, m.act);
    }
  }

  lemma RequestKeepsRuns(w: World, act: Act)
    requires FromOutside(act)
    ensures StepWorld(w, act).runs == w.runs
  {
    hide Step, CreateRule, UpdateRule;
  }

  lemma SystemCounts(s: System)
    requires SystemOk(s)
    ensures |s.world.runs| == |s.lives|
  {
  }

  /** The runs of the rule that take part, and whether they hit the fingerprint. */
  ghost predicate PartsHit(s: System, after: System, id: nat, fingerprint: string, hit: bool) {
    forall i :: 0 <= i < |after.lives| && after.lives[i].id == id && Takes(s, i) ==>
      (HitByRun(after.lives[i], fingerprint) <==> hit)
  }

  lemma {:induction false} MovesKeepLive(s: System, moves: seq<Move>, k: nat)
    requires SystemOk(s) && k < |s.lives|
    ensures LiveKept(s, Moves(s, moves), k)
  {
    hide SystemOk, Moved, Runs;
    if moves != [] {
      var earlier := moves[..|moves| - 1];
      MovesKeepLive(s, earlier, k);
      MovesKeep(s, earlier);
      SystemCounts(Moves(s, earlier));
      MoveKeepsLive(Moves(s, earlier), moves[|moves| - 1], k);
    }
  }

  /** What holds of the runs that take part at the end held of them one move before. */
  lemma PartsBefore(s: System, e: System, m: Move, id: nat, fingerprint: string, hit: bool)
    requires SystemOk(e) && PartsHit(s, Moved(e, m), id, fingerprint, hit)
    ensures PartsHit(s, e, id, fingerprint, hit)
  {
    hide SystemOk, Moved, Takes, HitByRun;
    SystemCounts(e);
    forall i | 0 <= i < |e.lives| && e.lives[i].id == id && Takes(s, i)
      ensures HitByRun(e.lives[i], fingerprint) <==> hit
    {
      MoveKeepsLive(e, m, i);
      SameRun(e.lives[i], Moved(e, m).lives[i], fingerprint);
    }
  }

  lemma TakesPart(s: System, moves: seq<Move>, k: nat)
    requires SystemOk(s) && Runs(Moves(s, moves), k)
    ensures Takes(s, k)
  {
    hide SystemOk;
    if k < |s.lives| {
      MovesKeepLive(s, moves, k);
    }
  }

  // ---------- which touches there are ----------

  /** Whatever a run that does all its work in these moves has hit so far, has been touched. */
  lemma {:induction false} WorkTouches(s: System, moves: seq<Move>, id: nat, k: nat, n: nat)
    requires SystemOk(s) && ListsOk(s) && TakesAll(s, k) && k < |Moves(s, moves).lives|
    requires var a := Moves(s, moves).lives[k]; a.id == id && Reconciling(a.rule) && n < a.handled
    ensures var a := Moves(s, moves).lives[k];
            n < |a.items| && !LastTouchOf(s, moves, id, Hits(a)[n].fingerprint).Untouched?
  {
    hide SystemOk, ListsOk, Moved, HitsOf, Going, Turned, TouchOf, Runs;
    assert moves != [];
    var earlier, m := moves[..|moves| - 1], moves[|moves| - 1];
    var e := Moves(s, earlier);
    MovesLists(s, earlier);
    LiveBegins(e, m);
    if k < |e.lives| {
      LiveNext(e, m, k);
      TurnIsOf(e.world.desk, e.lives[k]);
      if n < e.lives[k].handled {
        WorkTouches(s, earlier, id, k, n);
      } else {
        LiveGoes(e, k);
        HitIsTouch(e.world.desk, id, e.lives[k], n);
      }
    } else {
      var i, rule, items, t :| Moved(e, m).lives[k] == Begun(i, rule, items, t);
      BegunHas(i, rule, items, t);
    }
  }

  /** A case that every run taking part hits is never resolved by one of them. */
  lemma {:induction false} CommonStays(s: System, moves: seq<Move>, id: nat, fingerprint: string)
    requires SystemOk(s) && ListsOk(s) && PartsHit(s, Moves(s, moves), id, fingerprint, true)
    ensures !LastTouchOf(s, moves, id, fingerprint).Resolved?
  {
    hide SystemOk, ListsOk, Moved, HitByRun, Going, TouchOf, Takes, PartsHit;
    if moves != [] {
      var earlier, m := moves[..|moves| - 1], moves[|moves| - 1];
      var e := Moves(s, earlier);
      MovesLists(s, earlier);
      PartsBefore(s, e, m, id, fingerprint, true);
      CommonStays(s, earlier, id, fingerprint);
      if m.TurnRun? && Runs(e, m.run) && e.lives[m.run].id == id {
        PartHits(s, earlier, m.run, id, fingerprint, true);
        LiveGoes(e, m.run);
        OwnHitIsNotResolved(e.world.desk, id, e.lives[m.run], fingerprint);
      }
    }
  }

  lemma PartHits(s: System, moves: seq<Move>, k: nat, id: nat, fingerprint: string, hit: bool)
    requires SystemOk(s) && PartsHit(s, Moves(s, moves), id, fingerprint, hit) && Runs(Moves(s, moves), k)
    requires Moves(s, moves).lives[k].id == id
    ensures HitByRun(Moves(s, moves).lives[k], fingerprint) <==> hit
  {
    hide SystemOk, Moves, HitByRun;
    TakesPart(s, moves, k);
  }

  lemma RowsPend(before: Desk, after: Desk, a: Live, fingerprint: string)
    requires RowsKept(before.cases, after.cases) && OnList(before, a, fingerprint)
    ensures OnList(after, a, fingerprint)
  {
    if a.stale.Some? {
      var i :| a.fixed <= i < |a.stale.value| && Names(before, a.stale.value[i], fingerprint);
      assert Names(after, a.stale.value[i], fingerprint);
    }
  }

  /**
   While a case that no run taking part hits is open, a run that does all its work here has it on its list from
   its query on.
   */
  lemma {:induction false} UnhitListed(s: System, moves: seq<Move>, id: nat, k: nat, fingerprint: string)
    requires SystemOk(s) && ListsOk(s) && AllCalm(s, moves, id) && PartsHit(s, Moves(s, moves), id, fingerprint, false)
    requires TakesAll(s, k) && k < |Moves(s, moves).lives|
    requires var a := Moves(s, moves).lives[k]; a.id == id && Reconciling(a.rule) && !HitByRun(a, fingerprint)
    ensures var after := Moves(s, moves);
            OpenFor(after.world.desk.cases, id, fingerprint) ==> OnList(after.world.desk, after.lives[k], fingerprint)
  {
    hide SystemOk, ListsOk, Moved, HitByRun, AllCalm, PartsHit, OpenFor, OnList, CalmMove;
    if moves == [] {
      UnqueriedPends(s.world.desk, s.lives[k], fingerprint);
    } else {
      var earlier, m := moves[..|moves| - 1], moves[|moves| - 1];
      var e := Moves(s, earlier);
      MovesLists(s, earlier);
      AllCalmPrefix(s, moves, id);
      PartsBefore(s, e, m, id, fingerprint, false);
      LiveBegins(e, m);
      if k < |e.lives| {
        SystemCounts(e);
        MoveKeepsLive(e, m, k);
        SameRun(e.lives[k], Moved(e, m).lives[k], fingerprint);
        UnhitListed(s, earlier, id, k, fingerprint);
        UnhitMove(s, earlier, m, id, k, fingerprint);
      } else {
        var i, rule, items, t :| Moved(e, m).lives[k] == Begun(i, rule, items, t);
        BegunHas(i, rule, items, t);
        UnqueriedPends(Moved(e, m).world.desk, Moved(e, m).lives[k], fingerprint);
      }
    }
  }

  lemma UnhitMove(s: System, earlier: seq<Move>, m: Move, id: nat, k: nat, fingerprint: string)
    requires SystemOk(s) && SystemOk(Moves(s, earlier)) && ListsOk(Moves(s, earlier)) && k < |Moves(s, earlier).lives|
    requires CalmMove(Moves(s, earlier), m, id) && PartsHit(s, Moves(s, earlier), id, fingerprint, false)
    requires var e := Moves(s, earlier);
             && e.lives[k].id == id && Reconciling(e.lives[k].rule) && !HitByRun(e.lives[k], fingerprint)
             && (OpenFor(e.world.desk.cases, id, fingerprint) ==> OnList(e.world.desk, e.lives[k], fingerprint))
    ensures var after := Moved(Moves(s, earlier), m);
            && k < |after.lives|
            && (OpenFor(after.world.desk.cases, id, fingerprint) ==>
                  OnList(after.world.desk, after.lives[k], fingerprint))
  {
    hide SystemOk, ListsOk, Moves, HitByRun, PartsHit, OpenFor, OnList, CalmMove, Turned, TouchOf, Going;
    var e := Moves(s, earlier);
    LiveNext(e, m, k);
    if m.TurnRun? && Runs(e, m.run) && e.lives[m.run].id == id {
      PartHits(s, earlier, m.run, id, fingerprint, false);
      LiveGoes(e, m.run);
      UnhitNext(e.world.desk, id, e.lives[m.run], e.lives[k], m.run == k, fingerprint);
    } else {
      hide Moved;
      MoveOpens(e, m, id, fingerprint);
      MoveRows(e, m);
      if OpenFor(Moved(e, m).world.desk.cases, id, fingerprint) {
        RowsPend(e.world.desk, Moved(e, m).world.desk, e.lives[k], fingerprint);
      }
    }
  }

  // ---------- main result ----------

  lemma StartListsOk()
    ensures ListsOk(START)
  {
  }

  /**
   A run of the rule that does all its work somewhere in the moves after some history, whatever else goes
   on as long as no request resolves or reopens a case of the rule: what it hit is open if and only if the
   last touch was a hit; what every run of the rule taking part hits is open if it hit it; and what none of
   them hits is not open.
   */
  lemma OverlapSettlesAmongOthers(history: seq<Move>, moves: seq<Move>, id: nat, k: nat, fingerprint: string)
    requires var s, after := Moves(START, history), Moves(START, history + moves);
             && AllCalm(s, moves, id) && TakesAll(s, k) && k < |after.lives|
             && after.lives[k].id == id && Reconciling(after.lives[k].rule) && Complete(after.lives[k])
    ensures var s, after := Moves(START, history), Moves(START, history + moves);
            var hit := HitByRun(after.lives[k], fingerprint);
            var open := OpenFor(after.world.desk.cases, id, fingerprint);
            && (hit ==> (open <==> LastTouchOf(s, moves, id, fingerprint).Hit?))
            && (PartsHit(s, after, id, fingerprint, true) && hit ==> open)
            && (PartsHit(s, after, id, fingerprint, false) && !hit ==> !open)
  {
    var s, after := Moves(START, history), Moves(START, history + moves);
    MovesAppend(START, history, moves);
    StartIsOk();
    StartListsOk();
    MovesLists(START, history);
    hide SystemOk, ListsOk, AllCalm, HitByRun, OpenFor, PartsHit, Complete, Moves, LastTouchOf, OnList, Going;
    LastTouchDecides(s, moves, id, fingerprint);
    if HitByRun(after.lives[k], fingerprint) {
      CompleteWorkTouches(s, moves, id, k, fingerprint);
      if PartsHit(s, after, id, fingerprint, true) {
        CommonStays(s, moves, id, fingerprint);
      }
    } else if PartsHit(s, after, id, fingerprint, false) {
      UnhitListed(s, moves, id, k, fingerprint);
      CompleteHasNone(after.world.desk, after.lives[k], fingerprint);
    }
  }

  lemma CompleteWorkTouches(s: System, moves: seq<Move>, id: nat, k: nat, fingerprint: string)
    requires SystemOk(s) && ListsOk(s) && TakesAll(s, k) && k < |Moves(s, moves).lives|
    requires var a := Moves(s, moves).lives[k];
             a.id == id && Reconciling(a.rule) && Complete(a) && HitByRun(a, fingerprint)
    ensures !LastTouchOf(s, moves, id, fingerprint).Untouched?
  {
    hide SystemOk, ListsOk, Moves, LastTouchOf, HitsOf;
    var a := Moves(s, moves).lives[k];
    var n :| 0 <= n < |a.items| && Some(fingerprint) == Some(Hits(a)[n].fingerprint);
    WorkTouches(s, moves, id, k, n);
  }
}
