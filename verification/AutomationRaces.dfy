/**
 The whole automation system of apps/api/src/automations/automations.service.ts with nothing in one step:
 the turns of any number of runs, requests, changes of rules and the work of the tick in any order.
 */
module AutomationRaces {
  import opened Automations
  import opened Exceptions
  import opened Options
  import opened Reconciliation
  import opened RunRaces
  import opened Sla
  import opened Text

  /** The rules as the tick read them, the due ones among them, and the numbers of the runs it has begun for them. */
  datatype Ticking = Ticking(seen: seq<Rule>, due: seq<nat>, served: seq<nat>)

  /** Run number k has its row in the world's runs and its progress in `lives`. */
  datatype System = System(world: World, lives: seq<Live>, tick: Ticking)

  datatype Move =
    | Request(act: Act)
    | StartRun(id: nat, items: seq<string>, t: Timing)
    | StartTick(now: int)
    | StartDue(items: seq<string>, t: Timing)
    | TurnRun(run: nat)
    | EndRun(run: nat)
    | BreakRun(run: nat)

  const START := System(World(Desk([], []), [], []), [], Ticking([], [], []))

  predicate Runs(s: System, k: nat) {
    k < |s.lives| && k < |s.world.runs| && s.world.runs[k].status.Running?
  }

  /** No run of the tick is under way. */
  predicate Free(s: System) {
    s.tick.served == [] || !Runs(s, s.tick.served[|s.tick.served| - 1])
  }

  /** The tick has served every rule it found due. */
  predicate Over(s: System) {
    Free(s) && |s.tick.served| >= |s.tick.due|
  }

  function Begin(s: System, id: nat, rule: Rule, items: seq<string>, t: Timing): System {
    s.(world := s.world.(runs := s.world.runs + [Run(id, Running, t.started, None, 0, 0, 0)]),
       lives := s.lives + [Begun(id, rule, items, t)])
  }

  /** Both ways to end write the row and reschedule the rule from the cadence that was read. */
  function Close(w: World, k: nat, row: Run, a: Live): World
    requires k < |w.runs|
  {
    w.(runs := w.runs[k := row],
       rules := if a.id >= |w.rules| then w.rules
                else w.rules[a.id := Rescheduled(w.rules[a.id], a.rule.cadence, a.t.finished)])
  }

  predicate FromOutside(a: Act) {
    a.OnDesk? || a.AddRule? || a.EditRule?
  }

  /** One move; one that cannot be made changes nothing.  The next tick waits until the last one is over. */
  function Moved(s: System, m: Move): System {
    match m
    case Request(act) => if FromOutside(act) then s.(world := StepWorld(s.world, act)) else s
    case StartRun(id, items, t) => if id < |s.world.rules| then Begin(s, id, s.world.rules[id], items, t) else s
    case StartTick(now) =>
      if Over(s) then s.(tick := Ticking(s.world.rules, Due(s.world.rules, now, |s.world.rules|), [])) else s
    case StartDue(items, t) =>
      var next := |s.tick.served|;
      if Free(s) && next < |s.tick.due| && s.tick.due[next] < |s.tick.seen| then
        Begin(s, s.tick.due[next], s.tick.seen[s.tick.due[next]], items, t)
          .(tick := s.tick.(served := s.tick.served + [|s.lives|]))
      else s
    case TurnRun(k) =>
      if Runs(s, k) then
        var (desk, run) := Turned(s.world.desk, s.lives[k]);
        s.(world := s.world.(desk := desk), lives := s.lives[k := run])
      else s
    case EndRun(k) =>
      if Runs(s, k) && Complete(s.lives[k]) then s.(world := Close(s.world, k, SuccessRow(s.lives[k]), s.lives[k]))
      else s
    case BreakRun(k) =>
      if Runs(s, k) then
        var a := s.lives[k];
        s.(world := Close(s.world, k, Run(a.id, Failed, a.t.started, Some(a.t.finished), 0, 0, 0), a))
      else s
  }

  function Moves(s: System, moves: seq<Move>): System {
    if moves == [] then s else Moved(Moves(s, moves[..|moves| - 1]), moves[|moves| - 1])
  }

  // ---------- what every move keeps ----------

  /** A run and its row: the rule's code is the one that was read, and the counters add up. */
  ghost predicate LiveOk(w: World, a: Live, row: Run) {
    && a.id < |w.rules| && a.rule.code == w.rules[a.id].code && row.rule == a.id && a.handled <= |a.items|
    && (a.rule.detector != EXPORT ==> a.created + a.updated == if a.rule.createExceptions then a.handled else 0)
    && (row.status.Succeeded? ==> Complete(a) && row == SuccessRow(a))
  }

  /**
   The runs of the tick are those of the first due rules, in order, each as it was read; all but the last have
   ended.
   */
  ghost predicate TickOk(s: System) {
    var seen, due, served := s.tick.seen, s.tick.due, s.tick.served;
    && CodesKept(seen, s.world.rules) && |served| <= |due|
    && (forall i :: 0 <= i < |due| ==> due[i] < |seen| && seen[due[i]].enabled)
    && (forall i :: 0 <= i < |served| ==>
          && served[i] < |s.lives|
          && s.lives[served[i]].id == due[i] && s.lives[served[i]].rule == seen[due[i]])
    && (forall i, j :: 0 <= i < j < |served| ==> served[i] < served[j])
    && forall i :: 0 <= i < |served| - 1 ==> !Runs(s, served[i])
  }

  ghost predicate SystemOk(s: System) {
    && WorldOk(s.world) && |s.world.runs| == |s.lives|
    && (forall k :: 0 <= k < |s.lives| ==> LiveOk(s.world, s.lives[k], s.world.runs[k]))
    && TickOk(s)
  }

  lemma CodesKeptTrans(a: seq<Rule>, b: seq<Rule>, c: seq<Rule>)
    requires CodesKept(a, b) && CodesKept(b, c)
    ensures CodesKept(a, c)
  {
  }

  /** A case after a hit of the rule: an old one keeps its owner, the new one belongs to the rule. */
  lemma OwnedAfterHit(w: World, a: Live, after: Desk, found: Option<nat>, j: nat)
    requires a.id < |w.rules| && a.rule.code == w.rules[a.id].code && a.handled < |a.items| && j < |after.cases|
    requires Applied(a.id, Hits(a)[a.handled], found, w.desk, after)
    requires j < |w.desk.cases| ==> OwnedBy(w.desk.cases[j], w.rules)
    ensures OwnedBy(after.cases[j], w.rules)
  {
    HitsAreMade(a.rule, a.items, a.handled);
    hide HitsOf, MadeBy;
    assert |after.cases| > |w.desk.cases| && j < |w.desk.cases| ==>
        after.cases[j] == after.cases[..|w.desk.cases|][j];
  }

  /** A hit of a rule leaves every fingerprint with the rule whose code made it. */
  lemma HitKeepsWorld(w: World, a: Live, now: int, createdAt: int)
    requires WorldOk(w) && a.id < |w.rules| && a.rule.code == w.rules[a.id].code && a.handled < |a.items|
    ensures WorldOk(w.(desk := UpsertHit(w.desk, a.id, Hits(a)[a.handled], now, createdAt)))
  {
    hide UpsertHit, Hits, RunOk, RulesOk, Find, AllFit, CaseOk, OwnedBy, Applied, OneCasePerFingerprint;
    var hit := Hits(a)[a.handled];
    var after := UpsertHit(w.desk, a.id, hit, now, createdAt);
    UpsertKeeps(w.desk, a.id, hit, now, createdAt);
    UpsertHitIs(w.desk, a.id, hit, now, createdAt);
    hide DeskOk;
    forall j | 0 <= j < |after.cases| ensures OwnedBy(after.cases[j], w.rules) {
      OwnedAfterHit(w, a, after, Find(w.desk.cases, hit.fingerprint), j);
    }
  }

  lemma FixKeepsWorld(w: World, id: nat, t: Timing)
    requires WorldOk(w)
    ensures WorldOk(w.(desk := Fixed(w.desk, id, t)))
  {
    if id < |w.desk.cases| {
      hide RunOk, RulesOk, AllFit, MadeBy, WithDefaults;
      DefaultsFit(w.desk.policies);
      RecoveredOk(w.desk.cases[id], t.recoveredAt(id));
      hide CaseOk, Recovered;
      ReplaceOk(w.desk, WithDefaults(w.desk.policies), id, Recovered(w.desk.cases[id], t.recoveredAt(id)));
    }
  }

  lemma RecoveredOk(c: Case, now: int)
    requires CaseOk(c)
    ensures CaseOk(Recovered(c, now))
    ensures Recovered(c, now).fingerprint == c.fingerprint && Recovered(c, now).automation == c.automation
        && Recovered(c, now).source == c.source
  {
  }

  lemma TurnKeeps(w: World, a: Live, row: Run)
    requires WorldOk(w) && LiveOk(w, a, row) && row.status.Running?
    ensures var (desk, run) := Turned(w.desk, a);
            WorldOk(w.(desk := desk)) && LiveOk(w.(desk := desk), run, row)
  {
    hide WorldOk, HitsOf, UpsertHit, Fixed, StaleIds, Find;
    if a.handled < |a.items| {
      HitKeepsWorld(w, a, a.t.hitAt(a.handled), a.t.createdAt(a.handled));
    } else if a.stale.Some? && a.fixed < |a.stale.value| {
      FixKeepsWorld(w, a.stale.value[a.fixed], a.t);
    }
  }

  /** Runs and the tick go on when rules are only added or changed. */
  lemma OthersGoOn(s: System, w: World)
    requires SystemOk(s) && WorldOk(w) && CodesKept(s.world.rules, w.rules) && w.runs == s.world.runs
    ensures SystemOk(s.(world := w))
  {
    hide WorldOk, CodesKept, Complete, SuccessRow;
    CodesKeptTrans(s.tick.seen, s.world.rules, w.rules);
    forall k | 0 <= k < |s.lives| ensures LiveOk(w, s.lives[k], w.runs[k]) {
      SameCode(s.world.rules, w.rules, s.lives[k].id);
    }
  }

  lemma SameCode(before: seq<Rule>, after: seq<Rule>, id: nat)
    requires CodesKept(before, after) && id < |before|
    ensures id < |after| && after[id].code == before[id].code
  {
  }

  lemma RequestKeepsCodes(w: World, act: Act)
    requires RulesOk(w.rules) && FromOutside(act)
    ensures CodesKept(w.rules, StepWorld(w, act).rules) && StepWorld(w, act).runs == w.runs
  {
    hide Step, CreateRule, UpdateRule, RulesOk;
    match act
    case OnDesk(event) =>
    case AddRule(templates, input, now) => CreatedRules(w.rules, templates, input, now);
    case EditRule(templates, id, edit, now) => UpdatedRules(w.rules, templates, id, edit, now);
  }

  lemma RequestKeeps(s: System, act: Act)
    requires SystemOk(s) && FromOutside(act)
    ensures SystemOk(s.(world := StepWorld(s.world, act)))
  {
    GoodRules(s.world);
    hide StepWorld, WorldOk, LiveOk, TickOk, RulesOk, CodesKept;
    StepWorldKeeps(s.world, act);
    RequestKeepsCodes(s.world, act);
    OthersGoOn(s, StepWorld(s.world, act));
  }

  /** What beginning a run adds to the system, apart from the tick. */
  lemma BeginKeeps(s: System, id: nat, rule: Rule, items: seq<string>, t: Timing)
    requires SystemOk(s) && id < |s.world.rules| && rule.code == s.world.rules[id].code
    ensures SystemOk(Begin(s, id, rule, items, t))
  {
    var after := Begin(s, id, rule, items, t);
    hide DeskOk, RulesOk, OwnedBy, CodesKept, SuccessRow;
    assert WorldOk(after.world);
    hide WorldOk;
    forall k | 0 <= k < |after.lives| ensures LiveOk(after.world, after.lives[k], after.world.runs[k]) {
      if k < |s.lives| {
        assert LiveOk(s.world, s.lives[k], s.world.runs[k]);
      }
    }
  }

  lemma StartDueKeeps(s: System, items: seq<string>, t: Timing)
    requires SystemOk(s)
    ensures SystemOk(Moved(s, StartDue(items, t)))
  {
    hide WorldOk, CodesKept, LiveOk, Begun;
    var next := |s.tick.served|;
    if Free(s) && next < |s.tick.due| {
      var id := s.tick.due[next];
      SameCode(s.tick.seen, s.world.rules, id);
      BeginKeeps(s, id, s.tick.seen[id], items, t);
      BegunHas(id, s.tick.seen[id], items, t);
    }
  }

  lemma BegunHas(id: nat, rule: Rule, items: seq<string>, t: Timing)
    ensures var a := Begun(id, rule, items, t); a.id == id && a.rule == rule && a.items == items && a.t == t
  {
  }

  lemma StartTickKeeps(s: System, now: int)
    requires SystemOk(s)
    ensures SystemOk(Moved(s, StartTick(now)))
  {
    hide WorldOk, LiveOk, Due;
    DueIs(s.world.rules, now, |s.world.rules|);
  }

  lemma ClosedWorld(w: World, k: nat, row: Run, a: Live)
    requires WorldOk(w) && k < |w.runs| && RunOk(row, w.rules) && a.id < |w.rules|
    ensures var after := Close(w, k, row, a);
            WorldOk(after) && CodesKept(w.rules, after.rules) && after.runs == w.runs[k := row] && after.desk == w.desk
  {
    var rules := w.rules[a.id := Rescheduled(w.rules[a.id], a.rule.cadence, a.t.finished)];
    hide DeskOk, OwnedBy;
    RulesKept(w, rules);
  }

  lemma CloseKeeps(s: System, k: nat, row: Run)
    requires SystemOk(s) && Runs(s, k) && RunOk(row, s.world.rules) && !row.status.Running? && row.rule == s.lives[k].id
    requires row.status.Succeeded? ==> Complete(s.lives[k]) && row == SuccessRow(s.lives[k])
    ensures SystemOk(s.(world := Close(s.world, k, row, s.lives[k])))
  {
    var after := Close(s.world, k, row, s.lives[k]);
    assert LiveOk(s.world, s.lives[k], s.world.runs[k]);
    ClosedWorld(s.world, k, row, s.lives[k]);
    hide WorldOk, CodesKept, Close, SuccessRow, Complete, RunOk;
    CodesKeptTrans(s.tick.seen, s.world.rules, after.rules);
    forall i | 0 <= i < |s.lives| ensures LiveOk(after, s.lives[i], after.runs[i]) {
      assert LiveOk(s.world, s.lives[i], s.world.runs[i]);
      SameCode(s.world.rules, after.rules, s.lives[i].id);
    }
  }

  lemma TurnRunKeeps(s: System, k: nat)
    requires SystemOk(s) && Runs(s, k)
    ensures SystemOk(Moved(s, TurnRun(k)))
  {
    hide WorldOk, Turned, LiveOk, CodesKept;
    var (desk, run) := Turned(s.world.desk, s.lives[k]);
    var after := Moved(s, TurnRun(k));
    TurnKeeps(s.world, s.lives[k], s.world.runs[k]);
    TurnIsOf(s.world.desk, s.lives[k]);
    forall i | 0 <= i < |after.lives| ensures LiveOk(after.world, after.lives[i], after.world.runs[i]) {
      assert LiveOk(s.world, s.lives[i], s.world.runs[i]);
      SameLive(s.world, after.world, s.lives[i], s.world.runs[i]);
    }
  }

  lemma TurnIsOf(d: Desk, a: Live)
    ensures var run := Turned(d, a).1; run.id == a.id && run.rule == a.rule && run.items == a.items && run.t == a.t
  {
    hide UpsertHit, StaleIds, Fixed, Find, HitsOf;
  }

  lemma SameLive(before: World, after: World, a: Live, row: Run)
    requires LiveOk(before, a, row) && after.rules == before.rules
    ensures LiveOk(after, a, row)
  {
  }

  lemma MoveKeeps(s: System, m: Move)
    requires SystemOk(s)
    ensures SystemOk(Moved(s, m))
  {
    hide StepWorld, Turned, Close, WorldOk, TickOk, Begin;
    match m
    case Request(act) =>
      if FromOutside(act) {
        RequestKeeps(s, act);
      }
    case StartRun(id, items, t) =>
      if id < |s.world.rules| {
        BeginKeeps(s, id, s.world.rules[id], items, t);
      }
    case StartTick(now) => StartTickKeeps(s, now);
    case StartDue(items, t) => StartDueKeeps(s, items, t);
    case TurnRun(k) =>
      if Runs(s, k) {
        TurnRunKeeps(s, k);
      }
    case EndRun(k) =>
      if Runs(s, k) && Complete(s.lives[k]) {
        CloseKeeps(s, k, SuccessRow(s.lives[k]));
      }
    case BreakRun(k) =>
      if Runs(s, k) {
        var a := s.lives[k];
        CloseKeeps(s, k, Run(a.id, Failed, a.t.started, Some(a.t.finished), 0, 0, 0));
      }
  }

  /**
   Every interleaving of turns, requests, rule changes and ticks keeps the cases good, every fingerprint
   with its rule, every row in step with its run, and the tick with the rules it read.
   */
  lemma {:induction false} MovesKeep(s: System, moves: seq<Move>)
    requires SystemOk(s)
    ensures SystemOk(Moves(s, moves))
  {
    hide SystemOk, Moved;
    if moves != [] {
      MovesKeep(s, moves[..|moves| - 1]);
      MoveKeeps(Moves(s, moves[..|moves| - 1]), moves[|moves| - 1]);
    }
  }

  lemma StartIsOk()
    ensures SystemOk(START)
  {
  }

  // ---------- the tick ----------

  ghost predicate NoTick(moves: seq<Move>) {
    forall i :: 0 <= i < |moves| ==> !moves[i].StartTick?
  }

  /** The runs of this tick are numbered after those there were when it read the rules. */
  ghost predicate BegunSince(s: System, base: nat) {
    base <= |s.lives| && forall i :: 0 <= i < |s.tick.served| ==> base <= s.tick.served[i]
  }

  lemma {:induction false} SameTick(s: System, moves: seq<Move>, base: nat)
    requires NoTick(moves) && BegunSince(s, base)
    ensures var after := Moves(s, moves);
            after.tick.seen == s.tick.seen && after.tick.due == s.tick.due && BegunSince(after, base)
  {
    hide Close, Turned, StepWorld;
    if moves != [] {
      SameTick(s, moves[..|moves| - 1], base);
    }
  }

  /** Run number k is the one of a rule as it was read. */
  ghost predicate Serves(s: System, k: nat, id: nat, rule: Rule) {
    k < |s.lives| && k < |s.world.runs| && s.lives[k].id == id && s.lives[k].rule == rule && s.world.runs[k].rule == id
  }

  lemma TickServes(s: System, i: nat)
    requires SystemOk(s) && i < |s.tick.served|
    ensures i < |s.tick.due| && s.tick.due[i] < |s.tick.seen| && s.tick.due[i] < |s.world.rules|
    ensures s.tick.seen[s.tick.due[i]].enabled && Serves(s, s.tick.served[i], s.tick.due[i], s.tick.seen[s.tick.due[i]])
    ensures forall j :: i < j < |s.tick.served| ==> s.tick.served[i] < s.tick.served[j] && !Runs(s, s.tick.served[i])
  {
    hide WorldOk;
    assert LiveOk(s.world, s.lives[s.tick.served[i]], s.world.runs[s.tick.served[i]]);
  }

  /** A tick that is over has begun a run for each of its due rules, and all have ended. */
  lemma OverMeans(s: System)
    requires SystemOk(s)
    ensures |s.tick.served| <= |s.tick.due| && |s.tick.seen| <= |s.world.rules|
    ensures forall i :: 0 <= i < |s.tick.due| ==> s.tick.due[i] < |s.tick.seen|
    ensures Over(s) ==> |s.tick.served| == |s.tick.due|
                        && forall i :: 0 <= i < |s.tick.served| ==> !Runs(s, s.tick.served[i])
  {
    hide WorldOk, LiveOk;
  }

  /**
   Whatever else happens meanwhile, a tick begins one new run for each rule that was due when it read them,
   oldest first and as it was read, and each only when the one before has ended; when it is over it has
   begun all of them and all have ended.
   */
  lemma TickServesAsRead(s: System, now: int, moves: seq<Move>)
    requires SystemOk(s) && Over(s) && NoTick(moves)
    ensures var rules := s.world.rules;
            var due := Due(rules, now, |rules|);
            var after := Moves(Moved(s, StartTick(now)), moves);
            var served := after.tick.served;
            && |served| <= |due|
            && (forall i :: 0 <= i < |served| ==>
                  |s.lives| <= served[i] && Serves(after, served[i], due[i], rules[due[i]]))
            && (forall i, j :: 0 <= i < j < |served| ==> served[i] < served[j] && !Runs(after, served[i]))
            && (Over(after) ==> |served| == |due| && forall i :: 0 <= i < |due| ==> !Runs(after, served[i]))
  {
    var begun := Moved(s, StartTick(now));
    StartTickKeeps(s, now);
    MovesKeep(begun, moves);
    SameTick(begun, moves, |s.lives|);
    var after := Moves(begun, moves);
    hide Moves, SystemOk, NoTick, Over, Runs, Serves;
    assert begun.tick == Ticking(s.world.rules, Due(s.world.rules, now, |s.world.rules|), []);
    hide Moved, Due;
    OverMeans(after);
    forall i | 0 <= i < |after.tick.served|
      ensures Serves(after, after.tick.served[i], after.tick.due[i], s.world.rules[after.tick.due[i]])
      ensures forall j :: i < j < |after.tick.served| ==>
          after.tick.served[i] < after.tick.served[j] && !Runs(after, after.tick.served[i])
    {
      TickServes(after, i);
    }
  }

  // ---------- rules disabled while they wait ----------

  /** The tick has begun the run for its due rule number q, and it has ended. */
  predicate Ran(s: System, q: nat) {
    q < |s.tick.served| && !Runs(s, s.tick.served[q])
  }

  predicate EditsRule(m: Move, id: nat) {
    m.Request? && m.act.EditRule? && m.act.id == id
  }

  ghost predicate NoEdit(moves: seq<Move>, id: nat) {
    forall i :: 0 <= i < |moves| ==> !EditsRule(moves[i], id)
  }

  ghost predicate DisabledWhileDue(s: System, q: nat, id: nat) {
    && q < |s.tick.due| && s.tick.due[q] == id && id < |s.world.rules| && !s.world.rules[id].enabled
    && (Ran(s, q) ==> s.world.rules[id].lastRunAt.Some? && s.world.rules[id].nextRunAt.Some?)
  }

  /** No request but one for the rule itself changes a rule. */
  lemma OtherRequests(w: World, act: Act, id: nat)
    requires FromOutside(act) && id < |w.rules| && !(act.EditRule? && act.id == id)
    ensures id < |StepWorld(w, act).rules| && StepWorld(w, act).rules[id] == w.rules[id]
        && StepWorld(w, act).runs == w.runs
  {
    hide Step, TemplateError, EditedRule, Trim, Upper, Lower;
  }

  lemma DisabledStays(s: System, m: Move, q: nat, id: nat)
    requires SystemOk(s) && DisabledWhileDue(s, q, id) && !m.StartTick? && !EditsRule(m, id)
    ensures DisabledWhileDue(Moved(s, m), q, id)
  {
    hide StepWorld, Turned, WorldOk, LiveOk, CodesKept;
    match m
    case Request(act) =>
      if FromOutside(act) {
        OtherRequests(s.world, act, id);
      }
    case StartRun(_, items, t) =>
    case StartTick(now) =>
    case StartDue(items, t) =>
    case TurnRun(k) =>
    case EndRun(k) =>
    case BreakRun(k) =>
  }

  lemma {:induction false} DisabledThroughout(s: System, moves: seq<Move>, q: nat, id: nat)
    requires SystemOk(s) && DisabledWhileDue(s, q, id) && NoTick(moves) && NoEdit(moves, id)
    ensures DisabledWhileDue(Moves(s, moves), q, id)
  {
    hide Moved, SystemOk, DisabledWhileDue;
    if moves != [] {
      var earlier := moves[..|moves| - 1];
      DisabledThroughout(s, earlier, q, id);
      MovesKeep(s, earlier);
      DisabledStays(Moves(s, earlier), moves[|moves| - 1], q, id);
    }
  }

  /**
   A rule that was enabled when the tick read it and is disabled before its turn comes runs all the same,
   as it was read, and when the tick is over it is disabled but has a next run.
   */
  lemma DisabledRuleStillRuns(s: System, moves: seq<Move>, q: nat)
    requires SystemOk(s) && |s.tick.served| <= q < |s.tick.due| && !s.world.rules[s.tick.due[q]].enabled
    requires NoTick(moves) && NoEdit(moves, s.tick.due[q]) && Over(Moves(s, moves))
    ensures var id, after := s.tick.due[q], Moves(s, moves);
            && q < |after.tick.served| && Serves(after, after.tick.served[q], id, s.tick.seen[id])
            && s.tick.seen[id].enabled
            && !Runs(after, after.tick.served[q])
            && id < |after.world.rules| && !after.world.rules[id].enabled
            && after.world.rules[id].lastRunAt.Some? && after.world.rules[id].nextRunAt.Some?
  {
    var id, after := s.tick.due[q], Moves(s, moves);
    DisabledThroughout(s, moves, q, id);
    MovesKeep(s, moves);
    SameTick(s, moves, 0);
    hide Moves, SystemOk, Serves, Runs, NoTick, NoEdit;
    OverMeans(after);
    TickServes(after, q);
  }

  predicate Leftover(rule: Rule) {
    !rule.enabled && rule.nextRunAt.Some?
  }

  /** The move ends a run of the rule. */
  predicate EndsRunOf(s: System, m: Move, id: nat) {
    && (m.EndRun? || m.BreakRun?) && Runs(s, m.run) && s.lives[m.run].id == id
    && (m.EndRun? ==> Complete(s.lives[m.run]))
  }

  /** The move is a request that enables or disables the rule, and is carried out. */
  predicate Switches(s: System, m: Move, id: nat) {
    && EditsRule(m, id) && m.act.edit.enabled.Some?
    && UpdateRule(s.world.rules, m.act.templates, id, m.act.edit, m.act.now).error.None?
  }

  /**
   A disabled rule has a next run exactly after a run of it ended while it was disabled, until it is switched
   again.
   */
  lemma LeftoverIff(s: System, m: Move, id: nat)
    requires SystemOk(s) && id < |s.world.rules|
    ensures id < |Moved(s, m).world.rules|
    ensures Leftover(Moved(s, m).world.rules[id])
            <==> if EndsRunOf(s, m, id) then !s.world.rules[id].enabled
                 else !Switches(s, m, id) && Leftover(s.world.rules[id])
  {
    hide Turned, WorldOk, TickOk, Complete, SuccessRow, Step, CreateRule, UpdateRule, Execute, Tick;
    match m
    case Request(act) =>
      if FromOutside(act) {
        if EditsRule(m, id) {
          EditLeaves(s.world.rules, act.templates, id, act.edit, act.now);
        } else {
          OtherRequests(s.world, act, id);
        }
      }
    case StartRun(_, items, t) =>
    case StartTick(now) =>
    case StartDue(items, t) =>
    case TurnRun(k) =>
    case EndRun(k) =>
      assert k < |s.lives| ==> LiveOk(s.world, s.lives[k], s.world.runs[k]);
    case BreakRun(k) =>
      assert k < |s.lives| ==> LiveOk(s.world, s.lives[k], s.world.runs[k]);
  }

  lemma EditLeaves(rules: seq<Rule>, templates: set<string>, id: nat, edit: RuleEdit, now: int)
    requires id < |rules|
    ensures var outcome := UpdateRule(rules, templates, id, edit, now);
            && |outcome.rules| == |rules|
            && (Leftover(outcome.rules[id])
                <==> Leftover(rules[id]) && !(edit.enabled.Some? && outcome.error.None?))
  {
    hide TemplateError, Trim, Lower;
  }

  // ---------- undisturbed runs ----------

  lemma {:induction false} MovesAppend(s: System, a: seq<Move>, b: seq<Move>)
    ensures Moves(s, a + b) == Moves(Moves(s, a), b)
  {
    hide Moved;
    if b == [] {
      assert a + b == a;
    } else {
      var last := |b| - 1;
      assert (a + b)[..|a + b| - 1] == a + b[..last] && (a + b)[|a + b| - 1] == b[last];
      MovesAppend(s, a, b[..last]);
    }
  }

  function Turning(k: nat, m: nat): (moves: seq<Move>)
    ensures |moves| == m
  {
    seq(m, i => TurnRun(k))
  }

  lemma {:induction false} TurnsAlone(s: System, k: nat, m: nat)
    requires Runs(s, k)
    ensures var (desk, run) := Alone(s.world.desk, s.lives[k], m);
            Moves(s, Turning(k, m)) == s.(world := s.world.(desk := desk), lives := s.lives[k := run])
  {
    hide Turned;
    if m > 0 {
      assert Turning(k, m)[..m - 1] == Turning(k, m - 1);
      TurnsAlone(s, k, m - 1);
    }
  }

  /**
   A run that nothing disturbs is the one step of the simple system: stopped after any number of its
   turns it is the run that breaks off there, and it can end if and only if it had all its turns.
   */
  lemma UndisturbedIsExecute(s: System, id: nat, items: seq<string>, t: Timing, m: nat)
    requires |s.world.runs| == |s.lives| && id < |s.world.rules|
    ensures var k, rule := |s.lives|, s.world.rules[id];
            var last := Moves(Moved(s, StartRun(id, items, t)), Turning(k, m));
            && Moved(last, BreakRun(k)).world == Execute(s.world, id, rule, Finding(items, BreakAfter(items, m)), t)
            && (m >= TurnsOf(s.world.desk, id, rule, items, t) ==>
                  Moved(last, EndRun(k)).world == Execute(s.world, id, rule, Finding(items, Never), t))
            && (m < TurnsOf(s.world.desk, id, rule, items, t) ==> Moved(last, EndRun(k)) == last)
  {
    var k, rule, a := |s.lives|, s.world.rules[id], Begun(id, s.world.rules[id], items, t);
    var begun := Moved(s, StartRun(id, items, t));
    TurnsAlone(begun, k, m);
    AloneIsDeskAfter(s.world.desk, id, rule, items, t, m);
    AloneSucceedsIff(s.world.desk, id, rule, items, t, m);
    AloneIsOf(s.world.desk, a, m);
    BegunHas(id, rule, items, t);
    var (desk, run) := Alone(s.world.desk, a, m);
    var last := Moves(begun, Turning(k, m));
    var row := Run(id, Running, t.started, None, 0, 0, 0);
    assert begun.lives[k] == a;
    hide Moves, Alone, DeskAfter, RunRow, TurnsOf, Begun, Complete, SuccessRow, Turning;
    assert last.world.runs[k] == row && last.lives[k] == run;
    hide Moved;
    EndsLikeExecute(last, s.world, k, rule, items, m);
  }

  /** Ending the last run there is, on a desk only that run has changed, is `executeRule` in one step. */
  lemma EndsLikeExecute(last: System, w: World, k: nat, rule: Rule, items: seq<string>, m: nat)
    requires Runs(last, k) && k == |w.runs| && |last.world.runs| == k + 1 && last.world.runs[..k] == w.runs
    requires var a := last.lives[k]; a.id < |w.rules| && a.rule == rule && last.world.rules == w.rules
    requires var a := last.lives[k];
             var never := Finding(items, Never);
             && last.world.desk == DeskAfter(w.desk, a.id, rule, Finding(items, BreakAfter(items, m)), a.t)
             && (Complete(a) ==> last.world.desk == DeskAfter(w.desk, a.id, rule, never, a.t)
                                 && SuccessRow(a) == RunRow(w.desk, a.id, rule, never, a.t))
    ensures var a := last.lives[k];
            && Moved(last, BreakRun(k)).world == Execute(w, a.id, rule, Finding(items, BreakAfter(items, m)), a.t)
            && Moved(last, EndRun(k)) == if Complete(a)
                                         then last.(world := Execute(w, a.id, rule, Finding(items, Never), a.t))
                                         else last
  {
    hide DeskAfter, HitsOf, CreatedBy, UpdatedBy, ResolvedCount, SuccessRow, Rescheduled;
    var a := last.lives[k];
    var failed := Run(a.id, Failed, a.t.started, Some(a.t.finished), 0, 0, 0);
    assert last.world.runs[k := failed] == w.runs + [failed];
    if Complete(a) {
      assert last.world.runs[k := SuccessRow(a)] == w.runs + [SuccessRow(a)];
    }
  }

  lemma AloneIsOf(d: Desk, a: Live, m: nat)
    ensures var run := Alone(d, a, m).1; run.id == a.id && run.rule == a.rule && run.items == a.items && run.t == a.t
  {
    hide Turned;
    if m > 0 {
      AloneIsOf(d, a, m - 1);
      TurnIsOf(Alone(d, a, m - 1).0, Alone(d, a, m - 1).1);
    }
  }

  /** What a successful run of a reconciling rule leaves behind. */
  ghost predicate Reconciles(before: World, id: nat, items: seq<string>, after: World)
    requires id < |before.rules|
  {
    var hits := HitsOf(before.rules[id], items);
    && InStep(after.desk, id, hits)
    && |before.runs| < |after.runs|
    && after.runs[|before.runs|].status.Succeeded? && after.runs[|before.runs|].hits == |items|
    && |after.desk.cases| == |before.desk.cases| + after.runs[|before.runs|].created
    && forall j :: 0 <= j < |before.desk.cases| ==> OldCaseAfter(id, hits, before.desk.cases[j], after.desk.cases[j])
  }

  lemma ExecuteReconciles(w: World, id: nat, items: seq<string>, t: Timing)
    requires WorldOk(w) && id < |w.rules| && Reconciling(w.rules[id])
    ensures Reconciles(w, id, items, Execute(w, id, w.rules[id], Finding(items, Never), t))
  {
    ExecuteIs(w, id, w.rules[id], Finding(items, Never), t);
    RunFromGoodWorld(w, id, items, t, t);
    hide WorldOk, Execute, InStep, OldCaseAfter, HitsOf, ResolvedCount;
  }

  /** After any interleaved history, a run that nothing disturbs leaves the rule in step with its hits. */
  lemma UndisturbedRunReconciles(history: seq<Move>, id: nat, items: seq<string>, t: Timing, m: nat)
    requires var s := Moves(START, history);
             id < |s.world.rules| && Reconciling(s.world.rules[id])
             && m >= TurnsOf(s.world.desk, id, s.world.rules[id], items, t)
    ensures var s := Moves(START, history);
            var last := Moves(Moved(s, StartRun(id, items, t)), Turning(|s.lives|, m));
            Reconciles(s.world, id, items, Moved(last, EndRun(|s.lives|)).world)
  {
    var s := Moves(START, history);
    StartIsOk();
    MovesKeep(START, history);
    hide Moves, Moved, WorldOk, Execute, Reconciles, Reconciling, TurnsOf, LiveOk, TickOk, Turning;
    UndisturbedIsExecute(s, id, items, t, m);
    ExecuteReconciles(s.world, id, items, t);
  }

  // ---------- overlapping runs ----------

  /** Moves that begin one run of a rule for each findings. */
  function Starting(id: nat, found: seq<seq<string>>, times: nat -> Timing): (moves: seq<Move>)
    ensures |moves| == |found|
  {
    seq(|found|, i requires 0 <= i < |found| => StartRun(id, found[i], times(i)))
  }

  function BegunRuns(id: nat, rule: Rule, found: seq<seq<string>>, times: nat -> Timing): (lives: seq<Live>)
    ensures |lives| == |found|
  {
    seq(|found|, i requires 0 <= i < |found| => Begun(id, rule, found[i], times(i)))
  }

  /** Turns of the runs numbered from base on. */
  function Interleaved(base: nat, schedule: seq<nat>): (moves: seq<Move>)
    ensures |moves| == |schedule|
  {
    seq(|schedule|, i requires 0 <= i < |schedule| => TurnRun(base + schedule[i]))
  }

  ghost predicate AllRun(s: System, base: nat) {
    base <= |s.lives| == |s.world.runs| && forall k :: base <= k < |s.lives| ==> Runs(s, k)
  }

  lemma {:induction false} StartsBegin(s: System, id: nat, found: seq<seq<string>>, times: nat -> Timing)
    requires |s.world.runs| == |s.lives| && id < |s.world.rules|
    ensures var after := Moves(s, Starting(id, found, times));
            && AllRun(after, |s.lives|) && after.world.desk == s.world.desk && after.world.rules == s.world.rules
            && after.lives == s.lives + BegunRuns(id, s.world.rules[id], found, times)
  {
    var rule := s.world.rules[id];
    if found == [] {
      assert BegunRuns(id, rule, found, times) == [];
    } else {
      var last := |found| - 1;
      var before := Moves(s, Starting(id, found[..last], times));
      StartsBegin(s, id, found[..last], times);
      hide Begun, Moved;
      assert Starting(id, found, times)[..last] == Starting(id, found[..last], times);
      assert BegunRuns(id, rule, found, times)
          == BegunRuns(id, rule, found[..last], times) + [Begun(id, rule, found[last], times(last))];
      OneStarts(before, |s.lives|, id, found[last], times(last));
    }
  }

  lemma OneStarts(s: System, base: nat, id: nat, items: seq<string>, t: Timing)
    requires AllRun(s, base) && id < |s.world.rules|
    ensures var after := Moved(s, StartRun(id, items, t));
            && AllRun(after, base) && after.world.desk == s.world.desk && after.world.rules == s.world.rules
            && after.lives == s.lives + [Begun(id, s.world.rules[id], items, t)]
  {
    hide Begun;
    var after := Moved(s, StartRun(id, items, t));
    forall k | base <= k < |s.lives| + 1 ensures Runs(after, k) {
      assert k < |s.lives| ==> Runs(s, k);
    }
  }

  lemma {:induction false} InterleavedIsTurns(s: System, base: nat, schedule: seq<nat>)
    requires AllRun(s, base)
    ensures var after := Moves(s, Interleaved(base, schedule));
            && AllRun(after, base)
            && (after.world.desk, after.lives[base..]) == Turns(s.world.desk, s.lives[base..], schedule)
  {
    if schedule != [] {
      var last := |schedule| - 1;
      var before := Moves(s, Interleaved(base, schedule[..last]));
      InterleavedIsTurns(s, base, schedule[..last]);
      assert Interleaved(base, schedule)[..last] == Interleaved(base, schedule[..last]);
      assert Interleaved(base, schedule)[last] == TurnRun(base + schedule[last]);
      assert Moves(s, Interleaved(base, schedule)) == Moved(before, TurnRun(base + schedule[last]));
      TurnsNext(s.world.desk, s.lives[base..], schedule);
      hide Turned, Moved, AllRun, Moves, Interleaved, Turns;
      OneTurns(before, base, schedule[last]);
    }
  }

  lemma TurnsNext(d: Desk, lives: seq<Live>, schedule: seq<nat>)
    requires schedule != []
    ensures var k, (desk, runs) := schedule[|schedule| - 1], Turns(d, lives, schedule[..|schedule| - 1]);
            Turns(d, lives, schedule)
            == if k < |lives| then (Turned(desk, runs[k]).0, runs[k := Turned(desk, runs[k]).1]) else (desk, runs)
  {
    hide Turned;
  }

  lemma OneTurns(s: System, base: nat, k: nat)
    requires AllRun(s, base)
    ensures var after, lives := Moved(s, TurnRun(base + k)), s.lives[base..];
            && AllRun(after, base)
            && (k >= |lives| ==> after == s)
            && (k < |lives| ==> after.world.desk == Turned(s.world.desk, lives[k]).0
                                && after.lives[base..] == lives[k := Turned(s.world.desk, lives[k]).1])
  {
    hide Turned;
    var after := Moved(s, TurnRun(base + k));
    forall i | base <= i < |s.lives| ensures Runs(after, i) {
      assert Runs(s, i);
    }
  }

  lemma BegunAreSteady(w: World, id: nat, found: seq<seq<string>>, times: nat -> Timing)
    requires WorldOk(w) && id < |w.rules| && Reconciling(w.rules[id])
    ensures var lives := BegunRuns(id, w.rules[id], found, times);
            && Steady(w.desk, id, lives)
            && forall k :: 0 <= k < |lives| ==> Unstarted(lives[k]) && Reconciling(lives[k].rule)
  {
    hide WorldOk, HitsOf, HitsAreOwn, OneCasePerFingerprint, OwnedHaveFingerprints;
    OwnHits(w, id, w.rules[id], []);
    var lives := BegunRuns(id, w.rules[id], found, times);
    forall k | 0 <= k < |found|
      ensures Going(w.desk, id, lives[k]) && Unstarted(lives[k]) && Reconciling(lives[k].rule)
    {
      assert lives[k] == Begun(id, w.rules[id], found[k], times(k));
      OwnHits(w, id, w.rules[id], found[k]);
    }
  }

  /**
   After any history, any number of runs of one rule are begun and their turns mixed in any order until
   all are complete: what all of them hit is open, what none of them hits is not, and in between the last
   touch decides.
   */
  lemma OverlapAfterAnyHistory(history: seq<Move>, id: nat, found: seq<seq<string>>, times: nat -> Timing,
                               schedule: seq<nat>, fingerprint: string)
    requires var s := Moves(START, history);
             id < |s.world.rules| && Reconciling(s.world.rules[id]) && found != []
             && AllComplete(s.world.desk, BegunRuns(id, s.world.rules[id], found, times), schedule)
    ensures var s := Moves(START, history);
            var lives := BegunRuns(id, s.world.rules[id], found, times);
            var after := Moves(Moves(s, Starting(id, found, times)), Interleaved(|s.lives|, schedule));
            var open := OpenFor(after.world.desk.cases, id, fingerprint);
            && (open <==> LastTouch(s.world.desk, lives, schedule, fingerprint).Hit?)
            && (open ==> HitBySome(lives, fingerprint))
            && ((forall k :: 0 <= k < |lives| ==> HitByRun(lives[k], fingerprint)) ==> open)
  {
    var s := Moves(START, history);
    var lives := BegunRuns(id, s.world.rules[id], found, times);
    StartIsOk();
    MovesKeep(START, history);
    hide Moves, WorldOk, LiveOk, TickOk, BegunRuns, Starting, Interleaved, Turns, LastTouch, HitBySome, HitByRun,
         OpenFor, Reconciling, AllComplete, Unstarted;
    StartsBegin(s, id, found, times);
    InterleavedIsTurns(Moves(s, Starting(id, found, times)), |s.lives|, schedule);
    BegunAreSteady(s.world, id, found, times);
    assert Moves(s, Starting(id, found, times)).lives[|s.lives|..] == lives;
    OverlappingRunsSettle(s.world.desk, id, lives, schedule, fingerprint);
  }
}
