/**
 Runs of one automation rule that overlap, apps/api/src/automations/automations.service.ts: a run is a
 sequence of turns, one per hit, one for the recovery's query and one per case it resolves, and the turns
 of any number of runs come in any order.
 */
module RunRaces {
  import opened Automations
  import opened Exceptions
  import opened Options
  import opened Reconciliation
  import opened Sla

  /** A run under way: the rule as it was read, the hits handled, what the recovery's query found and how far it got. */
  datatype Live = Live(
    id: nat, rule: Rule, items: seq<string>, t: Timing, handled: nat, created: nat, updated: nat,
    stale: Option<seq<nat>>, fixed: nat)

  function Hits(a: Live): (hits: seq<Hit>)
    ensures |hits| == |a.items|
  {
    HitsOf(a.rule, a.items)
  }

  /** An export neither hits nor recovers, and counts as one creation. */
  function Begun(id: nat, rule: Rule, items: seq<string>, t: Timing): Live {
    if rule.detector == EXPORT then Live(id, rule, items, t, |items|, 1, 0, Some([]), 0)
    else Live(id, rule, items, t, 0, 0, 0, None, 0)
  }

  predicate Complete(a: Live) {
    a.handled >= |a.items| && a.stale.Some? && a.fixed >= |a.stale.value|
  }

  /** The next turn of a run: a hit, the query, a stale case, or nothing. */
  function Turned(d: Desk, a: Live): (Desk, Live) {
    if a.handled < |a.items| then
      var hit := Hits(a)[a.handled];
      if !a.rule.createExceptions then (d, a.(handled := a.handled + 1))
      else
        (UpsertHit(d, a.id, hit, a.t.hitAt(a.handled), a.t.createdAt(a.handled)),
         if Find(d.cases, hit.fingerprint).None? then a.(handled := a.handled + 1, created := a.created + 1)
         else a.(handled := a.handled + 1, updated := a.updated + 1))
    else if a.stale.None? then
      (d, a.(stale := Some(if a.rule.resolveOnRecovery then StaleIds(d.cases, a.id, Fingerprints(Hits(a))) else [])))
    else if a.fixed < |a.stale.value| then (Fixed(d, a.stale.value[a.fixed], a.t), a.(fixed := a.fixed + 1))
    else (d, a)
  }

  /** The recovery writes to the row whatever has become of it. */
  function Fixed(d: Desk, id: nat, t: Timing): Desk {
    if id < |d.cases| then Desk(WithDefaults(d.policies), d.cases[id := Recovered(d.cases[id], t.recoveredAt(id))])
    else d
  }

  /** The desk and the runs after turns of the runs named by the schedule, in this order. */
  function Turns(d: Desk, lives: seq<Live>, schedule: seq<nat>): (r: (Desk, seq<Live>))
    ensures |r.1| == |lives|
  {
    if schedule == [] then (d, lives)
    else
      var k := schedule[|schedule| - 1];
      var (desk, runs) := Turns(d, lives, schedule[..|schedule| - 1]);
      if k >= |lives| then (desk, runs)
      else
        var (after, run) := Turned(desk, runs[k]);
        (after, runs[k := run])
  }

  // ---------- touches ----------

  datatype Touch = Untouched | Hit | Resolved

  /** What the next turn of a run does to the case of a fingerprint. */
  function TouchOf(d: Desk, a: Live, fingerprint: string): Touch {
    if a.handled < |a.items| then
      if a.rule.createExceptions && Hits(a)[a.handled].fingerprint == fingerprint then Touch.Hit else Untouched
    else if a.stale.Some? && a.fixed < |a.stale.value| && a.stale.value[a.fixed] < |d.cases|
            && d.cases[a.stale.value[a.fixed]].fingerprint == Some(fingerprint) then Touch.Resolved
    else Untouched
  }

  /** The last thing the turns of a schedule did to the case of a fingerprint. */
  function LastTouch(d: Desk, lives: seq<Live>, schedule: seq<nat>, fingerprint: string): Touch {
    if schedule == [] then Untouched
    else
      var k, earlier := schedule[|schedule| - 1], schedule[..|schedule| - 1];
      var (desk, runs) := Turns(d, lives, earlier);
      if k < |lives| && !TouchOf(desk, runs[k], fingerprint).Untouched? then TouchOf(desk, runs[k], fingerprint)
      else LastTouch(d, lives, earlier, fingerprint)
  }

  // ---------- what every turn keeps ----------

  /** Rows stay and keep their owners; new rows are the rule's. */
  ghost predicate Grown(rule: nat, before: seq<Case>, after: seq<Case>) {
    && |before| <= |after|
    && (forall j :: 0 <= j < |before| ==>
          after[j].fingerprint == before[j].fingerprint && after[j].automation == before[j].automation
          && after[j].source == before[j].source)
    && forall j :: |before| <= j < |after| ==>
        after[j].fingerprint.Some? && after[j].automation == Some(rule) && after[j].source == "automation"
  }

  /** A row of the rule that the hits leave out. */
  ghost predicate Target(d: Desk, rule: nat, hits: seq<Hit>, j: nat) {
    && j < |d.cases| && d.cases[j].automation == Some(rule) && d.cases[j].source == "automation"
    && d.cases[j].fingerprint.Some? && !HitBy(hits, |hits|, d.cases[j].fingerprint)
  }

  /** A run of the rule in some state of its turns. */
  ghost predicate Going(d: Desk, rule: nat, a: Live) {
    && a.id == rule && a.handled <= |a.items| && HitsAreOwn(d, rule, Hits(a))
    && (a.stale.None? ==> a.fixed == 0)
    && (a.stale.Some? ==>
          && a.handled == |a.items| && a.fixed <= |a.stale.value|
          && forall i :: 0 <= i < |a.stale.value| ==> Target(d, rule, Hits(a), a.stale.value[i]))
  }

  ghost predicate Steady(d: Desk, rule: nat, lives: seq<Live>) {
    && OneCasePerFingerprint(d.cases) && OwnedHaveFingerprints(d)
    && forall k :: 0 <= k < |lives| ==> Going(d, rule, lives[k])
  }

  lemma GrownIsOwn(before: Desk, after: Desk, rule: nat, hits: seq<Hit>)
    requires Grown(rule, before.cases, after.cases) && HitsAreOwn(before, rule, hits)
    ensures HitsAreOwn(after, rule, hits)
    ensures forall j: nat :: Target(before, rule, hits, j) ==> Target(after, rule, hits, j)
  {
    hide HitBy;
  }

  lemma GrownGoesOn(before: Desk, after: Desk, rule: nat, a: Live)
    requires Grown(rule, before.cases, after.cases) && Going(before, rule, a)
    ensures Going(after, rule, a)
  {
    hide Grown, HitsAreOwn, Target, HitsOf;
    GrownIsOwn(before, after, rule, Hits(a));
  }

  lemma HitGrows(d: Desk, rule: nat, hit: Hit, now: int, createdAt: int)
    requires OneCasePerFingerprint(d.cases) && OwnedHaveFingerprints(d)
    ensures var after := UpsertHit(d, rule, hit, now, createdAt);
            Grown(rule, d.cases, after.cases) && OneCasePerFingerprint(after.cases) && OwnedHaveFingerprints(after)
  {
    hide UpsertHit, Find, OneCasePerFingerprint, Holds;
    UpsertHitIs(d, rule, hit, now, createdAt);
    var after := UpsertHit(d, rule, hit, now, createdAt);
    assert |after.cases| > |d.cases| ==> forall j :: 0 <= j < |d.cases| ==>
        after.cases[j] == after.cases[..|d.cases|][j];
  }

  lemma FixGrows(d: Desk, rule: nat, id: nat, t: Timing)
    requires OneCasePerFingerprint(d.cases) && OwnedHaveFingerprints(d)
    ensures var after := Fixed(d, id, t);
            Grown(rule, d.cases, after.cases) && OneCasePerFingerprint(after.cases) && OwnedHaveFingerprints(after)
  {
    hide WithDefaults;
  }

  lemma StaleAreTargets(d: Desk, rule: nat, hits: seq<Hit>)
    requires OwnedHaveFingerprints(d)
    ensures var stale := StaleIds(d.cases, rule, Fingerprints(hits));
            forall i :: 0 <= i < |stale| ==> Target(d, rule, hits, stale[i])
  {
    hide Stale, Fingerprints, HitBy, StaleIds;
    var stale := StaleIds(d.cases, rule, Fingerprints(hits));
    forall i | 0 <= i < |stale| ensures Target(d, rule, hits, stale[i]) {
      assert d.cases[stale[i]].automation == Some(rule) by {
        StaleIsOwned(d.cases[stale[i]], rule, Fingerprints(hits));
      }
      StaleIff(d.cases[stale[i]], rule, hits);
    }
  }

  lemma StaleIsOwned(c: Case, rule: nat, fingerprints: seq<string>)
    requires Stale(c, rule, fingerprints)
    ensures c.automation == Some(rule)
  {
  }

  lemma TurnGrows(d: Desk, rule: nat, a: Live)
    requires OneCasePerFingerprint(d.cases) && OwnedHaveFingerprints(d) && Going(d, rule, a)
    ensures var (after, run) := Turned(d, a);
            && Grown(rule, d.cases, after.cases) && OneCasePerFingerprint(after.cases) && OwnedHaveFingerprints(after)
            && Going(after, rule, run) && run.items == a.items && run.rule == a.rule
  {
    var (after, run) := Turned(d, a);
    if a.handled < |a.items| {
      HitTurn(d, a);
      hide UpsertHit, Find, Grown, OneCasePerFingerprint, OwnedHaveFingerprints, HitsAreOwn, HitsOf, Target, Turned;
      HitGrows(d, rule, Hits(a)[a.handled], a.t.hitAt(a.handled), a.t.createdAt(a.handled));
      GrownGoesOn(d, after, rule, a);
    } else if a.stale.None? {
      hide OneCasePerFingerprint, OwnedHaveFingerprints, HitsAreOwn, HitsOf, Target, StaleIds, Fingerprints;
      StaleAreTargets(d, rule, Hits(a));
    } else if a.fixed < |a.stale.value| {
      hide Grown, OneCasePerFingerprint, OwnedHaveFingerprints, HitsAreOwn, HitsOf, Target, Fixed;
      FixGrows(d, rule, a.stale.value[a.fixed], a.t);
      GrownGoesOn(d, after, rule, a);
    }
  }

  /** Every schedule keeps the desk and the runs steady, and their hits. */
  lemma {:induction false} TurnsStaySteady(d: Desk, rule: nat, lives: seq<Live>, schedule: seq<nat>)
    requires Steady(d, rule, lives)
    ensures var (after, runs) := Turns(d, lives, schedule);
            && Steady(after, rule, runs) && Grown(rule, d.cases, after.cases)
            && forall k :: 0 <= k < |lives| ==> runs[k].rule == lives[k].rule && runs[k].items == lives[k].items
  {
    if schedule != [] {
      var k, earlier := schedule[|schedule| - 1], schedule[..|schedule| - 1];
      TurnsStaySteady(d, rule, lives, earlier);
      var (desk, runs) := Turns(d, lives, earlier);
      if k < |lives| {
        hide Turns, Turned, Going, OneCasePerFingerprint, OwnedHaveFingerprints, HitsOf, Grown;
        var (after, run) := Turned(desk, runs[k]);
        TurnGrows(desk, rule, runs[k]);
        GrownTrans(rule, d.cases, desk.cases, after.cases);
        var next := runs[k := run];
        forall i | 0 <= i < |lives| ensures Going(after, rule, next[i]) {
          GrownGoesOn(desk, after, rule, runs[i]);
        }
      }
    }
  }

  lemma GrownTrans(rule: nat, a: seq<Case>, b: seq<Case>, c: seq<Case>)
    requires Grown(rule, a, b) && Grown(rule, b, c)
    ensures Grown(rule, a, c)
  {
  }

  // ---------- open or not ----------

  lemma OpenStays(before: seq<Case>, after: seq<Case>, rule: nat, fingerprint: string, except: nat)
    requires |before| <= |after| && OneCasePerFingerprint(after)
    requires forall j :: 0 <= j < |before| && j != except ==> after[j] == before[j]
    requires except < |after| && after[except].fingerprint.Some? && after[except].fingerprint != Some(fingerprint)
    requires except < |before| ==> before[except].fingerprint == after[except].fingerprint
    requires |after| <= |before| + 1 && (|after| > |before| ==> except == |before|)
    ensures OpenFor(before, rule, fingerprint) <==> OpenFor(after, rule, fingerprint)
  {
    hide OpenCase;
    if OpenFor(before, rule, fingerprint) {
      var j :| 0 <= j < |before| && before[j].fingerprint == Some(fingerprint) && OpenCase(before[j], rule);
      assert after[j] == before[j];
    }
    if OpenFor(after, rule, fingerprint) {
      var j :| 0 <= j < |after| && after[j].fingerprint == Some(fingerprint) && OpenCase(after[j], rule);
      assert after[j] == before[j];
    }
  }

  /** A hit leaves its own case open and every other one as open as it was. */
  lemma HitTouches(d: Desk, rule: nat, hits: seq<Hit>, n: nat, now: int, createdAt: int, fingerprint: string)
    requires n < |hits| && OneCasePerFingerprint(d.cases) && HitsAreOwn(d, rule, hits)
    ensures var after := UpsertHit(d, rule, hits[n], now, createdAt);
            OpenFor(after.cases, rule, fingerprint)
            <==> fingerprint == hits[n].fingerprint || OpenFor(d.cases, rule, fingerprint)
  {
    hide UpsertHit, OpenFor, Holds, Find, HitBy, HitsAreOwn;
    var after, found := UpsertHit(d, rule, hits[n], now, createdAt), Find(d.cases, hits[n].fingerprint);
    UpsertHitIs(d, rule, hits[n], now, createdAt);
    var at := if found.None? then |d.cases| else found.value;
    assert found.None? ==> forall j :: 0 <= j < |d.cases| ==> after.cases[j] == after.cases[..|d.cases|][j];
    if fingerprint == hits[n].fingerprint {
      HitOpensOwn(d, rule, hits, n, after, at);
    } else {
      OpenStays(d.cases, after.cases, rule, fingerprint, at);
    }
  }

  lemma HitOpensOwn(d: Desk, rule: nat, hits: seq<Hit>, n: nat, after: Desk, at: nat)
    requires n < |hits| && HitsAreOwn(d, rule, hits) && at < |after.cases|
    requires after.cases[at].fingerprint == Some(hits[n].fingerprint)
    requires at < |d.cases| ==> ConfirmedFrom(d.cases[at], after.cases[at])
    requires at >= |d.cases| ==> RaisedBy(rule, after.cases[at])
    ensures OpenFor(after.cases, rule, hits[n].fingerprint)
  {
    if at < |d.cases| {
      assert HitBy(hits, |hits|, d.cases[at].fingerprint);
    }
    assert OpenCase(after.cases[at], rule);
  }

  /** A recovery leaves its own case closed and every other one as open as it was. */
  lemma FixTouches(d: Desk, rule: nat, id: nat, t: Timing, fingerprint: string)
    requires OneCasePerFingerprint(d.cases) && id < |d.cases| && d.cases[id].fingerprint.Some?
    ensures OpenFor(Fixed(d, id, t).cases, rule, fingerprint)
            <==> d.cases[id].fingerprint != Some(fingerprint) && OpenFor(d.cases, rule, fingerprint)
  {
    hide WithDefaults, OpenFor;
    var after := Fixed(d, id, t);
    if d.cases[id].fingerprint != Some(fingerprint) {
      OpenStays(d.cases, after.cases, rule, fingerprint, id);
    } else {
      FixCloses(d, rule, id, t, fingerprint);
    }
  }

  lemma FixCloses(d: Desk, rule: nat, id: nat, t: Timing, fingerprint: string)
    requires OneCasePerFingerprint(d.cases) && id < |d.cases| && d.cases[id].fingerprint == Some(fingerprint)
    ensures !OpenFor(Fixed(d, id, t).cases, rule, fingerprint)
  {
    hide WithDefaults;
  }

  /** What a turn does to the case of a fingerprint. */
  lemma TurnTouches(d: Desk, rule: nat, a: Live, fingerprint: string)
    requires OneCasePerFingerprint(d.cases) && OwnedHaveFingerprints(d) && Going(d, rule, a)
    ensures var touch := TouchOf(d, a, fingerprint);
            OpenFor(Turned(d, a).0.cases, rule, fingerprint)
            <==> touch.Hit? || (touch.Untouched? && OpenFor(d.cases, rule, fingerprint))
  {
    hide UpsertHit, OpenFor, HitsAreOwn, OneCasePerFingerprint, Fixed, HitsOf, Find;
    if a.handled < |a.items| {
      HitTouches(d, rule, Hits(a), a.handled, a.t.hitAt(a.handled), a.t.createdAt(a.handled), fingerprint);
    } else if a.stale.Some? && a.fixed < |a.stale.value| {
      assert Target(d, rule, Hits(a), a.stale.value[a.fixed]);
      FixTouches(d, rule, a.stale.value[a.fixed], a.t, fingerprint);
    }
  }

  /** After any schedule a case is open if it was touched last by a hit, closed if by a recovery, and else as it was. */
  lemma {:induction false} LastTouchTells(d: Desk, rule: nat, lives: seq<Live>, schedule: seq<nat>, fingerprint: string)
    requires Steady(d, rule, lives)
    ensures var last := LastTouch(d, lives, schedule, fingerprint);
            OpenFor(Turns(d, lives, schedule).0.cases, rule, fingerprint)
            <==> last.Hit? || (last.Untouched? && OpenFor(d.cases, rule, fingerprint))
  {
    hide Turned, TouchOf, OpenFor, Going;
    if schedule != [] {
      var k, earlier := schedule[|schedule| - 1], schedule[..|schedule| - 1];
      LastTouchTells(d, rule, lives, earlier, fingerprint);
      TurnsStaySteady(d, rule, lives, earlier);
      var (desk, runs) := Turns(d, lives, earlier);
      if k < |lives| {
        TurnTouches(desk, rule, runs[k], fingerprint);
      }
    }
  }

  // ---------- which touches there are ----------

  /** A run that has hit nothing yet. */
  predicate Unstarted(a: Live) {
    a.handled == 0 && a.stale.None? && a.fixed == 0
  }

  /** What a run has hit so far has been touched, and a case all runs hit is never resolved by one. */
  lemma {:induction false} HitsAreTouches(d: Desk, rule: nat, lives: seq<Live>, schedule: seq<nat>, k: nat, n: nat)
    requires Steady(d, rule, lives) && k < |lives| && Unstarted(lives[k]) && lives[k].rule.createExceptions
    requires n < Turns(d, lives, schedule).1[k].handled
    ensures n < |lives[k].items| && !LastTouch(d, lives, schedule, Hits(lives[k])[n].fingerprint).Untouched?
  {
    hide HitsOf, Going;
    assert schedule != [];
    var last, earlier := schedule[|schedule| - 1], schedule[..|schedule| - 1];
    TurnsStaySteady(d, rule, lives, earlier);
    TurnsStaySteady(d, rule, lives, schedule);
    var (desk, runs) := Turns(d, lives, earlier);
    if n < runs[k].handled {
      HitsAreTouches(d, rule, lives, earlier, k, n);
    } else {
      HitIsTouch(desk, rule, runs[k], n);
    }
  }

  lemma HitIsTouch(d: Desk, rule: nat, a: Live, n: nat)
    requires Going(d, rule, a) && a.rule.createExceptions && a.handled <= n < Turned(d, a).1.handled
    ensures n < |a.items| && TouchOf(d, a, Hits(a)[n].fingerprint) == Touch.Hit
  {
    hide HitsOf, UpsertHit, StaleIds, Fixed, Find;
  }

  lemma {:induction false} CommonIsNeverResolved(d: Desk, rule: nat, lives: seq<Live>, schedule: seq<nat>,
                                                 fingerprint: string)
    requires Steady(d, rule, lives)
    requires forall k :: 0 <= k < |lives| ==> HitByRun(lives[k], fingerprint)
    ensures !LastTouch(d, lives, schedule, fingerprint).Resolved?
  {
    hide Turned, TouchOf, Going, HitByRun;
    if schedule != [] {
      var k, earlier := schedule[|schedule| - 1], schedule[..|schedule| - 1];
      CommonIsNeverResolved(d, rule, lives, earlier, fingerprint);
      TurnsStaySteady(d, rule, lives, earlier);
      var (desk, runs) := Turns(d, lives, earlier);
      if k < |lives| {
        SameRun(lives[k], runs[k], fingerprint);
        OwnHitIsNotResolved(desk, rule, runs[k], fingerprint);
      }
    }
  }

  lemma OwnHitIsNotResolved(d: Desk, rule: nat, a: Live, fingerprint: string)
    requires Going(d, rule, a) && HitByRun(a, fingerprint)
    ensures !TouchOf(d, a, fingerprint).Resolved?
  {
    hide HitsOf, HitBy;
    if a.stale.Some? && a.fixed < |a.stale.value| {
      assert Target(d, rule, Hits(a), a.stale.value[a.fixed]);
    }
  }

  // ---------- cases nobody hits ----------

  /** A run past its query still has the case on its list. */
  ghost predicate OnList(d: Desk, a: Live, fingerprint: string) {
    a.stale.Some? ==> exists i :: a.fixed <= i < |a.stale.value| && Names(d, a.stale.value[i], fingerprint)
  }

  ghost predicate Names(d: Desk, j: nat, fingerprint: string) {
    j < |d.cases| && d.cases[j].fingerprint == Some(fingerprint)
  }

  lemma GrownPends(rule: nat, before: Desk, after: Desk, a: Live, fingerprint: string)
    requires Grown(rule, before.cases, after.cases) && OnList(before, a, fingerprint)
    ensures OnList(after, a, fingerprint)
  {
    if a.stale.Some? {
      var i :| a.fixed <= i < |a.stale.value| && Names(before, a.stale.value[i], fingerprint);
      assert Names(after, a.stale.value[i], fingerprint);
    }
  }

  /** The query lists every open case the run has not hit. */
  lemma QueryLists(d: Desk, rule: nat, a: Live, fingerprint: string)
    requires OwnedHaveFingerprints(d) && OpenFor(d.cases, rule, fingerprint)
    requires !HitBy(Hits(a), |a.items|, Some(fingerprint))
    requires a.stale == Some(StaleIds(d.cases, rule, Fingerprints(Hits(a)))) && a.fixed == 0
    ensures OnList(d, a, fingerprint)
  {
    hide HitsOf, HitBy, Fingerprints, Stale, StaleIds;
    var j :| 0 <= j < |d.cases| && d.cases[j].fingerprint == Some(fingerprint) && OpenCase(d.cases[j], rule);
    StaleIff(d.cases[j], rule, Hits(a));
    StaleInOrder(d.cases, rule, Fingerprints(Hits(a)), j);
    assert Names(d, j, fingerprint);
  }

  /** A turn of the run itself: unless it resolves the case, the case stays on its list. */
  lemma OwnTurnPends(d: Desk, rule: nat, a: Live, fingerprint: string)
    requires OneCasePerFingerprint(d.cases) && OwnedHaveFingerprints(d) && Going(d, rule, a) && a.rule.resolveOnRecovery
    requires !HitBy(Hits(a), |a.items|, Some(fingerprint)) && OpenFor(d.cases, rule, fingerprint)
    requires OnList(d, a, fingerprint) && TouchOf(d, a, fingerprint).Untouched?
    ensures OnList(Turned(d, a).0, Turned(d, a).1, fingerprint)
  {
    hide HitsOf, HitBy, Fingerprints, StaleIds, UpsertHit, Fixed, Find, OpenFor, HitsAreOwn;
    var (after, run) := Turned(d, a);
    TurnGrows(d, rule, a);
    if a.stale.None? && run.stale.Some? {
      QueryLists(d, rule, run, fingerprint);
    } else if a.stale.Some? {
      var i :| a.fixed <= i < |a.stale.value| && Names(d, a.stale.value[i], fingerprint);
      assert run.fixed <= i;
      assert Names(after, a.stale.value[i], fingerprint);
    }
  }

  /** The run has no turn left that hits the fingerprint. */
  ghost predicate HitsNoMore(a: Live, fingerprint: string) {
    a.handled >= |a.items| || !HitByRun(a, fingerprint)
  }

  /**
   While a case that no run hits any more is open, a run that does not hit it has it on its list from its query
   on.
   */
  lemma {:induction false} UnhitStaysListed(d: Desk, rule: nat, lives: seq<Live>, schedule: seq<nat>, w: nat,
                                            fingerprint: string)
    requires Steady(d, rule, lives) && w < |lives| && lives[w].stale.None? && lives[w].rule.resolveOnRecovery
    requires !HitByRun(lives[w], fingerprint)
    requires forall k :: 0 <= k < |lives| ==> HitsNoMore(lives[k], fingerprint)
    ensures var (after, runs) := Turns(d, lives, schedule);
            && (OpenFor(after.cases, rule, fingerprint) ==> OnList(after, runs[w], fingerprint))
            && forall k :: 0 <= k < |lives| ==> HitsNoMore(runs[k], fingerprint)
  {
    hide Turned, TouchOf, Going, HitByRun, HitsNoMore, OpenFor, OnList, Grown;
    if schedule == [] {
      UnqueriedPends(d, lives[w], fingerprint);
    } else {
      var k, earlier := schedule[|schedule| - 1], schedule[..|schedule| - 1];
      UnhitStaysListed(d, rule, lives, earlier, w, fingerprint);
      TurnsStaySteady(d, rule, lives, earlier);
      SameRun(lives[w], Turns(d, lives, earlier).1[w], fingerprint);
      var (desk, runs) := Turns(d, lives, earlier);
      if k < |lives| {
        UnhitNext(desk, rule, runs[k], runs[w], k == w, fingerprint);
      }
    }
  }

  lemma SameRun(a: Live, b: Live, fingerprint: string)
    requires b.rule == a.rule && b.items == a.items
    ensures HitByRun(b, fingerprint) <==> HitByRun(a, fingerprint)
  {
  }

  lemma UnqueriedPends(d: Desk, a: Live, fingerprint: string)
    requires a.stale.None?
    ensures OnList(d, a, fingerprint)
  {
  }

  /** A turn of a run, seen from a run that does not hit the case: itself or another one. */
  lemma UnhitNext(d: Desk, rule: nat, a: Live, watched: Live, own: bool, fingerprint: string)
    requires OneCasePerFingerprint(d.cases) && OwnedHaveFingerprints(d) && Going(d, rule, a)
    requires HitsNoMore(a, fingerprint) && (OpenFor(d.cases, rule, fingerprint) ==> OnList(d, watched, fingerprint))
    requires own ==> a == watched
    requires !HitByRun(watched, fingerprint) && watched.rule.resolveOnRecovery
    ensures var (after, run) := Turned(d, a);
            && HitsNoMore(run, fingerprint)
            && (OpenFor(after.cases, rule, fingerprint) ==> OnList(after, if own then run else watched, fingerprint))
  {
    hide Turned, Going, HitBy, HitsOf, OpenFor, OnList, Grown;
    var (after, run) := Turned(d, a);
    TurnGrows(d, rule, a);
    TurnTouches(d, rule, a, fingerprint);
    TouchIsHit(d, a, fingerprint);
    if OpenFor(after.cases, rule, fingerprint) {
      if own {
        OwnTurnPends(d, rule, a, fingerprint);
      } else {
        GrownPends(rule, d, after, watched, fingerprint);
      }
    }
    TurnHandles(d, a);
  }

  lemma TurnHandles(d: Desk, a: Live)
    ensures Turned(d, a).1.handled >= a.handled
  {
    hide UpsertHit, StaleIds, Fixed, Find, HitsOf;
  }

  lemma TouchIsHit(d: Desk, a: Live, fingerprint: string)
    ensures TouchOf(d, a, fingerprint).Hit? ==> HitBy(Hits(a), |a.items|, Some(fingerprint)) && a.handled < |a.items|
  {
    hide HitsOf;
  }

  // ---------- main result ----------

  /** Some run hits the fingerprint. */
  ghost predicate HitBySome(lives: seq<Live>, fingerprint: string) {
    exists k :: 0 <= k < |lives| && HitByRun(lives[k], fingerprint)
  }

  ghost predicate HitByRun(a: Live, fingerprint: string) {
    HitBy(Hits(a), |a.items|, Some(fingerprint))
  }

  /** The schedule gives every run all its turns. */
  ghost predicate AllComplete(d: Desk, lives: seq<Live>, schedule: seq<nat>) {
    forall k :: 0 <= k < |lives| ==> Complete(Turns(d, lives, schedule).1[k])
  }

  /**
   Runs of one rule, all begun, whose turns are mixed in any order until all are complete: a case that all
   of them hit is open, a case that none of them hits is not, and any other is open if and only if its
   last touch was a hit.
   */
  lemma OverlappingRunsSettle(d: Desk, rule: nat, lives: seq<Live>, schedule: seq<nat>, fingerprint: string)
    requires Steady(d, rule, lives) && lives != [] && AllComplete(d, lives, schedule)
    requires forall k :: 0 <= k < |lives| ==> Unstarted(lives[k]) && Reconciling(lives[k].rule)
    ensures var open := OpenFor(Turns(d, lives, schedule).0.cases, rule, fingerprint);
            && (open <==> LastTouch(d, lives, schedule, fingerprint).Hit?)
            && (open ==> HitBySome(lives, fingerprint))
            && ((forall k :: 0 <= k < |lives| ==> HitByRun(lives[k], fingerprint)) ==> open)
  {
    hide HitBy, Hits, Complete, OpenFor, Turns, LastTouch, OnList, Going;
    var (after, runs) := Turns(d, lives, schedule);
    LastTouchTells(d, rule, lives, schedule, fingerprint);
    TurnsStaySteady(d, rule, lives, schedule);
    if HitBySome(lives, fingerprint) {
      SomeHitTouches(d, rule, lives, schedule, fingerprint);
    } else {
      assert !HitByRun(lives[0], fingerprint);
      UnhitStaysListed(d, rule, lives, schedule, 0, fingerprint);
      assert Complete(runs[0]);
      CompleteHasNone(after, runs[0], fingerprint);
      UnhitIsNoHit(d, rule, lives, schedule, fingerprint);
    }
    if forall k :: 0 <= k < |lives| ==> HitByRun(lives[k], fingerprint) {
      assert HitByRun(lives[0], fingerprint);
      CommonIsNeverResolved(d, rule, lives, schedule, fingerprint);
    }
  }

  lemma CompleteHasNone(d: Desk, a: Live, fingerprint: string)
    requires Complete(a)
    ensures !OnList(d, a, fingerprint)
  {
  }

  lemma SomeHitTouches(d: Desk, rule: nat, lives: seq<Live>, schedule: seq<nat>, fingerprint: string)
    requires Steady(d, rule, lives) && AllComplete(d, lives, schedule) && HitBySome(lives, fingerprint)
    requires forall k :: 0 <= k < |lives| ==> Unstarted(lives[k]) && Reconciling(lives[k].rule)
    ensures !LastTouch(d, lives, schedule, fingerprint).Untouched?
  {
    hide HitsOf, Turns, LastTouch, Going;
    var k :| 0 <= k < |lives| && HitByRun(lives[k], fingerprint);
    var n :| 0 <= n < |lives[k].items| && Some(fingerprint) == Some(Hits(lives[k])[n].fingerprint);
    TurnsStaySteady(d, rule, lives, schedule);
    assert Complete(Turns(d, lives, schedule).1[k]);
    HitsAreTouches(d, rule, lives, schedule, k, n);
  }

  lemma {:induction false} UnhitIsNoHit(d: Desk, rule: nat, lives: seq<Live>, schedule: seq<nat>, fingerprint: string)
    requires Steady(d, rule, lives) && !HitBySome(lives, fingerprint)
    ensures !LastTouch(d, lives, schedule, fingerprint).Hit?
  {
    hide Turned, TouchOf, Going, HitBy, Hits;
    if schedule != [] {
      var k, earlier := schedule[|schedule| - 1], schedule[..|schedule| - 1];
      UnhitIsNoHit(d, rule, lives, earlier, fingerprint);
      TurnsStaySteady(d, rule, lives, earlier);
      var (desk, runs) := Turns(d, lives, earlier);
      if k < |lives| {
        TouchIsHit(desk, runs[k], fingerprint);
        SameRun(lives[k], runs[k], fingerprint);
        assert !HitByRun(lives[k], fingerprint);
      }
    }
  }

  /**
   The rule is in step with one of the runs if and only if what that run hit was touched last by a hit,
   and what only others hit was not.
   */
  lemma InStepWithIff(d: Desk, rule: nat, lives: seq<Live>, schedule: seq<nat>, k: nat)
    requires Steady(d, rule, lives) && k < |lives| && AllComplete(d, lives, schedule)
    requires forall i :: 0 <= i < |lives| ==> Unstarted(lives[i]) && Reconciling(lives[i].rule)
    ensures InStep(Turns(d, lives, schedule).0, rule, Hits(lives[k]))
            <==> forall f :: HitBySome(lives, f) ==> (LastTouch(d, lives, schedule, f).Hit? <==> HitByRun(lives[k], f))
  {
    hide HitBy, Hits, Turns, LastTouch, Going, OpenFor, AllComplete, HitBySome, InStep;
    var after := Turns(d, lives, schedule).0;
    TurnsStaySteady(d, rule, lives, schedule);
    forall f: string
      ensures OpenFor(after.cases, rule, f) <==> LastTouch(d, lives, schedule, f).Hit?
      ensures OpenFor(after.cases, rule, f) ==> HitBySome(lives, f)
    {
      OverlappingRunsSettle(d, rule, lives, schedule, f);
    }
    InStepMeans(after, rule, Hits(lives[k]));
    forall f | HitByRun(lives[k], f) ensures HitBySome(lives, f) {
      RunIsSome(lives, k, f);
    }
  }

  lemma RunIsSome(lives: seq<Live>, k: nat, fingerprint: string)
    requires k < |lives| && HitByRun(lives[k], fingerprint)
    ensures HitBySome(lives, fingerprint)
  {
  }

  /** To be in step is to have an open case for exactly the fingerprints that are hit. */
  lemma InStepMeans(d: Desk, rule: nat, hits: seq<Hit>)
    requires OwnedHaveFingerprints(d)
    ensures InStep(d, rule, hits) <==> forall f :: OpenFor(d.cases, rule, f) <==> HitBy(hits, |hits|, Some(f))
  {
    if InStep(d, rule, hits) {
      forall f ensures OpenFor(d.cases, rule, f) <==> HitBy(hits, |hits|, Some(f)) {
      }
    }
    if forall f :: OpenFor(d.cases, rule, f) <==> HitBy(hits, |hits|, Some(f)) {
      forall j | 0 <= j < |d.cases| && OpenCase(d.cases[j], rule) ensures HitBy(hits, |hits|, d.cases[j].fingerprint) {
        assert OpenFor(d.cases, rule, d.cases[j].fingerprint.value);
      }
      forall k | 0 <= k < |hits| ensures OpenFor(d.cases, rule, hits[k].fingerprint) {
        assert HitBy(hits, |hits|, Some(hits[k].fingerprint));
      }
    }
  }

  /** A run that has handled all its hits and not queried yet. */
  predicate AtQuery(a: Live) {
    a.handled >= |a.items| && a.stale.None? && a.rule.resolveOnRecovery
  }

  /** Nothing that has handled all its hits touches a case by a hit. */
  lemma {:induction false} NoHitsLeft(d: Desk, rule: nat, lives: seq<Live>, schedule: seq<nat>, fingerprint: string)
    requires Steady(d, rule, lives) && forall k :: 0 <= k < |lives| ==> lives[k].handled >= |lives[k].items|
    ensures !LastTouch(d, lives, schedule, fingerprint).Hit?
    ensures forall k :: 0 <= k < |lives| ==> Turns(d, lives, schedule).1[k].handled >= |lives[k].items|
  {
    hide Turned, TouchOf, Going, HitBy, Hits;
    if schedule != [] {
      var k, earlier := schedule[|schedule| - 1], schedule[..|schedule| - 1];
      NoHitsLeft(d, rule, lives, earlier, fingerprint);
      TurnsStaySteady(d, rule, lives, earlier);
      var (desk, runs) := Turns(d, lives, earlier);
      if k < |lives| {
        TouchIsHit(desk, runs[k], fingerprint);
        TurnHandles(desk, runs[k]);
      }
    }
  }

  /**
   Runs of one rule whose hit loops all end before any of them queries: whatever the order from there on,
   what stays open is exactly what was open and what all of them hit.
   */
  lemma LateQueriesKeepCommonHits(d: Desk, rule: nat, lives: seq<Live>, schedule: seq<nat>, fingerprint: string)
    requires Steady(d, rule, lives) && AllComplete(d, lives, schedule)
    requires forall k :: 0 <= k < |lives| ==> AtQuery(lives[k])
    ensures OpenFor(Turns(d, lives, schedule).0.cases, rule, fingerprint)
        <==> OpenFor(d.cases, rule, fingerprint) && forall k :: 0 <= k < |lives| ==> HitByRun(lives[k], fingerprint)
  {
    hide HitBy, Hits, Complete, OpenFor, Turns, LastTouch, OnList, Going;
    var (after, runs) := Turns(d, lives, schedule);
    LastTouchTells(d, rule, lives, schedule, fingerprint);
    TurnsStaySteady(d, rule, lives, schedule);
    NoHitsLeft(d, rule, lives, schedule, fingerprint);
    if w: nat :| w < |lives| && !HitByRun(lives[w], fingerprint) {
      UnhitStaysListed(d, rule, lives, schedule, w, fingerprint);
      assert Complete(runs[w]);
      CompleteHasNone(after, runs[w], fingerprint);
    } else {
      CommonIsNeverResolved(d, rule, lives, schedule, fingerprint);
    }
  }

  // ---------- a run alone ----------

  /** The desk and the run after m turns of it and of no other. */
  function Alone(d: Desk, a: Live, m: nat): (Desk, Live) {
    if m == 0 then (d, a)
    else
      var (desk, run) := Alone(d, a, m - 1);
      Turned(desk, run)
  }

  lemma {:induction false} AloneHits(d: Desk, id: nat, rule: Rule, items: seq<string>, t: Timing, m: nat)
    requires m <= |items| && rule.detector != EXPORT
    ensures var hits, a := HitsOf(rule, items), Begun(id, rule, items, t);
            Alone(d, a, m)
            == if rule.createExceptions
               then (UpsertHits(d, id, hits, t, m),
                     a.(handled := m, created := CreatedBy(d, id, hits, t, m), updated := UpdatedBy(d, id, hits, t, m)))
               else (d, a.(handled := m))
  {
    hide HitsOf, UpsertHit, Find, Turned;
    if m > 0 {
      AloneHits(d, id, rule, items, t, m - 1);
      HitTurn(Alone(d, Begun(id, rule, items, t), m - 1).0, Alone(d, Begun(id, rule, items, t), m - 1).1);
    }
  }

  lemma HitTurn(d: Desk, a: Live)
    requires a.handled < |a.items|
    ensures var hit := HitsOf(a.rule, a.items)[a.handled];
            var found := Find(d.cases, hit.fingerprint).Some?;
            Turned(d, a) == if a.rule.createExceptions
                            then (UpsertHit(d, a.id, hit, a.t.hitAt(a.handled), a.t.createdAt(a.handled)),
                                  a.(handled := a.handled + 1, created := a.created + (if found then 0 else 1),
                                     updated := a.updated + if found then 1 else 0))
                            else (d, a.(handled := a.handled + 1))
  {
    hide HitsOf, UpsertHit, Find;
  }

  /** Turn by turn, the recovery of a run alone gets to one stale case after the other. */
  lemma {:induction false} AloneRecovers(d: Desk, a: Live, stale: seq<nat>, k: nat)
    requires a.handled == |a.items| && a.stale == Some(stale) && a.fixed == 0 && k <= |stale|
    requires stale == StaleIds(d.cases, a.id, Fingerprints(Hits(a)))
    ensures Alone(d, a, k) == (ResolveFirst(d, a.id, Fingerprints(Hits(a)), a.t.recoveredAt, k), a.(fixed := k))
  {
    hide StaleIds, Stale, WithDefaults, StaleCount, HitsOf, Fingerprints, Recovered, RecoverFirst, Turned;
    if k == 0 {
      NothingRecovered(d, a.id, Fingerprints(Hits(a)), a.t.recoveredAt);
    } else {
      AloneRecovers(d, a, stale, k - 1);
      FixTurn(Alone(d, a, k - 1).0, Alone(d, a, k - 1).1);
      NextReached(d.cases, a.id, Fingerprints(Hits(a)), a.t.recoveredAt, k - 1);
      DefaultsSettle(d.policies);
    }
  }

  lemma FixTurn(d: Desk, a: Live)
    requires a.handled >= |a.items| && a.stale.Some? && a.fixed < |a.stale.value| && a.stale.value[a.fixed] < |d.cases|
    ensures var id := a.stale.value[a.fixed];
            Turned(d, a) == (Desk(WithDefaults(d.policies), d.cases[id := Recovered(d.cases[id], a.t.recoveredAt(id))]),
                             a.(fixed := a.fixed + 1))
  {
    hide WithDefaults, Recovered;
  }

  lemma {:induction false} AloneRests(d: Desk, a: Live, m: nat)
    requires Complete(a)
    ensures Alone(d, a, m) == (d, a)
  {
    if m > 0 {
      AloneRests(d, a, m - 1);
    }
  }

  lemma {:induction false} AloneSplits(d: Desk, a: Live, m: nat, n: nat)
    ensures Alone(d, a, m + n) == Alone(Alone(d, a, m).0, Alone(d, a, m).1, n)
  {
    hide Turned;
    if n > 0 {
      AloneSplits(d, a, m, n - 1);
    }
  }

  /** The recovery of a run alone after k turns of it, however many that is. */
  lemma AloneRecovery(d: Desk, a: Live, k: nat)
    requires a.handled == |a.items| && a.fixed == 0 && a.rule.resolveOnRecovery
    requires a.stale == Some(StaleIds(d.cases, a.id, Fingerprints(Hits(a))))
    ensures var (after, run) := Alone(d, a, k);
            && after == ResolveFirst(d, a.id, Fingerprints(Hits(a)), a.t.recoveredAt, k)
            && run == a.(fixed := Least(k, |a.stale.value|))
  {
    hide StaleIds, Stale, WithDefaults, StaleCount, HitsOf, Fingerprints, Alone, RecoverFirst;
    var stale, fps := a.stale.value, Fingerprints(Hits(a));
    AloneRecovers(d, a, stale, Least(k, |stale|));
    if k > |stale| {
      AloneSplits(d, a, |stale|, k - |stale|);
      AloneRests(Alone(d, a, |stale|).0, Alone(d, a, |stale|).1, k - |stale|);
      ReachedAll(d.cases, a.id, fps, a.t.recoveredAt, k);
      ReachedAll(d.cases, a.id, fps, a.t.recoveredAt, |stale|);
    }
  }

  /** Where a run breaks off that is stopped after m turns. */
  function BreakAfter(items: seq<string>, m: nat): Break {
    if m <= |items| then InHits(m) else InRecovery(m - |items| - 1)
  }

  /** Stopped after any number of its turns, a run alone leaves the desk of a run that breaks off there. */
  lemma AloneIsDeskAfter(d: Desk, id: nat, rule: Rule, items: seq<string>, t: Timing, m: nat)
    ensures Alone(d, Begun(id, rule, items, t), m).0 == DeskAfter(d, id, rule, Finding(items, BreakAfter(items, m)), t)
  {
    hide HitsOf, UpsertHits, CreatedBy, UpdatedBy, ResolveFirst, Fingerprints, Alone, StaleIds;
    var a := Begun(id, rule, items, t);
    if rule.detector == EXPORT {
      AloneRests(d, a, m);
    } else if m <= |items| {
      AloneHits(d, id, rule, items, t, m);
    } else {
      AloneQueried(d, id, rule, items, t);
      AloneSplits(d, a, |items| + 1, m - |items| - 1);
      var (desk, run) := Alone(d, a, |items| + 1);
      if rule.resolveOnRecovery {
        AloneRecovery(desk, run, m - |items| - 1);
      } else {
        AloneRests(desk, run, m - |items| - 1);
      }
    }
  }

  /** A run alone after its hits and its query. */
  lemma AloneQueried(d: Desk, id: nat, rule: Rule, items: seq<string>, t: Timing)
    requires rule.detector != EXPORT
    ensures var hits, a := HitsOf(rule, items), Begun(id, rule, items, t);
            var desk := if rule.createExceptions then UpsertHits(d, id, hits, t, |items|) else d;
            Alone(d, a, |items| + 1)
            == (desk, a.(handled := |items|,
                         created := if rule.createExceptions then CreatedBy(d, id, hits, t, |items|) else 0,
                         updated := if rule.createExceptions then UpdatedBy(d, id, hits, t, |items|) else 0,
                         stale := Some(if rule.resolveOnRecovery then StaleIds(desk.cases, id, Fingerprints(hits))
                                       else [])))
  {
    hide HitsOf, UpsertHits, CreatedBy, UpdatedBy, Fingerprints, StaleIds;
    AloneHits(d, id, rule, items, t, |items|);
  }

  /** The row of a run that ended well. */
  function SuccessRow(a: Live): Run
    requires a.stale.Some?
  {
    Run(a.id, Succeeded, a.t.started, Some(a.t.finished), |a.items|, a.created, a.updated + |a.stale.value|)
  }

  /** How many turns a run alone takes: its hits, its query and its stale cases. */
  function TurnsOf(d: Desk, id: nat, rule: Rule, items: seq<string>, t: Timing): nat {
    if rule.detector == EXPORT then 0
    else |items| + 1 + ResolvedCount(d, id, rule, Finding(items, Never), t)
  }

  /** A run alone is complete if and only if it had all its turns, and then it left what a successful run leaves. */
  lemma AloneSucceedsIff(d: Desk, id: nat, rule: Rule, items: seq<string>, t: Timing, m: nat)
    ensures var (after, run) := Alone(d, Begun(id, rule, items, t), m);
            && (Complete(run) <==> m >= TurnsOf(d, id, rule, items, t))
            && (Complete(run) ==> after == DeskAfter(d, id, rule, Finding(items, Never), t)
                                  && SuccessRow(run) == RunRow(d, id, rule, Finding(items, Never), t))
  {
    hide HitsOf, UpsertHits, CreatedBy, UpdatedBy, ResolveFirst, Fingerprints, Alone, StaleIds, StaleCount;
    var a := Begun(id, rule, items, t);
    if rule.detector == EXPORT {
      AloneRests(d, a, m);
    } else if m <= |items| {
      AloneHits(d, id, rule, items, t, m);
    } else {
      var k := m - |items| - 1;
      AloneQueried(d, id, rule, items, t);
      AloneSplits(d, a, |items| + 1, k);
      var (desk, run) := Alone(d, a, |items| + 1);
      if rule.resolveOnRecovery {
        AloneRecovery(desk, run, k);
        if k >= |run.stale.value| {
          ReachedEnough(desk, id, Fingerprints(HitsOf(rule, items)), t.recoveredAt, k);
        }
      } else {
        AloneRests(desk, run, k);
      }
    }
  }

  lemma ReachedEnough(d: Desk, rule: nat, fingerprints: seq<string>, clock: nat -> int, k: nat)
    requires k >= StaleCount(d.cases, rule, fingerprints)
    ensures ResolveFirst(d, rule, fingerprints, clock, k) == ResolveFirst(d, rule, fingerprints, clock, |d.cases|)
  {
    hide StaleCount, Stale, WithDefaults, RecoverFirst;
    FewStale(d.cases, rule, fingerprints);
    ReachedAll(d.cases, rule, fingerprints, clock, k);
  }
}
