/**
 What a run of a rule leaves of every case and what it records, for every rule and wherever the run breaks off:
 `executeRule` of apps/api/src/automations/automations.service.ts.
 */
module RunLaws {
  import opened Automations
  import opened CaseLaws
  import opened Exceptions
  import opened Options
  import opened Reconciliation
  import opened RuleLaws
  import opened Sla

  /** An open case of the rule that the detector no longer finds. */
  ghost predicate Dropped(c: Case, id: nat, hits: seq<Hit>) {
    && c.automation == Some(id) && c.source == "automation" && c.status != Resolved
    && !HitBy(hits, |hits|, c.fingerprint)
  }

  ghost function DroppedBefore(cases: seq<Case>, id: nat, hits: seq<Hit>, n: nat): set<int>
    requires n <= |cases|
  {
    set j | 0 <= j < n && Dropped(cases[j], id, hits)
  }

  /** How many of the hits the run handles before it breaks off. */
  ghost predicate Handles(finding: Finding, n: nat) {
    match finding.breaks
    case InHits(handled) => n == if handled <= |finding.items| then handled else |finding.items|
    case _ => n == |finding.items|
  }

  /** The recovery gets to the case: it has all hits behind it, and not yet resolved too many cases. */
  ghost predicate GetsTo(cases: seq<Case>, id: nat, rule: Rule, hits: seq<Hit>, breaks: Break, j: nat)
    requires j < |cases|
  {
    && rule.resolveOnRecovery && Dropped(cases[j], id, hits)
    && match breaks
       case Never => true
       case InHits(_) => false
       case InRecovery(resolved) => |DroppedBefore(cases, id, hits, j)| < resolved
  }

  /** What the run leaves of a case that was there: confirmed if hit, resolved if dropped and got to, else as it was. */
  ghost predicate CaseAfter(cases: seq<Case>, id: nat, rule: Rule, finding: Finding, t: Timing, n: nat, j: nat,
                            after: Case)
    requires j < |cases| && n <= |finding.items|
  {
    var hits := HitsOf(rule, finding.items);
    if rule.createExceptions && HitBy(hits, n, cases[j].fingerprint) then ConfirmedFrom(cases[j], after)
    else if GetsTo(cases, id, rule, hits, finding.breaks, j) then RecoveredAs(t.recoveredAt(j), cases[j], after)
    else after == cases[j]
  }

  /** The cases after a run that writes to them. */
  ghost predicate CasesAfter(before: seq<Case>, id: nat, rule: Rule, finding: Finding, t: Timing, n: nat,
                             after: seq<Case>)
    requires n <= |finding.items|
  {
    var hits := HitsOf(rule, finding.items);
    && |before| <= |after|
    && (forall j :: 0 <= j < |before| ==> CaseAfter(before, id, rule, finding, t, n, j, after[j]))
    && (!rule.createExceptions ==> |after| == |before|)
    && (forall j :: |before| <= j < |after| ==> RaisedBy(id, after[j]) && HitBy(hits, n, after[j].fingerprint))
    && (rule.createExceptions ==> forall k :: 0 <= k < n ==> Holds(after, hits[k].fingerprint))
  }

  /** What the run records: nothing but the failure, or the hits, the new cases, and the confirmed and resolved ones. */
  ghost predicate Recorded(before: seq<Case>, id: nat, rule: Rule, finding: Finding, t: Timing, after: seq<Case>,
                           run: Run) {
    var hits := HitsOf(rule, finding.items);
    && run.rule == id && run.startedAt == t.started && run.finishedAt == Some(t.finished)
    && (run.status == if finding.breaks.Never? then Succeeded else Failed)
    && (if !finding.breaks.Never? then run.hits == 0 && run.created == 0 && run.updated == 0
        else if rule.detector == "monitoring_report_export" then
          run.hits == |finding.items| && run.created == 1 && run.updated == 0
        else
          && run.hits == |finding.items| && |after| == |before| + run.created
          && run.updated == (if rule.createExceptions then run.hits - run.created else 0)
                            + (if rule.resolveOnRecovery then |DroppedBefore(before, id, hits, |before|)| else 0))
  }

  // ---------- the hit loop ----------

  lemma LoopCases(d: Desk, id: nat, rule: Rule, finding: Finding, t: Timing, n: nat)
    requires OneCasePerFingerprint(d.cases) && Handles(finding, n) && n <= |finding.items|
    ensures var hits, looped := HitsOf(rule, finding.items), DeskAfterHits(d, id, rule, finding, t).cases;
            && |d.cases| <= |looped|
            && (forall j :: 0 <= j < |d.cases| ==>
                  if rule.createExceptions && HitBy(hits, n, d.cases[j].fingerprint)
                      then ConfirmedFrom(d.cases[j], looped[j])
                  else looped[j] == d.cases[j])
            && (!rule.createExceptions ==> looped == d.cases)
            && (forall j :: |d.cases| <= j < |looped| ==>
                  RaisedBy(id, looped[j]) && HitBy(hits, n, looped[j].fingerprint))
            && (rule.createExceptions ==> forall k :: 0 <= k < n ==> Holds(looped, hits[k].fingerprint))
  {
    hide UpsertHits, HitsOf, ConfirmedFrom, RaisedBy, Holds, HitBy;
    assert Handled(finding) == n;
    if rule.createExceptions {
      HitLoop(d, id, HitsOf(rule, finding.items), t, n);
    }
  }

  // ---------- the recovery ----------

  lemma DroppedIsStale(c: Case, id: nat, hits: seq<Hit>)
    requires c.automation == Some(id) ==> c.fingerprint.Some?
    ensures Stale(c, id, Fingerprints(hits)) <==> Dropped(c, id, hits)
  {
    StaleIff(c, id, hits);
  }

  /** As many rows are stale as cases are dropped, if the same are. */
  lemma {:induction false} StaleAreDropped(before: seq<Case>, looped: seq<Case>, id: nat, hits: seq<Hit>, n: nat)
    requires n <= |before| && n <= |looped|
    requires forall j :: 0 <= j < n ==> (Stale(looped[j], id, Fingerprints(hits)) <==> Dropped(before[j], id, hits))
    ensures StaleCount(looped[..n], id, Fingerprints(hits)) == |DroppedBefore(before, id, hits, n)|
    decreases n
  {
    hide Stale, Dropped, Fingerprints;
    if n > 0 {
      StaleAreDropped(before, looped, id, hits, n - 1);
      assert looped[..n][..n - 1] == looped[..n - 1];
      var rest := DroppedBefore(before, id, hits, n - 1);
      assert DroppedBefore(before, id, hits, n) == if Dropped(before[n - 1], id, hits) then rest + {n - 1} else rest;
    } else {
      assert DroppedBefore(before, id, hits, 0) == {};
    }
  }

  lemma {:induction false} NoMoreStale(cases: seq<Case>, id: nat, fingerprints: seq<string>, n: nat)
    requires n <= |cases| && forall j :: n <= j < |cases| ==> !Stale(cases[j], id, fingerprints)
    ensures StaleCount(cases, id, fingerprints) == StaleCount(cases[..n], id, fingerprints)
    decreases |cases|
  {
    hide Stale;
    if n < |cases| {
      var last := |cases| - 1;
      NoMoreStale(cases[..last], id, fingerprints, n);
      assert cases[..last][..n] == cases[..n];
    } else {
      assert cases[..n] == cases;
    }
  }

  /** After a complete hit loop the stale rows are the dropped cases. */
  lemma StaleAfterLoop(d: Desk, id: nat, rule: Rule, finding: Finding, t: Timing)
    requires OneCasePerFingerprint(d.cases) && OwnedHaveFingerprints(d) && !finding.breaks.InHits?
    ensures var hits, looped := HitsOf(rule, finding.items), DeskAfterHits(d, id, rule, finding, t).cases;
            && |d.cases| <= |looped|
            && (forall j :: 0 <= j < |d.cases| ==>
                  (Stale(looped[j], id, Fingerprints(hits)) <==> Dropped(d.cases[j], id, hits)))
            && (forall j :: |d.cases| <= j < |looped| ==> !Stale(looped[j], id, Fingerprints(hits)))
  {
    var hits, looped := HitsOf(rule, finding.items), DeskAfterHits(d, id, rule, finding, t).cases;
    LoopCases(d, id, rule, finding, t, |finding.items|);
    hide HitsOf, DeskAfterHits, HitBy, Fingerprints, Stale, OneCasePerFingerprint, Holds;
    forall j | 0 <= j < |looped| ensures looped[j].automation == Some(id) ==> looped[j].fingerprint.Some? {
      HitHasFingerprint(hits, |hits|, looped[j].fingerprint);
    }
    forall j | 0 <= j < |looped| ensures Stale(looped[j], id, Fingerprints(hits)) <==> Dropped(looped[j], id, hits) {
      DroppedIsStale(looped[j], id, hits);
    }
  }

  /** What the recovery makes of the rows the loop has left. */
  lemma RecoveredRow(d: Desk, id: nat, rule: Rule, finding: Finding, t: Timing, k: nat, j: nat)
    requires OneCasePerFingerprint(d.cases) && OwnedHaveFingerprints(d) && !finding.breaks.InHits?
    requires rule.resolveOnRecovery && j < |DeskAfterHits(d, id, rule, finding, t).cases|
    requires k == if finding.breaks.InRecovery? then finding.breaks.resolved
                  else |DeskAfterHits(d, id, rule, finding, t).cases|
    ensures var hits, looped := HitsOf(rule, finding.items), DeskAfterHits(d, id, rule, finding, t).cases;
            RecoverFirst(looped, id, Fingerprints(hits), t.recoveredAt, k)[j]
            == if j < |d.cases| && GetsTo(d.cases, id, rule, hits, finding.breaks, j)
               then Recovered(looped[j], t.recoveredAt(j)) else looped[j]
  {
    var hits, looped := HitsOf(rule, finding.items), DeskAfterHits(d, id, rule, finding, t).cases;
    StaleAfterLoop(d, id, rule, finding, t);
    hide HitsOf, DeskAfterHits, Fingerprints, Stale, OneCasePerFingerprint, Dropped, StaleCount, Recovered;
    if j < |d.cases| {
      StaleAreDropped(d.cases, looped, id, hits, j);
      FewStale(looped[..j], id, Fingerprints(hits));
    }
  }

  lemma RowAfter(d: Desk, id: nat, rule: Rule, finding: Finding, t: Timing, n: nat, j: nat)
    requires OneCasePerFingerprint(d.cases) && OwnedHaveFingerprints(d) && Handles(finding, n) && n <= |finding.items|
    requires rule.detector != "monitoring_report_export" && j < |DeskAfter(d, id, rule, finding, t).cases|
    ensures var after, hits := DeskAfter(d, id, rule, finding, t).cases[j], HitsOf(rule, finding.items);
            if j < |d.cases| then CaseAfter(d.cases, id, rule, finding, t, n, j, after)
            else rule.createExceptions && RaisedBy(id, after) && HitBy(hits, n, after.fingerprint)
  {
    LoopCases(d, id, rule, finding, t, n);
    if rule.resolveOnRecovery && !finding.breaks.InHits? {
      var looped := DeskAfterHits(d, id, rule, finding, t).cases;
      RecoveredRow(d, id, rule, finding, t,
                   if finding.breaks.InRecovery? then finding.breaks.resolved else |looped|, j);
      if j < |d.cases| {
        HitIsNotDropped(d.cases[j], id, HitsOf(rule, finding.items));
      }
    }
    hide HitsOf, DeskAfterHits, HitBy, OneCasePerFingerprint, Dropped, ConfirmedFrom, RecoverFirst, RaisedBy, Holds,
         OwnedHaveFingerprints;
  }

  /** No case is gone, none is new unless the rule writes cases, and then every handled hit has one. */
  lemma RowsHeld(d: Desk, id: nat, rule: Rule, finding: Finding, t: Timing, n: nat)
    requires OneCasePerFingerprint(d.cases) && Handles(finding, n) && n <= |finding.items|
    requires rule.detector != "monitoring_report_export"
    ensures var after, hits := DeskAfter(d, id, rule, finding, t).cases, HitsOf(rule, finding.items);
            && |d.cases| <= |after| && (!rule.createExceptions ==> |after| == |d.cases|)
            && (rule.createExceptions ==> forall k :: 0 <= k < n ==> Holds(after, hits[k].fingerprint))
  {
    var hits, looped := HitsOf(rule, finding.items), DeskAfterHits(d, id, rule, finding, t).cases;
    LoopCases(d, id, rule, finding, t, n);
    StillHeld(looped, id, rule, hits, t, if finding.breaks.InRecovery? then finding.breaks.resolved else |looped|, n);
    SameLength(d, id, rule, finding, t);
    hide HitsOf, DeskAfterHits, HitBy, OneCasePerFingerprint, RaisedBy, RecoverFirst, Holds, ConfirmedFrom,
         Fingerprints, StaleCount;
  }

  lemma DeskCases(d: Desk, id: nat, rule: Rule, finding: Finding, t: Timing, n: nat)
    requires OneCasePerFingerprint(d.cases) && OwnedHaveFingerprints(d) && Handles(finding, n) && n <= |finding.items|
    requires rule.detector != "monitoring_report_export"
    ensures CasesAfter(d.cases, id, rule, finding, t, n, DeskAfter(d, id, rule, finding, t).cases)
  {
    hide HitsOf, DeskAfter, DeskAfterHits, HitBy, OneCasePerFingerprint, OwnedHaveFingerprints, CaseAfter, RaisedBy,
         Holds, Handles;
    var hits, after := HitsOf(rule, finding.items), DeskAfter(d, id, rule, finding, t).cases;
    RowsHeld(d, id, rule, finding, t, n);
    forall j | 0 <= j < |after|
      ensures if j < |d.cases| then CaseAfter(d.cases, id, rule, finding, t, n, j, after[j])
              else rule.createExceptions && RaisedBy(id, after[j]) && HitBy(hits, n, after[j].fingerprint)
    {
      RowAfter(d, id, rule, finding, t, n, j);
    }
  }

  lemma SameLength(d: Desk, id: nat, rule: Rule, finding: Finding, t: Timing)
    requires rule.detector != "monitoring_report_export"
    ensures |DeskAfter(d, id, rule, finding, t).cases| == |DeskAfterHits(d, id, rule, finding, t).cases|
  {
    hide DeskAfterHits, HitsOf, StaleCount;
  }

  lemma HitIsNotDropped(c: Case, id: nat, hits: seq<Hit>)
    ensures HitBy(hits, |hits|, c.fingerprint) ==> !Dropped(c, id, hits)
  {
  }

  lemma StillHeld(cases: seq<Case>, id: nat, rule: Rule, hits: seq<Hit>, t: Timing, k: nat, n: nat)
    requires n <= |hits|
    ensures (forall i :: 0 <= i < n ==> Holds(cases, hits[i].fingerprint)) ==>
              forall i :: 0 <= i < n ==>
                Holds(RecoverFirst(cases, id, Fingerprints(hits), t.recoveredAt, k), hits[i].fingerprint)
  {
    hide Reached;
    var after := RecoverFirst(cases, id, Fingerprints(hits), t.recoveredAt, k);
    if forall i :: 0 <= i < n ==> Holds(cases, hits[i].fingerprint) {
      forall i | 0 <= i < n ensures Holds(after, hits[i].fingerprint) {
        var j :| 0 <= j < |cases| && cases[j].fingerprint == Some(hits[i].fingerprint);
        assert after[j].fingerprint == Some(hits[i].fingerprint);
      }
    }
  }

  // ---------- the whole run ----------

  lemma CountsRecorded(d: Desk, id: nat, rule: Rule, finding: Finding, t: Timing)
    requires OneCasePerFingerprint(d.cases) && OwnedHaveFingerprints(d)
    ensures Recorded(d.cases, id, rule, finding, t, DeskAfter(d, id, rule, finding, t).cases,
                     RunRow(d, id, rule, finding, t))
  {
    var hits := HitsOf(rule, finding.items);
    if finding.breaks.Never? && rule.detector != "monitoring_report_export" {
      SameLength(d, id, rule, finding, t);
      HitLoop(d, id, hits, t, |hits|);
      assert Handled(finding) == |hits|;
      StaleAfterLoop(d, id, rule, finding, t);
      var looped := DeskAfterHits(d, id, rule, finding, t).cases;
      StaleAreDropped(d.cases, looped, id, hits, |d.cases|);
      NoMoreStale(looped, id, Fingerprints(hits), |d.cases|);
    }
    hide HitsOf, Stale, Dropped, DeskAfter, UpsertHits, CreatedBy, UpdatedBy, OneCasePerFingerprint, StaleCount,
         Fingerprints;
  }

  /**
   After any history, for every rule as it was read and wherever the run breaks off: each case is confirmed if one of
   the handled hits has its fingerprint and the rule writes cases, resolved if it was dropped and the recovery gets
   to it, and else as it was; new cases are those of hits; and the run records exactly that.
   */
  lemma RunMeans(acts: seq<Act>, id: nat, rule: Rule, finding: Finding, t: Timing, n: nat)
    requires var w := Worlds(World(Desk([], []), [], []), acts); id < |w.rules|
    requires Handles(finding, n) && n <= |finding.items|
    ensures var w := Worlds(World(Desk([], []), [], []), acts);
            var after := Execute(w, id, rule, finding, t);
            && |after.runs| == |w.runs| + 1 && after.runs[..|w.runs|] == w.runs
            && Recorded(w.desk.cases, id, rule, finding, t, after.desk.cases, after.runs[|w.runs|])
            && if rule.detector == "monitoring_report_export" then after.desk == w.desk
               else CasesAfter(w.desk.cases, id, rule, finding, t, n, after.desk.cases)
  {
    var w := Worlds(World(Desk([], []), [], []), acts);
    EmptyWorldOk();
    WorldsKeep(World(Desk([], []), [], []), acts);
    GoodCases(w);
    hide Worlds, WorldOk, HitsOf, DeskAfter, RunRow, CasesAfter, Recorded, OneCasePerFingerprint;
    CountsRecorded(w.desk, id, rule, finding, t);
    if rule.detector == "monitoring_report_export" {
      ExportLeaves(w.desk, id, rule, finding, t);
    } else {
      DeskCases(w.desk, id, rule, finding, t, n);
    }
  }

  lemma ExportLeaves(d: Desk, id: nat, rule: Rule, finding: Finding, t: Timing)
    requires rule.detector == "monitoring_report_export"
    ensures DeskAfter(d, id, rule, finding, t) == d
  {
    hide DeskAfterHits, HitsOf;
  }

  lemma GoodCases(w: World)
    requires WorldOk(w)
    ensures OneCasePerFingerprint(w.desk.cases) && OwnedHaveFingerprints(w.desk)
  {
  }

  // ---------- what the hits leave of their cases ----------

  /** A case touched by the hit: raised by it just then, or confirmed, with the state of its new fields. */
  ghost predicate TouchedBy(ps: seq<Policy>, id: nat, hit: Hit, now: int, createdAt: int, c: Case) {
    && c.kind == hit.kind && c.severity == hit.severity && c.status != Resolved
    && (StandsAt(ps, c, c.createdAt, now)
        || (c.createdAt == createdAt && c.status == Open && c.automation == Some(id) && StandsAt(ps, c, now, now)))
  }

  lemma OneHitTouches(d: Desk, id: nat, hit: Hit, now: int, createdAt: int, j: nat)
    requires OneCasePerFingerprint(d.cases) && j < |UpsertHit(d, id, hit, now, createdAt).cases|
    ensures var after := UpsertHit(d, id, hit, now, createdAt);
            && after.policies == WithDefaults(d.policies)
            && if after.cases[j].fingerprint == Some(hit.fingerprint)
               then TouchedBy(after.policies, id, hit, now, createdAt, after.cases[j])
               else j < |d.cases| && after.cases[j] == d.cases[j]
  {
    OneHitShows(d, id, hit, now, createdAt, j);
    var after := UpsertHit(d, id, hit, now, createdAt);
    if after.cases[j].fingerprint == Some(hit.fingerprint) {
      HitMeans(d, id, hit, now, createdAt, j);
      hide StandsAt, WithDefaults, UpsertHit, OneCasePerFingerprint;
      if !(j < |d.cases| && d.cases[j].fingerprint == Some(hit.fingerprint)) {
        RaisedOnlyIfMissing(d, id, hit, now, createdAt, j);
      }
    }
    hide UpsertHit;
    UpsertPolicies(d, id, hit, now, createdAt);
  }

  lemma UpsertPolicies(d: Desk, id: nat, hit: Hit, now: int, createdAt: int)
    ensures UpsertHit(d, id, hit, now, createdAt).policies == WithDefaults(d.policies)
  {
    hide WithDefaults, Build, Find;
  }

  /** A case that has the fingerprint only afterwards is the new one, and no case had it before. */
  lemma RaisedOnlyIfMissing(d: Desk, id: nat, hit: Hit, now: int, createdAt: int, j: nat)
    requires OneCasePerFingerprint(d.cases) && j < |UpsertHit(d, id, hit, now, createdAt).cases|
    requires UpsertHit(d, id, hit, now, createdAt).cases[j].fingerprint == Some(hit.fingerprint)
    requires !(j < |d.cases| && d.cases[j].fingerprint == Some(hit.fingerprint))
    ensures j == |d.cases| && forall i :: 0 <= i < |d.cases| ==> d.cases[i].fingerprint != Some(hit.fingerprint)
  {
    hide WithDefaults, Build;
  }

  /** After the loop every case hit shows the last of the hits that had its fingerprint. */
  lemma {:induction false} LoopTouches(d: Desk, id: nat, hits: seq<Hit>, t: Timing, n: nat, k: nat, j: nat)
    requires k < n <= |hits| && OneCasePerFingerprint(d.cases)
    requires forall m :: k < m < n ==> hits[m].fingerprint != hits[k].fingerprint
    requires var after := UpsertHits(d, id, hits, t, n).cases;
             j < |after| && after[j].fingerprint == Some(hits[k].fingerprint)
    ensures TouchedBy(WithDefaults(d.policies), id, hits[k], t.hitAt(k), t.createdAt(k),
                      UpsertHits(d, id, hits, t, n).cases[j])
    decreases n
  {
    hide Progress, TouchedBy, WithDefaults, UpsertHit, UpsertHits, OneCasePerFingerprint, CreatedBy, UpdatedBy;
    var mid := UpsertHits(d, id, hits, t, n - 1);
    NextHit(d, id, hits, t, n);
    HitLoop(d, id, hits, t, n - 1);
    ProgressOnce(d, id, hits, n - 1, mid);
    OneHitTouches(mid, id, hits[n - 1], t.hitAt(n - 1), t.createdAt(n - 1), j);
    LoopPolicies(d, id, hits, t, n - 1);
    if k < n - 1 {
      LoopTouches(d, id, hits, t, n - 1, k, j);
    }
  }

  lemma NextHit(d: Desk, id: nat, hits: seq<Hit>, t: Timing, n: nat)
    requires 0 < n <= |hits|
    ensures UpsertHits(d, id, hits, t, n)
         == UpsertHit(UpsertHits(d, id, hits, t, n - 1), id, hits[n - 1], t.hitAt(n - 1), t.createdAt(n - 1))
  {
    hide UpsertHit;
  }

  lemma {:induction false} LoopPolicies(d: Desk, id: nat, hits: seq<Hit>, t: Timing, n: nat)
    requires n <= |hits|
    ensures WithDefaults(UpsertHits(d, id, hits, t, n).policies) == WithDefaults(d.policies)
  {
    hide UpsertHit, WithDefaults;
    if n > 0 {
      var mid := UpsertHits(d, id, hits, t, n - 1);
      LoopPolicies(d, id, hits, t, n - 1);
      UpsertPolicies(mid, id, hits[n - 1], t.hitAt(n - 1), t.createdAt(n - 1));
      DefaultsSettle(mid.policies);
    }
  }

  /**
   After any history and for every rule that writes cases, wherever its run breaks off: a case with the fingerprint
   of a handled hit shows the kind and severity of the last such hit, and the state computed at its moment.
   */
  lemma RunTouches(acts: seq<Act>, id: nat, rule: Rule, finding: Finding, t: Timing, n: nat, k: nat, j: nat)
    requires var w := Worlds(World(Desk([], []), [], []), acts); id < |w.rules|
    requires Handles(finding, n) && k < n <= |finding.items|
    requires rule.createExceptions && rule.detector != "monitoring_report_export"
    requires var hits := HitsOf(rule, finding.items);
             forall m :: k < m < n ==> hits[m].fingerprint != hits[k].fingerprint
    requires var after := Execute(Worlds(World(Desk([], []), [], []), acts), id, rule, finding, t).desk.cases;
             j < |after| && after[j].fingerprint == Some(HitsOf(rule, finding.items)[k].fingerprint)
    ensures var w := Worlds(World(Desk([], []), [], []), acts);
            TouchedBy(WithDefaults(w.desk.policies), id, HitsOf(rule, finding.items)[k], t.hitAt(k), t.createdAt(k),
                      Execute(w, id, rule, finding, t).desk.cases[j])
  {
    var w := Worlds(World(Desk([], []), [], []), acts);
    EmptyWorldOk();
    WorldsKeep(World(Desk([], []), [], []), acts);
    GoodCases(w);
    hide Worlds, WorldOk, HitsOf, DeskAfter, TouchedBy, WithDefaults, OneCasePerFingerprint, OwnedHaveFingerprints,
         UpsertHits, Handles;
    LoopKeepsHit(w.desk, id, rule, finding, t, n, k, j);
    LoopTouches(w.desk, id, HitsOf(rule, finding.items), t, n, k, j);
  }

  /** The recovery leaves the cases of handled hits as the loop has left them. */
  lemma LoopKeepsHit(d: Desk, id: nat, rule: Rule, finding: Finding, t: Timing, n: nat, k: nat, j: nat)
    requires OneCasePerFingerprint(d.cases) && OwnedHaveFingerprints(d) && Handles(finding, n)
    requires k < n <= |finding.items|
    requires rule.createExceptions && rule.detector != "monitoring_report_export"
    requires j < |DeskAfter(d, id, rule, finding, t).cases|
    requires DeskAfter(d, id, rule, finding, t).cases[j].fingerprint
          == Some(HitsOf(rule, finding.items)[k].fingerprint)
    ensures var looped := UpsertHits(d, id, HitsOf(rule, finding.items), t, n).cases;
            j < |looped| && DeskAfter(d, id, rule, finding, t).cases[j] == looped[j]
  {
    var hits, looped := HitsOf(rule, finding.items), DeskAfterHits(d, id, rule, finding, t).cases;
    assert Handled(finding) == n;
    assert looped == UpsertHits(d, id, hits, t, n).cases;
    if rule.resolveOnRecovery && !finding.breaks.InHits? {
      var resolved := if finding.breaks.InRecovery? then finding.breaks.resolved else |looped|;
      var after := RecoverFirst(looped, id, Fingerprints(hits), t.recoveredAt, resolved);
      assert after[j].fingerprint == looped[j].fingerprint;
      assert looped[j].fingerprint.value == Fingerprints(hits)[k];
      HitIsFresh(looped[j], id, hits, k);
    }
    hide HitsOf, DeskAfterHits, UpsertHits;
  }

  lemma HitIsFresh(c: Case, id: nat, hits: seq<Hit>, k: nat)
    requires k < |hits| && c.fingerprint == Some(hits[k].fingerprint)
    ensures !Stale(c, id, Fingerprints(hits))
  {
    assert Fingerprints(hits)[k] == hits[k].fingerprint;
  }
}
