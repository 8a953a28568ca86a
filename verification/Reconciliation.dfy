/**
 The hit loop and the recovery of an automation run, apps/api/src/automations/automations.service.ts:
 they make the rule's open cases equal to its hits.
 */
module Reconciliation {
  import opened Exceptions
  import opened Options
  import opened Sla

  /** Clock readings of a run: per hit, per created row, per recovered row and at the end. */
  datatype Timing = Timing(started: int, hitAt: nat -> int, createdAt: nat -> int, recoveredAt: nat -> int,
                           finished: int)

  /** The desk after the first n hits. */
  function UpsertHits(d: Desk, rule: nat, hits: seq<Hit>, t: Timing, n: nat): Desk
    requires n <= |hits|
  {
    if n == 0 then d
    else UpsertHit(UpsertHits(d, rule, hits, t, n - 1), rule, hits[n - 1], t.hitAt(n - 1), t.createdAt(n - 1))
  }

  /** How many of the first n hits found no case of their fingerprint. */
  function CreatedBy(d: Desk, rule: nat, hits: seq<Hit>, t: Timing, n: nat): nat
    requires n <= |hits|
  {
    if n == 0 then 0
    else CreatedBy(d, rule, hits, t, n - 1)
         + if Find(UpsertHits(d, rule, hits, t, n - 1).cases, hits[n - 1].fingerprint).None? then 1 else 0
  }

  function UpdatedBy(d: Desk, rule: nat, hits: seq<Hit>, t: Timing, n: nat): nat
    requires n <= |hits|
  {
    if n == 0 then 0
    else UpdatedBy(d, rule, hits, t, n - 1)
         + if Find(UpsertHits(d, rule, hits, t, n - 1).cases, hits[n - 1].fingerprint).None? then 0 else 1
  }

  function Fingerprints(hits: seq<Hit>): (fps: seq<string>)
    ensures |fps| == |hits| && forall i :: 0 <= i < |hits| ==> fps[i] == hits[i].fingerprint
  {
    seq(|hits|, i requires 0 <= i < |hits| => hits[i].fingerprint)
  }

  /** The fingerprint is one of the first n hits. */
  ghost predicate HitBy(hits: seq<Hit>, n: nat, fingerprint: Option<string>)
    requires n <= |hits|
  {
    exists k :: 0 <= k < n && fingerprint == Some(hits[k].fingerprint)
  }

  /** Cases with the fingerprints of these hits belong to the rule already. */
  ghost predicate HitsAreOwn(d: Desk, rule: nat, hits: seq<Hit>) {
    forall j :: 0 <= j < |d.cases| && HitBy(hits, |hits|, d.cases[j].fingerprint) ==>
      d.cases[j].automation == Some(rule) && d.cases[j].source == "automation"
  }

  // ---------- the hit loop ----------

  /** A case a hit confirmed: open again if it was resolved, else in the status it had. */
  ghost predicate ConfirmedFrom(before: Case, after: Case) {
    && after.fingerprint == before.fingerprint && after.automation == before.automation && after.source == before.source
    && after.assignee == before.assignee
    && after.status == if before.status.Resolved? then Open else before.status
  }

  ghost predicate RaisedBy(rule: nat, c: Case) {
    c.automation == Some(rule) && c.source == "automation" && c.status.Open?
  }

  ghost predicate Holds(cases: seq<Case>, fingerprint: string) {
    exists j :: 0 <= j < |cases| && cases[j].fingerprint == Some(fingerprint)
  }

  /** What the first n hits have done to the desk. */
  ghost predicate Progress(d: Desk, rule: nat, hits: seq<Hit>, n: nat, after: Desk)
    requires n <= |hits|
  {
    && |d.cases| <= |after.cases| && OneCasePerFingerprint(after.cases)
    && (forall j :: 0 <= j < |d.cases| ==>
          if HitBy(hits, n, d.cases[j].fingerprint) then ConfirmedFrom(d.cases[j], after.cases[j])
          else after.cases[j] == d.cases[j])
    && (forall j :: |d.cases| <= j < |after.cases| ==>
          RaisedBy(rule, after.cases[j]) && HitBy(hits, n, after.cases[j].fingerprint))
    && forall k :: 0 <= k < n ==> Holds(after.cases, hits[k].fingerprint)
  }

  lemma HitByNext(hits: seq<Hit>, n: nat, fingerprint: Option<string>)
    requires n < |hits|
    ensures HitBy(hits, n + 1, fingerprint) <==> HitBy(hits, n, fingerprint) || fingerprint == Some(hits[n].fingerprint)
  {
  }

  lemma ConfirmedTwice(a: Case, b: Case, c: Case)
    requires ConfirmedFrom(a, b) && ConfirmedFrom(b, c)
    ensures ConfirmedFrom(a, c)
  {
  }

  /** What one hit does to the rows: it adds a case at the end, or it confirms the one it found. */
  ghost predicate Applied(rule: nat, hit: Hit, found: Option<nat>, before: Desk, after: Desk) {
    && |before.cases| <= |after.cases|
    && (found.None? ==>
          |after.cases| == |before.cases| + 1 && after.cases[..|before.cases|] == before.cases
          && RaisedBy(rule, after.cases[|before.cases|])
              && after.cases[|before.cases|].fingerprint == Some(hit.fingerprint))
    && (found.Some? ==>
          found.value < |before.cases| && after.cases == before.cases[found.value := after.cases[found.value]]
          && ConfirmedFrom(before.cases[found.value], after.cases[found.value]))
  }

  lemma UpsertHitIs(d: Desk, rule: nat, hit: Hit, now: int, createdAt: int)
    requires OneCasePerFingerprint(d.cases)
    ensures var found, after := Find(d.cases, hit.fingerprint), UpsertHit(d, rule, hit, now, createdAt);
            OneCasePerFingerprint(after.cases) && Holds(after.cases, hit.fingerprint)
                && Applied(rule, hit, found, d, after)
  {
    hide Build, WithDefaults, Find;
    var found, after := Find(d.cases, hit.fingerprint), UpsertHit(d, rule, hit, now, createdAt);
    if found.None? {
      assert after.cases[|d.cases|].fingerprint == Some(hit.fingerprint);
    } else {
      assert after.cases[found.value].fingerprint == Some(hit.fingerprint);
    }
  }

  lemma ProgressStep(d: Desk, rule: nat, hits: seq<Hit>, t: Timing, n: nat, mid: Desk, after: Desk)
    requires n < |hits| && Progress(d, rule, hits, n, mid)
    requires after == UpsertHit(mid, rule, hits[n], t.hitAt(n), t.createdAt(n))
    ensures Progress(d, rule, hits, n + 1, after)
  {
    hide UpsertHit, HitBy, ConfirmedFrom, RaisedBy, Holds, OneCasePerFingerprint;
    UpsertHitIs(mid, rule, hits[n], t.hitAt(n), t.createdAt(n));
    var found := Find(mid.cases, hits[n].fingerprint);
    forall j | 0 <= j < |d.cases|
      ensures if HitBy(hits, n + 1, d.cases[j].fingerprint) then ConfirmedFrom(d.cases[j], after.cases[j])
              else after.cases[j] == d.cases[j]
    {
      HitByNext(hits, n, d.cases[j].fingerprint);
      OldCaseStep(d, rule, hits, n, mid, after, found, j);
    }
    forall j | |d.cases| <= j < |after.cases|
      ensures RaisedBy(rule, after.cases[j]) && HitBy(hits, n + 1, after.cases[j].fingerprint)
    {
      HitByNext(hits, n, after.cases[j].fingerprint);
      NewCaseStep(rule, hits[n], mid, after, found, j);
    }
    forall k | 0 <= k < n + 1 ensures Holds(after.cases, hits[k].fingerprint) {
      if k < n {
        StillHolds(rule, hits[n], mid, after, found, hits[k].fingerprint);
      }
    }
  }

  lemma OldCaseStep(d: Desk, rule: nat, hits: seq<Hit>, n: nat, mid: Desk, after: Desk, found: Option<nat>, j: nat)
    requires n < |hits| && j < |d.cases| <= |mid.cases| && found == Find(mid.cases, hits[n].fingerprint)
    requires if HitBy(hits, n, d.cases[j].fingerprint) then ConfirmedFrom(d.cases[j], mid.cases[j])
        else mid.cases[j] == d.cases[j]
    requires HitBy(hits, n + 1, d.cases[j].fingerprint)
             <==> HitBy(hits, n, d.cases[j].fingerprint) || d.cases[j].fingerprint == Some(hits[n].fingerprint)
    requires OneCasePerFingerprint(mid.cases) && Applied(rule, hits[n], found, mid, after)
    ensures if HitBy(hits, n + 1, d.cases[j].fingerprint) then ConfirmedFrom(d.cases[j], after.cases[j])
            else after.cases[j] == d.cases[j]
  {
    hide HitBy, Find;
    assert found.None? ==> after.cases[j] == after.cases[..|mid.cases|][j] == mid.cases[j];
    if found.Some? && found.value == j && HitBy(hits, n, d.cases[j].fingerprint) {
      ConfirmedTwice(d.cases[j], mid.cases[j], after.cases[j]);
    }
  }

  lemma NewCaseStep(rule: nat, hit: Hit, mid: Desk, after: Desk, found: Option<nat>, j: nat)
    requires j < |after.cases| && Applied(rule, hit, found, mid, after)
    ensures j < |mid.cases| ==> after.cases[j].fingerprint == mid.cases[j].fingerprint
    ensures j < |mid.cases| && RaisedBy(rule, mid.cases[j]) ==> RaisedBy(rule, after.cases[j])
    ensures j >= |mid.cases| ==> RaisedBy(rule, after.cases[j])
  {
    assert found.None? && j < |mid.cases| ==> after.cases[j] == after.cases[..|mid.cases|][j];
  }

  lemma StillHolds(rule: nat, hit: Hit, mid: Desk, after: Desk, found: Option<nat>, fingerprint: string)
    requires Holds(mid.cases, fingerprint) && Applied(rule, hit, found, mid, after)
    ensures Holds(after.cases, fingerprint)
  {
    var j :| 0 <= j < |mid.cases| && mid.cases[j].fingerprint == Some(fingerprint);
    assert found.None? ==> after.cases[j] == after.cases[..|mid.cases|][j];
    assert after.cases[j].fingerprint == Some(fingerprint);
  }

  /** The hit loop, hit by hit: what it confirms, what it raises, and what it counts. */
  lemma {:induction false} HitLoop(d: Desk, rule: nat, hits: seq<Hit>, t: Timing, n: nat)
    requires n <= |hits| && OneCasePerFingerprint(d.cases)
    ensures var after := UpsertHits(d, rule, hits, t, n);
            && Progress(d, rule, hits, n, after)
            && CreatedBy(d, rule, hits, t, n) + UpdatedBy(d, rule, hits, t, n) == n
            && |after.cases| == |d.cases| + CreatedBy(d, rule, hits, t, n)
  {
    hide UpsertHit, Progress, Find;
    if n == 0 {
      NoProgress(d, rule, hits);
    } else {
      HitLoop(d, rule, hits, t, n - 1);
      var mid := UpsertHits(d, rule, hits, t, n - 1);
      ProgressStep(d, rule, hits, t, n - 1, mid, UpsertHits(d, rule, hits, t, n));
      ProgressOnce(d, rule, hits, n - 1, mid);
      UpsertHitIs(mid, rule, hits[n - 1], t.hitAt(n - 1), t.createdAt(n - 1));
    }
  }

  lemma NoProgress(d: Desk, rule: nat, hits: seq<Hit>)
    requires OneCasePerFingerprint(d.cases)
    ensures Progress(d, rule, hits, 0, d)
  {
  }

  lemma ProgressOnce(d: Desk, rule: nat, hits: seq<Hit>, n: nat, after: Desk)
    requires n <= |hits| && Progress(d, rule, hits, n, after)
    ensures OneCasePerFingerprint(after.cases)
  {
  }

  // ---------- reconciliation ----------

  /** The desk after the loop and the recovery. */
  function Reconciled(d: Desk, rule: nat, hits: seq<Hit>, t: Timing): Desk {
    ResolveRecovered(UpsertHits(d, rule, hits, t, |hits|), rule, Fingerprints(hits), t.recoveredAt)
  }

  function ResolvedBy(d: Desk, rule: nat, hits: seq<Hit>, t: Timing): nat {
    StaleCount(UpsertHits(d, rule, hits, t, |hits|).cases, rule, Fingerprints(hits))
  }

  /** An open, acknowledged or silenced case of the rule. */
  ghost predicate OpenCase(c: Case, rule: nat) {
    c.automation == Some(rule) && c.source == "automation" && OpenLike(c.status)
  }

  ghost predicate OpenFor(cases: seq<Case>, rule: nat, fingerprint: string) {
    exists j :: 0 <= j < |cases| && cases[j].fingerprint == Some(fingerprint) && OpenCase(cases[j], rule)
  }

  /** The rule's open cases are exactly its hits. */
  ghost predicate InStep(d: Desk, rule: nat, hits: seq<Hit>) {
    && (forall j :: 0 <= j < |d.cases| && OpenCase(d.cases[j], rule) ==> HitBy(hits, |hits|, d.cases[j].fingerprint))
    && forall k :: 0 <= k < |hits| ==> OpenFor(d.cases, rule, hits[k].fingerprint)
  }

  lemma InFingerprints(hits: seq<Hit>, fingerprint: Option<string>)
    ensures HitBy(hits, |hits|, fingerprint) <==> fingerprint.Some? && fingerprint.value in Fingerprints(hits)
  {
    if fingerprint.Some? && fingerprint.value in Fingerprints(hits) {
      var i :| 0 <= i < |hits| && Fingerprints(hits)[i] == fingerprint.value;
    }
  }

  /** A case of the rule is stale exactly when it is open and not hit. */
  lemma StaleIff(c: Case, rule: nat, hits: seq<Hit>)
    requires c.automation == Some(rule) ==> c.fingerprint.Some?
    ensures Stale(c, rule, Fingerprints(hits)) <==> OpenCase(c, rule) && !HitBy(hits, |hits|, c.fingerprint)
  {
    hide HitBy, Fingerprints;
    InFingerprints(hits, c.fingerprint);
    if Fingerprints(hits) == [] {
      assert !HitBy(hits, |hits|, c.fingerprint);
    }
  }

  /** What a run leaves of a case that was there before. */
  ghost predicate OldCaseAfter(rule: nat, hits: seq<Hit>, before: Case, after: Case) {
    if HitBy(hits, |hits|, before.fingerprint) then ConfirmedFrom(before, after)
    else if OpenCase(before, rule) then after.status.Resolved? && after.resolvedAt.Some?
        && after.fingerprint == before.fingerprint
    else after == before
  }

  /** Fingerprints are known on every case a rule owns. */
  ghost predicate OwnedHaveFingerprints(d: Desk) {
    forall j :: 0 <= j < |d.cases| && d.cases[j].automation.Some? ==> d.cases[j].fingerprint.Some?
  }

  lemma OldCaseReconciled(d: Desk, rule: nat, hits: seq<Hit>, mid: Desk, clock: nat -> int, j: nat)
    requires Progress(d, rule, hits, |hits|, mid) && OwnedHaveFingerprints(d) && j < |d.cases|
    ensures OldCaseAfter(rule, hits, d.cases[j], ResolveRecovered(mid, rule, Fingerprints(hits), clock).cases[j])
  {
    hide Stale, HitBy, Fingerprints, WithDefaults, StaleCount, Reached;
    WholeRecovery(mid, rule, Fingerprints(hits), clock, j);
    StaleIff(mid.cases[j], rule, hits);
  }

  /**
   After the loop and the recovery the rule's open cases are exactly its hits, and everything else is
   accounted for: other rules' cases are untouched, confirmed cases keep an acknowledged or silenced
   status, and cases no longer hit are resolved.
   */
  lemma RunReconciles(d: Desk, rule: nat, hits: seq<Hit>, t: Timing)
    requires OneCasePerFingerprint(d.cases) && OwnedHaveFingerprints(d) && HitsAreOwn(d, rule, hits)
    ensures var after := Reconciled(d, rule, hits, t);
            && InStep(after, rule, hits)
            && CreatedBy(d, rule, hits, t, |hits|) + UpdatedBy(d, rule, hits, t, |hits|) == |hits|
            && |after.cases| == |d.cases| + CreatedBy(d, rule, hits, t, |hits|)
            && forall j :: 0 <= j < |d.cases| ==> OldCaseAfter(rule, hits, d.cases[j], after.cases[j])
  {
    hide UpsertHits, Fingerprints, StaleCount, WithDefaults, Stale;
    var mid := UpsertHits(d, rule, hits, t, |hits|);
    var after := Reconciled(d, rule, hits, t);
    HitLoop(d, rule, hits, t, |hits|);
    forall j | 0 <= j < |d.cases| ensures OldCaseAfter(rule, hits, d.cases[j], after.cases[j]) {
      OldCaseReconciled(d, rule, hits, mid, t.recoveredAt, j);
    }
    hide HitBy, ResolveRecovered, ConfirmedFrom;
    forall j | 0 <= j < |after.cases| && OpenCase(after.cases[j], rule) ensures HitBy(hits, |hits|,
        after.cases[j].fingerprint) {
      OpenIsHit(d, rule, hits, mid, t.recoveredAt, j);
    }
    forall k | 0 <= k < |hits| ensures OpenFor(after.cases, rule, hits[k].fingerprint) {
      HitIsOpen(d, rule, hits, mid, t.recoveredAt, k);
    }
  }

  lemma OpenIsHit(d: Desk, rule: nat, hits: seq<Hit>, mid: Desk, clock: nat -> int, j: nat)
    requires Progress(d, rule, hits, |hits|, mid) && OwnedHaveFingerprints(d) && j < |mid.cases|
    requires OpenCase(ResolveRecovered(mid, rule, Fingerprints(hits), clock).cases[j], rule)
    ensures HitBy(hits, |hits|, ResolveRecovered(mid, rule, Fingerprints(hits), clock).cases[j].fingerprint)
  {
    hide Stale, HitBy, Fingerprints, WithDefaults, StaleCount, Reached;
    WholeRecovery(mid, rule, Fingerprints(hits), clock, j);
    assert j >= |d.cases| ==> HitBy(hits, |hits|, mid.cases[j].fingerprint);
    if j < |d.cases| {
      StaleIff(mid.cases[j], rule, hits);
    } else {
      HitHasFingerprint(hits, |hits|, mid.cases[j].fingerprint);
      StaleIff(mid.cases[j], rule, hits);
    }
  }

  lemma HitHasFingerprint(hits: seq<Hit>, n: nat, fingerprint: Option<string>)
    requires n <= |hits|
    ensures HitBy(hits, n, fingerprint) ==> fingerprint.Some?
  {
  }

  lemma HitIsOpen(d: Desk, rule: nat, hits: seq<Hit>, mid: Desk, clock: nat -> int, k: nat)
    requires Progress(d, rule, hits, |hits|, mid) && OwnedHaveFingerprints(d) && HitsAreOwn(d, rule, hits) && k < |hits|
    ensures OpenFor(ResolveRecovered(mid, rule, Fingerprints(hits), clock).cases, rule, hits[k].fingerprint)
  {
    hide Stale, Fingerprints, WithDefaults, StaleCount;
    assert Holds(mid.cases, hits[k].fingerprint);
    var j :| 0 <= j < |mid.cases| && mid.cases[j].fingerprint == Some(hits[k].fingerprint);
    assert HitBy(hits, |hits|, mid.cases[j].fingerprint);
    WholeRecovery(mid, rule, Fingerprints(hits), clock, j);
    StaleIff(mid.cases[j], rule, hits);
    assert ResolveRecovered(mid, rule, Fingerprints(hits), clock).cases[j] == mid.cases[j];
    assert OpenCase(mid.cases[j], rule);
  }

  // ---------- repeating a run ----------

  lemma {:induction false} NoneStale(cases: seq<Case>, rule: nat, fingerprints: seq<string>)
    requires forall j :: 0 <= j < |cases| ==> !Stale(cases[j], rule, fingerprints)
    ensures StaleCount(cases, rule, fingerprints) == 0
  {
    hide Stale;
    if cases != [] {
      NoneStale(cases[..|cases| - 1], rule, fingerprints);
    }
  }

  /** While the rule's open cases are its hits, every hit finds its case. */
  lemma {:induction false} EveryHitFound(d: Desk, rule: nat, hits: seq<Hit>, t: Timing, n: nat)
    requires n <= |hits| && OneCasePerFingerprint(d.cases)
    requires forall k :: 0 <= k < |hits| ==> Holds(d.cases, hits[k].fingerprint)
    ensures CreatedBy(d, rule, hits, t, n) == 0
  {
    hide UpsertHit, Find, HitBy, Progress;
    if n > 0 {
      EveryHitFound(d, rule, hits, t, n - 1);
      HitLoop(d, rule, hits, t, n - 1);
      ProgressHolds(d, rule, hits, n - 1, UpsertHits(d, rule, hits, t, n - 1), hits[n - 1].fingerprint);
    }
  }

  lemma ProgressHolds(d: Desk, rule: nat, hits: seq<Hit>, n: nat, after: Desk, fingerprint: string)
    requires n <= |hits| && Progress(d, rule, hits, n, after) && Holds(d.cases, fingerprint)
    ensures Find(after.cases, fingerprint).Some?
  {
    hide HitBy, Find;
    var j :| 0 <= j < |d.cases| && d.cases[j].fingerprint == Some(fingerprint);
    assert after.cases[j].fingerprint == Some(fingerprint);
  }

  /** Repeating a run with the same hits creates nothing, resolves nothing and leaves every status as it is. */
  lemma RepeatIsQuiet(d: Desk, rule: nat, hits: seq<Hit>, t: Timing)
    requires OneCasePerFingerprint(d.cases) && OwnedHaveFingerprints(d) && HitsAreOwn(d, rule, hits)
        && InStep(d, rule, hits)
    ensures CreatedBy(d, rule, hits, t, |hits|) == 0 && UpdatedBy(d, rule, hits, t, |hits|) == |hits|
    ensures ResolvedBy(d, rule, hits, t) == 0
    ensures var after := Reconciled(d, rule, hits, t);
            |after.cases| == |d.cases| && forall j :: 0 <= j < |d.cases| ==> after.cases[j].status == d.cases[j].status
  {
    hide UpsertHits, Fingerprints, StaleCount, WithDefaults, Stale, Reconciled;
    var mid := UpsertHits(d, rule, hits, t, |hits|);
    forall k | 0 <= k < |hits| ensures Holds(d.cases, hits[k].fingerprint) {
      assert OpenFor(d.cases, rule, hits[k].fingerprint);
    }
    EveryHitFound(d, rule, hits, t, |hits|);
    HitLoop(d, rule, hits, t, |hits|);
    RunReconciles(d, rule, hits, t);
    hide HitBy, Holds, OpenFor;
    forall j | 0 <= j < |mid.cases| ensures !Stale(mid.cases[j], rule, Fingerprints(hits)) {
      StaleIff(mid.cases[j], rule, hits);
    }
    NoneStale(mid.cases, rule, Fingerprints(hits));
    forall j | 0 <= j < |d.cases| ensures Reconciled(d, rule, hits, t).cases[j].status == d.cases[j].status {
      HitIsUnresolved(d, rule, hits, j);
    }
  }

  /** A case that is hit and in step is not resolved. */
  lemma HitIsUnresolved(d: Desk, rule: nat, hits: seq<Hit>, j: nat)
    requires OneCasePerFingerprint(d.cases) && InStep(d, rule, hits) && j < |d.cases|
    ensures HitBy(hits, |hits|, d.cases[j].fingerprint) ==> OpenCase(d.cases[j], rule)
  {
    if HitBy(hits, |hits|, d.cases[j].fingerprint) {
      var k :| 0 <= k < |hits| && d.cases[j].fingerprint == Some(hits[k].fingerprint);
      assert OpenFor(d.cases, rule, hits[k].fingerprint);
      var i :| 0 <= i < |d.cases| && d.cases[i].fingerprint == Some(hits[k].fingerprint) && OpenCase(d.cases[i], rule);
      assert i == j;
    }
  }

  /** A successful run followed by one with the same hits: the second is quiet. */
  lemma SecondRunIsQuiet(d: Desk, rule: nat, hits: seq<Hit>, t: Timing, later: Timing)
    requires OneCasePerFingerprint(d.cases) && OwnedHaveFingerprints(d) && HitsAreOwn(d, rule, hits)
    ensures var once := Reconciled(d, rule, hits, t);
            && CreatedBy(once, rule, hits, later, |hits|) == 0 && UpdatedBy(once, rule, hits, later, |hits|) == |hits|
            && ResolvedBy(once, rule, hits, later) == 0 && InStep(Reconciled(once, rule, hits, later), rule, hits)
  {
    hide Reconciled, CreatedBy, UpdatedBy, ResolvedBy, InStep;
    RunReconciles(d, rule, hits, t);
    RunKeepsOwnership(d, rule, hits, t);
    RepeatIsQuiet(Reconciled(d, rule, hits, t), rule, hits, later);
    RunReconciles(Reconciled(d, rule, hits, t), rule, hits, later);
  }

  lemma RunKeepsOwnership(d: Desk, rule: nat, hits: seq<Hit>, t: Timing)
    requires OneCasePerFingerprint(d.cases) && OwnedHaveFingerprints(d) && HitsAreOwn(d, rule, hits)
    ensures var after := Reconciled(d, rule, hits, t);
            OneCasePerFingerprint(after.cases) && OwnedHaveFingerprints(after) && HitsAreOwn(after, rule, hits)
  {
    hide UpsertHits, Fingerprints, StaleCount, WithDefaults, Stale, HitBy;
    HitLoop(d, rule, hits, t, |hits|);
    var mid := UpsertHits(d, rule, hits, t, |hits|);
    forall j | 0 <= j < |mid.cases| && mid.cases[j].automation.Some? ensures mid.cases[j].fingerprint.Some? {
      if j >= |d.cases| {
        HitHasFingerprint(hits, |hits|, mid.cases[j].fingerprint);
      }
    }
  }

  // ---------- runs that break off ----------

  function Least(a: nat, b: nat): nat {
    if a < b then a else b
  }

  lemma Reaching(cases: seq<Case>, rule: nat, fingerprints: seq<string>, k: nat, i: nat)
    requires i < |cases|
    ensures var stale := StaleIds(cases, rule, fingerprints);
            Reached(cases, rule, fingerprints, k, i) <==> i in stale[..Least(k, |stale|)]
  {
    hide Stale;
    var stale := StaleIds(cases, rule, fingerprints);
    if Stale(cases[i], rule, fingerprints) {
      StaleInOrder(cases, rule, fingerprints, i);
    }
    if i in stale[..Least(k, |stale|)] {
      var n :| 0 <= n < Least(k, |stale|) && stale[n] == i;
      StaleAt(cases, rule, fingerprints, n);
    }
  }

  lemma RecoveredIsNotStale(c: Case, now: int, rule: nat, fingerprints: seq<string>)
    ensures !Stale(Recovered(c, now), rule, fingerprints)
  {
  }

  /** What a recovery leaves stale is the rest of its query. */
  lemma {:induction false} RestStaysStale(cases: seq<Case>, rule: nat, fingerprints: seq<string>, clock: nat -> int,
                                          k: nat)
    ensures var stale := StaleIds(cases, rule, fingerprints);
            StaleIds(RecoverFirst(cases, rule, fingerprints, clock, k), rule, fingerprints)
            == stale[Least(k, |stale|)..]
  {
    if cases != [] {
      var last := |cases| - 1;
      RestStaysStale(cases[..last], rule, fingerprints, clock, k);
      RecoveredPrefix(cases, rule, fingerprints, clock, k);
      RecoveredIsNotStale(cases[last], clock(last), rule, fingerprints);
      hide Stale, StaleCount, RecoverFirst;
    }
  }

  lemma RecoveredPrefix(cases: seq<Case>, rule: nat, fingerprints: seq<string>, clock: nat -> int, k: nat)
    requires cases != []
    ensures RecoverFirst(cases, rule, fingerprints, clock, k)[..|cases| - 1]
         == RecoverFirst(cases[..|cases| - 1], rule, fingerprints, clock, k)
  {
    hide Stale, StaleCount, Recovered;
    var last := |cases| - 1;
    forall i | 0 <= i < last
      ensures Reached(cases, rule, fingerprints, k, i) == Reached(cases[..last], rule, fingerprints, k, i)
    {
      assert cases[..last][..i] == cases[..i];
    }
  }

  lemma {:induction false} SameStale(a: seq<Case>, b: seq<Case>, rule: nat, fingerprints: seq<string>)
    requires |a| <= |b|
    requires forall j :: 0 <= j < |b| ==>
               (Stale(b[j], rule, fingerprints) <==> j < |a| && Stale(a[j], rule, fingerprints))
    ensures StaleIds(b, rule, fingerprints) == StaleIds(a, rule, fingerprints)
  {
    hide Stale;
    if |b| > |a| {
      SameStale(a, b[..|b| - 1], rule, fingerprints);
    } else if a != [] {
      SameStale(a[..|a| - 1], b[..|b| - 1], rule, fingerprints);
    }
  }

  /** No turn of the hit loop makes a case stale or takes one out of the recovery's query. */
  lemma LoopKeepsStale(d: Desk, rule: nat, hits: seq<Hit>, n: nat, mid: Desk)
    requires n <= |hits| && Progress(d, rule, hits, n, mid) && OwnedHaveFingerprints(d)
    ensures StaleIds(mid.cases, rule, Fingerprints(hits)) == StaleIds(d.cases, rule, Fingerprints(hits))
  {
    hide Stale, Fingerprints, Holds, OneCasePerFingerprint;
    forall j | 0 <= j < |mid.cases|
      ensures Stale(mid.cases[j], rule, Fingerprints(hits))
              <==> j < |d.cases| && Stale(d.cases[j], rule, Fingerprints(hits))
    {
      HitHasFingerprint(hits, n, mid.cases[j].fingerprint);
      StaleIff(mid.cases[j], rule, hits);
      if j < |d.cases| {
        StaleIff(d.cases[j], rule, hits);
      }
    }
    SameStale(d.cases, mid.cases, rule, Fingerprints(hits));
  }

  lemma NothingNew(d: Desk, rule: nat, hits: seq<Hit>, n: nat, after: Desk, j: nat, fingerprint: string)
    requires n <= |hits| && Progress(d, rule, hits, n, after) && j < |after.cases|
    requires after.cases[j].fingerprint == Some(fingerprint)
    ensures Holds(d.cases, fingerprint) || HitBy(hits, n, Some(fingerprint))
  {
    if j < |d.cases| {
      assert d.cases[j].fingerprint == Some(fingerprint);
    }
  }

  /** Which fingerprints there are after n hits. */
  lemma HeldAfter(d: Desk, rule: nat, hits: seq<Hit>, t: Timing, n: nat, fingerprint: string)
    requires n <= |hits| && OneCasePerFingerprint(d.cases)
    ensures Find(UpsertHits(d, rule, hits, t, n).cases, fingerprint).Some?
            <==> Holds(d.cases, fingerprint) || HitBy(hits, n, Some(fingerprint))
  {
    hide UpsertHits, Find;
    HitLoop(d, rule, hits, t, n);
    var after := UpsertHits(d, rule, hits, t, n);
    if Holds(d.cases, fingerprint) {
      ProgressHolds(d, rule, hits, n, after, fingerprint);
    } else if HitBy(hits, n, Some(fingerprint)) {
      assert Holds(after.cases, fingerprint);
    } else if Find(after.cases, fingerprint).Some? {
      NothingNew(d, rule, hits, n, after, Find(after.cases, fingerprint).value, fingerprint);
    }
  }

  /**
   A hit loop that breaks off after n hits and is then repeated creates, in both parts together, what one whole
   loop would.
   */
  lemma {:induction false} BrokenLoopIsResumed(d: Desk, rule: nat, hits: seq<Hit>, t: Timing, n: nat, later: Timing,
                                               m: nat)
    requires n <= |hits| && m <= |hits| && OneCasePerFingerprint(d.cases)
    ensures var broken := UpsertHits(d, rule, hits, t, n);
            CreatedBy(broken, rule, hits, later, m)
            == if m <= n then 0 else CreatedBy(d, rule, hits, t, m) - CreatedBy(d, rule, hits, t, n)
  {
    hide Find, UpsertHit, HitBy, Holds;
    var broken := UpsertHits(d, rule, hits, t, n);
    if m > 0 {
      var f := hits[m - 1].fingerprint;
      BrokenLoopIsResumed(d, rule, hits, t, n, later, m - 1);
      HitLoop(d, rule, hits, t, n);
      ProgressOnce(d, rule, hits, n, broken);
      HeldAfter(broken, rule, hits, later, m - 1, f);
      HeldAfter(d, rule, hits, t, n, f);
      HeldAfter(d, rule, hits, t, m - 1, f);
      FoundIsHeld(broken.cases, f);
      FoundEarlier(hits, n, m, f);
    }
  }

  lemma FoundIsHeld(cases: seq<Case>, fingerprint: string)
    ensures Find(cases, fingerprint).Some? <==> Holds(cases, fingerprint)
  {
    hide Find;
  }

  lemma FoundEarlier(hits: seq<Hit>, n: nat, m: nat, fingerprint: string)
    requires n <= |hits| && 0 < m <= |hits| && fingerprint == hits[m - 1].fingerprint
    ensures m <= n ==> HitBy(hits, n, Some(fingerprint))
    ensures n <= m - 1 && HitBy(hits, n, Some(fingerprint)) ==> HitBy(hits, m - 1, Some(fingerprint))
  {
  }

  /** The desk of a run that breaks off after n hits and k recovered cases. */
  function BrokenOff(d: Desk, rule: nat, hits: seq<Hit>, t: Timing, n: nat, k: nat): Desk
    requires n <= |hits|
  {
    ResolveFirst(UpsertHits(d, rule, hits, t, n), rule, Fingerprints(hits), t.recoveredAt, k)
  }

  /** What is left of an old case when a run breaks off after n hits, given the stale cases it got to. */
  ghost predicate LeftBehind(rule: nat, hits: seq<Hit>, n: nat, got: seq<nat>, j: nat, before: Case, after: Case)
    requires n <= |hits|
  {
    if HitBy(hits, n, before.fingerprint) then ConfirmedFrom(before, after)
    else if j in got then after.status.Resolved? && after.resolvedAt.Some? && after.fingerprint == before.fingerprint
    else after == before
  }

  /**
   The cases of the first n hits are confirmed or new, the first k cases that were stale before are
   resolved, all others are as they were, and what is still stale are the others of the stale ones.
   */
  ghost predicate StoppedAt(d: Desk, rule: nat, hits: seq<Hit>, n: nat, k: nat, after: Desk)
    requires n <= |hits|
  {
    var stale := StaleIds(d.cases, rule, Fingerprints(hits));
    var got := stale[..Least(k, |stale|)];
    && StaleIds(after.cases, rule, Fingerprints(hits)) == stale[|got|..]
    && |d.cases| <= |after.cases|
    && (forall j :: 0 <= j < |d.cases| ==> LeftBehind(rule, hits, n, got, j, d.cases[j], after.cases[j]))
    && forall j :: |d.cases| <= j < |after.cases| ==>
        RaisedBy(rule, after.cases[j]) && HitBy(hits, n, after.cases[j].fingerprint)
  }

  /**
   A run that breaks off after n hits and k recovered cases has confirmed the cases of those hits and
   resolved exactly the first k cases that were stale before it began; what is still stale are the others.
   */
  lemma BrokenRunIsPrefix(d: Desk, rule: nat, hits: seq<Hit>, t: Timing, n: nat, k: nat)
    requires n <= |hits| && OneCasePerFingerprint(d.cases) && OwnedHaveFingerprints(d)
    ensures var after := BrokenOff(d, rule, hits, t, n, k);
            StoppedAt(d, rule, hits, n, k, after) && |after.cases| == |d.cases| + CreatedBy(d, rule, hits, t, n)
  {
    hide UpsertHits, Fingerprints, Stale, WithDefaults, HitBy, Reached, StaleCount, CreatedBy, UpdatedBy, Progress,
         LeftBehind;
    var mid, after := UpsertHits(d, rule, hits, t, n), BrokenOff(d, rule, hits, t, n, k);
    var stale := StaleIds(d.cases, rule, Fingerprints(hits));
    var got := stale[..Least(k, |stale|)];
    HitLoop(d, rule, hits, t, n);
    LoopKeepsStale(d, rule, hits, n, mid);
    RestStaysStale(mid.cases, rule, Fingerprints(hits), t.recoveredAt, k);
    forall j | 0 <= j < |d.cases| ensures LeftBehind(rule, hits, n, got, j, d.cases[j], after.cases[j]) {
      BrokenOldCase(d, rule, hits, mid, t.recoveredAt, n, k, j);
    }
    forall j | |d.cases| <= j < |after.cases|
      ensures RaisedBy(rule, after.cases[j]) && HitBy(hits, n, after.cases[j].fingerprint)
    {
      BrokenNewCase(d, rule, hits, mid, t.recoveredAt, n, k, j);
    }
  }

  lemma BrokenNewCase(d: Desk, rule: nat, hits: seq<Hit>, mid: Desk, clock: nat -> int, n: nat, k: nat, j: nat)
    requires n <= |hits| && Progress(d, rule, hits, n, mid) && |d.cases| <= j < |mid.cases|
    ensures var after := ResolveFirst(mid, rule, Fingerprints(hits), clock, k);
            RaisedBy(rule, after.cases[j]) && HitBy(hits, n, after.cases[j].fingerprint)
  {
    hide Fingerprints, Stale, WithDefaults, HitBy, StaleCount, OneCasePerFingerprint, Holds;
    HitHasFingerprint(hits, n, mid.cases[j].fingerprint);
    HitEarlier(hits, n, mid.cases[j].fingerprint);
    StaleIff(mid.cases[j], rule, hits);
  }

  lemma BrokenOldCase(d: Desk, rule: nat, hits: seq<Hit>, mid: Desk, clock: nat -> int, n: nat, k: nat, j: nat)
    requires n <= |hits| && Progress(d, rule, hits, n, mid) && OwnedHaveFingerprints(d) && j < |d.cases|
    requires StaleIds(mid.cases, rule, Fingerprints(hits)) == StaleIds(d.cases, rule, Fingerprints(hits))
    ensures var stale := StaleIds(d.cases, rule, Fingerprints(hits));
            LeftBehind(rule, hits, n, stale[..Least(k, |stale|)], j, d.cases[j],
                       ResolveFirst(mid, rule, Fingerprints(hits), clock, k).cases[j])
  {
    hide Fingerprints, Stale, WithDefaults, HitBy, StaleCount, StaleIds, OneCasePerFingerprint, Holds;
    Reaching(mid.cases, rule, Fingerprints(hits), k, j);
    StaleIff(mid.cases[j], rule, hits);
    HitEarlier(hits, n, d.cases[j].fingerprint);
  }

  lemma HitEarlier(hits: seq<Hit>, n: nat, fingerprint: Option<string>)
    requires n <= |hits|
    ensures HitBy(hits, n, fingerprint) ==> HitBy(hits, |hits|, fingerprint)
  {
  }

  /** Both desks know the same fingerprints, row by row. */
  ghost predicate SameFingerprints(a: seq<Case>, b: seq<Case>) {
    |a| == |b| && forall j :: 0 <= j < |a| ==> a[j].fingerprint == b[j].fingerprint
  }

  lemma SameHeld(a: seq<Case>, b: seq<Case>, fingerprint: string)
    requires SameFingerprints(a, b) && Holds(a, fingerprint)
    ensures Holds(b, fingerprint)
  {
    var j :| 0 <= j < |a| && a[j].fingerprint == Some(fingerprint);
    assert b[j].fingerprint == Some(fingerprint);
  }

  /** What a hit loop creates depends on the fingerprints alone. */
  lemma {:induction false} SameCreated(a: Desk, b: Desk, rule: nat, hits: seq<Hit>, t: Timing, n: nat)
    requires n <= |hits| && OneCasePerFingerprint(a.cases) && OneCasePerFingerprint(b.cases)
    requires SameFingerprints(a.cases, b.cases) && SameFingerprints(b.cases, a.cases)
    ensures CreatedBy(a, rule, hits, t, n) == CreatedBy(b, rule, hits, t, n)
  {
    hide UpsertHit, UpsertHits, Find, HitBy, Holds, OneCasePerFingerprint, SameFingerprints;
    if n > 0 {
      var f := hits[n - 1].fingerprint;
      SameCreated(a, b, rule, hits, t, n - 1);
      HeldAfter(a, rule, hits, t, n - 1, f);
      HeldAfter(b, rule, hits, t, n - 1, f);
      if Holds(a.cases, f) {
        SameHeld(a.cases, b.cases, f);
      }
      if Holds(b.cases, f) {
        SameHeld(b.cases, a.cases, f);
      }
    }
  }

  lemma BrokenKeepsOwnership(d: Desk, rule: nat, hits: seq<Hit>, t: Timing, n: nat, k: nat)
    requires n <= |hits| && OneCasePerFingerprint(d.cases) && OwnedHaveFingerprints(d) && HitsAreOwn(d, rule, hits)
    ensures var looped, after := UpsertHits(d, rule, hits, t, n), BrokenOff(d, rule, hits, t, n, k);
            && SameFingerprints(after.cases, looped.cases) && SameFingerprints(looped.cases, after.cases)
            && OneCasePerFingerprint(looped.cases)
            && OneCasePerFingerprint(after.cases) && OwnedHaveFingerprints(after) && HitsAreOwn(after, rule, hits)
  {
    hide UpsertHits, Fingerprints, StaleCount, WithDefaults, Reached, HitBy;
    LoopKeepsOwnership(d, rule, hits, t, n, hits);
  }

  /**
   Repeating a broken run with the same hits makes up for it: together the two create as many cases and
   resolve as many as one whole run, and then the rule is in step with its hits.
   */
  lemma BrokenRunIsResumed(d: Desk, rule: nat, hits: seq<Hit>, t: Timing, n: nat, k: nat, later: Timing)
    requires n <= |hits| && OneCasePerFingerprint(d.cases) && OwnedHaveFingerprints(d) && HitsAreOwn(d, rule, hits)
    ensures var after, stale := BrokenOff(d, rule, hits, t, n, k), StaleIds(d.cases, rule, Fingerprints(hits));
            && CreatedBy(after, rule, hits, later, |hits|) + UpdatedBy(after, rule, hits, later, |hits|) == |hits|
            && |Reconciled(after, rule, hits, later).cases| == |d.cases| + CreatedBy(d, rule, hits, t, |hits|)
            && Least(k, |stale|) + ResolvedBy(after, rule, hits, later) == |stale| == ResolvedBy(d, rule, hits, t)
            && InStep(Reconciled(after, rule, hits, later), rule, hits)
  {
    hide UpsertHits, Fingerprints, StaleCount, InStep, Reconciled, BrokenOff, Holds, CreatedBy, HitsAreOwn, Progress,
         SameFingerprints, OneCasePerFingerprint, OwnedHaveFingerprints;
    var after := BrokenOff(d, rule, hits, t, n, k);
    BrokenKeepsOwnership(d, rule, hits, t, n, k);
    SameCreated(after, UpsertHits(d, rule, hits, t, n), rule, hits, later, |hits|);
    BrokenLoopIsResumed(d, rule, hits, t, n, later, |hits|);
    BrokenRunIsPrefix(d, rule, hits, t, n, k);
    HitLoop(d, rule, hits, t, |hits|);
    LoopKeepsStale(d, rule, hits, |hits|, UpsertHits(d, rule, hits, t, |hits|));
    HitLoop(after, rule, hits, later, |hits|);
    LoopKeepsStale(after, rule, hits, |hits|, UpsertHits(after, rule, hits, later, |hits|));
    RunReconciles(after, rule, hits, later);
  }

  /** The loop of one run leaves ownership as the hits of any other run of the rule need it. */
  lemma LoopKeepsOwnership(d: Desk, rule: nat, hits: seq<Hit>, t: Timing, n: nat, other: seq<Hit>)
    requires n <= |hits| && OneCasePerFingerprint(d.cases) && OwnedHaveFingerprints(d) && HitsAreOwn(d, rule, hits)
        && HitsAreOwn(d, rule, other)
    ensures var after := UpsertHits(d, rule, hits, t, n);
            OneCasePerFingerprint(after.cases) && OwnedHaveFingerprints(after) && HitsAreOwn(after, rule, other)
  {
    hide UpsertHits, HitBy;
    HitLoop(d, rule, hits, t, n);
    var after := UpsertHits(d, rule, hits, t, n);
    forall j | 0 <= j < |after.cases| && after.cases[j].automation.Some? ensures after.cases[j].fingerprint.Some? {
      if j >= |d.cases| {
        HitHasFingerprint(hits, n, after.cases[j].fingerprint);
      }
    }
  }
}
