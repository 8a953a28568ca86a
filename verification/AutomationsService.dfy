/**
 The service of apps/api/src/automations/automations.service.ts as an object on top of the exceptions
 service: its loops, tied to the functions of Automations.
 */
module AutomationsService {
  import opened Automations
  import opened Exceptions
  import opened ExceptionsService
  import opened Options
  import opened Reconciliation

  class Automation {
    const exceptions: Service
    var rules: seq<Rule>
    var runs: seq<Run>

    ghost function View(): World
      reads this, exceptions
    {
      World(exceptions.View(), rules, runs)
    }

    constructor (exceptions: Service)
      ensures this.exceptions == exceptions && View() == World(exceptions.View(), [], [])
    {
      this.exceptions := exceptions;
      rules, runs := [], [];
    }

    /** The hit loop up to its end or to the point where the run breaks off. */
    method HandleHits(id: nat, rule: Rule, hits: seq<Hit>, n: nat, t: Timing) returns (created: nat, updated: nat)
      requires n <= |hits|
      modifies exceptions
      ensures exceptions.View() == if rule.createExceptions then UpsertHits(old(exceptions.View()), id, hits, t, n)
                                   else old(exceptions.View())
      ensures created == if rule.createExceptions then CreatedBy(old(exceptions.View()), id, hits, t, n) else 0
      ensures updated == if rule.createExceptions then UpdatedBy(old(exceptions.View()), id, hits, t, n) else 0
    {
      hide UpsertHit, Find;
      created, updated := 0, 0;
      var i := 0;
      while i < n
        invariant 0 <= i <= n
        invariant exceptions.View() == if rule.createExceptions then UpsertHits(old(exceptions.View()), id, hits, t, i)
                                       else old(exceptions.View())
        invariant created == if rule.createExceptions then CreatedBy(old(exceptions.View()), id, hits, t, i) else 0
        invariant updated == if rule.createExceptions then UpdatedBy(old(exceptions.View()), id, hits, t, i) else 0
      {
        if rule.createExceptions {
          var one, other := exceptions.UpsertFromAutomation(id, hits[i], t.hitAt(i), t.createdAt(i));
          created, updated := created + one, updated + other;
        }
        i := i + 1;
      }
    }

    /**
     `executeRule`: the run row is written as running first and finished on both paths; what was written
     before the run broke off stays.
     */
    method ExecuteRule(id: nat, rule: Rule, finding: Finding, t: Timing)
      requires id < |rules|
      modifies this, exceptions
      ensures View() == Execute(old(View()), id, rule, finding, t)
    {
      hide HitsOf, UpsertHits, CreatedBy, UpdatedBy, ResolveFirst, StaleCount, Rescheduled;
      var row := |runs|;
      runs := runs + [Run(id, Running, t.started, None, 0, 0, 0)];
      var done := runs[row].(status := Failed, finishedAt := Some(t.finished));
      if rule.detector == EXPORT {
        if finding.breaks.Never? {
          done := done.(status := Succeeded, hits := |finding.items|, created := 1);
        }
      } else {
        var hits := HitsOf(rule, finding.items);
        var created, updated := HandleHits(id, rule, hits, Handled(finding), t);
        var resolved := 0;
        if !finding.breaks.InHits? && rule.resolveOnRecovery {
          var limit := if finding.breaks.InRecovery? then Some(finding.breaks.resolved) else None;
          resolved := exceptions.ResolveRecoveredCases(id, Fingerprints(hits), t.recoveredAt, limit);
        }
        if finding.breaks.Never? {
          done := done.(status := Succeeded, hits := |hits|, created := created, updated := updated + resolved);
        }
      }
      runs := runs[row := done];
      rules := rules[id := Rescheduled(rules[id], rule.cadence, t.finished)];
    }

    /** The tick: the due rules are read once, then run one after another as they were read. */
    method TickAt(now: int, findings: nat -> Finding, timings: nat -> Timing)
      modifies this, exceptions
      ensures View() == Tick(old(View()), now, findings, timings)
    {
      hide Execute, Due;
      var seen := rules;
      var due := Due(seen, now, |seen|);
      var k := 0;
      while k < |due|
        invariant 0 <= k <= |due| && |rules| == |seen|
        invariant View() == RunDue(old(View()), seen, due, findings, timings, k)
      {
        ExecuteRule(due[k], seen[due[k]], findings(k), timings(k));
        k := k + 1;
        assert View() == RunDue(old(View()), seen, due, findings, timings, k);
      }
    }
  }
}
