/**
 * The landing loops as they run: a session whose fields are the merger's current candidate, its
 * worktree HEAD, the repair ledger and the drift counter, updated call by call. Every method is
 * proved to do what the functions of `Landing` say.
 */
module LandingSession {
  import opened Common
  import opened RepairLedger
  import opened Landing
  import BatchMerge

  class Session {
    var clock: nat
    var ledger: Ledger
    var driftRebuilds: nat
    var activeCandidate: Candidate
    var head: Oid
    var log: seq<Event>

    ghost function View(): World
      reads this
    {
      World(clock, ledger, driftRebuilds, activeCandidate, head, log)
    }

    constructor (ledger: Ledger, driftRebuilds: nat, candidate: Candidate)
      ensures View() == World(0, ledger, driftRebuilds, candidate, candidate.candidateOid, [])
    {
      this.clock := 0;
      this.ledger := ledger;
      this.driftRebuilds := driftRebuilds;
      this.activeCandidate := candidate;
      this.head := candidate.candidateOid;
      this.log := [];
    }

    method Note(e: Event)
      modifies this`clock, this`log
      ensures View() == Emit(old(View()), e)
    {
      log := log + [e];
      clock := clock + 1;
    }

    /** The conflict loop of a merge that stopped on conflicts. */
    method ResolveMergeConflicts(env: Env, source: Oid, fingerprint: Fingerprint) returns (resolved: bool)
      modifies this
      ensures (View(), resolved) == ResolveConflicts(env, old(View()), source, fingerprint)
    {
      resolved := false;
      while Remaining(ledger, source, ConflictRepair, Some(fingerprint)) > 0
        invariant ResolveConflicts(env, View(), source, fingerprint) == ResolveConflicts(env, old(View()), source, fingerprint)
        decreases Remaining(ledger, source, ConflictRepair, Some(fingerprint))
      {
        FingerprintNeverBinds(ledger, source, ConflictRepair, Some(fingerprint));
        ledger := Record(ledger, source, Attempt(ConflictRepair, fingerprint));
        FingerprintNeverBinds(ledger, source, ConflictRepair, Some(fingerprint));
        resolved := env.resolve(clock);
        Note(ResolverCall(source, fingerprint, resolved));
        if resolved {
          return;
        }
      }
    }

    method CreateLandingCandidate(env: Env) returns (end: MergeEnd)
      modifies this
      ensures (View(), end) == CreateCandidate(env, old(View()))
    {
      hide ResolveConflicts;
      var started := clock;
      var source, base := env.source(clock), Base(env, clock);
      var attempt := env.gitMerge(clock);
      if attempt == CleanMerge {
        end := Made(Candidate(source, base, env.mergedHead(clock)));
        clock := clock + 1;
      } else if attempt == ConflictedMerge {
        clock := clock + 1;
        var resolved := ResolveMergeConflicts(env, source, MergeInput(source, base));
        if resolved {
          end := Made(Candidate(source, base, env.mergedHead(clock)));
          clock := clock + 1;
        } else {
          end := Stopped(ConflictedMerge, clock > started + 1 && env.readsTransient(clock));
        }
      } else {
        end := Stopped(attempt, attempt == TransientMergeError);
        clock := clock + 1;
      }
    }

    method CallVerifier(env: Env) returns (passed: bool)
      modifies this
      ensures (View(), passed) == Verify(env, old(View()))
    {
      passed := env.verify(clock, head);
      Note(VerifierCall(head, passed));
    }

    /** Moves the candidate to the worktree's HEAD and hands its identity to the caller. */
    method SnapshotCandidate(env: Env) returns (identity: Candidate)
      modifies this
      ensures View() == TakeSnapshot(env, old(View()))
      ensures identity == activeCandidate
    {
      head := env.snapshot(clock, head);
      activeCandidate := activeCandidate.(candidateOid := head);
      clock := clock + 1;
      identity := activeCandidate;
    }

    /** `landing` is the caller's own copy of the candidate's identity; it never falls behind. */
    method VerifyCandidate(env: Env, cfg: Config, landing: Candidate) returns (passed: bool, activeLanding: Candidate)
      requires landing == activeCandidate
      modifies this
      ensures (View(), passed) == VerifyWithBoundedRepair(env, cfg, old(View()))
      ensures activeLanding == activeCandidate
    {
      activeLanding := landing;
      passed := CallVerifier(env);
      while !passed
        invariant activeLanding == activeCandidate
        invariant (if passed then (View(), true) else RepairUntilVerified(env, cfg, View()))
               == VerifyWithBoundedRepair(env, cfg, old(View()))
        decreases !passed, Remaining(ledger, activeCandidate.sourceOid, VerificationRepair, None)
      {
        var source := activeLanding.sourceOid;
        if Remaining(ledger, source, VerificationRepair, None) == 0 || !cfg.repairs {
          return;
        }
        ledger := Record(ledger, source, Attempt(VerificationRepair, CandidateId(activeLanding.candidateOid)));
        var (succeeded, repairedHead) := env.repair(clock, head);
        head := repairedHead;
        Note(RepairCall(source, succeeded));
        if !succeeded {
          continue;
        }
        if cfg.snapshots {
          activeLanding := SnapshotCandidate(env);
        }
        passed := CallVerifier(env);
      }
    }

    method RebuildCandidate(env: Env, cfg: Config, landing: Candidate)
      returns (failure: Option<BatchMerge.Report>, activeLanding: Candidate)
      requires landing == activeCandidate
      modifies this
      ensures (View(), failure) == RebuildAfterTargetDrift(env, cfg, old(View()))
      ensures failure.None? ==> activeLanding == activeCandidate
    {
      activeLanding := landing;
      Note(RebuildStarted);
      if !cfg.rebuilds {
        return Some(FailLanded(true, landing)), landing;
      }
      var end := CreateLandingCandidate(env);
      if end.Stopped? {
        var carries := env.rebuildCarriesResult(clock);
        clock := clock + 1;
        if carries {
          return Some(SettleUnsuccessfulMerge(end.how, end.transient)), landing;
        }
        return Some(FailLanded(end.transient, landing)), landing;
      }
      activeCandidate := end.candidate;
      head := end.candidate.candidateOid;
      var passed;
      passed, activeLanding := VerifyCandidate(env, cfg, end.candidate);
      if passed {
        failure := None;
      } else {
        failure := Some(Without(BatchMerge.VerificationFailed, BatchMerge.RepairExhausted, activeLanding));
      }
    }

    method LandCandidate(env: Env, cfg: Config, landing: Candidate) returns (end: LandingEnd)
      requires landing == activeCandidate
      modifies this
      ensures (View(), end) == LandUntilSettled(env, cfg, old(View()))
    {
      hide RebuildAfterTargetDrift, LandingAttempt;
      var activeLanding := landing;
      while true
        invariant activeLanding == activeCandidate
        invariant LandUntilSettled(env, cfg, View()) == LandUntilSettled(env, cfg, old(View()))
        decreases DriftLeft(View())
      {
        var attempt := LandingAttempt(env, clock, activeCandidate);
        if !cfg.leases {
          if attempt == AttemptLanded {
            Note(Landed(activeCandidate.candidateOid));
            return LandedAs(activeLanding);
          }
          clock := clock + 1;
          return NotLanded(FailLanded(attempt == AttemptThrew(true) || attempt == AttemptDrift, activeLanding));
        }
        if !env.canLand(clock) {
          clock := clock + 1;
          return NotLanded(Without(BatchMerge.Pending, BatchMerge.QueueHeadBlocked, activeLanding));
        }
        if attempt.AttemptThrew? {
          clock := clock + 1;
          return NotLanded(FailLanded(attempt.transient, activeLanding));
        }
        if attempt == AttemptLanded {
          Note(Landed(activeCandidate.candidateOid));
          return LandedAs(activeLanding);
        }
        if attempt == AttemptContention || attempt == AttemptStaleOwner {
          clock := clock + 1;
          return NotLanded(Without(BatchMerge.Pending, BatchMerge.NoReason, activeLanding));
        }
        if attempt == AttemptNotQueueHead {
          clock := clock + 1;
          return NotLanded(Without(BatchMerge.Pending, BatchMerge.QueueHeadBlocked, activeLanding));
        }
        if attempt == AttemptQuietWait || driftRebuilds >= DRIFT_REBUILD_LIMIT {
          clock := clock + 1;
          return NotLanded(Without(BatchMerge.Pending, BatchMerge.TargetQuietWait, activeLanding));
        }
        if attempt != AttemptDrift {
          clock := clock + 1;
          return NotLanded(FailLanded(false, activeLanding));
        }
        clock := clock + 1;
        driftRebuilds := driftRebuilds + 1;
        var failure;
        failure, activeLanding := RebuildCandidate(env, cfg, activeLanding);
        if failure.Some? {
          return NotLanded(failure.value);
        }
      }
    }

    method FinalizeCandidate(env: Env, cfg: Config, landing: Candidate) returns (end: LandingEnd)
      requires landing == activeCandidate
      modifies this
      ensures (View(), end) == FinalizeLandedCandidate(env, cfg, old(View()))
    {
      var ticket := env.quietTicket(clock);
      clock := clock + 1;
      if ticket == QuietStillWaiting {
        return NotLanded(Without(BatchMerge.Pending, BatchMerge.NoReason, landing));
      }
      if ticket == QuietResumed {
        driftRebuilds := 0;
      }
      end := LandCandidate(env, cfg, landing);
    }

    method ProcessTask(env: Env, cfg: Config) returns (report: BatchMerge.Report)
      modifies this
      ensures (View(), report) == ProcessMergeTask(env, cfg, old(View()))
    {
      hide CreateCandidate, VerifyWithBoundedRepair, FinalizeLandedCandidate;
      var merged := CreateLandingCandidate(env);
      if merged.Stopped? {
        return SettleUnsuccessfulMerge(merged.how, merged.transient);
      }
      activeCandidate := merged.candidate;
      head := merged.candidate.candidateOid;
      var passed, landing := VerifyCandidate(env, cfg, merged.candidate);
      if !passed {
        return Without(BatchMerge.VerificationFailed, BatchMerge.RepairExhausted, landing);
      }
      var end := FinalizeCandidate(env, cfg, landing);
      if end.NotLanded? {
        return end.report;
      }
      report := CloseLandedTask(env, clock, end.identity);
      clock := clock + 1;
    }
  }
}
