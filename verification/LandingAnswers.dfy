/** How landing one task ends, and why, read off the oracles and the log alone. */
module LandingAnswers {
  import opened Common
  import opened RepairLedger
  import opened Landing
  import B = BatchMerge

  // ----- Merging

  /** Event `n` is a call of the resolver, answered as the resolver did, and successful only if it is the last. */
  ghost predicate ResolverEvent(env: Env, w: World, source: Oid, f: Fingerprint, log: seq<Event>, n: nat, resolved: bool)
    requires |w.log| <= n < |log|
  {
    var answer := env.resolve(w.clock + (n - |w.log|));
    log[n] == ResolverCall(source, f, answer) && (answer <==> resolved && n == |log| - 1)
  }

  /** The resolver was called again and again with the same input until it succeeded, or its budget was used up. */
  ghost predicate ResolvedOrSpent(env: Env, w: World, source: Oid, f: Fingerprint, after: World, resolved: bool) {
    && w.log <= after.log
    && (forall n :: |w.log| <= n < |after.log| ==> ResolverEvent(env, w, source, f, after.log, n, resolved))
    && (resolved ==> |after.log| > |w.log|)
    && (!resolved ==> Remaining(after.ledger, source, ConflictRepair, None) == 0)
  }

  lemma {:induction false} ResolveAnswers(env: Env, w: World, source: Oid, f: Fingerprint)
    ensures var (after, resolved) := ResolveConflicts(env, w, source, f);
            ResolvedOrSpent(env, w, source, f, after, resolved) && after.clock == w.clock + (|after.log| - |w.log|)
    decreases Remaining(w.ledger, source, ConflictRepair, Some(f))
  {
    hide ResolvedOrSpent;
    FingerprintNeverBinds(w.ledger, source, ConflictRepair, Some(f));
    if Remaining(w.ledger, source, ConflictRepair, Some(f)) == 0 {
      SpentAtOnce(env, w, source, f);
    } else {
      var ledger := Record(w.ledger, source, Attempt(ConflictRepair, f));
      FingerprintNeverBinds(ledger, source, ConflictRepair, Some(f));
      var next := Emit(w.(ledger := ledger), ResolverCall(source, f, env.resolve(w.clock)));
      if env.resolve(w.clock) {
        ResolvedNow(env, w, source, f, next);
      } else {
        var (after, resolved) := ResolveConflicts(env, next, source, f);
        ResolveAnswers(env, next, source, f);
        ResolvedLater(env, w, source, f, next, after, resolved);
        ResolvedGrows(env, next, source, f, after, resolved);
      }
    }
  }

  lemma SpentAtOnce(env: Env, w: World, source: Oid, f: Fingerprint)
    requires Remaining(w.ledger, source, ConflictRepair, None) == 0
    ensures ResolvedOrSpent(env, w, source, f, w, false)
  {
  }

  lemma ResolvedNow(env: Env, w: World, source: Oid, f: Fingerprint, next: World)
    requires env.resolve(w.clock) && next.clock == w.clock + 1 && next.log == w.log + [ResolverCall(source, f, true)]
    ensures ResolvedOrSpent(env, w, source, f, next, true)
  {
  }

  lemma ResolvedLater(env: Env, w: World, source: Oid, f: Fingerprint, next: World, after: World, resolved: bool)
    requires !env.resolve(w.clock) && next.clock == w.clock + 1 && next.log == w.log + [ResolverCall(source, f, false)]
    requires ResolvedOrSpent(env, next, source, f, after, resolved)
    ensures ResolvedOrSpent(env, w, source, f, after, resolved)
  {
    assert after.log[|w.log|] == next.log[|w.log|];
    forall n: nat | |w.log| <= n < |after.log|
      ensures ResolverEvent(env, w, source, f, after.log, n, resolved)
    {
      if n > |w.log| {
        assert ResolverEvent(env, next, source, f, after.log, n, resolved);
        assert next.clock + (n - |next.log|) == w.clock + (n - |w.log|);
      }
    }
  }

  /** Clean merges and resolved conflicts make a candidate on the task's base; nothing else does. */
  ghost predicate MergeAnswer(env: Env, w: World, after: World, end: MergeEnd) {
    var source := env.source(w.clock);
    var base := match env.predecessor case Some(oid) => oid case None => env.target(w.clock);
    && w.log <= after.log
    && (end.Made? ==> end.candidate == Candidate(source, base, end.candidate.candidateOid))
    && match env.gitMerge(w.clock)
       case CleanMerge => end == Made(Candidate(source, base, env.mergedHead(w.clock))) && after.log == w.log
       case ConflictedMerge =>
         && ResolvedOrSpent(env, w.(clock := w.clock + 1), source, MergeInput(source, base), after, end.Made?)
         && ConflictEnd(env, w.clock + 1, |after.log| - |w.log|, after.clock, end)
       case TransientMergeError => end == Stopped(TransientMergeError, true) && after.log == w.log
       case OtherMergeError => end == Stopped(OtherMergeError, false) && after.log == w.log
  }

  /** What `calls` of the resolver from step `c` on leave: the merged HEAD, or a failure that may pass if the last call says so. */
  ghost predicate ConflictEnd(env: Env, c: nat, calls: nat, clock: nat, end: MergeEnd) {
    match end
    case Made(candidate) => candidate.candidateOid == env.mergedHead(c + calls)
    case Stopped(how, transient) =>
      && how == ConflictedMerge && clock == c + calls
      && (transient <==> calls > 0 && env.readsTransient(c + calls))
  }

  lemma CreateAnswers(env: Env, w: World) returns (after: World, end: MergeEnd)
    ensures MergeAnswer(env, w, after, end) && (after, end) == CreateCandidate(env, w)
  {
    hide ResolveConflicts, ResolvedOrSpent;
    after, end := CreateCandidate(env, w).0, CreateCandidate(env, w).1;
    var source, base := env.source(w.clock), Base(env, w.clock);
    var (resolved, ok) := ResolveConflicts(env, Tick(w), source, MergeInput(source, base));
    ResolveAnswers(env, Tick(w), source, MergeInput(source, base));
    ResolvedGrows(env, Tick(w), source, MergeInput(source, base), resolved, ok);
    ResolvedTick(env, Tick(w), source, MergeInput(source, base), resolved, ok);
  }

  lemma ResolvedTick(env: Env, w: World, source: Oid, f: Fingerprint, after: World, resolved: bool)
    requires ResolvedOrSpent(env, w, source, f, after, resolved)
    ensures ResolvedOrSpent(env, w, source, f, Tick(after), resolved)
  {
    hide ResolverEvent;
  }

  lemma ResolvedGrows(env: Env, w: World, source: Oid, f: Fingerprint, after: World, resolved: bool)
    requires ResolvedOrSpent(env, w, source, f, after, resolved)
    ensures w.log <= after.log
  {
  }

  // ----- Verifying

  /** Event `n` is a repair of the candidate's source, made because the last verdict was a failure, and verified exactly if it succeeded. */
  ghost predicate RepairFits(env: Env, source: Oid, log: seq<Event>, n: nat)
    requires n < |log|
  {
    log[n].RepairCall? ==>
      && log[n].source == source
      && (exists c, h :: log[n].succeeded == env.repair(c, h).0)
      && LastVerdict(log[..n]).Some? && !LastVerdict(log[..n]).value.1
      && (log[n].succeeded ==> n + 1 < |log|)
      && (n + 1 < |log| ==> (log[n].succeeded <==> log[n + 1].VerifierCall?))
  }

  ghost predicate RepairsFit(env: Env, source: Oid, log: seq<Event>, from: nat) {
    forall n :: from <= n < |log| ==> RepairFits(env, source, log, n)
  }

  /** Verification passed exactly if the last verdict did; it fails only once no repair is possible. */
  ghost predicate Verdict(env: Env, cfg: Config, w: World, after: World, passed: bool) {
    && w.log <= after.log
    && (forall n :: |w.log| <= n < |after.log| ==> after.log[n].VerifierCall? || after.log[n].RepairCall?)
    && LastVerdict(after.log).Some? && LastVerdict(after.log).value.1 == passed
    && (!passed ==> !cfg.repairs || Remaining(after.ledger, w.active.sourceOid, VerificationRepair, None) == 0)
  }

  lemma LastVerdictAfter(log: seq<Event>, e: Event)
    ensures LastVerdict(log + [e]) == if e.VerifierCall? then Some((e.head, e.passed)) else LastVerdict(log)
  {
    assert (log + [e])[..|log|] == log;
  }

  lemma RecordShrinks(ledger: Ledger, source: Oid, attempt: Attempt)
    requires attempt.kind == VerificationRepair && Remaining(ledger, source, VerificationRepair, None) > 0
    ensures Remaining(Record(ledger, source, attempt), source, VerificationRepair, None)
          < Remaining(ledger, source, VerificationRepair, None)
  {
  }

  lemma {:induction false} RepairVerdicts(env: Env, cfg: Config, w: World)
    requires LastVerdict(w.log).Some? && !LastVerdict(w.log).value.1
    ensures var (after, passed) := RepairUntilVerified(env, cfg, w); Verdict(env, cfg, w, after, passed)
    decreases Remaining(w.ledger, w.active.sourceOid, VerificationRepair, None)
  {
    hide Verdict, LastVerdict, Remaining, Record, Snapshot;
    var source := w.active.sourceOid;
    if Remaining(w.ledger, source, VerificationRepair, None) == 0 || !cfg.repairs {
      GivesUp(env, cfg, w);
    } else {
      var attempt := Attempt(VerificationRepair, CandidateId(w.active.candidateOid));
      RecordShrinks(w.ledger, source, attempt);
      var ledger := Record(w.ledger, source, attempt);
      var (succeeded, head) := env.repair(w.clock, w.head);
      var repaired := Emit(w.(ledger := ledger, head := head), RepairCall(source, succeeded));
      LastVerdictAfter(w.log, RepairCall(source, succeeded));
      if !succeeded {
        RepairVerdicts(env, cfg, repaired);
        VerdictLater(env, cfg, w, repaired, RepairUntilVerified(env, cfg, repaired).0, RepairUntilVerified(env, cfg, repaired).1);
      } else {
        var snapshot := Snapshot(env, cfg, repaired);
        SnapshotKeeps(env, cfg, repaired);
        var (verified, passed) := Verify(env, snapshot);
        LastVerdictAfter(snapshot.log, VerifierCall(snapshot.head, passed));
        if passed {
          VerdictNow(env, cfg, snapshot, verified);
          VerdictLater(env, cfg, w, snapshot, verified, true);
        } else {
          RepairVerdicts(env, cfg, verified);
          VerdictLater(env, cfg, w, verified, RepairUntilVerified(env, cfg, verified).0, RepairUntilVerified(env, cfg, verified).1);
        }
      }
    }
  }

  lemma SnapshotKeeps(env: Env, cfg: Config, w: World)
    ensures var after := Snapshot(env, cfg, w);
            after.log == w.log && after.ledger == w.ledger && after.active.sourceOid == w.active.sourceOid
  {
  }

  lemma GivesUp(env: Env, cfg: Config, w: World)
    requires LastVerdict(w.log).Some? && !LastVerdict(w.log).value.1
    requires Remaining(w.ledger, w.active.sourceOid, VerificationRepair, None) == 0 || !cfg.repairs
    ensures Verdict(env, cfg, w, w, false)
  {
  }

  /** The verdict of a whole verification. */
  lemma VerifyAnswers(env: Env, cfg: Config, w: World) returns (after: World, passed: bool)
    ensures Verdict(env, cfg, w, after, passed) && (after, passed) == VerifyWithBoundedRepair(env, cfg, w)
  {
    hide RepairUntilVerified, Verdict;
    after, passed := VerifyWithBoundedRepair(env, cfg, w).0, VerifyWithBoundedRepair(env, cfg, w).1;
    var call := VerifierCall(w.head, env.verify(w.clock, w.head));
    LastVerdictAfter(w.log, call);
    var verified := Emit(w, call);
    if env.verify(w.clock, w.head) {
      VerdictNow(env, cfg, w, verified);
    } else {
      RepairVerdicts(env, cfg, verified);
      VerdictLater(env, cfg, w, verified, RepairUntilVerified(env, cfg, verified).0, RepairUntilVerified(env, cfg, verified).1);
    }
  }

  /** The repairs a whole verification took. */
  lemma VerifyRepairs(env: Env, cfg: Config, w: World)
    ensures RepairsFit(env, w.active.sourceOid, VerifyWithBoundedRepair(env, cfg, w).0.log, |w.log|)
  {
    hide RepairUntilVerified, RepairsFit;
    var call := VerifierCall(w.head, env.verify(w.clock, w.head));
    LastVerdictAfter(w.log, call);
    FitsSoFar(env, w.active.sourceOid, w.log, call);
    if !env.verify(w.clock, w.head) {
      RepairsAllFit(env, cfg, Emit(w, call), |w.log|);
    }
  }

  lemma VerdictNow(env: Env, cfg: Config, w: World, after: World)
    requires after.log == w.log + [VerifierCall(w.head, true)] && LastVerdict(after.log) == Some((w.head, true))
    ensures Verdict(env, cfg, w, after, true)
  {
  }

  lemma VerdictLater(env: Env, cfg: Config, w: World, mid: World, after: World, passed: bool)
    requires w.log <= mid.log && mid.active.sourceOid == w.active.sourceOid && Verdict(env, cfg, mid, after, passed)
    requires forall n :: |w.log| <= n < |mid.log| ==> mid.log[n].VerifierCall? || mid.log[n].RepairCall?
    ensures Verdict(env, cfg, w, after, passed)
  {
  }

  lemma FitsSoFar(env: Env, source: Oid, log: seq<Event>, e: Event)
    requires !e.RepairCall?
    ensures RepairsFit(env, source, log + [e], |log|)
  {
  }

  /** All repairs but a failed last one already fit, whatever comes next. */
  lemma RepairFitsExtend(env: Env, source: Oid, log: seq<Event>, more: seq<Event>, from: nat)
    requires from <= |log| && RepairsFit(env, source, log, from)
    requires log <= more
    requires log != [] && log[|log| - 1].RepairCall? && |more| > |log| ==> !more[|log|].VerifierCall?
    ensures forall n :: from <= n < |log| ==> RepairFits(env, source, more, n)
  {
    forall n | from <= n < |log|
      ensures RepairFits(env, source, more, n)
    {
      assert RepairFits(env, source, log, n);
      assert more[..n] == log[..n];
      if n == |log| - 1 && log[n].RepairCall? {
        assert !log[n].succeeded;
      }
    }
  }

  lemma {:induction false} RepairsAllFit(env: Env, cfg: Config, w: World, from: nat)
    requires from <= |w.log| && RepairsFit(env, w.active.sourceOid, w.log, from)
    requires LastVerdict(w.log).Some? && !LastVerdict(w.log).value.1
    ensures RepairsFit(env, w.active.sourceOid, RepairUntilVerified(env, cfg, w).0.log, from)
    decreases Remaining(w.ledger, w.active.sourceOid, VerificationRepair, None)
  {
    hide RepairsFit;
    var source := w.active.sourceOid;
    if Remaining(w.ledger, source, VerificationRepair, None) != 0 && cfg.repairs {
      var ledger := Record(w.ledger, source, Attempt(VerificationRepair, CandidateId(w.active.candidateOid)));
      var (succeeded, head) := env.repair(w.clock, w.head);
      var repaired := Emit(w.(ledger := ledger, head := head), RepairCall(source, succeeded));
      LastVerdictAfter(w.log, RepairCall(source, succeeded));
      if !succeeded {
        FailedRepairFits(env, source, w.log, from, w.clock, w.head);
        RepairsAllFit(env, cfg, repaired, from);
      } else {
        var snapshot := Snapshot(env, cfg, repaired);
        var (verified, passed) := Verify(env, snapshot);
        var call := VerifierCall(snapshot.head, passed);
        LastVerdictAfter(snapshot.log, call);
        SuccessfulRepairFits(env, source, w.log, from, w.clock, w.head, call);
        if !passed {
          RepairsAllFit(env, cfg, verified, from);
        }
      }
    }
  }

  lemma FailedRepairFits(env: Env, source: Oid, log: seq<Event>, from: nat, c: nat, h: Oid)
    requires from <= |log| && RepairsFit(env, source, log, from) && !env.repair(c, h).0
    requires LastVerdict(log).Some? && !LastVerdict(log).value.1
    ensures RepairsFit(env, source, log + [RepairCall(source, false)], from)
  {
    var more := log + [RepairCall(source, false)];
    RepairFitsExtend(env, source, log, more, from);
    assert more[..|log|] == log;
    assert RepairFits(env, source, more, |log|);
  }

  lemma SuccessfulRepairFits(env: Env, source: Oid, log: seq<Event>, from: nat, c: nat, h: Oid, call: Event)
    requires from <= |log| && RepairsFit(env, source, log, from) && env.repair(c, h).0 && call.VerifierCall?
    requires LastVerdict(log).Some? && !LastVerdict(log).value.1
    ensures RepairsFit(env, source, log + [RepairCall(source, true)] + [call], from)
  {
    var more := log + [RepairCall(source, true)] + [call];
    RepairFitsExtend(env, source, log, more, from);
    assert more[..|log|] == log;
    assert RepairFits(env, source, more, |log|) && RepairFits(env, source, more, |log| + 1);
  }

  // ----- What the ledger records

  /** The attempts that the repairs logged from `from` on stand for: each at the candidate as it was then. */
  ghost function LoggedRepairs(log: seq<Event>, from: nat, oid: Oid, snapshots: bool): seq<Attempt>
    decreases |log|
  {
    if |log| <= from then []
    else
      var earlier, last := log[..|log| - 1], log[|log| - 1];
      var verified := LastVerdict(earlier);
      var at := if snapshots && verified.Some? then verified.value.0 else oid;
      LoggedRepairs(earlier, from, oid, snapshots) + if last.RepairCall? then [Attempt(VerificationRepair, CandidateId(at))] else []
  }

  lemma LoggedOneMore(log: seq<Event>, e: Event, from: nat, oid: Oid, snapshots: bool)
    requires from <= |log|
    ensures var more := LoggedRepairs(log + [e], from, oid, snapshots);
            var at := if snapshots && LastVerdict(log).Some? then LastVerdict(log).value.0 else oid;
            more == LoggedRepairs(log, from, oid, snapshots) + if e.RepairCall? then [Attempt(VerificationRepair, CandidateId(at))] else []
  {
    assert (log + [e])[..|log|] == log;
  }

  /** The ledger has, after what it had before, the repairs logged since, and nothing new for other sources. */
  ghost predicate LedgerLogged(before: World, w: World, cfg: Config) {
    var source := before.active.sourceOid;
    && |before.log| <= |w.log| && w.active.sourceOid == source && w.ledger - {source} == before.ledger - {source}
    && Attempts(w.ledger, source)
       == Attempts(before.ledger, source) + LoggedRepairs(w.log, |before.log|, before.active.candidateOid, cfg.snapshots)
  }

  /** The candidate the next repair is of. */
  ghost predicate CandidateIs(before: World, w: World, cfg: Config) {
    && LastVerdict(w.log).Some?
    && w.active.candidateOid == if cfg.snapshots then LastVerdict(w.log).value.0 else before.active.candidateOid
  }

  lemma RepairIsLogged(before: World, w: World, repaired: World, cfg: Config, succeeded: bool)
    requires LedgerLogged(before, w, cfg) && CandidateIs(before, w, cfg)
    requires repaired.active == w.active && repaired.log == w.log + [RepairCall(w.active.sourceOid, succeeded)]
    requires repaired.ledger == Record(w.ledger, w.active.sourceOid, Attempt(VerificationRepair, CandidateId(w.active.candidateOid)))
    ensures LedgerLogged(before, repaired, cfg) && CandidateIs(before, repaired, cfg)
  {
    hide LastVerdict, LoggedRepairs;
    var e := RepairCall(w.active.sourceOid, succeeded);
    LoggedOneMore(w.log, e, |before.log|, before.active.candidateOid, cfg.snapshots);
    LastVerdictAfter(w.log, e);
    var source := before.active.sourceOid;
    assert repaired.ledger - {source} == w.ledger - {source};
  }

  lemma VerdictIsLogged(env: Env, before: World, w: World, cfg: Config)
    requires LedgerLogged(before, w, cfg)
    requires if cfg.snapshots then w.head == w.active.candidateOid else w.active.candidateOid == before.active.candidateOid
    ensures LedgerLogged(before, Verify(env, w).0, cfg) && CandidateIs(before, Verify(env, w).0, cfg)
  {
    hide LastVerdict, LoggedRepairs;
    var e := VerifierCall(w.head, Verify(env, w).1);
    LoggedOneMore(w.log, e, |before.log|, before.active.candidateOid, cfg.snapshots);
    LastVerdictAfter(w.log, e);
  }

  lemma {:induction false} RepairsAreLogged(env: Env, cfg: Config, before: World, w: World)
    requires LedgerLogged(before, w, cfg) && CandidateIs(before, w, cfg)
    ensures LedgerLogged(before, RepairUntilVerified(env, cfg, w).0, cfg)
    decreases Remaining(w.ledger, w.active.sourceOid, VerificationRepair, None)
  {
    hide LedgerLogged, LastVerdict, Remaining, Record;
    var source := w.active.sourceOid;
    if Remaining(w.ledger, source, VerificationRepair, None) != 0 && cfg.repairs {
      var attempt := Attempt(VerificationRepair, CandidateId(w.active.candidateOid));
      RecordShrinks(w.ledger, source, attempt);
      var (succeeded, head) := env.repair(w.clock, w.head);
      var repaired := Emit(w.(ledger := Record(w.ledger, source, attempt), head := head), RepairCall(source, succeeded));
      RepairIsLogged(before, w, repaired, cfg, succeeded);
      if !succeeded {
        RepairsAreLogged(env, cfg, before, repaired);
      } else {
        var snapshot := Snapshot(env, cfg, repaired);
        SnapshotIsLogged(env, before, repaired, cfg);
        VerdictIsLogged(env, before, snapshot, cfg);
        var (verified, passed) := Verify(env, snapshot);
        if !passed {
          RepairsAreLogged(env, cfg, before, verified);
        }
      }
    }
  }

  lemma SnapshotIsLogged(env: Env, before: World, w: World, cfg: Config)
    requires LedgerLogged(before, w, cfg)
    ensures LedgerLogged(before, Snapshot(env, cfg, w), cfg)
  {
    hide LoggedRepairs;
  }

  /**
   * The verification ledger is the log: each repair is recorded once, in order, under the candidate it
   * was of, which a snapshotting integration changes with every repair and any other never.
   */
  lemma VerifyRecords(env: Env, cfg: Config, w: World)
    requires w.head == w.active.candidateOid
    ensures LedgerLogged(w, VerifyWithBoundedRepair(env, cfg, w).0, cfg)
  {
    hide LastVerdict;
    assert LoggedRepairs(w.log, |w.log|, w.active.candidateOid, cfg.snapshots) == [];
    VerdictIsLogged(env, w, w, cfg);
    RepairsAreLogged(env, cfg, w, Verify(env, w).0);
  }

  /** So is the ledger of conflicts: every resolver call is recorded under the merge input it was for. */
  lemma {:induction false} ResolveRecords(env: Env, w: World, source: Oid, f: Fingerprint)
    ensures var after := ResolveConflicts(env, w, source, f).0;
            && |w.log| <= |after.log| && after.ledger - {source} == w.ledger - {source}
            && Attempts(after.ledger, source)
               == Attempts(w.ledger, source) + seq(|after.log| - |w.log|, _ => Attempt(ConflictRepair, f))
    decreases Remaining(w.ledger, source, ConflictRepair, Some(f))
  {
    FingerprintNeverBinds(w.ledger, source, ConflictRepair, Some(f));
    if Remaining(w.ledger, source, ConflictRepair, Some(f)) != 0 {
      var ledger := Record(w.ledger, source, Attempt(ConflictRepair, f));
      FingerprintNeverBinds(ledger, source, ConflictRepair, Some(f));
      var next := Emit(w.(ledger := ledger), ResolverCall(source, f, env.resolve(w.clock)));
      assert ledger - {source} == w.ledger - {source};
      if !env.resolve(w.clock) {
        ResolveRecords(env, next, source, f);
      }
    }
  }

  // ----- Rebuilding

  /** How a merge that did not succeed is reported. */
  ghost predicate StoppedReport(how: MergeTry, transient: bool, report: B.Report) {
    && (report.outcome == B.Pending <==> transient)
    && (report.outcome == B.MergeConflict <==> !transient && how == ConflictedMerge)
    && (report.outcome == B.MergeFailed <==> !transient && how != ConflictedMerge)
    && (report.reason == B.RepairExhausted <==> report.outcome == B.MergeConflict)
    && (report.reason == B.NoReason <==> report.outcome != B.MergeConflict)
    && report.candidateOid == None
  }

  ghost predicate NoLanding(w: World, after: World) {
    forall n :: |w.log| <= n < |after.log| ==> !after.log[n].Landed?
  }

  /** A candidate that was made and verified is rebuilt; every failure is reported for what it is. */
  ghost predicate RebuildAnswer(env: Env, cfg: Config, w: World, after: World, failure: Option<B.Report>) {
    && w.log + [RebuildStarted] <= after.log && NoLanding(w, after)
    && (!cfg.rebuilds ==> failure == Some(B.Report(B.Pending, B.NoReason, Some(w.active.candidateOid))))
    && (cfg.rebuilds ==> exists merged, end :: Rebuilt(env, cfg, w, merged, end, after, failure))
  }

  /** The new merge ended as `end` says; a failure of it is reported as such or as the landing's own. */
  ghost predicate Rebuilt(env: Env, cfg: Config, w: World, merged: World, end: MergeEnd, after: World, failure: Option<B.Report>) {
    && MergeAnswer(env, Emit(w, RebuildStarted), merged, end)
    && match end
       case Stopped(how, transient) =>
         && failure.Some? && after == Tick(merged)
         && if env.rebuildCarriesResult(merged.clock) then StoppedReport(how, transient, failure.value)
            else failure.value == B.Report(if transient then B.Pending else B.MergeFailed, B.NoReason, Some(w.active.candidateOid))
       case Made(candidate) =>
         && Verdict(env, cfg, Adopt(merged, candidate), after, failure.None?)
         && (failure.Some? ==> FailedVerdict(after, failure.value))
  }

  ghost predicate FailedVerdict(after: World, report: B.Report) {
    report == B.Report(B.VerificationFailed, B.RepairExhausted, Some(after.active.candidateOid))
  }

  lemma RebuildAnswers(env: Env, cfg: Config, w: World)
    ensures var (after, failure) := RebuildAfterTargetDrift(env, cfg, w); RebuildAnswer(env, cfg, w, after, failure)
  {
    hide CreateCandidate, VerifyWithBoundedRepair, MergeAnswer, LastVerdict;
    var started := Emit(w, RebuildStarted);
    if cfg.rebuilds {
      var merged, end := CreateAnswers(env, started);
      MergeGrows(env, started, merged, end);
      var (after, failure) := RebuildAfterTargetDrift(env, cfg, w);
      match end
      case Stopped(how, transient) =>
        assert StoppedReport(how, transient, SettleUnsuccessfulMerge(how, transient));
        assert Rebuilt(env, cfg, w, merged, end, after, failure);
      case Made(candidate) =>
        var _, _ := VerifyAnswers(env, cfg, Adopt(merged, candidate));
        assert Rebuilt(env, cfg, w, merged, end, after, failure);
    }
  }

  lemma MergeGrows(env: Env, w: World, after: World, end: MergeEnd)
    requires MergeAnswer(env, w, after, end)
    ensures w.log <= after.log && NoLanding(w, after)
  {
    var base := match env.predecessor case Some(oid) => oid case None => env.target(w.clock);
    if env.gitMerge(w.clock) == ConflictedMerge {
      var started, source := w.(clock := w.clock + 1), env.source(w.clock);
      forall n: nat | |w.log| <= n < |after.log|
        ensures !after.log[n].Landed?
      {
        assert ResolverEvent(env, started, source, MergeInput(source, base), after.log, n, end.Made?);
      }
    }
  }

  // ----- Landing

  /** What an attempt at step `c` comes to: a candidate lands only where it was based, unless it has landed before. */
  ghost predicate Comes(env: Env, c: nat, candidate: Candidate, attempt: LandAttempt) {
    attempt == if env.land(c) == AttemptLanded && env.target(c) != candidate.baseOid && !env.receipt(c)
               then AttemptDrift else env.land(c)
  }

  /** Why the attempt at step `c` did not land, after `drifts` rebuilds. */
  ghost predicate Refused(env: Env, cfg: Config, c: nat, drifts: nat, candidate: Candidate, report: B.Report) {
    exists attempt ::
      && Comes(env, c, candidate, attempt)
      && report.candidateOid == Some(candidate.candidateOid)
      && (report.outcome == B.Pending || report.outcome == B.MergeFailed)
      && (report.reason == B.QueueHeadBlocked <==> cfg.leases && (!env.canLand(c) || attempt == AttemptNotQueueHead))
      && (report.reason == B.TargetQuietWait <==>
            && cfg.leases && env.canLand(c)
            && (attempt == AttemptQuietWait
                || ((attempt == AttemptDrift || attempt == AttemptUnexpected) && drifts >= 3)))
      && (report.reason == B.QueueHeadBlocked || report.reason == B.TargetQuietWait || report.reason == B.NoReason)
      && (report.outcome == B.MergeFailed <==>
            if cfg.leases
            then env.canLand(c) && (attempt == AttemptThrew(false) || (attempt == AttemptUnexpected && drifts < 3))
            else attempt != AttemptThrew(true) && attempt != AttemptDrift)
  }

  ghost predicate LandAnswer(env: Env, cfg: Config, after: World, end: LandingEnd) {
    match end
    case LandedAs(identity) =>
      && after.clock > 0 && var c := after.clock - 1;
      && identity == after.active && after.log != [] && after.log[|after.log| - 1] == Landed(identity.candidateOid)
      && env.land(c) == AttemptLanded && (env.target(c) == identity.baseOid || env.receipt(c))
      && (cfg.leases ==> env.canLand(c))
    case NotLanded(report) =>
      || (after.clock > 0 && Refused(env, cfg, after.clock - 1, after.driftRebuilds, after.active, report))
      || (exists before: World :: FailedRebuild(env, cfg, before, after, report))
  }

  /** The target had drifted, and one of the three rebuilds did not come to a verified candidate. */
  ghost predicate FailedRebuild(env: Env, cfg: Config, before: World, after: World, report: B.Report) {
    && cfg.leases && before.clock > 0 && env.canLand(before.clock - 1)
    && Comes(env, before.clock - 1, before.active, AttemptDrift) && before.driftRebuilds <= 3
    && RebuildAnswer(env, cfg, before, after, Some(report))
  }

  lemma RefusedNow(env: Env, cfg: Config, w: World)
    requires var attempt := LandingAttempt(env, w.clock, w.active);
             if !cfg.leases then attempt != AttemptLanded
             else !env.canLand(w.clock)
                  || (attempt != AttemptLanded && (attempt == AttemptDrift ==> w.driftRebuilds >= DRIFT_REBUILD_LIMIT))
    ensures var (after, end) := LandUntilSettled(env, cfg, w);
            after == Tick(w) && end.NotLanded? && Refused(env, cfg, w.clock, w.driftRebuilds, w.active, end.report)
  {
    hide RebuildAfterTargetDrift, Comes;
    var attempt := LandingAttempt(env, w.clock, w.active);
    AttemptComes(env, w);
    var report := LandUntilSettled(env, cfg, w).1.report;
    match attempt
    case AttemptLanded =>
    case AttemptThrew(_) =>
    case AttemptUnexpected =>
    case AttemptDrift =>
    case _ =>
  }

  lemma AttemptComes(env: Env, w: World)
    ensures Comes(env, w.clock, w.active, LandingAttempt(env, w.clock, w.active))
  {
  }

  lemma LandedNow(env: Env, cfg: Config, w: World)
    requires LandingAttempt(env, w.clock, w.active) == AttemptLanded && (cfg.leases ==> env.canLand(w.clock))
    ensures var (after, end) := LandUntilSettled(env, cfg, w);
            after == Emit(w, Landed(w.active.candidateOid)) && LandAnswer(env, cfg, after, end)
  {
    hide RebuildAfterTargetDrift;
  }

  /**
   * However landing one candidate goes: it lands where it was based, with nothing landed before, or it
   * is refused at its last step for the reason reported, or a rebuild after drift failed.
   */
  lemma {:induction false} LandAnswers(env: Env, cfg: Config, w: World)
    ensures var (after, end) := LandUntilSettled(env, cfg, w);
            && w.log <= after.log && LandAnswer(env, cfg, after, end)
            && (end.NotLanded? ==> NoLanding(w, after))
            && (end.LandedAs? ==> |after.log| > |w.log|)
    decreases DriftLeft(w)
  {
    hide RebuildAfterTargetDrift, Refused, FailedRebuild, Comes, LandingAttempt;
    var attempt := LandingAttempt(env, w.clock, w.active);
    AttemptComes(env, w);
    if attempt == AttemptLanded && (cfg.leases ==> env.canLand(w.clock)) {
      LandedNow(env, cfg, w);
    } else if cfg.leases && env.canLand(w.clock) && attempt == AttemptDrift && w.driftRebuilds < DRIFT_REBUILD_LIMIT {
      var drifted := Tick(w).(driftRebuilds := w.driftRebuilds + 1);
      RebuildAnswers(env, cfg, drifted);
      var (rebuilt, failure) := RebuildAfterTargetDrift(env, cfg, drifted);
      if failure.None? {
        LandAnswers(env, cfg, rebuilt);
      } else {
        RebuildFailed(env, cfg, w, drifted, rebuilt, failure.value);
      }
    } else {
      RefusedNow(env, cfg, w);
    }
  }

  lemma RebuildFailed(env: Env, cfg: Config, w: World, drifted: World, rebuilt: World, report: B.Report)
    requires cfg.leases && env.canLand(w.clock) && Comes(env, w.clock, w.active, AttemptDrift)
    requires w.driftRebuilds < DRIFT_REBUILD_LIMIT && drifted == Tick(w).(driftRebuilds := w.driftRebuilds + 1)
    requires RebuildAnswer(env, cfg, drifted, rebuilt, Some(report))
    ensures LandAnswer(env, cfg, rebuilt, NotLanded(report))
  {
    hide RebuildAnswer, Comes;
    assert FailedRebuild(env, cfg, drifted, rebuilt, report);
  }

  // ----- Quiet tickets and closing

  ghost predicate StillQuiet(env: Env, c: nat, active: Candidate, report: B.Report) {
    env.quietTicket(c) == QuietStillWaiting && report == B.Report(B.Pending, B.NoReason, Some(active.candidateOid))
  }

  lemma FinalizeAnswers(env: Env, cfg: Config, w: World)
    ensures var (after, end) := FinalizeLandedCandidate(env, cfg, w);
            && w.log <= after.log
            && (env.quietTicket(w.clock) == QuietStillWaiting ==>
                  after.log == w.log && after.clock == w.clock + 1 && end.NotLanded? && StillQuiet(env, w.clock, after.active, end.report))
            && (env.quietTicket(w.clock) != QuietStillWaiting ==> LandAnswer(env, cfg, after, end))
            && (end.NotLanded? ==> NoLanding(w, after))
            && (end.LandedAs? ==> |after.log| > |w.log|)
  {
    hide LandUntilSettled, LandAnswer;
    LandAnswers(env, cfg, Tick(w));
    LandAnswers(env, cfg, Tick(w).(driftRebuilds := 0));
  }

  /** A landed task is done with: its outcome is what publication and closing come to at step `c`. */
  ghost predicate ClosedAt(env: Env, c: nat, oid: Oid, report: B.Report) {
    && report.candidateOid == Some(oid)
    && (report.outcome == B.PendingDelivery <==> env.publicationPending(c))
    && (report.outcome == B.Merged <==> !env.publicationPending(c) && env.closes(c))
    && (report.outcome == B.CloseFailed <==> !env.publicationPending(c) && !env.closes(c))
    && report.reason == if env.publicationPending(c) then B.PendingDeliveryReason else B.NoReason
  }

  /** A task that did not land stopped merging, failed verification, kept waiting, or was refused. */
  ghost predicate LeftAt(env: Env, cfg: Config, w: World, after: World, report: B.Report) {
    || (exists how, transient :: StoppedMerging(env, w, after, how, transient, report))
    || (exists merged, candidate :: FailedVerifying(env, cfg, w, merged, candidate, after, report))
    || (after.clock > 0 && StillQuiet(env, after.clock - 1, after.active, report))
    || LandAnswer(env, cfg, after, NotLanded(report))
  }

  ghost predicate Lands(w: World, after: World) {
    exists n :: |w.log| <= n < |after.log| && after.log[n].Landed?
  }

  ghost predicate StoppedMerging(env: Env, w: World, after: World, how: MergeTry, transient: bool, report: B.Report) {
    MergeAnswer(env, w, after, Stopped(how, transient)) && StoppedReport(how, transient, report)
  }

  ghost predicate FailedVerifying(
    env: Env, cfg: Config, w: World, merged: World, candidate: Candidate, after: World, report: B.Report)
  {
    && MergeAnswer(env, w, merged, Made(candidate)) && Verdict(env, cfg, Adopt(merged, candidate), after, false)
    && FailedVerdict(after, report)
  }

  /**
   * Every task, whatever happens to it: if its candidate landed, the outcome is delivery pending,
   * merged or closing failed as publication and closing have it; otherwise it is none of these.
   */
  lemma TaskAnswers(env: Env, cfg: Config, w: World)
    ensures var (after, report) := ProcessMergeTask(env, cfg, w);
            && w.log <= after.log
            && (Lands(w, after) ==>
                  && after.log != [] && after.log[|after.log| - 1].Landed? && after.clock > 0
                  && ClosedAt(env, after.clock - 1, after.log[|after.log| - 1].oid, report))
            && (!Lands(w, after) ==>
                  && LeftAt(env, cfg, w, after, report)
                  && report.outcome != B.PendingDelivery && report.outcome != B.Merged && report.outcome != B.CloseFailed)
  {
    hide CreateCandidate, VerifyWithBoundedRepair, FinalizeLandedCandidate, LandAnswer, MergeAnswer, LastVerdict, StillQuiet;
    var merged, end := CreateAnswers(env, w);
    MergeGrows(env, w, merged, end);
    match end
    case Stopped(how, transient) =>
      assert StoppedMerging(env, w, merged, how, transient, SettleUnsuccessfulMerge(how, transient));
    case Made(candidate) =>
      var adopted := Adopt(merged, candidate);
      var verified, passed := VerifyAnswers(env, cfg, adopted);
      VerifyLandsNothing(env, cfg, w, merged, adopted, verified, passed);
      if !passed {
        assert FailedVerifying(env, cfg, w, merged, candidate, verified, ProcessMergeTask(env, cfg, w).1);
      }
      if passed {
        FinalizeAnswers(env, cfg, verified);
        var (final, landing) := FinalizeLandedCandidate(env, cfg, verified);
        match landing {
          case NotLanded(report) =>
            assert ProcessMergeTask(env, cfg, w) == (final, report);
            NeverShips(env, cfg, verified, final, report);
            NoLandingOn(w, verified, final);
          case LandedAs(identity) =>
            assert ProcessMergeTask(env, cfg, w) == (Tick(final), CloseLandedTask(env, final.clock, identity));
            LandedLast(env, cfg, final, identity, verified);
            assert final.log[|final.log| - 1].Landed?;
        }
      }
  }

  lemma NoLandingOn(w: World, mid: World, after: World)
    requires w.log <= mid.log <= after.log && NoLanding(w, mid) && NoLanding(mid, after)
    ensures NoLanding(w, after) && !Lands(w, after)
  {
  }

  lemma VerifyLandsNothing(env: Env, cfg: Config, w: World, merged: World, adopted: World, verified: World, passed: bool)
    requires w.log <= merged.log == adopted.log && NoLanding(w, merged) && Verdict(env, cfg, adopted, verified, passed)
    ensures w.log <= verified.log && NoLanding(w, verified) && !Lands(w, verified)
  {
    hide LastVerdict;
  }

  lemma LandedLast(env: Env, cfg: Config, after: World, identity: Candidate, w: World)
    requires LandAnswer(env, cfg, after, LandedAs(identity)) || env.quietTicket(w.clock) == QuietStillWaiting
    requires env.quietTicket(w.clock) != QuietStillWaiting
    ensures after.log != [] && after.log[|after.log| - 1] == Landed(identity.candidateOid)
  {
  }

  lemma NeverShips(env: Env, cfg: Config, w: World, after: World, report: B.Report)
    requires LandAnswer(env, cfg, after, NotLanded(report)) || StillQuiet(env, w.clock, after.active, report)
    ensures report.outcome != B.PendingDelivery && report.outcome != B.Merged && report.outcome != B.CloseFailed
  {
    hide Comes;
    if before: World :| FailedRebuild(env, cfg, before, after, report) {
      assert RebuildAnswer(env, cfg, before, after, Some(report));
    }
  }
}
