/** Landing one task: merge, verify, land, close. */
module Landing {
  // Merging includes bounded conflict resolution, verifying bounded repair, and landing rebuilds on
  // target drift. Agents, git and the queue are oracles of a step counter, so a statement about every
  // `Env` covers every behaviour they can have. The log records each verifier, repairer and resolver
  // call, each rebuild and each landing.

  import opened Common
  import opened RepairLedger
  import BatchMerge

  const DRIFT_REBUILD_LIMIT: nat := 3

  datatype Candidate = Candidate(sourceOid: Oid, baseOid: Oid, candidateOid: Oid)

  datatype MergeTry = CleanMerge | ConflictedMerge | TransientMergeError | OtherMergeError

  datatype LandAttempt =
    | AttemptLanded | AttemptContention | AttemptStaleOwner | AttemptNotQueueHead
    | AttemptQuietWait | AttemptDrift | AttemptUnexpected | AttemptThrew(transient: bool)

  datatype QuietTicket = NotQuiet | QuietStillWaiting | QuietResumed

  datatype Env = Env(
    source: nat -> Oid,
    predecessor: Option<Oid>,          // the candidate merged before this one, if there is one
    target: nat -> Oid,                // where the publish target is
    gitMerge: nat -> MergeTry,
    resolve: nat -> bool,              // the resolver left a finished merge without conflicts
    readsTransient: nat -> bool,       // what a failed resolver reports looks like a transient error
    mergedHead: nat -> Oid,            // HEAD of the candidate worktree after the merge
    verify: (nat, Oid) -> bool,        // the verifier run on a worktree at this HEAD
    repair: (nat, Oid) -> (bool, Oid), // success, and HEAD afterwards
    snapshot: (nat, Oid) -> Oid,       // HEAD once runtime files are stripped from the candidate
    quietTicket: nat -> QuietTicket,
    canLand: nat -> bool,
    land: nat -> LandAttempt,          // what landing comes to if the target is where it should be
    receipt: nat -> bool,              // the candidate has landed before
    rebuildCarriesResult: nat -> bool, // a failed rebuild hands over the failed merge's own result
    publicationPending: nat -> bool,
    closes: nat -> bool)

  /** What the integration and the run offer beyond merging and finalizing. */
  datatype Config = Config(snapshots: bool, leases: bool, rebuilds: bool, repairs: bool)

  datatype Event =
    | VerifierCall(head: Oid, passed: bool)
    | RepairCall(source: Oid, succeeded: bool)
    | ResolverCall(source: Oid, fingerprint: Fingerprint, succeeded: bool)
    | RebuildStarted
    | Landed(oid: Oid)

  /** `active` is the merger's current candidate; `head` is HEAD of that candidate's worktree. */
  datatype World = World(
    clock: nat,
    ledger: Ledger,
    driftRebuilds: nat,
    active: Candidate,
    head: Oid,
    log: seq<Event>)

  /** `transient`: the merge may succeed later. */
  datatype MergeEnd = Made(candidate: Candidate) | Stopped(how: MergeTry, transient: bool)

  datatype LandingEnd = LandedAs(identity: Candidate) | NotLanded(report: BatchMerge.Report)

  function Tick(w: World): World {
    w.(clock := w.clock + 1)
  }

  function Emit(w: World, e: Event): World {
    w.(clock := w.clock + 1, log := w.log + [e])
  }

  function Adopt(w: World, candidate: Candidate): World {
    w.(active := candidate, head := candidate.candidateOid)
  }

  function Without(outcome: BatchMerge.Outcome, reason: BatchMerge.Reason, identity: Candidate): BatchMerge.Report {
    BatchMerge.Report(outcome, reason, Some(identity.candidateOid))
  }

  // ----- Merging

  function ResolveConflicts(env: Env, w: World, source: Oid, fingerprint: Fingerprint): (r: (World, bool))
    ensures r.0.driftRebuilds == w.driftRebuilds && r.0.active == w.active && r.0.head == w.head
    decreases Remaining(w.ledger, source, ConflictRepair, Some(fingerprint))
  {
    if Remaining(w.ledger, source, ConflictRepair, Some(fingerprint)) == 0 then (w, false)
    else
      FingerprintNeverBinds(w.ledger, source, ConflictRepair, Some(fingerprint));
      var ledger := Record(w.ledger, source, Attempt(ConflictRepair, fingerprint));
      FingerprintNeverBinds(ledger, source, ConflictRepair, Some(fingerprint));
      var resolved := env.resolve(w.clock);
      var next := Emit(w.(ledger := ledger), ResolverCall(source, fingerprint, resolved));
      if resolved then (next, true) else ResolveConflicts(env, next, source, fingerprint)
  }

  /** Every candidate of a task is based on its predecessor, or else on the target as it is now. */
  function Base(env: Env, clock: nat): Oid {
    if env.predecessor.Some? then env.predecessor.value else env.target(clock)
  }

  function CreateCandidate(env: Env, w: World): (r: (World, MergeEnd))
    ensures r.0.driftRebuilds == w.driftRebuilds && r.0.active == w.active && r.0.head == w.head
  {
    var source, base := env.source(w.clock), Base(env, w.clock);
    match env.gitMerge(w.clock)
    case CleanMerge => (Tick(w), Made(Candidate(source, base, env.mergedHead(w.clock))))
    case ConflictedMerge =>
      var (after, resolved) := ResolveConflicts(env, Tick(w), source, MergeInput(source, base));
      if resolved then (Tick(after), Made(Candidate(source, base, env.mergedHead(after.clock))))
      else (after, Stopped(ConflictedMerge, after.clock > w.clock + 1 && env.readsTransient(after.clock)))
    case failure => (Tick(w), Stopped(failure, failure == TransientMergeError))
  }

  function SettleUnsuccessfulMerge(how: MergeTry, transient: bool): BatchMerge.Report {
    if transient then BatchMerge.Report(BatchMerge.Pending, BatchMerge.NoReason, None)
    else if how == ConflictedMerge then BatchMerge.Report(BatchMerge.MergeConflict, BatchMerge.RepairExhausted, None)
    else BatchMerge.Report(BatchMerge.MergeFailed, BatchMerge.NoReason, None)
  }

  // ----- Verifying

  function Verify(env: Env, w: World): (World, bool) {
    var passed := env.verify(w.clock, w.head);
    (Emit(w, VerifierCall(w.head, passed)), passed)
  }

  function TakeSnapshot(env: Env, w: World): World {
    var head := env.snapshot(w.clock, w.head);
    Tick(w).(head := head, active := w.active.(candidateOid := head))
  }

  function Snapshot(env: Env, cfg: Config, w: World): World {
    if cfg.snapshots then TakeSnapshot(env, w) else w
  }

  function RepairUntilVerified(env: Env, cfg: Config, w: World): (r: (World, bool))
    ensures r.0.driftRebuilds == w.driftRebuilds && r.0.active.sourceOid == w.active.sourceOid
    decreases Remaining(w.ledger, w.active.sourceOid, VerificationRepair, None)
  {
    var source := w.active.sourceOid;
    if Remaining(w.ledger, source, VerificationRepair, None) == 0 || !cfg.repairs then (w, false)
    else
      var ledger := Record(w.ledger, source, Attempt(VerificationRepair, CandidateId(w.active.candidateOid)));
      var (succeeded, head) := env.repair(w.clock, w.head);
      var repaired := Emit(w.(ledger := ledger, head := head), RepairCall(source, succeeded));
      if !succeeded then RepairUntilVerified(env, cfg, repaired)
      else
        var (verified, passed) := Verify(env, Snapshot(env, cfg, repaired));
        if passed then (verified, true) else RepairUntilVerified(env, cfg, verified)
  }

  function VerifyWithBoundedRepair(env: Env, cfg: Config, w: World): (r: (World, bool))
    ensures r.0.driftRebuilds == w.driftRebuilds && r.0.active.sourceOid == w.active.sourceOid
  {
    var (verified, passed) := Verify(env, w);
    if passed then (verified, true) else RepairUntilVerified(env, cfg, verified)
  }

  // ----- Landing

  function FailLanded(transient: bool, identity: Candidate): BatchMerge.Report {
    if transient then Without(BatchMerge.Pending, BatchMerge.NoReason, identity)
    else Without(BatchMerge.MergeFailed, BatchMerge.NoReason, identity)
  }

  /** `None` once the rebuilt candidate is verified. */
  function RebuildAfterTargetDrift(env: Env, cfg: Config, w: World): (r: (World, Option<BatchMerge.Report>))
    ensures r.0.driftRebuilds == w.driftRebuilds
  {
    var started := Emit(w, RebuildStarted);
    if !cfg.rebuilds then (started, Some(FailLanded(true, w.active)))
    else
      var (merged, end) := CreateCandidate(env, started);
      match end
      case Stopped(how, transient) =>
        if env.rebuildCarriesResult(merged.clock) then (Tick(merged), Some(SettleUnsuccessfulMerge(how, transient)))
        else (Tick(merged), Some(FailLanded(transient, w.active)))
      case Made(candidate) =>
        var (verified, passed) := VerifyWithBoundedRepair(env, cfg, Adopt(merged, candidate));
        if passed then (verified, None)
        else (verified, Some(Without(BatchMerge.VerificationFailed, BatchMerge.RepairExhausted, verified.active)))
  }

  /** A candidate lands only on the target it was based on, unless it has landed before. */
  function LandingAttempt(env: Env, clock: nat, candidate: Candidate): LandAttempt {
    var attempt := env.land(clock);
    if attempt == AttemptLanded && env.target(clock) != candidate.baseOid && !env.receipt(clock) then AttemptDrift
    else attempt
  }

  function LandUntilSettled(env: Env, cfg: Config, w: World): (World, LandingEnd)
    decreases if w.driftRebuilds < DRIFT_REBUILD_LIMIT then DRIFT_REBUILD_LIMIT - w.driftRebuilds else 0
  {
    var attempt := LandingAttempt(env, w.clock, w.active);
    if !cfg.leases then
      if attempt == AttemptLanded then (Emit(w, Landed(w.active.candidateOid)), LandedAs(w.active))
      else (Tick(w), NotLanded(FailLanded(attempt == AttemptThrew(true) || attempt == AttemptDrift, w.active)))
    else if !env.canLand(w.clock) then
      (Tick(w), NotLanded(Without(BatchMerge.Pending, BatchMerge.QueueHeadBlocked, w.active)))
    else
      match attempt
      case AttemptThrew(transient) => (Tick(w), NotLanded(FailLanded(transient, w.active)))
      case AttemptLanded => (Emit(w, Landed(w.active.candidateOid)), LandedAs(w.active))
      case AttemptContention => (Tick(w), NotLanded(Without(BatchMerge.Pending, BatchMerge.NoReason, w.active)))
      case AttemptStaleOwner => (Tick(w), NotLanded(Without(BatchMerge.Pending, BatchMerge.NoReason, w.active)))
      case AttemptNotQueueHead =>
        (Tick(w), NotLanded(Without(BatchMerge.Pending, BatchMerge.QueueHeadBlocked, w.active)))
      case AttemptQuietWait =>
        (Tick(w), NotLanded(Without(BatchMerge.Pending, BatchMerge.TargetQuietWait, w.active)))
      case AttemptUnexpected =>
        if w.driftRebuilds >= DRIFT_REBUILD_LIMIT then
          (Tick(w), NotLanded(Without(BatchMerge.Pending, BatchMerge.TargetQuietWait, w.active)))
        else (Tick(w), NotLanded(FailLanded(false, w.active)))
      case AttemptDrift =>
        if w.driftRebuilds >= DRIFT_REBUILD_LIMIT then
          (Tick(w), NotLanded(Without(BatchMerge.Pending, BatchMerge.TargetQuietWait, w.active)))
        else
          var (rebuilt, failure) :=
            RebuildAfterTargetDrift(env, cfg, Tick(w).(driftRebuilds := w.driftRebuilds + 1));
          match failure
          case Some(report) => (rebuilt, NotLanded(report))
          case None => LandUntilSettled(env, cfg, rebuilt)
  }

  function FinalizeLandedCandidate(env: Env, cfg: Config, w: World): (World, LandingEnd) {
    match env.quietTicket(w.clock)
    case QuietStillWaiting => (Tick(w), NotLanded(Without(BatchMerge.Pending, BatchMerge.NoReason, w.active)))
    case QuietResumed => LandUntilSettled(env, cfg, Tick(w).(driftRebuilds := 0))
    case NotQuiet => LandUntilSettled(env, cfg, Tick(w))
  }

  function CloseLandedTask(env: Env, clock: nat, identity: Candidate): BatchMerge.Report {
    if env.publicationPending(clock) then Without(BatchMerge.PendingDelivery, BatchMerge.PendingDeliveryReason, identity)
    else if env.closes(clock) then Without(BatchMerge.Merged, BatchMerge.NoReason, identity)
    else Without(BatchMerge.CloseFailed, BatchMerge.NoReason, identity)
  }

  function ProcessMergeTask(env: Env, cfg: Config, w: World): (World, BatchMerge.Report) {
    var (merged, end) := CreateCandidate(env, w);
    match end
    case Stopped(how, transient) => (merged, SettleUnsuccessfulMerge(how, transient))
    case Made(candidate) =>
      var (verified, passed) := VerifyWithBoundedRepair(env, cfg, Adopt(merged, candidate));
      if !passed then (verified, Without(BatchMerge.VerificationFailed, BatchMerge.RepairExhausted, verified.active))
      else
        var (final, landing) := FinalizeLandedCandidate(env, cfg, verified);
        match landing
        case NotLanded(report) => (final, report)
        case LandedAs(identity) => (Tick(final), CloseLandedTask(env, final.clock, identity))
  }

  // ----- Only the verified candidate lands

  /** HEAD and verdict of the most recent verifier call. */
  ghost function LastVerdict(log: seq<Event>): Option<(Oid, bool)> {
    if log == [] then None
    else
      var last := log[|log| - 1];
      if last.VerifierCall? then Some((last.head, last.passed)) else LastVerdict(log[..|log| - 1])
  }

  /** Whatever landed was what the verifier had looked at most recently, and it had passed. */
  ghost predicate LandsVerified(log: seq<Event>) {
    forall n :: 0 <= n < |log| && log[n].Landed? ==> LastVerdict(log[..n]) == Some((log[n].oid, true))
  }

  ghost predicate Trusted(w: World) {
    LastVerdict(w.log) == Some((w.active.candidateOid, true)) && LandsVerified(w.log)
  }

  lemma EmitVerdict(w: World, e: Event)
    requires LandsVerified(w.log) && (e.Landed? ==> LastVerdict(w.log) == Some((e.oid, true)))
    ensures LandsVerified(Emit(w, e).log)
    ensures LastVerdict(Emit(w, e).log) == if e.VerifierCall? then Some((e.head, e.passed)) else LastVerdict(w.log)
  {
    var log := w.log + [e];
    assert log[..|w.log|] == w.log;
    forall n | 0 <= n < |log| && log[n].Landed?
      ensures LastVerdict(log[..n]) == Some((log[n].oid, true))
    {
      assert n < |w.log| ==> log[..n] == w.log[..n];
    }
  }

  lemma {:induction false} ResolveVerdict(env: Env, w: World, source: Oid, fingerprint: Fingerprint)
    requires LandsVerified(w.log)
    ensures LandsVerified(ResolveConflicts(env, w, source, fingerprint).0.log)
    decreases Remaining(w.ledger, source, ConflictRepair, Some(fingerprint))
  {
    if Remaining(w.ledger, source, ConflictRepair, Some(fingerprint)) != 0 {
      FingerprintNeverBinds(w.ledger, source, ConflictRepair, Some(fingerprint));
      var ledger := Record(w.ledger, source, Attempt(ConflictRepair, fingerprint));
      FingerprintNeverBinds(ledger, source, ConflictRepair, Some(fingerprint));
      var e := ResolverCall(source, fingerprint, env.resolve(w.clock));
      EmitVerdict(w.(ledger := ledger), e);
      if !env.resolve(w.clock) {
        ResolveVerdict(env, Emit(w.(ledger := ledger), e), source, fingerprint);
      }
    }
  }

  lemma CreateVerdict(env: Env, w: World)
    requires LandsVerified(w.log)
    ensures LandsVerified(CreateCandidate(env, w).0.log)
  {
    var source, base := env.source(w.clock), Base(env, w.clock);
    ResolveVerdict(env, Tick(w), source, MergeInput(source, base));
  }

  /** A repaired candidate is snapshotted before it is verified, or it is never repaired at all. */
  ghost predicate Faithful(cfg: Config) {
    cfg.snapshots || !cfg.repairs
  }

  lemma {:induction false} RepairVerdict(env: Env, cfg: Config, w: World)
    requires Faithful(cfg) && LandsVerified(w.log)
    ensures var (after, passed) := RepairUntilVerified(env, cfg, w);
            LandsVerified(after.log) && (passed ==> Trusted(after))
    decreases Remaining(w.ledger, w.active.sourceOid, VerificationRepair, None)
  {
    var source := w.active.sourceOid;
    if Remaining(w.ledger, source, VerificationRepair, None) != 0 && cfg.repairs {
      var ledger := Record(w.ledger, source, Attempt(VerificationRepair, CandidateId(w.active.candidateOid)));
      var (succeeded, head) := env.repair(w.clock, w.head);
      var repaired := Emit(w.(ledger := ledger, head := head), RepairCall(source, succeeded));
      EmitVerdict(w.(ledger := ledger, head := head), RepairCall(source, succeeded));
      if !succeeded {
        RepairVerdict(env, cfg, repaired);
      } else {
        var snapshot := Snapshot(env, cfg, repaired);
        var (verified, passed) := Verify(env, snapshot);
        EmitVerdict(snapshot, VerifierCall(snapshot.head, passed));
        if !passed {
          RepairVerdict(env, cfg, verified);
        }
      }
    }
  }

  lemma VerifyVerdict(env: Env, cfg: Config, w: World)
    requires Faithful(cfg) && LandsVerified(w.log) && w.head == w.active.candidateOid
    ensures var (after, passed) := VerifyWithBoundedRepair(env, cfg, w);
            LandsVerified(after.log) && (passed ==> Trusted(after))
  {
    EmitVerdict(w, VerifierCall(w.head, env.verify(w.clock, w.head)));
    RepairVerdict(env, cfg, Verify(env, w).0);
  }

  /** The task went past its landing. */
  predicate Shipped(report: BatchMerge.Report) {
    report.outcome.Merged? || report.outcome.PendingDelivery? || report.outcome.CloseFailed?
  }

  lemma RebuildVerdict(env: Env, cfg: Config, w: World)
    requires Faithful(cfg) && LandsVerified(w.log)
    ensures var (after, failure) := RebuildAfterTargetDrift(env, cfg, w);
            && LandsVerified(after.log)
            && (failure.None? ==> Trusted(after))
            && (failure.Some? ==> !Shipped(failure.value))
  {
    EmitVerdict(w, RebuildStarted);
    if cfg.rebuilds {
      var started := Emit(w, RebuildStarted);
      CreateVerdict(env, started);
      var (merged, end) := CreateCandidate(env, started);
      if end.Made? {
        VerifyVerdict(env, cfg, Adopt(merged, end.candidate));
      }
    }
  }

  lemma {:induction false} LandVerdict(env: Env, cfg: Config, w: World) returns (after: World, end: LandingEnd)
    requires Faithful(cfg) && Trusted(w)
    ensures LandsVerified(after.log)
    ensures end.LandedAs? ==> after.log != [] && after.log[|after.log| - 1] == Landed(end.identity.candidateOid)
    ensures end.NotLanded? ==> !Shipped(end.report)
    ensures (after, end) == LandUntilSettled(env, cfg, w)
    decreases if w.driftRebuilds < DRIFT_REBUILD_LIMIT then DRIFT_REBUILD_LIMIT - w.driftRebuilds else 0
  {
    hide RebuildAfterTargetDrift, LandsVerified, LastVerdict;
    after, end := LandUntilSettled(env, cfg, w).0, LandUntilSettled(env, cfg, w).1;
    EmitVerdict(w, Landed(w.active.candidateOid));
    if cfg.leases && env.canLand(w.clock) && LandingAttempt(env, w.clock, w.active) == AttemptDrift && w.driftRebuilds < DRIFT_REBUILD_LIMIT {
      var drifted := Tick(w).(driftRebuilds := w.driftRebuilds + 1);
      RebuildVerdict(env, cfg, drifted);
      var (rebuilt, failure) := RebuildAfterTargetDrift(env, cfg, drifted);
      if failure.None? {
        var _, _ := LandVerdict(env, cfg, rebuilt);
      }
    }
  }

  lemma FinalizeVerdict(env: Env, cfg: Config, w: World)
    requires Faithful(cfg) && Trusted(w)
    ensures var (after, end) := FinalizeLandedCandidate(env, cfg, w);
            && LandsVerified(after.log)
            && (end.LandedAs? ==> after.log != [] && after.log[|after.log| - 1] == Landed(end.identity.candidateOid))
            && (end.NotLanded? ==> !Shipped(end.report))
  {
    hide LandUntilSettled;
    var _, _ := LandVerdict(env, cfg, Tick(w));
    var _, _ := LandVerdict(env, cfg, Tick(w).(driftRebuilds := 0));
  }

  /**
   * Through any sequence of repairs, snapshots and rebuilds: what lands is what the verifier looked
   * at last and passed, and a task that shipped reports exactly the candidate that landed.
   */
  lemma OnlyVerifiedCandidateLands(env: Env, cfg: Config, w: World)
    requires Faithful(cfg) && LandsVerified(w.log)
    ensures var (after, report) := ProcessMergeTask(env, cfg, w);
            && LandsVerified(after.log)
            && (Shipped(report) ==>
                  && after.log != [] && after.log[|after.log| - 1].Landed?
                  && report.candidateOid == Some(after.log[|after.log| - 1].oid))
  {
    hide CreateCandidate, VerifyWithBoundedRepair, FinalizeLandedCandidate;
    CreateVerdict(env, w);
    var (merged, end) := CreateCandidate(env, w);
    if end.Made? {
      VerifyVerdict(env, cfg, Adopt(merged, end.candidate));
      var (verified, passed) := VerifyWithBoundedRepair(env, cfg, Adopt(merged, end.candidate));
      if passed {
        FinalizeVerdict(env, cfg, verified);
        var (final, landing) := FinalizeLandedCandidate(env, cfg, verified);
        match landing {
          case NotLanded(report) =>
            assert ProcessMergeTask(env, cfg, w) == (final, report);
          case LandedAs(identity) =>
            assert ProcessMergeTask(env, cfg, w) == (Tick(final), CloseLandedTask(env, final.clock, identity));
        }
      }
    }
  }

  /** An environment in which one repair moves HEAD and makes verification pass. */
  ghost function OneRepair(): Env {
    Env(
      n => "source", None, n => "base", n => CleanMerge, n => true, n => false, n => "merged",
      (n, head) => head == "repaired", (n, head) => (true, "repaired"), (n, head) => head,
      n => NotQuiet, n => true, n => AttemptLanded, n => false, n => true, n => false, n => true)
  }

  lemma UnsnapshottedRepairLands(cfg: Config)
    requires !Faithful(cfg)
    ensures var w := World(0, map[], 0, Candidate("", "", ""), "", []);
            LandsVerified(w.log) && !LandsVerified(ProcessMergeTask(OneRepair(), cfg, w).0.log)
  {
    var env := OneRepair();
    var w := World(0, map[], 0, Candidate("", "", ""), "", []);
    var adopted := Adopt(Tick(w), Candidate("source", "base", "merged"));
    assert CreateCandidate(env, w) == (Tick(w), Made(adopted.active));
    var (failed, _) := Verify(env, adopted);
    var ledger := Record(failed.ledger, "source", Attempt(VerificationRepair, CandidateId("merged")));
    var repaired := Emit(failed.(ledger := ledger, head := "repaired"), RepairCall("source", true));
    assert Snapshot(env, cfg, repaired) == repaired;
    var (verified, passed) := Verify(env, repaired);
    assert passed && VerifyWithBoundedRepair(env, cfg, adopted) == (verified, true);
    var (after, end) := FinalizeLandedCandidate(env, cfg, verified);
    assert after.log == verified.log + [Landed("merged")];
    var n := |verified.log|;
    assert after.log[..n] == verified.log;
    assert LastVerdict(verified.log) == Some(("repaired", true));
  }

  /** Exactly which integrations land only verified candidates in every run. */
  lemma LandsVerifiedIffFaithful(cfg: Config)
    ensures (forall env: Env, w: World :: LandsVerified(w.log) ==> LandsVerified(ProcessMergeTask(env, cfg, w).0.log))
       <==> Faithful(cfg)
  {
    if Faithful(cfg) {
      forall env: Env, w: World | LandsVerified(w.log)
        ensures LandsVerified(ProcessMergeTask(env, cfg, w).0.log)
      {
        OnlyVerifiedCandidateLands(env, cfg, w);
      }
    } else {
      UnsnapshottedRepairLands(cfg);
    }
  }

  // ----- Budgets

  datatype Counted = VerifierCalls | AllRepairs | RepairsOf(source: Oid) | ResolversOf(source: Oid) | Rebuilds

  function Weight(e: Event, what: Counted): nat {
    var hit :=
      match what
      case VerifierCalls => e.VerifierCall?
      case AllRepairs => e.RepairCall?
      case RepairsOf(source) => e.RepairCall? && e.source == source
      case ResolversOf(source) => e.ResolverCall? && e.source == source
      case Rebuilds => e.RebuildStarted?;
    if hit then 1 else 0
  }

  function Tally(log: seq<Event>, what: Counted): nat {
    if log == [] then 0 else Tally(log[..|log| - 1], what) + Weight(log[|log| - 1], what)
  }

  /** How many events of a kind happened between two worlds. */
  ghost function Spent(w: World, after: World, what: Counted): int {
    Tally(after.log, what) - Tally(w.log, what)
  }

  /** Verifier calls not paid for by a repair or a rebuild. */
  ghost function Unpaid(w: World, after: World): int {
    Spent(w, after, VerifierCalls) - Spent(w, after, AllRepairs) - Spent(w, after, Rebuilds)
  }

  ghost predicate WithinLedger(w: World, after: World, source: Oid, kind: RepairKind) {
    var used, used' := Used(w.ledger, source, kind), Used(after.ledger, source, kind);
    && used <= used'
    && used' <= (if used < REPAIR_BUDGET then REPAIR_BUDGET else used)
    && used' - used == Spent(w, after, if kind == ConflictRepair then ResolversOf(source) else RepairsOf(source))
  }

  /** Every agent call was recorded in the ledger, and the ledger never went over its budget. */
  ghost predicate Budgeted(w: World, after: World) {
    forall source, kind :: WithinLedger(w, after, source, kind)
  }

  lemma TallyEmit(w: World, e: Event)
    ensures forall what :: Tally(Emit(w, e).log, what) == Tally(w.log, what) + Weight(e, what)
  {
    assert (w.log + [e])[..|w.log|] == w.log;
  }

  lemma BudgetedTrans(a: World, b: World, c: World)
    requires Budgeted(a, b) && Budgeted(b, c)
    ensures Budgeted(a, c)
  {
    forall source, kind
      ensures WithinLedger(a, c, source, kind)
    {
      assert WithinLedger(a, b, source, kind) && WithinLedger(b, c, source, kind);
    }
  }

  /** Events that are no agent call leave the ledger alone. */
  lemma BudgetedEmit(w: World, e: Event)
    requires !e.RepairCall? && !e.ResolverCall?
    ensures Budgeted(w, Emit(w, e))
    ensures Unpaid(w, Emit(w, e)) == (if e.VerifierCall? then 1 else if e.RebuildStarted? then -1 else 0)
  {
    TallyEmit(w, e);
  }

  /** An agent call within the budget, recorded before it is made. */
  lemma BudgetedCall(w: World, next: World, source: Oid, attempt: Attempt, e: Event)
    requires Left(Used(w.ledger, source, attempt.kind)) > 0
    requires next.ledger == Record(w.ledger, source, attempt) && next.log == w.log + [e]
    requires if attempt.kind == ConflictRepair then e.ResolverCall? && e.source == source
             else e.RepairCall? && e.source == source
    ensures Budgeted(w, next)
    ensures Unpaid(w, next) == (if e.RepairCall? then -1 else 0)
    ensures Spent(w, next, Rebuilds) == 0
    ensures Used(next.ledger, source, attempt.kind) == Used(w.ledger, source, attempt.kind) + 1
  {
    hide Tally, Count;
    TallyEmit(w, e);
    forall s, k
      ensures WithinLedger(w, next, s, k)
    {
      assert Used(next.ledger, s, k) == Used(w.ledger, s, k) + if s == source && k == attempt.kind then 1 else 0;
    }
  }

  lemma {:induction false} ResolveBudget(env: Env, w: World, source: Oid, fingerprint: Fingerprint)
    ensures var after := ResolveConflicts(env, w, source, fingerprint).0;
            Budgeted(w, after) && Unpaid(w, after) == 0 && Spent(w, after, Rebuilds) == 0
    decreases Remaining(w.ledger, source, ConflictRepair, Some(fingerprint))
  {
    hide Budgeted;
    FingerprintNeverBinds(w.ledger, source, ConflictRepair, Some(fingerprint));
    if Remaining(w.ledger, source, ConflictRepair, Some(fingerprint)) == 0 {
      BudgetedSame(w, w);
    } else {
      var attempt := Attempt(ConflictRepair, fingerprint);
      var ledger := Record(w.ledger, source, attempt);
      FingerprintNeverBinds(ledger, source, ConflictRepair, Some(fingerprint));
      var resolved := env.resolve(w.clock);
      var next := Emit(w.(ledger := ledger), ResolverCall(source, fingerprint, resolved));
      BudgetedCall(w, next, source, attempt, ResolverCall(source, fingerprint, resolved));
      if !resolved {
        ResolveBudget(env, next, source, fingerprint);
        BudgetedTrans(w, next, ResolveConflicts(env, next, source, fingerprint).0);
      }
    }
  }

  lemma BudgetedSame(w: World, after: World)
    requires after.ledger == w.ledger && after.log == w.log
    ensures Budgeted(w, after) && Unpaid(w, after) == 0 && Spent(w, after, Rebuilds) == 0
  {
  }

  lemma CreateBudget(env: Env, w: World) returns (after: World, end: MergeEnd)
    ensures Budgeted(w, after) && Unpaid(w, after) == 0 && Spent(w, after, Rebuilds) == 0
    ensures (after, end) == CreateCandidate(env, w)
  {
    hide Budgeted, ResolveConflicts;
    after, end := CreateCandidate(env, w).0, CreateCandidate(env, w).1;
    BudgetedSame(w, Tick(w));
    var source, base := env.source(w.clock), Base(env, w.clock);
    var resolved := ResolveConflicts(env, Tick(w), source, MergeInput(source, base)).0;
    ResolveBudget(env, Tick(w), source, MergeInput(source, base));
    BudgetedTrans(w, Tick(w), resolved);
    BudgetedSame(resolved, Tick(resolved));
    BudgetedTrans(w, resolved, Tick(resolved));
  }

  lemma {:induction false} RepairBudget(env: Env, cfg: Config, w: World)
    ensures var after := RepairUntilVerified(env, cfg, w).0;
            && Budgeted(w, after) && Unpaid(w, after) <= 0 && Spent(w, after, Rebuilds) == 0
            && Spent(w, after, AllRepairs) <= Remaining(w.ledger, w.active.sourceOid, VerificationRepair, None)
    decreases Remaining(w.ledger, w.active.sourceOid, VerificationRepair, None)
  {
    hide Budgeted, WithinLedger, Tally;
    var source := w.active.sourceOid;
    if Remaining(w.ledger, source, VerificationRepair, None) == 0 || !cfg.repairs {
      BudgetedSame(w, w);
    } else {
      var attempt := Attempt(VerificationRepair, CandidateId(w.active.candidateOid));
      var ledger := Record(w.ledger, source, attempt);
      var (succeeded, head) := env.repair(w.clock, w.head);
      var repaired := Emit(w.(ledger := ledger, head := head), RepairCall(source, succeeded));
      BudgetedCall(w, repaired, source, attempt, RepairCall(source, succeeded));
      TallyEmit(w, RepairCall(source, succeeded));
      if !succeeded {
        RepairBudget(env, cfg, repaired);
        BudgetedTrans(w, repaired, RepairUntilVerified(env, cfg, repaired).0);
      } else {
        var snapshot := Snapshot(env, cfg, repaired);
        var verified := Verify(env, snapshot).0;
        BudgetedSame(repaired, snapshot);
        BudgetedEmit(snapshot, VerifierCall(snapshot.head, env.verify(snapshot.clock, snapshot.head)));
        TallyEmit(snapshot, VerifierCall(snapshot.head, env.verify(snapshot.clock, snapshot.head)));
        BudgetedTrans(repaired, snapshot, verified);
        BudgetedTrans(w, repaired, verified);
        if !Verify(env, snapshot).1 {
          RepairBudget(env, cfg, verified);
          BudgetedTrans(w, verified, RepairUntilVerified(env, cfg, verified).0);
        }
      }
    }
  }

  /** One candidate generation: at most the budget of repairs, and at most one verifier call more than repairs. */
  lemma VerifyBudget(env: Env, cfg: Config, w: World)
    ensures var after := VerifyWithBoundedRepair(env, cfg, w).0;
            && Budgeted(w, after) && Spent(w, after, Rebuilds) == 0
            && Spent(w, after, AllRepairs) <= Remaining(w.ledger, w.active.sourceOid, VerificationRepair, None) <= REPAIR_BUDGET
            && Spent(w, after, VerifierCalls) <= 1 + Spent(w, after, AllRepairs)
  {
    hide Budgeted, RepairUntilVerified;
    var call := VerifierCall(w.head, env.verify(w.clock, w.head));
    BudgetedEmit(w, call);
    TallyEmit(w, call);
    var verified := Verify(env, w).0;
    RepairBudget(env, cfg, verified);
    BudgetedTrans(w, verified, RepairUntilVerified(env, cfg, verified).0);
  }

  lemma RebuildBudget(env: Env, cfg: Config, w: World)
    ensures var after := RebuildAfterTargetDrift(env, cfg, w).0;
            Budgeted(w, after) && Unpaid(w, after) <= 0 && Spent(w, after, Rebuilds) == 1
  {
    hide Budgeted, CreateCandidate, VerifyWithBoundedRepair;
    var started := Emit(w, RebuildStarted);
    BudgetedEmit(w, RebuildStarted);
    TallyEmit(w, RebuildStarted);
    if cfg.rebuilds {
      var merged, end := CreateBudget(env, started);
      BudgetedTrans(w, started, merged);
      BudgetedSame(merged, Tick(merged));
      BudgetedTrans(w, merged, Tick(merged));
      if end.Made? {
        var adopted := Adopt(merged, end.candidate);
        BudgetedSame(merged, adopted);
        VerifyBudget(env, cfg, adopted);
        BudgetedTrans(w, merged, adopted);
        BudgetedTrans(w, adopted, VerifyWithBoundedRepair(env, cfg, adopted).0);
      }
    }
  }

  function DriftLeft(w: World): nat {
    if w.driftRebuilds < DRIFT_REBUILD_LIMIT then DRIFT_REBUILD_LIMIT - w.driftRebuilds else 0
  }

  lemma {:induction false} LandBudget(env: Env, cfg: Config, w: World)
    ensures var after := LandUntilSettled(env, cfg, w).0;
            Budgeted(w, after) && Unpaid(w, after) <= 0 && Spent(w, after, Rebuilds) <= DriftLeft(w)
    decreases DriftLeft(w)
  {
    hide Budgeted, RebuildAfterTargetDrift;
    BudgetedSame(w, Tick(w));
    BudgetedEmit(w, Landed(w.active.candidateOid));
    TallyEmit(w, Landed(w.active.candidateOid));
    if cfg.leases && env.canLand(w.clock) && LandingAttempt(env, w.clock, w.active) == AttemptDrift && w.driftRebuilds < DRIFT_REBUILD_LIMIT {
      var drifted := Tick(w).(driftRebuilds := w.driftRebuilds + 1);
      BudgetedSame(w, drifted);
      RebuildBudget(env, cfg, drifted);
      var (rebuilt, failure) := RebuildAfterTargetDrift(env, cfg, drifted);
      BudgetedTrans(w, drifted, rebuilt);
      if failure.None? {
        LandBudget(env, cfg, rebuilt);
        BudgetedTrans(w, rebuilt, LandUntilSettled(env, cfg, rebuilt).0);
      }
    }
  }

  lemma FinalizeBudget(env: Env, cfg: Config, w: World) returns (after: World, end: LandingEnd)
    ensures Budgeted(w, after) && Unpaid(w, after) <= 0
    ensures Spent(w, after, Rebuilds) <= if env.quietTicket(w.clock) == QuietResumed then DRIFT_REBUILD_LIMIT else DriftLeft(w)
    ensures (after, end) == FinalizeLandedCandidate(env, cfg, w)
  {
    hide Budgeted, LandUntilSettled;
    after, end := FinalizeLandedCandidate(env, cfg, w).0, FinalizeLandedCandidate(env, cfg, w).1;
    var restarted := Tick(w).(driftRebuilds := 0);
    BudgetedSame(w, Tick(w));
    BudgetedSame(w, restarted);
    LandBudget(env, cfg, Tick(w));
    LandBudget(env, cfg, restarted);
    BudgetedTrans(w, Tick(w), LandUntilSettled(env, cfg, Tick(w)).0);
    BudgetedTrans(w, restarted, LandUntilSettled(env, cfg, restarted).0);
  }

  /** The work one task can cause, in the calls of every agent and verifier. */
  ghost predicate Bounded(w: World, after: World) {
    && (forall s :: Spent(w, after, RepairsOf(s)) <= Remaining(w.ledger, s, VerificationRepair, None) <= 2)
    && (forall s, f :: Spent(w, after, ResolversOf(s)) <= Remaining(w.ledger, s, ConflictRepair, f) <= 2)
    && Spent(w, after, Rebuilds) <= 3
    && Spent(w, after, VerifierCalls) <= 1 + Spent(w, after, AllRepairs) + Spent(w, after, Rebuilds)
  }

  lemma BudgetedBounds(w: World, after: World)
    requires Budgeted(w, after) && Spent(w, after, Rebuilds) <= DRIFT_REBUILD_LIMIT && Unpaid(w, after) <= 1
    ensures Bounded(w, after)
  {
    forall s
      ensures Spent(w, after, RepairsOf(s)) <= Remaining(w.ledger, s, VerificationRepair, None) <= 2
    {
      assert WithinLedger(w, after, s, VerificationRepair);
    }
    forall s, f
      ensures Spent(w, after, ResolversOf(s)) <= Remaining(w.ledger, s, ConflictRepair, f) <= 2
    {
      FingerprintNeverBinds(w.ledger, s, ConflictRepair, f);
      assert WithinLedger(w, after, s, ConflictRepair);
    }
  }

  /** Per source commit, what is left of the repair budgets bounds all repairs of a task; drift bounds its rebuilds. */
  lemma TaskIsBounded(env: Env, cfg: Config, w: World)
    ensures Bounded(w, ProcessMergeTask(env, cfg, w).0)
  {
    hide Budgeted, Bounded, CreateCandidate, VerifyWithBoundedRepair, FinalizeLandedCandidate;
    var merged, end := CreateBudget(env, w);
    BudgetedBounds(w, merged);
    if end.Made? {
      var adopted := Adopt(merged, end.candidate);
      BudgetedSame(merged, adopted);
      BudgetedTrans(w, merged, adopted);
      VerifyBudget(env, cfg, adopted);
      var (verified, passed) := VerifyWithBoundedRepair(env, cfg, adopted);
      BudgetedTrans(w, adopted, verified);
      BudgetedBounds(w, verified);
      if passed {
        var final, landing := FinalizeBudget(env, cfg, verified);
        BudgetedTrans(w, verified, final);
        BudgetedSame(final, Tick(final));
        BudgetedTrans(w, final, Tick(final));
        BudgetedBounds(w, final);
        BudgetedBounds(w, Tick(final));
        match landing {
          case NotLanded(report) =>
            assert ProcessMergeTask(env, cfg, w) == (final, report);
          case LandedAs(identity) =>
            assert ProcessMergeTask(env, cfg, w) == (Tick(final), CloseLandedTask(env, final.clock, identity));
        }
      }
    }
  }

  // ----- Drift that rebuilding cannot catch up with

  /** Every candidate is based where the task's base is pinned. */
  lemma BasePinned(env: Env, cfg: Config, w: World)
    ensures VerifyWithBoundedRepair(env, cfg, w).0.active.baseOid == w.active.baseOid
  {
    RepairKeepsBase(env, cfg, Verify(env, w).0);
  }

  lemma {:induction false} RepairKeepsBase(env: Env, cfg: Config, w: World)
    ensures RepairUntilVerified(env, cfg, w).0.active.baseOid == w.active.baseOid
    decreases Remaining(w.ledger, w.active.sourceOid, VerificationRepair, None)
  {
    hide Used, Attempts, Count;
    var source := w.active.sourceOid;
    if Remaining(w.ledger, source, VerificationRepair, None) != 0 && cfg.repairs {
      var ledger := Record(w.ledger, source, Attempt(VerificationRepair, CandidateId(w.active.candidateOid)));
      var (succeeded, head) := env.repair(w.clock, w.head);
      var repaired := Emit(w.(ledger := ledger, head := head), RepairCall(source, succeeded));
      if !succeeded {
        RepairKeepsBase(env, cfg, repaired);
      } else {
        var (verified, passed) := Verify(env, Snapshot(env, cfg, repaired));
        if !passed {
          RepairKeepsBase(env, cfg, verified);
        }
      }
    }
  }

  lemma RebuildKeepsBase(env: Env, cfg: Config, w: World)
    ensures var (after, failure) := RebuildAfterTargetDrift(env, cfg, w);
            failure.None? && env.predecessor.Some? ==> after.active.baseOid == env.predecessor.value
  {
    hide VerifyWithBoundedRepair, ResolveConflicts;
    if cfg.rebuilds {
      var (merged, end) := CreateCandidate(env, Emit(w, RebuildStarted));
      if end.Made? {
        BasePinned(env, cfg, Adopt(merged, end.candidate));
      }
    }
  }

  /** The target stays away from the task's predecessor, and the task has not landed before. */
  ghost predicate OffTarget(env: Env) {
    env.predecessor.Some? && forall n :: env.target(n) != env.predecessor.value && !env.receipt(n)
  }

  /** However often it is rebuilt, a candidate on a predecessor that the target stays away from never lands. */
  lemma {:induction false} OffTargetNeverLands(env: Env, cfg: Config, w: World)
    requires OffTarget(env) && w.active.baseOid == env.predecessor.value
    ensures LandUntilSettled(env, cfg, w).1.NotLanded? && !Shipped(LandUntilSettled(env, cfg, w).1.report)
    decreases DriftLeft(w)
  {
    hide RebuildAfterTargetDrift;
    if cfg.leases && env.canLand(w.clock) && LandingAttempt(env, w.clock, w.active) == AttemptDrift && w.driftRebuilds < DRIFT_REBUILD_LIMIT {
      var drifted := Tick(w).(driftRebuilds := w.driftRebuilds + 1);
      RebuildKeepsBase(env, cfg, drifted);
      RebuildNotShipped(env, cfg, drifted);
      var (rebuilt, failure) := RebuildAfterTargetDrift(env, cfg, drifted);
      if failure.None? {
        OffTargetNeverLands(env, cfg, rebuilt);
      }
    }
  }

  /** Whatever agents, git and the queue do: a task whose target stays away from its predecessor never ships. */
  lemma OffTargetTaskNeverShips(env: Env, cfg: Config, w: World)
    requires OffTarget(env)
    ensures !Shipped(ProcessMergeTask(env, cfg, w).1)
  {
    hide VerifyWithBoundedRepair, LandUntilSettled, ResolveConflicts;
    var (merged, end) := CreateCandidate(env, w);
    if end.Made? {
      var adopted := Adopt(merged, end.candidate);
      BasePinned(env, cfg, adopted);
      var (verified, passed) := VerifyWithBoundedRepair(env, cfg, adopted);
      OffTargetNeverLands(env, cfg, Tick(verified));
      OffTargetNeverLands(env, cfg, Tick(verified).(driftRebuilds := 0));
    }
  }

  lemma RebuildNotShipped(env: Env, cfg: Config, w: World)
    ensures var failure := RebuildAfterTargetDrift(env, cfg, w).1; failure.Some? ==> !Shipped(failure.value)
  {
    hide VerifyWithBoundedRepair, CreateCandidate;
  }

  /** Nothing goes wrong any more: merges are clean, verification passes, the queue is free, the target rests. */
  ghost predicate Smooth(env: Env, cfg: Config, target: Oid) {
    && cfg.leases && cfg.rebuilds
    && forall n ::
         && env.gitMerge(n) == CleanMerge && env.target(n) == target && !env.receipt(n)
         && env.canLand(n) && env.land(n) == AttemptLanded && env.quietTicket(n) != QuietStillWaiting
  }

  ghost predicate AlwaysVerified(env: Env) {
    forall n, head :: env.verify(n, head)
  }

  lemma SmoothRebuild(env: Env, cfg: Config, w: World, target: Oid)
    requires Smooth(env, cfg, target) && AlwaysVerified(env)
    ensures var (after, failure) := RebuildAfterTargetDrift(env, cfg, w);
            && failure.None? && after.driftRebuilds == w.driftRebuilds && Spent(w, after, Rebuilds) == 1
            && after.active.baseOid == (if env.predecessor.Some? then env.predecessor.value else target)
  {
    hide RepairUntilVerified;
    var started := Emit(w, RebuildStarted);
    TallyEmit(w, RebuildStarted);
    var (merged, end) := CreateCandidate(env, started);
    assert end == Made(Candidate(env.source(started.clock), Base(env, started.clock), env.mergedHead(started.clock)));
    var adopted := Adopt(merged, end.candidate);
    TallyEmit(adopted, VerifierCall(adopted.head, true));
    assert VerifyWithBoundedRepair(env, cfg, adopted) == (Emit(adopted, VerifierCall(adopted.head, true)), true);
  }

  /** All rebuilds left are spent on the same base, and then the task waits for the target. */
  lemma {:induction false} StuckEndsInQuietWait(env: Env, cfg: Config, w: World, target: Oid)
    requires Smooth(env, cfg, target) && AlwaysVerified(env) && OffTarget(env)
    requires w.active.baseOid == env.predecessor.value
    ensures var (after, end) := LandUntilSettled(env, cfg, w);
            && end.NotLanded? && end.report.outcome == BatchMerge.Pending && end.report.reason == BatchMerge.TargetQuietWait
            && Spent(w, after, Rebuilds) == DriftLeft(w)
    decreases DriftLeft(w)
  {
    hide RebuildAfterTargetDrift;
    assert env.land(w.clock) == AttemptLanded;
    assert LandingAttempt(env, w.clock, w.active) == AttemptDrift;
    if w.driftRebuilds < DRIFT_REBUILD_LIMIT {
      var drifted := Tick(w).(driftRebuilds := w.driftRebuilds + 1);
      SmoothRebuild(env, cfg, drifted, target);
      StuckEndsInQuietWait(env, cfg, RebuildAfterTargetDrift(env, cfg, drifted).0, target);
    }
  }

  /**
   * With everything else smooth, a task lands exactly if the resting target is where it builds on:
   * it has no predecessor, or its predecessor is the target. Otherwise every rebuild it has left,
   * all three again after a quiet wait, is spent on the same base, and it ends waiting for the target.
   */
  lemma SmoothTaskLandsIffOnTarget(env: Env, cfg: Config, w: World, target: Oid)
    requires Smooth(env, cfg, target) && AlwaysVerified(env)
    ensures var (after, report) := ProcessMergeTask(env, cfg, w);
            && (Shipped(report) <==> env.predecessor.None? || env.predecessor == Some(target))
            && (!Shipped(report) ==>
                  && report.outcome == BatchMerge.Pending && report.reason == BatchMerge.TargetQuietWait
                  && Spent(w, after, Rebuilds) ==
                       if env.quietTicket(w.clock + 2) == QuietResumed then DRIFT_REBUILD_LIMIT else DriftLeft(w))
  {
    hide RepairUntilVerified, RebuildAfterTargetDrift;
    var (merged, end) := CreateCandidate(env, w);
    assert end == Made(Candidate(env.source(w.clock), Base(env, w.clock), env.mergedHead(w.clock))) && merged == Tick(w);
    var adopted := Adopt(merged, end.candidate);
    var call := VerifierCall(adopted.head, true);
    TallyEmit(adopted, call);
    var verified := Emit(adopted, call);
    assert VerifyWithBoundedRepair(env, cfg, adopted) == (verified, true);
    var ready := if env.quietTicket(verified.clock) == QuietResumed then Tick(verified).(driftRebuilds := 0) else Tick(verified);
    assert FinalizeLandedCandidate(env, cfg, verified) == LandUntilSettled(env, cfg, ready);
    assert env.land(ready.clock) == AttemptLanded;
    if env.predecessor.None? || env.predecessor == Some(target) {
      assert LandUntilSettled(env, cfg, ready).1 == LandedAs(verified.active);
    } else {
      StuckEndsInQuietWait(env, cfg, ready, target);
    }
  }
}
