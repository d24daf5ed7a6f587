/** The durable record of repair attempts for one task, kept per source commit, and its budget. */
module RepairLedger {
  import opened Common

  type Oid = string

  const REPAIR_BUDGET: nat := 2

  datatype RepairKind = ConflictRepair | VerificationRepair

  /** A merge input is identified by its source and base commit, a candidate by its own id. */
  datatype Fingerprint = MergeInput(source: Oid, base: Oid) | CandidateId(oid: Oid)

  datatype Attempt = Attempt(kind: RepairKind, fingerprint: Fingerprint)

  type Ledger = map<Oid, seq<Attempt>>

  function Attempts(ledger: Ledger, source: Oid): seq<Attempt> {
    if source in ledger then ledger[source] else []
  }

  /** How many attempts are of a kind, and of a fingerprint when one is given. */
  function Count(attempts: seq<Attempt>, kind: RepairKind, fingerprint: Option<Fingerprint>): nat {
    if attempts == [] then 0
    else
      var last := attempts[|attempts| - 1];
      Count(attempts[..|attempts| - 1], kind, fingerprint)
      + if last.kind == kind && (fingerprint.Some? ==> last.fingerprint == fingerprint.value) then 1 else 0
  }

  function Used(ledger: Ledger, source: Oid, kind: RepairKind): nat {
    Count(Attempts(ledger, source), kind, None)
  }

  function Left(used: nat): nat {
    if used >= REPAIR_BUDGET then 0 else REPAIR_BUDGET - used
  }

  function Remaining(ledger: Ledger, source: Oid, kind: RepairKind, fingerprint: Option<Fingerprint>): nat {
    var ofKind := Left(Used(ledger, source, kind));
    if fingerprint.None? then ofKind
    else
      var ofFingerprint := Left(Count(Attempts(ledger, source), kind, fingerprint));
      if ofFingerprint < ofKind then ofFingerprint else ofKind
  }

  function Record(ledger: Ledger, source: Oid, attempt: Attempt): (r: Ledger)
    ensures forall s, k :: Used(r, s, k) == Used(ledger, s, k) + if s == source && k == attempt.kind then 1 else 0
  {
    RecordedOnce(Attempts(ledger, source), attempt);
    ledger[source := Attempts(ledger, source) + [attempt]]
  }

  lemma RecordedOnce(attempts: seq<Attempt>, attempt: Attempt)
    ensures forall k, f :: Count(attempts + [attempt], k, f) == Count(attempts, k, f)
              + if attempt.kind == k && (f.Some? ==> attempt.fingerprint == f.value) then 1 else 0
  {
    assert (attempts + [attempt])[..|attempts|] == attempts;
  }

  lemma {:induction false} FingerprintWithinKind(attempts: seq<Attempt>, kind: RepairKind, fingerprint: Option<Fingerprint>)
    ensures Count(attempts, kind, fingerprint) <= Count(attempts, kind, None)
  {
    if attempts != [] {
      FingerprintWithinKind(attempts[..|attempts| - 1], kind, fingerprint);
    }
  }

  /** The per-fingerprint budget never binds: what is left is what is left for the source commit. */
  lemma FingerprintNeverBinds(ledger: Ledger, source: Oid, kind: RepairKind, fingerprint: Option<Fingerprint>)
    ensures Remaining(ledger, source, kind, fingerprint) == Remaining(ledger, source, kind, None)
  {
    FingerprintWithinKind(Attempts(ledger, source), kind, fingerprint);
  }
}
