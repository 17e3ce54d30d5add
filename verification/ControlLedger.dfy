/** The ledger parts of `Start`, `Resume` and `Cancel`, with their scans written as loops and proved
against the steps of `Approvals`. */
module ControlLedger {
  import opened Durable
  import opened Approvals

  method PruneStartRecords(records: seq<StartRecord>, now: nat) returns (result: seq<StartRecord>)
    ensures result == Prune(records, now)
  {
    result := [];
    for i := 0 to |records|
      invariant result == Prune(records[..i], now)
    {
      assert records[..i + 1][..i] == records[..i];
      if records[i].expiresAt > now { result := result + [records[i]]; }
    }
    assert records[..|records|] == records;
  }

  method LedgerHasNonce(l: Ledger, nonce: string) returns (found: bool)
    ensures found <==> HasNonce(l, nonce)
  {
    for i := 0 to |l.starts|
      invariant forall j :: 0 <= j < i ==> l.starts[j].nonce != nonce
    {
      if l.starts[i].nonce == nonce { return true; }
    }
    for i := 0 to |l.resumes|
      invariant forall j :: 0 <= j < i ==> l.resumes[j].nonce != nonce
    {
      if l.resumes[i].nonce == nonce { return true; }
    }
    for i := 0 to |l.cancels|
      invariant forall j :: 0 <= j < i ==> l.cancels[j].nonce != nonce
    {
      if l.cancels[i].nonce == nonce { return true; }
    }
    return false;
  }

  method FindStart(starts: seq<StartRecord>, key: string) returns (k: nat)
    ensures k == FindKey(starts, key)
  {
    var p := (r: StartRecord) => r.key == key;
    for i := 0 to |starts|
      invariant First(starts, p, 0) == First(starts, p, i)
    {
      if starts[i].key == key { return i; }
    }
    return |starts|;
  }

  /** One clock reading per start looked at. */
  method SomePending(starts: seq<StartRecord>, x: World) returns (found: bool)
    ensures found <==> AnyPending(starts, x)
  {
    for i := 0 to |starts|
      invariant forall j :: 0 <= j < i ==> !Pending(starts[j], x.clock(2 + j), x.finals)
    {
      if starts[i].expiresAt > x.clock(2 + i) && starts[i].runID !in x.finals { return true; }
    }
    return false;
  }

  /** The scan of the section a resume or cancel would be added to. */
  method ScanOwn(own: seq<RunRecord>, q: RunRequest) returns (found: bool, reply: Reply)
    ensures (found, reply) == RunLookup(false, own, q)
  {
    var p := (r: RunRecord) => r.nonce == q.approval.nonce || r.runID == q.runID;
    for i := 0 to |own|
      invariant First(own, p, 0) == First(own, p, i)
    {
      if own[i].nonce == q.approval.nonce {
        if own[i].runID == q.runID && own[i].digest == q.digest { return true, Replayed(own[i].runID); }
        return true, Refused(NonceReplayed);
      }
      if own[i].runID == q.runID { return true, Refused(AlreadyConsumed); }
    }
    return false, Refused(NonceReplayed);
  }

  method StartsHold(l: Ledger, nonce: string) returns (found: bool)
    ensures found <==> StartsHave(l, nonce)
  {
    for i := 0 to |l.starts|
      invariant forall j :: 0 <= j < i ==> l.starts[j].nonce != nonce
    {
      if l.starts[i].nonce == nonce { return true; }
    }
    return false;
  }

  method ResumeLedgerResult(l: Ledger, q: RunRequest) returns (found: bool, reply: Reply)
    ensures
      var elsewhere := StartsHave(l, q.approval.nonce) || CancelsHave(l, q.approval.nonce);
      (found, reply) == RunLookup(elsewhere, l.resumes, q)
  {
    found := StartsHold(l, q.approval.nonce);
    if found { return true, Refused(NonceReplayed); }
    for i := 0 to |l.cancels|
      invariant forall j :: 0 <= j < i ==> l.cancels[j].nonce != q.approval.nonce
    {
      if l.cancels[i].nonce == q.approval.nonce { return true, Refused(NonceReplayed); }
    }
    found, reply := ScanOwn(l.resumes, q);
  }

  method CancelLedgerResult(l: Ledger, q: RunRequest) returns (found: bool, reply: Reply)
    ensures
      var elsewhere := StartsHave(l, q.approval.nonce) || ResumesHave(l, q.approval.nonce);
      (found, reply) == RunLookup(elsewhere, l.cancels, q)
  {
    found := StartsHold(l, q.approval.nonce);
    if found { return true, Refused(NonceReplayed); }
    for i := 0 to |l.resumes|
      invariant forall j :: 0 <= j < i ==> l.resumes[j].nonce != q.approval.nonce
    {
      if l.resumes[i].nonce == q.approval.nonce { return true, Refused(NonceReplayed); }
    }
    found, reply := ScanOwn(l.cancels, q);
  }

  class ApprovalFile {
    var ledger: Ledger

    constructor ()
      ensures ledger == Ledger([], [], [])
    {
      ledger := Ledger([], [], []);
    }

    method Write(l: Ledger, w: WriteOutcome) returns (ok: bool)
      modifies this
      ensures ledger == (if w.NotReplaced? then old(ledger) else l) && ok == w.Durable?
    {
      if !w.NotReplaced? { ledger := l; }
      ok := w.Durable?;
    }

    method Start(q: StartRequest, x: World) returns (reply: Reply)
      modifies this
      ensures ledger == StartStep(old(ledger), q, x).ledger && reply == StartStep(old(ledger), q, x).reply
    {
      var (valid, reason) := ValidateApproval(q.approval, q.digest, x.clock(0));
      if !valid { return Refused(reason); }
      var l := ledger;
      var starts := PruneStartRecords(l.starts, x.clock(1));
      l := l.(starts := starts);
      var k := FindStart(starts, q.key);
      if k < |starts| {
        if starts[k].digest != q.digest { return Refused(IdempotencyConflict); }
        return Replayed(starts[k].runID);
      }
      if x.activeRunning { return Refused(RunAlreadyActive); }
      var used := LedgerHasNonce(l, q.approval.nonce);
      if used { return Refused(NonceReplayed); }
      var pending := SomePending(starts, x);
      if pending { return Refused(RunAlreadyActive); }
      var created := x.clock(2 + |starts|);
      var record := StartRecord(q.key, q.digest, q.approval.nonce, x.freshID, created, q.approval.expiresAt);
      l := l.(starts := starts + [record]);
      if |l.starts| > MAX_RECORDS { return Refused(LedgerFull); }
      var ok := Write(l, x.w);
      reply := if ok then Accepted(x.freshID) else Refused(WriteFailed);
    }

    method Resume(q: RunRequest, x: World) returns (reply: Reply)
      modifies this
      ensures ledger == ResumeStep(old(ledger), q, x).ledger && reply == ResumeStep(old(ledger), q, x).reply
    {
      var (valid, reason) := ValidateApproval(q.approval, q.digest, x.clock(0));
      if !valid { return Refused(reason); }
      var found, known := ResumeLedgerResult(ledger, q);
      if found { return known; }
      if |ledger.resumes| >= MAX_RECORDS { return Refused(LedgerFull); }
      var record := RunRecord(q.digest, q.approval.nonce, q.runID, x.clock(1), q.approval.expiresAt);
      var ok := Write(ledger.(resumes := ledger.resumes + [record]), x.w);
      reply := if ok then Accepted(q.runID) else Refused(WriteFailed);
    }

    method Cancel(q: RunRequest, x: World) returns (reply: Reply)
      modifies this
      ensures ledger == CancelStep(old(ledger), q, x).ledger && reply == CancelStep(old(ledger), q, x).reply
    {
      var (valid, reason) := ValidateApproval(q.approval, q.digest, x.clock(0));
      if !valid { return Refused(reason); }
      var found, known := CancelLedgerResult(ledger, q);
      if found { return known; }
      if |ledger.cancels| >= MAX_RECORDS { return Refused(LedgerFull); }
      var record := RunRecord(q.digest, q.approval.nonce, q.runID, x.clock(1), q.approval.expiresAt);
      var ok := Write(ledger.(cancels := ledger.cancels + [record]), x.w);
      reply := if ok then Accepted(q.runID) else Refused(WriteFailed);
    }
  }
}
