/** What every request of the approval ledger is answered, and what it leaves there. */
module ApprovalAnswers {
  import opened Durable
  import opened Text
  import opened Approvals
  import opened ApprovalReuse

  /** An approval is valid exactly if it is for this action, its nonce is a short normalized identifier, and the
      clock is within its bounded lifetime. */
  lemma ValidExactly(a: Approval, digest: string, now: nat)
    ensures ValidateApproval(a, digest, now).0 <==>
      && a.digest == digest
      && a.nonce != "" && Trim(a.nonce) == a.nonce && |a.nonce| <= MAX_NONCE && !HasControl(a.nonce)
      && 0 < a.approvedAt <= now < a.expiresAt <= a.approvedAt + MAX_LIFETIME
  {}

  /** A valid approval that has only grown too old is refused as expired, and one for another action as that. */
  lemma RefusedAs(a: Approval, digest: string, now: nat, other: string, later: nat)
    requires ValidateApproval(a, digest, now).0
    ensures a.expiresAt <= later ==> ValidateApproval(a, digest, later) == (false, ApprovalExpired)
    ensures other != digest ==> ValidateApproval(a, other, later) == (false, ActionMismatch)
  {}

  function DigestOf(q: Request): string {
    match q case Start(s) => s.digest case Resume(r) => r.digest case Cancel(r) => r.digest
  }

  /** Without a valid approval nothing happens. */
  lemma InvalidIsRefused(l: Ledger, q: Request, x: World)
    ensures var (valid, reason) := ValidateApproval(ApprovalOf(q), DigestOf(q), x.clock(0));
      !valid ==> Step(l, q, x) == Effect(l, false, Refused(reason))
  {}

  // ------------------------------------------------------------- resume and cancel

  /** The request was accepted before. */
  ghost predicate Known(own: seq<RunRecord>, q: RunRequest) {
    exists r :: r in own && r.nonce == q.approval.nonce && r.runID == q.runID && r.digest == q.digest
  }

  /** Its nonce was consumed for something else, and nothing before that for its run. */
  ghost predicate Spent(own: seq<RunRecord>, q: RunRequest) {
    exists i :: 0 <= i < |own| && own[i].nonce == q.approval.nonce
      && (own[i].runID != q.runID || own[i].digest != q.digest) && forall j :: 0 <= j < i ==> own[j].runID != q.runID
  }

  /** Its run has a record under another nonce, and nothing before that has its nonce. */
  ghost predicate Done(own: seq<RunRecord>, q: RunRequest) {
    exists i :: 0 <= i < |own| && own[i].runID == q.runID && own[i].nonce != q.approval.nonce
      && forall j :: 0 <= j < i ==> own[j].nonce != q.approval.nonce
  }

  ghost predicate Untouched(own: seq<RunRecord>, q: RunRequest) {
    forall r :: r in own ==> r.nonce != q.approval.nonce && r.runID != q.runID
  }

  ghost predicate OneEach(own: seq<RunRecord>) {
    OnePerRun(own) && forall i, j :: 0 <= i < j < |own| ==> own[i].nonce != own[j].nonce
  }

  /** One of the four always holds, and each has its own answer. */
  lemma LookupExactly(own: seq<RunRecord>, q: RunRequest)
    requires OneEach(own)
    ensures Known(own, q) || Spent(own, q) || Done(own, q) || Untouched(own, q)
    ensures Known(own, q) ==> RunLookup(false, own, q) == (true, Replayed(q.runID))
    ensures Spent(own, q) ==> RunLookup(false, own, q) == (true, Refused(NonceReplayed))
    ensures Done(own, q) ==> RunLookup(false, own, q) == (true, Refused(AlreadyConsumed))
    ensures Untouched(own, q) ==> !RunLookup(false, own, q).0
  {
    var p := (r: RunRecord) => r.nonce == q.approval.nonce || r.runID == q.runID;
    var k := First(own, p, 0);
    if k == |own| {
      forall r | r in own ensures !p(r) { var i :| 0 <= i < |own| && own[i] == r; }
    } else {
      assert p(own[k]) && own[k] in own;
      HitAt(own, q, k);
    }
  }

  /** The first record with the nonce or the run decides. */
  lemma HitAt(own: seq<RunRecord>, q: RunRequest, k: nat)
    requires OneEach(own) && k < |own| && (own[k].nonce == q.approval.nonce || own[k].runID == q.runID)
    requires forall j :: 0 <= j < k ==> own[j].nonce != q.approval.nonce && own[j].runID != q.runID
    ensures
      var nonce, run := own[k].nonce == q.approval.nonce, own[k].runID == q.runID;
      && (Known(own, q) <==> nonce && run && own[k].digest == q.digest)
      && (Spent(own, q) <==> nonce && !(run && own[k].digest == q.digest))
      && (Done(own, q) <==> !nonce)
  {
    if Known(own, q) {
      var r :| r in own && r.nonce == q.approval.nonce && r.runID == q.runID && r.digest == q.digest;
      var i :| 0 <= i < |own| && own[i] == r;
      assert i == k;
    }
    assert own[k] in own;
  }

  /** What a request that is let through leaves in its section, and what it is told. */
  predicate Added(was: seq<RunRecord>, now: seq<RunRecord>, q: RunRequest, x: World, e: Effect) {
    && e.consumed == !x.w.NotReplaced?
    && now == (if x.w.NotReplaced? then was
               else was + [RunRecord(q.digest, q.approval.nonce, q.runID, x.clock(1), q.approval.expiresAt)])
    && e.reply == if x.w.Durable? then Accepted(q.runID) else Refused(WriteFailed)
  }

  /** A resume under a valid approval: the exact request gets its run again; a nonce consumed for anything else is
      refused, and so is a second resume of the run; any other resume is accepted while there is room. */
  lemma ResumeExactly(l: Ledger, q: RunRequest, x: World)
    requires LedgerOk(l) && ValidateApproval(q.approval, q.digest, x.clock(0)).0
    ensures
      var e := ResumeStep(l, q, x);
      var elsewhere := StartsHave(l, q.approval.nonce) || CancelsHave(l, q.approval.nonce);
      && (Known(l.resumes, q) ==> e == Effect(l, false, Replayed(q.runID)))
      && (elsewhere || Spent(l.resumes, q) ==> e == Effect(l, false, Refused(NonceReplayed)))
      && (!elsewhere && Done(l.resumes, q) ==> e == Effect(l, false, Refused(AlreadyConsumed)))
      && (!elsewhere && Untouched(l.resumes, q) ==>
            if |l.resumes| == MAX_RECORDS then e == Effect(l, false, Refused(LedgerFull))
            else e.ledger == l.(resumes := e.ledger.resumes) && Added(l.resumes, e.ledger.resumes, q, x, e))
  {
    LookupExactly(l.resumes, q);
    if Known(l.resumes, q) { assert ResumesHave(l, q.approval.nonce); }
  }

  /** The same for a cancel. */
  lemma CancelExactly(l: Ledger, q: RunRequest, x: World)
    requires LedgerOk(l) && ValidateApproval(q.approval, q.digest, x.clock(0)).0
    ensures
      var e := CancelStep(l, q, x);
      var elsewhere := StartsHave(l, q.approval.nonce) || ResumesHave(l, q.approval.nonce);
      && (Known(l.cancels, q) ==> e == Effect(l, false, Replayed(q.runID)))
      && (elsewhere || Spent(l.cancels, q) ==> e == Effect(l, false, Refused(NonceReplayed)))
      && (!elsewhere && Done(l.cancels, q) ==> e == Effect(l, false, Refused(AlreadyConsumed)))
      && (!elsewhere && Untouched(l.cancels, q) ==>
            if |l.cancels| == MAX_RECORDS then e == Effect(l, false, Refused(LedgerFull))
            else e.ledger == l.(cancels := e.ledger.cancels) && Added(l.cancels, e.ledger.cancels, q, x, e))
  {
    LookupExactly(l.cancels, q);
    if Known(l.cancels, q) { assert CancelsHave(l, q.approval.nonce); }
  }

  // ------------------------------------------------------------- start

  /** An unexpired start with the key: the same action gets its run again, another one is refused. */
  lemma KeyDecides(l: Ledger, q: StartRequest, x: World, r: StartRecord)
    requires LedgerOk(l) && ValidateApproval(q.approval, q.digest, x.clock(0)).0
    requires r in l.starts && r.key == q.key && x.clock(1) < r.expiresAt
    ensures StartStep(l, q, x) ==
      Effect(l, false, if r.digest == q.digest then Replayed(r.runID) else Refused(IdempotencyConflict))
  {
    PrunedLedger(l, x.clock(1));
    assert r in Prune(l.starts, x.clock(1));
    OnlyRecordOfKey(Prune(l.starts, x.clock(1)), r);
  }

  /** The nonce is in a resume, a cancel, or a start that has not expired. */
  ghost predicate NonceInUse(l: Ledger, nonce: string, now: nat) {
    ResumesHave(l, nonce) || CancelsHave(l, nonce) || exists r :: r in l.starts && r.nonce == nonce && now < r.expiresAt
  }

  /** A start whose key no unexpired record has: refused while a run is active or pending, while its nonce is in
      use and while there is no room, and otherwise added behind the unexpired starts. */
  lemma NewStartExactly(l: Ledger, q: StartRequest, x: World)
    requires LedgerOk(l) && ValidateApproval(q.approval, q.digest, x.clock(0)).0
    requires forall r :: r in l.starts && x.clock(1) < r.expiresAt ==> r.key != q.key
    ensures
      var p, e := Prune(l.starts, x.clock(1)), StartStep(l, q, x);
      if x.activeRunning then e == Effect(l, false, Refused(RunAlreadyActive))
      else if NonceInUse(l, q.approval.nonce, x.clock(1)) then e == Effect(l, false, Refused(NonceReplayed))
      else if AnyPending(p, x) then e == Effect(l, false, Refused(RunAlreadyActive))
      else if |p| == MAX_RECORDS then e == Effect(l, false, Refused(LedgerFull))
      else
        && e.consumed == !x.w.NotReplaced?
        && e.reply == (if x.w.Durable? then Accepted(x.freshID) else Refused(WriteFailed))
        && e.ledger == if x.w.NotReplaced? then l else l.(starts := p + [StartRecord(q.key, q.digest,
             q.approval.nonce, x.freshID, x.clock(2 + |p|), q.approval.expiresAt)])
  {
    PrunedLedger(l, x.clock(1));
    var p := Prune(l.starts, x.clock(1));
    KeyIsMissing(p, q.key);
    NonceAfterPruning(l, p, q.approval.nonce, x.clock(1));
  }

  lemma KeyIsMissing(starts: seq<StartRecord>, key: string)
    requires forall r :: r in starts ==> r.key != key
    ensures FindKey(starts, key) == |starts|
  {
    forall i | 0 <= i < |starts| ensures starts[i].key != key { assert starts[i] in starts; }
  }

  lemma NonceAfterPruning(l: Ledger, p: seq<StartRecord>, nonce: string, now: nat)
    requires p == Prune(l.starts, now)
    ensures HasNonce(l.(starts := p), nonce) <==> NonceInUse(l, nonce, now)
  {
    var m := l.(starts := p);
    assert ResumesHave(m, nonce) == ResumesHave(l, nonce) && CancelsHave(m, nonce) == CancelsHave(l, nonce);
    if StartsHave(m, nonce) {
      var i :| 0 <= i < |p| && p[i].nonce == nonce;
      assert p[i] in p;
    }
    if r :| r in l.starts && r.nonce == nonce && now < r.expiresAt {
      assert r in p;
      var i :| 0 <= i < |p| && p[i] == r;
      assert m.starts[i].nonce == nonce;
    }
  }
}
