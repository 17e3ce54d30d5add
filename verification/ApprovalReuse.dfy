/** When a repeated start is replayed, and when it consumes its approval a second time. */
module ApprovalReuse {
  import opened Durable
  import opened Text
  import opened Approvals

  /** The record is of the same start under the same approval. */
  predicate RecordOf(r: StartRecord, q: StartRequest) {
    r.key == q.key && r.digest == q.digest && r.nonce == q.approval.nonce && r.expiresAt == q.approval.expiresAt
  }

  /** Nothing but the repetition stands in the way of a start. */
  predicate CanStart(starts: seq<StartRecord>, x: World) {
    !x.activeRunning && !AnyPending(starts, x) && |starts| < MAX_RECORDS && !x.w.NotReplaced?
  }

  /** A repeated start, whatever else the ledger holds: it gets the first one's run exactly if its approval
      is still unexpired at the pruning, and consumes the approval again exactly if it is not and nothing
      else stands in the way. */
  lemma RepeatedStart(l: Ledger, q: StartRequest, x: World, r: StartRecord)
    requires LedgerOk(l) && r in l.starts && RecordOf(r, q) && ValidateApproval(q.approval, q.digest, x.clock(0)).0
    ensures
      var e := StartStep(l, q, x);
      && (e.reply == Replayed(r.runID) <==> x.clock(1) < r.expiresAt)
      && (e.consumed <==> r.expiresAt <= x.clock(1) && CanStart(Prune(l.starts, x.clock(1)), x))
  {
    var p := Prune(l.starts, x.clock(1));
    PrunedLedger(l, x.clock(1));
    if x.clock(1) < r.expiresAt {
      assert r in p;
      OnlyRecordOfKey(p, r);
    } else {
      GoneFromPruned(l, x.clock(1), r);
    }
  }

  lemma OnlyRecordOfKey(starts: seq<StartRecord>, r: StartRecord)
    requires KeysDistinct(starts) && r in starts
    ensures FindKey(starts, r.key) < |starts| && starts[FindKey(starts, r.key)] == r
  {
    var i :| 0 <= i < |starts| && starts[i] == r;
    var p := (q: StartRecord) => q.key == r.key;
    assert p(starts[i]);
  }

  /** An expired record takes its key and its nonce out of the pruned ledger. */
  lemma GoneFromPruned(l: Ledger, now: nat, r: StartRecord)
    requires LedgerOk(l) && r in l.starts && r.expiresAt <= now
    ensures
      var p := Prune(l.starts, now);
      FindKey(p, r.key) == |p| && !HasNonce(l.(starts := p), r.nonce)
  {
    var p := Prune(l.starts, now);
    var i :| 0 <= i < |l.starts| && l.starts[i] == r;
    assert StartsHave(l, r.nonce);
    forall k | 0 <= k < |p| ensures p[k].key != r.key && p[k].nonce != r.nonce {
      assert p[k] in l.starts;
      var j :| 0 <= j < |l.starts| && l.starts[j] == p[k];
    }
    var m := l.(starts := p);
    assert forall n :: ResumesHave(m, n) == ResumesHave(l, n) && CancelsHave(m, n) == CancelsHave(l, n);
  }

  /** From the empty ledger, a start repeated across its approval's expiry consumes the approval twice. */
  lemma TwoStarts(q: StartRequest, x1: World, x2: World) returns (ss: seq<System>, qs: seq<(Request, World)>)
    requires ValidateApproval(q.approval, q.digest, x1.clock(0)).0
    requires ValidateApproval(q.approval, q.digest, x2.clock(0)).0
    requires Monotone(x1.clock) && Monotone(x2.clock) && x1.finals <= x2.finals
    requires x1.clock(2) <= x2.clock(1) && q.approval.expiresAt <= x2.clock(1)
    requires !x1.activeRunning && x1.w.Durable? && !x2.activeRunning && x2.w.Durable?
    ensures IsRun(ss, qs) && qs == [(Start(q), x1), (Start(q), x2)]
    ensures |ss[2].consumed| == 2 && ss[2].consumed[0].approval == ss[2].consumed[1].approval
  {
    var a := q.approval;
    var r := StartRecord(q.key, q.digest, a.nonce, x1.freshID, x1.clock(2), a.expiresAt);
    var c1, c2 := Consumption(a, x1.clock(0), x1.clock(1)), Consumption(a, x2.clock(0), x2.clock(1));
    var s1 := System(Ledger([r], [], []), x1.clock(2), x1.finals, [c1]);
    FirstStart(q, x1, r);
    OneRecord(r, x2.clock(1));
    RepeatedStart(s1.ledger, q, x2, r);
    var s2 := System(StartStep(s1.ledger, q, x2).ledger, x2.clock(2), x2.finals, [c1, c2]);
    FirstNext(s1, q, x1, c1);
    SecondNext(s1, s2, q, x2, r, c2);
    ss, qs := [Initial(), s1, s2], [(Start(q), x1), (Start(q), x2)];
  }

  lemma OneRecord(r: StartRecord, now: nat)
    ensures LedgerOk(Ledger([r], [], [])) && r in [r]
    ensures r.expiresAt <= now ==> Prune([r], now) == []
  {
    var l := Ledger([r], [], []);
    assert forall n :: !ResumesHave(l, n) && !CancelsHave(l, n);
    assert [r][..0] == [];
  }

  lemma FirstNext(t: System, q: StartRequest, x: World, c: Consumption)
    requires Monotone(x.clock) && c == Consumption(q.approval, x.clock(0), x.clock(1))
    requires StartStep(Ledger([], [], []), q, x).consumed
    requires t == System(StartStep(Ledger([], [], []), q, x).ledger, x.clock(2), x.finals, [c])
    ensures Next(Initial(), t, Start(q), x)
  {
    assert [] + [c] == [c];
  }

  lemma SecondNext(s: System, t: System, q: StartRequest, x: World, r: StartRecord, c: Consumption)
    requires Monotone(x.clock) && s.now <= x.clock(1) && s.finals <= x.finals && |s.consumed| == 1
    requires c == Consumption(q.approval, x.clock(0), x.clock(1)) && StartStep(s.ledger, q, x).consumed
    requires Prune(s.ledger.starts, x.clock(1)) == []
    requires t == System(StartStep(s.ledger, q, x).ledger, x.clock(2), x.finals, [s.consumed[0], c])
    ensures Next(s, t, Start(q), x)
  {
    assert s.consumed + [c] == [s.consumed[0], c];
  }

  /** For example this one, valid from time 1 and expiring at 10: validated at 9, and looked up at 10. */
  lemma ConsumedTwice() returns (ss: seq<System>, qs: seq<(Request, World)>)
    ensures IsRun(ss, qs) && |qs| == 2 && qs[0].0 == qs[1].0 && |ss[2].consumed| == 2
    ensures ss[2].consumed[0].approval == ss[2].consumed[1].approval == Approval("d", 1, 10, "n")
  {
    var q := StartRequest("k", "d", Approval("d", 1, 10, "n"));
    var x1 := World(_ => 5, {}, false, "run1", WriteOutcome.Durable);
    var x2 := World(i => if i == 0 then 9 else 10, {}, false, "run2", WriteOutcome.Durable);
    TrimOfTrimmed("n");
    ss, qs := TwoStarts(q, x1, x2);
  }

  lemma FirstStart(q: StartRequest, x: World, r: StartRecord)
    requires ValidateApproval(q.approval, q.digest, x.clock(0)).0 && !x.activeRunning && x.w.Durable?
    requires RecordOf(r, q) && r.runID == x.freshID && r.createdAt == x.clock(2)
    ensures StartStep(Ledger([], [], []), q, x) == Effect(Ledger([r], [], []), true, Accepted(r.runID))
  {}
}
