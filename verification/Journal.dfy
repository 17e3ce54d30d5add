/** The replay journal on disk: one file per operation, read back and checked before every use.
The methods are proved against the history steps of `Replay`. */
module Journal {
  import opened Durable
  import opened Options
  import opened Ordering
  import opened Replay
  import opened Sums

  /** What a file in the operations directory holds.  The digest is the one stored in the record. */
  datatype File = Unreadable | Stored(record: Record, digest: Option<nat>)

  const SUFFIX := ".json"

  /** `operationPath`, below the operations directory. */
  function Name(sequence: nat): string {
    Padded(sequence, 20) + SUFFIX
  }

  predicate IsOperationFile(name: string) {
    |name| >= |SUFFIX| && name[|name| - |SUFFIX|..] == SUFFIX
  }

  function OperationNames(files: map<string, File>): set<string> {
    set name | name in files && IsOperationFile(name)
  }

  function Listing(n: nat): (s: seq<string>)
    ensures |s| == n
  {
    if n == 0 then [] else Listing(n - 1) + [Name(n)]
  }

  lemma {:induction false} ListingAt(n: nat, i: nat)
    requires i < n
    ensures Listing(n)[i] == Name(i + 1)
    decreases n
  {
    if i < n - 1 { ListingAt(n - 1, i); }
  }

  lemma ListingIs(n: nat, s: seq<string>)
    requires |s| == n && forall i :: 0 <= i < n ==> s[i] == Name(i + 1)
    ensures s == Listing(n)
  {
    forall i | 0 <= i < n ensures s[i] == Listing(n)[i] { ListingAt(n, i); }
  }

  predicate ReadsAs(d: Digests, files: map<string, File>, name: string, r: Record) {
    name in files && files[name] == Stored(r, Some(d.record(r))) && Readable(d, r)
  }

  /** The operations directory holds exactly the stream `s`. */
  ghost predicate Holds(d: Digests, snap: Snapshot, files: map<string, File>, s: seq<Record>) {
    && OperationNames(files) == Elements(Listing(|s|))
    && forall i :: 0 <= i < |s| ==> ReadsAs(d, files, Name(i + 1), s[i]) && InStream(d, snap, s[i], i + 1)
  }

  const MAX_UINT64: nat := 0xFFFF_FFFF_FFFF_FFFF

  lemma NamesAscend(a: nat, b: nat)
    requires a < b <= MAX_UINT64 + 1
    ensures Less(Name(a), Name(b)) && Name(a) != Name(b)
  {
    assert Pow10(10) == 10_000_000_000 by { assert Pow10(5) == 100_000; }
    assert Pow10(15) == 1_000_000_000_000_000 by { assert Pow10(12) == 1_000_000_000_000; }
    assert Pow10(20) == 100_000_000_000_000_000_000 by { assert Pow10(17) == 100_000_000_000_000_000; }
    PaddedIsMonotone(a, b, 20, SUFFIX);
    LessIsIrreflexive(Name(a));
  }

  predicate AreDigits(s: string) { forall k :: 0 <= k < |s| ==> '0' <= s[k] <= '9' }

  /** The number that the digits say. */
  function Value(digits: string): nat
    requires AreDigits(digits)
  {
    if digits == "" then 0 else 10 * Value(digits[..|digits| - 1]) + (digits[|digits| - 1] - '0') as nat
  }

  lemma {:induction false} PaddedIsDecimal(n: nat, w: nat)
    requires n < Pow10(w)
    ensures AreDigits(Padded(n, w)) && Value(Padded(n, w)) == n
    decreases w
  {
    if w > 0 {
      PaddedIsDecimal(n / 10, w - 1);
      assert Padded(n, w)[..w - 1] == Padded(n / 10, w - 1);
    }
  }

  /** A file name is the sequence number in twenty digits, with the suffix of a record. */
  lemma NameIsDecimal(n: nat)
    requires n <= MAX_UINT64
    ensures var name := Name(n);
      && |name| == 25 && name[20..] == ".json"
      && AreDigits(name[..20]) && Value(name[..20]) == n
  {
    assert Pow10(10) == 10_000_000_000 by { assert Pow10(5) == 100_000; }
    assert Pow10(15) == 1_000_000_000_000_000 by { assert Pow10(12) == 1_000_000_000_000; }
    assert Pow10(20) == 100_000_000_000_000_000_000 by { assert Pow10(17) == 100_000_000_000_000_000; }
    PaddedIsDecimal(n, 20);
    assert Name(n)[..20] == Padded(n, 20);
  }

  /** File names sort in the order of the sequence numbers, for every 64-bit number. */
  lemma ListingIsSorted(n: nat)
    requires n <= MAX_UINT64
    ensures StrictlySorted(Listing(n))
  {
    var s := Listing(n);
    forall i, j | 0 <= i < j < |s| ensures Less(s[i], s[j]) {
      ListingAt(n, i);
      ListingAt(n, j);
      ListedInOrder(s[i], s[j], i + 1, j + 1);
    }
  }

  lemma ListedInOrder(x: string, y: string, a: nat, b: nat)
    requires a < b <= MAX_UINT64 && x == Name(a) && y == Name(b)
    ensures Less(x, y)
  {
    NamesAscend(a, b);
  }

  lemma NameIsOperationFile(n: nat)
    ensures IsOperationFile(Name(n))
  {}

  /** A directory holds at most one stream. */
  lemma HoldsOne(d: Digests, snap: Snapshot, files: map<string, File>, s: seq<Record>, t: seq<Record>)
    requires Holds(d, snap, files, s) && Holds(d, snap, files, t) && |s| <= MAX_UINT64 && |t| <= MAX_UINT64
    ensures s == t
  {
    ListingIsSorted(|s|);
    ListingIsSorted(|t|);
    SortedIsUnique(Listing(|s|), Listing(|t|));
    forall i | 0 <= i < |s| ensures s[i] == t[i] {
      assert ReadsAs(d, files, Name(i + 1), s[i]) && ReadsAs(d, files, Name(i + 1), t[i]);
    }
  }

  lemma NameIsListed(n: nat, k: nat)
    requires 0 < k <= n
    ensures Name(k) in Elements(Listing(n))
  {
    ListingAt(n, k - 1);
    assert Listing(n)[k - 1] in Elements(Listing(n));
  }

  /** Writing a readable record over its own file, or the next record into a new one. */
  lemma WriteExtends(d: Digests, snap: Snapshot, files: map<string, File>, s: seq<Record>, i: nat, r: Record)
    requires Holds(d, snap, files, s) && i <= |s| < MAX_UINT64 && InStream(d, snap, r, i + 1)
    ensures var written := files[Name(i + 1) := Stored(r, Some(d.record(r)))];
      Holds(d, snap, written, if i < |s| then s[i := r] else s + [r])
  {
    var name := Name(i + 1);
    var written := files[name := Stored(r, Some(d.record(r)))];
    var t := if i < |s| then s[i := r] else s + [r];
    NamesAfterWrite(files, |s|, i, written);
    assert ReadsAs(d, written, name, r);
    forall k | 0 <= k < |t| ensures ReadsAs(d, written, Name(k + 1), t[k]) && InStream(d, snap, t[k], k + 1) {
      if k != i { StillReads(d, files, s[k], k, i, written); }
    }
  }

  /** A write leaves the other files as they read. */
  lemma StillReads(d: Digests, files: map<string, File>, q: Record, k: nat, i: nat, written: map<string, File>)
    requires k != i && k < MAX_UINT64 && i < MAX_UINT64 && ReadsAs(d, files, Name(k + 1), q)
    requires Name(i + 1) in written && written == files[Name(i + 1) := written[Name(i + 1)]]
    ensures ReadsAs(d, written, Name(k + 1), q)
  {
    NamesDiffer(k, i);
  }

  lemma ListedNumber(n: nat, sequence: nat, name: string)
    requires n <= MAX_UINT64 && sequence <= MAX_UINT64 && name == Name(sequence) && name in Elements(Listing(n))
    ensures 0 < sequence <= n
  {
    var i :| 0 <= i < n && Listing(n)[i] == name;
    ListingAt(n, i);
    if i + 1 < sequence { NamesAscend(i + 1, sequence); }
    if sequence < i + 1 { NamesAscend(sequence, i + 1); }
  }

  lemma NamesDiffer(k: nat, i: nat)
    requires k != i && k < MAX_UINT64 && i < MAX_UINT64
    ensures Name(k + 1) != Name(i + 1)
  {
    if k < i { NamesAscend(k + 1, i + 1); } else { NamesAscend(i + 1, k + 1); }
  }

  /** The names of a listing, with the name of an entry or of the next one added. */
  lemma ListingWith(n: nat, i: nat)
    requires i <= n < MAX_UINT64
    ensures Elements(Listing(n)) + {Name(i + 1)} == Elements(Listing(if i < n then n else n + 1))
  {
    if i < n { NameIsListed(n, i + 1); } else { ListingGrows(n); }
  }

  lemma NamesAfterWrite(files: map<string, File>, n: nat, i: nat, written: map<string, File>)
    requires i <= n < MAX_UINT64 && written.Keys == files.Keys + {Name(i + 1)}
    ensures OperationNames(files) == Elements(Listing(n)) ==>
      OperationNames(written) == Elements(Listing(if i < n then n else n + 1))
  {
    NameIsOperationFile(i + 1);
    AddedName(files, Name(i + 1), written);
    ListingWith(n, i);
  }

  lemma ListingGrows(n: nat)
    ensures Elements(Listing(n + 1)) == Elements(Listing(n)) + {Name(n + 1)}
  {
    ElementsAppend(Listing(n), Name(n + 1));
  }

  lemma AddedName(files: map<string, File>, name: string, written: map<string, File>)
    requires IsOperationFile(name) && written.Keys == files.Keys + {name}
    ensures OperationNames(written) == OperationNames(files) + {name}
  {
    assert forall x :: x in written <==> x in files || x == name;
  }

  function ReadFile(d: Digests, files: map<string, File>, name: string): (r: Option<Record>)
    ensures r.Some? <==> exists q :: ReadsAs(d, files, name, q)
    ensures r.Some? ==> ReadsAs(d, files, name, r.value)
  {
    if name !in files || files[name].Unreadable? || files[name].digest.None? then None
    else
      var q := files[name].record;
      if files[name].digest.value != d.record(q) || !Readable(d, q) then None
      else assert ReadsAs(d, files, name, q); Some(q)
  }

  /** A transition as the files see it, whether or not they hold a stream. */
  function FileTransition(d: Digests, files: map<string, File>, sequence: nat, fence: nat, to: State,
                          result: Option<Outcome>, recovery: string, w: WriteOutcome): (map<string, File>, Reply)
  {
    var read := ReadFile(d, files, Name(sequence));
    if read.None? then (files, Diverged(MissingRecord))
    else if read.value.generation != fence then (files, Diverged(StaleFence))
    else if !ValidTransition(read.value.state, to) then (files, Diverged(BadTransition))
    else
      var q := Moved(d, read.value, to, result, recovery);
      (if w.NotReplaced? then files else files[Name(sequence) := Stored(q, Some(d.record(q)))],
       if w.Durable? then Dispatch(q) else Reply.WriteFailed)
  }

  /** The transition is accepted exactly where the file reads back, with the fence and one of the moves; it then
      touches that file alone, and the record written is the moved one under its own digest. */
  lemma FileTransitionExactly(d: Digests, files: map<string, File>, sequence: nat, fence: nat, to: State,
                              result: Option<Outcome>, recovery: string, w: WriteOutcome, r: Record)
    requires ReadsAs(d, files, Name(sequence), r)
    ensures
      var (after, reply) := FileTransition(d, files, sequence, fence, to, result, recovery, w);
      if fence != r.generation then after == files && reply == Diverged(StaleFence)
      else if (r.state, to) !in MOVES then after == files && reply == Diverged(BadTransition)
      else
        && (w.NotReplaced? ==> after == files)
        && (!w.NotReplaced? ==>
              && Name(sequence) in after && after == files[Name(sequence) := after[Name(sequence)]]
              && after[Name(sequence)].Stored?
              && after[Name(sequence)].digest == Some(d.record(after[Name(sequence)].record))
              && MovedTo(d, r, after[Name(sequence)].record, to, result, recovery))
        && (w.Durable? ==> reply == Dispatch(after[Name(sequence)].record))
        && (!w.Durable? ==> reply == Reply.WriteFailed)
  {}

  /** A file that was never written by `writeOperation` as it stands is not read: a record reads back exactly if
      its digest is its own, its schema is current, it is numbered and names its request, and a committed one has
      its result, under that result's hash. */
  lemma ReadExactly(d: Digests, files: map<string, File>, name: string, r: Record)
    ensures ReadFile(d, files, name) == Some(r) <==>
      && name in files && files[name] == Stored(r, Some(d.record(r)))
      && r.schema == VERSION && r.sequence != 0 && r.requestHash.Some?
      && (r.state == Committed ==> r.result.Some? && r.resultHash.Some?)
      && (r.result.Some? ==> r.resultHash == Some(d.result(r.result.value)))
  {}

  /** A directory holds a stream exactly if its record files are those numbered from one on, and each reads back as
      the record of that number, of this run and of this revision of its workflow. */
  lemma HoldsExactly(d: Digests, snap: Snapshot, files: map<string, File>, s: seq<Record>)
    ensures Holds(d, snap, files, s) <==>
      && (set name | name in files && |name| >= 5 && name[|name| - 5..] == ".json") ==
           Elements(Listing(|s|))
      && forall i :: 0 <= i < |s| ==>
           && ReadFile(d, files, Name(i + 1)) == Some(s[i])
           && s[i].sequence == i + 1 && s[i].runID == snap.runID && s[i].revision == snap.revision
  {
    assert OperationNames(files) == set name | name in files && |name| >= 5 && name[|name| - 5..] == ".json";
    forall i | 0 <= i < |s|
      ensures ReadsAs(d, files, Name(i + 1), s[i]) <==> ReadFile(d, files, Name(i + 1)) == Some(s[i])
    {}
  }

  /** On files that hold a stream, the transition does what the history step does to the stream; the files
      hold the result as far as its records are readable. */
  ghost predicate Refines(
    d: Digests, snap: Snapshot, files: map<string, File>, s: seq<Record>,
    sequence: nat, fence: nat, to: State, result: Option<Outcome>, recovery: string, w: WriteOutcome)
  {
    var (after, reply) := FileTransition(d, files, sequence, fence, to, result, recovery, w);
    var e := Transition(d, s, sequence, fence, to, result, recovery, w);
    reply == e.reply && (AllReadable(d, e.stream) ==> Holds(d, snap, after, e.stream))
  }

  predicate AllReadable(d: Digests, s: seq<Record>) {
    forall i :: 0 <= i < |s| ==> Readable(d, s[i])
  }

  lemma TransitionRefines(
    d: Digests, snap: Snapshot, files: map<string, File>, s: seq<Record>,
    sequence: nat, fence: nat, to: State, result: Option<Outcome>, recovery: string, w: WriteOutcome)
    requires Holds(d, snap, files, s) && |s| < MAX_UINT64 && sequence <= MAX_UINT64
    ensures Refines(d, snap, files, s, sequence, fence, to, result, recovery, w)
  {
    ReadsBack(d, snap, files, s, sequence);
    if 0 < sequence <= |s| { HeldRefines(d, snap, files, s, sequence, fence, to, result, recovery, w); }
  }

  lemma HeldRefines(
    d: Digests, snap: Snapshot, files: map<string, File>, s: seq<Record>,
    sequence: nat, fence: nat, to: State, result: Option<Outcome>, recovery: string, w: WriteOutcome)
    requires Holds(d, snap, files, s) && 0 < sequence <= |s| < MAX_UINT64
    requires ReadFile(d, files, Name(sequence)) == Some(s[sequence - 1])
    ensures Refines(d, snap, files, s, sequence, fence, to, result, recovery, w)
  {
    var i := sequence - 1;
    var q := Moved(d, s[i], to, result, recovery);
    SameMove(d, files, s, sequence, fence, to, result, recovery, w, q);
    if AllReadable(d, s[i := q]) {
      assert Readable(d, s[i := q][i]);
      MovedIsHeld(d, snap, files, s, i, q, to, result, recovery);
    }
  }

  /** Both leave everything alone, or both move the same record to the same place. */
  lemma SameMove(
    d: Digests, files: map<string, File>, s: seq<Record>,
    sequence: nat, fence: nat, to: State, result: Option<Outcome>, recovery: string, w: WriteOutcome, q: Record)
    requires 0 < sequence <= |s| && ReadFile(d, files, Name(sequence)) == Some(s[sequence - 1])
    requires q == Moved(d, s[sequence - 1], to, result, recovery)
    ensures
      var (after, reply) := FileTransition(d, files, sequence, fence, to, result, recovery, w);
      var e := Transition(d, s, sequence, fence, to, result, recovery, w);
      && reply == e.reply
      && ((after == files && e.stream == s)
          || (after == files[Name(sequence) := Stored(q, Some(d.record(q)))] && e.stream == s[sequence - 1 := q]))
  {}

  lemma MovedIsHeld(d: Digests, snap: Snapshot, files: map<string, File>, s: seq<Record>, i: nat, q: Record,
                    to: State, result: Option<Outcome>, recovery: string)
    requires Holds(d, snap, files, s) && i < |s| < MAX_UINT64
    requires q == Moved(d, s[i], to, result, recovery) && Readable(d, q)
    ensures Holds(d, snap, files[Name(i + 1) := Stored(q, Some(d.record(q)))], s[i := q])
  {
    assert InStream(d, snap, s[i], i + 1);
    MovedStaysInStream(d, snap, s[i], i + 1, q, to, result, recovery);
    WriteExtends(d, snap, files, s, i, q);
  }

  lemma MovedStaysInStream(d: Digests, snap: Snapshot, r: Record, n: nat, q: Record,
                           to: State, result: Option<Outcome>, recovery: string)
    requires InStream(d, snap, r, n) && q == Moved(d, r, to, result, recovery) && Readable(d, q)
    ensures InStream(d, snap, q, n)
  {}

  /** Every record of a held stream reads back, and no file past its end reads as a record. */
  lemma ReadsBack(d: Digests, snap: Snapshot, files: map<string, File>, s: seq<Record>, sequence: nat)
    requires Holds(d, snap, files, s) && |s| < MAX_UINT64 && sequence <= MAX_UINT64
    ensures ReadFile(d, files, Name(sequence)) == if 0 < sequence <= |s| then Some(s[sequence - 1]) else None
  {
    var name := Name(sequence);
    if 0 < sequence <= |s| {
      assert ReadsAs(d, files, Name(sequence - 1 + 1), s[sequence - 1]);
    } else if ReadFile(d, files, name).Some? {
      NameIsOperationFile(sequence);
      assert name in OperationNames(files);
      ListedNumber(|s|, sequence, name);
    }
  }

  lemma ReadsAt(d: Digests, snap: Snapshot, files: map<string, File>, s: seq<Record>, i: nat, name: string)
    requires Holds(d, snap, files, s) && i < |s| < MAX_UINT64 && name == Name(i + 1)
    ensures ReadFile(d, files, name) == Some(s[i]) && InStream(d, snap, s[i], i + 1)
  {
    ReadsBack(d, snap, files, s, i + 1);
  }

  class RunDirectory {
    const d: Digests
    var files: map<string, File>
    var snapshot: Option<Snapshot>
    var divergence: Option<Divergence>

    constructor (d: Digests)
      ensures this.d == d && files == map[] && snapshot == None
    {
      this.d := d;
      files, snapshot, divergence := map[], None, None;
    }

    /** `readOperation`. */
    function ReadOperation(name: string): (r: Option<Record>)
      reads this
      ensures r.Some? <==> exists q :: ReadsAs(d, files, name, q)
      ensures r.Some? ==> ReadsAs(d, files, name, r.value)
    {
      ReadFile(d, files, name)
    }

    method WriteOperation(name: string, r: Record, w: WriteOutcome) returns (ok: bool)
      modifies this`files
      ensures files == if w.NotReplaced? then old(files) else old(files)[name := Stored(r, Some(d.record(r)))]
      ensures ok == w.Durable?
    {
      if !w.NotReplaced? { files := files[name := Stored(r, Some(d.record(r)))]; }
      ok := w.Durable?;
    }

    /** Accepts exactly the directories that hold a stream, and returns its last record. */
    method ValidateOperationStream(snap: Snapshot) returns (ok: bool, tail: Option<Record>, ghost stream: seq<Record>)
      requires |files| < MAX_UINT64
      ensures ok <==> exists s :: Holds(d, snap, files, s) && |s| < MAX_UINT64
      ensures ok ==> Holds(d, snap, files, stream) && |stream| < MAX_UINT64
      ensures ok ==> tail == if stream == [] then None else Some(stream[|stream| - 1])
    {
      var names := SortedListing(OperationNames(files));
      ListingIsSmall(files, names);
      tail, stream := None, [];
      for i := 0 to |names|
        invariant |stream| == i && forall k :: 0 <= k < i ==>
          names[k] == Name(k + 1) && ReadsAs(d, files, names[k], stream[k]) && InStream(d, snap, stream[k], k + 1)
        invariant tail == if stream == [] then None else Some(stream[|stream| - 1])
      {
        var record := ReadOperation(names[i]);
        if record.None? || record.value.sequence != i + 1 || names[i] != Name(i + 1)
           || record.value.runID != snap.runID || record.value.revision != snap.revision {
          forall s | Holds(d, snap, files, s) && |s| < MAX_UINT64 ensures false {
            ReadsInOrder(snap, s, names, i);
          }
          return false, None, [];
        }
        tail := record;
        stream := stream + [record.value];
      }
      ListingIs(|stream|, names);
      assert Holds(d, snap, files, stream);
      return true, tail, stream;
    }

    /** In a directory that holds `s`, the i-th name reads back as the i-th record. */
    lemma ReadsInOrder(snap: Snapshot, s: seq<Record>, names: seq<string>, i: nat)
      requires Holds(d, snap, files, s) && |s| < MAX_UINT64 && i < |names|
      requires (StrictlySorted(names) && Elements(names) == OperationNames(files)) || names == Listing(|s|)
      ensures i < |s| && names[i] == Name(i + 1)
      ensures ReadOperation(names[i]) == Some(s[i]) && InStream(d, snap, s[i], i + 1)
    {
      NamesAreListing(snap, s, names);
      ListingAt(|s|, i);
      ReadsAt(d, snap, files, s, i, names[i]);
    }

    lemma NamesAreListing(snap: Snapshot, s: seq<Record>, names: seq<string>)
      requires Holds(d, snap, files, s) && |s| < MAX_UINT64
      requires (StrictlySorted(names) && Elements(names) == OperationNames(files)) || names == Listing(|s|)
      ensures names == Listing(|s|)
    {
      ListingIsSorted(|s|);
      if names != Listing(|s|) { SortedIsUnique(names, Listing(|s|)); }
    }

    method PrepareOperation(opType: string, env: Envelope, metadata: map<string, string>,
                            w1: WriteOutcome, w2: WriteOutcome)
        returns (reply: Reply)
      requires |files| < MAX_UINT64 - 1
      modifies this`files, this`divergence
      ensures snapshot.None? ==> reply == Diverged(BadSnapshot) && files == old(files) && divergence == old(divergence)
      ensures forall s :: snapshot.Some? && Holds(d, snapshot.value, old(files), s) && |s| < MAX_UINT64 ==>
        var e := Prepare(d, snapshot.value, s, opType, env, metadata, w1, w2);
        && Holds(d, snapshot.value, files, e.stream) && reply == e.reply
        && divergence == DivergenceAfter(d, s, opType, env, old(divergence), w1)
      ensures snapshot.Some? && (forall s :: Holds(d, snapshot.value, old(files), s) ==> |s| >= MAX_UINT64) ==>
        reply.Diverged? && files == old(files) && divergence == old(divergence)
    {
      if snapshot.None? { return Diverged(BadSnapshot); }
      var snap := snapshot.value;
      if env.version != VERSION || env.opType != opType { return Diverged(BadEnvelope); }
      var ok, last, stream := ValidateOperationStream(snap);
      if !ok { return Diverged(BadStream); }
      OnlyThisStream(snap, stream);
      reply := PrepareOn(snap, stream, last, opType, env, metadata, w1, w2);
    }

    /** The rest of the operation, on a directory known to hold a stream. */
    method PrepareOn(snap: Snapshot, ghost stream: seq<Record>, last: Option<Record>, opType: string, env: Envelope,
                     metadata: map<string, string>, w1: WriteOutcome, w2: WriteOutcome) returns (reply: Reply)
      requires Holds(d, snap, files, stream) && |stream| < MAX_UINT64 && env.version == VERSION && env.opType == opType
      requires last == if stream == [] then None else Some(stream[|stream| - 1])
      modifies this`files, this`divergence
      ensures
        var e := Prepare(d, snap, stream, opType, env, metadata, w1, w2);
        Holds(d, snap, files, e.stream) && reply == e.reply
      ensures divergence == DivergenceAfter(d, stream, opType, env, old(divergence), w1)
    {
      var hash := Some(d.request(env));
      if last.Some? && Unresolved(last.value.state) {
        var tail := last.value;
        if tail.opType != opType || tail.requestHash != hash {
          if !w1.NotReplaced? {
            divergence := Some(Divergence(tail.sequence, tail.opType, opType, tail.requestHash, d.request(env)));
          }
          return if w1.Durable? then Diverged(UnresolvedMismatch) else Unrecorded;
        }
        reply := RetryTail(snap, stream, tail, w1, w2);
        return;
      }
      if last.Some? && last.value.state == Committed && last.value.opType == opType && last.value.requestHash == hash {
        return Reply.Replay(last.value, last.value.result);
      }
      reply := AppendOperation(snap, stream, last, env, metadata, w1);
    }

    /** A new record, after the last one. */
    method AppendOperation(snap: Snapshot, ghost stream: seq<Record>, last: Option<Record>, env: Envelope,
                           metadata: map<string, string>, w: WriteOutcome) returns (reply: Reply)
      requires Holds(d, snap, files, stream) && |stream| < MAX_UINT64 && env.version == VERSION
      requires last == if stream == [] then None else Some(stream[|stream| - 1])
      modifies this`files
      ensures var n := |stream|;
        var r := Fresh(d, snap, env, metadata, n + 1);
        && Holds(d, snap, files, Replaced(stream, n, r, w))
        && reply == if w.Durable? then Dispatch(r) else Reply.WriteFailed
    {
      var seq1 := 1;
      if last.Some? { seq1 := last.value.sequence + 1; }
      var r := Record(VERSION, snap.runID, snap.revision, seq1, env.opType, Some(d.request(env)), metadata,
                      env.idempotencyKey, Prepared, None, None, 1, false, "", seq1);
      WriteExtends(d, snap, files, stream, |stream|, r);
      var ok := WriteOperation(Name(seq1), r, w);
      reply := if ok then Dispatch(r) else Reply.WriteFailed;
    }

    /** The unresolved tail is rewritten in place, twice when it was in flight. */
    method RetryTail(snap: Snapshot, ghost stream: seq<Record>, tail0: Record, w1: WriteOutcome, w2: WriteOutcome)
        returns (reply: Reply)
      requires Holds(d, snap, files, stream) && stream != [] && tail0 == stream[|stream| - 1] && |stream| < MAX_UINT64
      requires Unresolved(tail0.state)
      modifies this`files
      ensures Holds(d, snap, files, Retry(stream, w1, w2).stream) && reply == Retry(stream, w1, w2).reply
    {
      var tail := tail0;
      ghost var i := |stream| - 1;
      ghost var s1 := stream;
      var w := w1;
      if tail.state == InFlight {
        tail := tail.(state := InDoubt, duplicateRisk := true);
        tail := tail.(recovery := "crash_after_dispatch_before_durable_commit");
        assert tail == Doubted(tail0);
        WriteExtends(d, snap, files, stream, i, tail);
        var ok := WriteOperation(Name(tail.sequence), tail, w1);
        if !ok { return Reply.WriteFailed; }
        s1 := stream[i := tail];
        w := w2;
      }
      tail := tail.(attempt := tail.attempt + 1);
      tail := tail.(duplicateRisk := tail.state == InDoubt);
      assert tail == Retried(tail0);
      WriteExtends(d, snap, files, s1, i, tail);
      var ok := WriteOperation(Name(tail.sequence), tail, w);
      reply := if ok then Dispatch(tail) else Reply.WriteFailed;
    }

    lemma OnlyThisStream(snap: Snapshot, stream: seq<Record>)
      requires Holds(d, snap, files, stream) && |stream| < MAX_UINT64
      ensures forall s :: Holds(d, snap, files, s) && |s| < MAX_UINT64 ==> s == stream
    {
      forall s | Holds(d, snap, files, s) && |s| < MAX_UINT64 ensures s == stream {
        HoldsOne(d, snap, files, s, stream);
      }
    }

    /** `transitionOperation` for a caller that holds a record with this sequence and fence. */
    method TransitionOperation(sequence: nat, fence: nat, to: State, result: Option<Outcome>, recovery: string,
                               w: WriteOutcome)
        returns (reply: Reply)
      requires sequence <= MAX_UINT64
      modifies this`files
      ensures (files, reply) == FileTransition(d, old(files), sequence, fence, to, result, recovery, w)
      ensures forall snap: Snapshot, s: seq<Record> :: Holds(d, snap, old(files), s) && |s| < MAX_UINT64 ==>
        var e := Transition(d, s, sequence, fence, to, result, recovery, w);
        reply == e.reply && (AllReadable(d, e.stream) ==> Holds(d, snap, files, e.stream))
    {
      var read := ReadOperation(Name(sequence));
      ghost var before := files;
      forall snap: Snapshot, s: seq<Record> | Holds(d, snap, before, s) && |s| < MAX_UINT64
        ensures Refines(d, snap, before, s, sequence, fence, to, result, recovery, w)
      {
        TransitionRefines(d, snap, before, s, sequence, fence, to, result, recovery, w);
      }
      if read.None? { return Diverged(MissingRecord); }
      var current := read.value;
      if current.generation != fence { return Diverged(StaleFence); }
      if !ValidTransition(current.state, to) { return Diverged(BadTransition); }
      current := current.(state := to, recovery := recovery);
      if result.Some? {
        current := current.(result := result, resultHash := Some(d.result(result.value)));
      }
      if to == InDoubt { current := current.(duplicateRisk := true); }
      var ok := WriteOperation(Name(sequence), current, w);
      reply := if ok then Dispatch(current) else Reply.WriteFailed;
    }

    /** A provider lookup may resolve an operation in doubt, and only with a real result. */
    method ReconcileOperation(r: Record, lookup: string -> Result, w: WriteOutcome)
        returns (found: Option<Outcome>, ok: bool)
      requires r.sequence <= MAX_UINT64
      modifies this`files
      ensures r.state != InDoubt || !lookup(r.idempotencyKey).Found? || lookup(r.idempotencyKey).result.None? ==>
        files == old(files) && found.None? && (ok <==> r.state == InDoubt && lookup(r.idempotencyKey).Missing?)
      ensures r.state == InDoubt && lookup(r.idempotencyKey).Found? && lookup(r.idempotencyKey).result.Some? ==>
        var result := lookup(r.idempotencyKey).result;
        var (after, reply) := FileTransition(d, old(files), r.sequence, r.generation, Committed, result, RECONCILED, w);
        files == after && (ok <==> reply.Dispatch?) && found == if ok then result else None
      ensures forall snap: Snapshot, s: seq<Record> ::
        Holds(d, snap, old(files), s) && |s| < MAX_UINT64 && ok && found.Some? ==>
        && 0 < r.sequence <= |s|
        && var q := Moved(d, s[r.sequence - 1], Committed, found, RECONCILED);
          ValidTransition(s[r.sequence - 1].state, Committed) && Holds(d, snap, files, s[r.sequence - 1 := q])
    {
      if r.state != InDoubt { return None, false; }
      var answer := lookup(r.idempotencyKey);
      if answer.Error? { return None, false; }
      if answer.Missing? { return None, true; }
      if answer.result.None? { return None, false; }
      ghost var before := files;
      var reply := TransitionOperation(r.sequence, r.generation, Committed, answer.result, RECONCILED, w);
      if !reply.Dispatch? { return None, false; }
      forall snap: Snapshot, s: seq<Record> | Holds(d, snap, before, s) && |s| < MAX_UINT64
        ensures 0 < r.sequence <= |s|
        ensures ValidTransition(s[r.sequence - 1].state, Committed)
        ensures
          var q := Moved(d, s[r.sequence - 1], Committed, answer.result, RECONCILED);
          Holds(d, snap, files, s[r.sequence - 1 := q])
      {
        var e := Transition(d, s, r.sequence, r.generation, Committed, answer.result, RECONCILED, w);
        assert forall i :: 0 <= i < |s| ==> InStream(d, snap, s[i], i + 1);
        assert e.stream == s[r.sequence - 1 := Moved(d, s[r.sequence - 1], Committed, answer.result, RECONCILED)];
      }
      return answer.result, true;
    }
  }

  const RECONCILED := "provider_native_reconciliation"

  datatype Result = Error | Missing | Found(result: Option<Outcome>)

  lemma {:induction false} ListingIsSmall(files: map<string, File>, names: seq<string>)
    requires StrictlySorted(names) && Elements(names) == OperationNames(files)
    ensures |names| <= |files|
  {
    CardinalityOfSorted(names);
    assert Elements(names) <= files.Keys;
    SubsetIsSmaller(Elements(names), files.Keys);
  }

  lemma {:induction false} CardinalityOfSorted(s: seq<string>)
    requires StrictlySorted(s)
    ensures |Elements(s)| == |s|
    decreases |s|
  {
    if s != [] {
      RestElements(s);
      CardinalityOfSorted(s[1..]);
      assert s[0] in Elements(s);
    }
  }
}
