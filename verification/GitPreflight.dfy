/** The Git preflight: a sequence of ref-moving commands, each of which may fail, over a commit graph.

Each command refuses what Git refuses; besides, it may fail of itself, which is a nondeterministic choice
and is counted.  No other process moves refs meanwhile. */
module GitPreflight {
  import opened Options

  /** A unit of user work, as a commit or the worktree carries it. */
  type Change = nat

  /** A commit is an immutable value that includes its parents, as a commit hash does. */
  datatype Commit =
    | Root(id: nat)
    | Child(id: nat, parent: Commit, work: set<Change>)
    | Join(id: nat, left: Commit, right: Commit)

  /** The commit and everything it was made from. */
  function History(c: Commit): (h: set<Commit>)
    ensures c in h
  {
    match c
    case Root(_) => {c}
    case Child(_, p, _) => {c} + History(p)
    case Join(_, p, q) => {c} + History(p) + History(q)
  }

  predicate Ancestor(a: Commit, c: Commit) { a in History(c) }

  /** All the work a checkout of the commit contains. */
  function Work(c: Commit): set<Change> {
    match c
    case Root(_) => {}
    case Child(_, p, w) => Work(p) + w
    case Join(_, p, q) => Work(p) + Work(q)
  }

  function Size(c: Commit): nat {
    match c case Root(_) => 0 case Child(_, p, _) => 1 + Size(p) case Join(_, p, q) => 1 + Size(p) + Size(q)
  }

  lemma {:induction false} AncestorTransitive(a: Commit, b: Commit, c: Commit)
    requires Ancestor(a, b) && Ancestor(b, c)
    ensures Ancestor(a, c)
    decreases c
  {
    if b != c {
      match c
      case Root(_) =>
      case Child(_, p, _) => AncestorTransitive(a, b, p);
      case Join(_, p, q) => if Ancestor(b, p) { AncestorTransitive(a, b, p); } else { AncestorTransitive(a, b, q); }
    }
  }

  lemma {:induction false} AncestorIsSmaller(a: Commit, c: Commit)
    requires Ancestor(a, c)
    ensures a == c || Size(a) < Size(c)
    ensures Work(a) <= Work(c)
    decreases c
  {
    if a != c {
      match c
      case Root(_) =>
      case Child(_, p, _) => AncestorIsSmaller(a, p);
      case Join(_, p, q) => if Ancestor(a, p) { AncestorIsSmaller(a, p); } else { AncestorIsSmaller(a, q); }
    }
  }

  /** `git rev-list --left-right --count a...b`: commits only in `a`, and only in `b`. */
  function OnlyIn(a: Commit, b: Commit): (n: nat)
    ensures n == 0 <==> Ancestor(a, b)
  {
    var d := History(a) - History(b);
    NothingOnlyIn(a, b);
    |d|
  }

  lemma NothingOnlyIn(a: Commit, b: Commit)
    ensures |History(a) - History(b)| == 0 <==> Ancestor(a, b)
  {
    var d := History(a) - History(b);
    assert |d| == 0 ==> a !in d;
    if Ancestor(a, b) {
      forall x | x in History(a) ensures x in History(b) { AncestorTransitive(x, a, b); }
      assert d == {};
    }
  }

  datatype Merged = Clean | Stopped | Refused

  /** How a merge of the upstream ended early: with conflicts, without any but with no commit made, or before
      it began. */
  datatype Stop = NoStop | Conflicts | Unfinished | NotStarted

  datatype Failure =
    | NoBranch | CommandFailed | UnmergedPaths | RestoreFailed | MergeFailed | RunBranchFailed
    | Diverged | FastForwardFailed | FastForwardRefused | RebaseFailed

  datatype Result = Ok | Err(failure: Failure)

  datatype Need = InspectionFailed | UpToDate | Behind(upstream: Commit, level: bool)

  class Repository {
    var refs: map<string, Commit>
    var tracking: map<string, Commit>      // the tracked upstream of a branch, as last fetched
    var head: Option<string>               // None when detached
    var dirty: set<Change>                 // work in the worktree and in no commit
    var merging: bool
    var unmerged: bool
    ghost var faults: nat                  // commands that failed of themselves
    ghost var fetches: nat

    predicate Valid()
      reads this
    {
      head.Some? ==> head.value in refs
    }

    /** The work is in the worktree, or in the commit some branch points at. */
    ghost predicate Kept(work: set<Change>)
      reads this
    {
      work <= dirty || exists b :: b in refs && work <= Work(refs[b])
    }

    /** Some branch reaches the commit. */
    ghost predicate Reachable(c: Commit)
      reads this
    {
      exists b :: b in refs && Ancestor(c, refs[b])
    }

    constructor (root: Commit, branch: string, changes: set<Change>)
      ensures Valid() && head == Some(branch) && refs == map[branch := root] && dirty == changes
    {
      refs, tracking, head := map[branch := root], map[], Some(branch);
      dirty, merging, unmerged := changes, false, false;
      faults, fetches := 0, 0;
    }

    // ------------------------------------------------------------- commands

    /** A command that Git has no reason to refuse. */
    method Runs() returns (ok: bool)
      modifies this`faults
      ensures faults >= old(faults) && (ok <==> faults == old(faults))
    {
      ok := *;
      if !ok { faults := faults + 1; }
    }

    /** `git switch -c`, then `git checkout -b`. */
    method CreateBranch(name: string) returns (ok: bool)
      requires Valid() && head.Some?
      modifies this`refs, this`head, this`faults
      ensures faults >= old(faults) && (ok <==> name !in old(refs) && faults == old(faults))
      ensures ok ==> refs == old(refs)[name := old(refs)[old(head).value]] && head == Some(name)
      ensures !ok ==> refs == old(refs) && head == old(head)
    {
      if name in refs { return false; }
      ok := Runs();
      if ok {
        refs := refs[name := refs[head.value]];
        head := Some(name);
      }
    }

    method CreateBranchAt(name: string, start: Commit) returns (ok: bool)
      modifies this`refs, this`faults
      ensures faults >= old(faults) && (ok <==> name !in old(refs) && faults == old(faults))
      ensures refs == if ok then old(refs)[name := start] else old(refs)
    {
      if name in refs { return false; }
      ok := Runs();
      if ok { refs := refs[name := start]; }
    }

    /** Refused in the middle of a merge; carries uncommitted work along. */
    method SwitchBranch(name: string) returns (ok: bool)
      modifies this`head, this`faults
      ensures faults >= old(faults) && (ok <==> name in refs && !merging && faults == old(faults))
      ensures head == if ok then Some(name) else old(head)
    {
      if name !in refs || merging { return false; }
      ok := Runs();
      if ok { head := Some(name); }
    }

    /** `git add -A` and `git commit` of everything in the worktree.  It ends a merge the user had
        pending, whose other side counts as work here. */
    method CommitAll() returns (ok: bool)
      requires Valid() && head.Some?
      modifies this`refs, this`dirty, this`merging, this`unmerged, this`faults
      ensures faults >= old(faults) && (ok <==> faults == old(faults))
      ensures Valid() && refs == old(refs)[head.value := refs[head.value]]
      ensures ok ==> dirty == {} && !merging && !unmerged
      ensures ok ==> refs[head.value].Child? && refs[head.value].parent == old(refs)[head.value]
      ensures ok ==> refs[head.value].work == old(dirty)
      ensures !ok ==> refs == old(refs) && dirty == old(dirty) && merging == old(merging) && unmerged == old(unmerged)
    {
      ok := Runs();
      if ok {
        var id: nat := *;
        refs := refs[head.value := Child(id, refs[head.value], dirty)];
        dirty, merging, unmerged := {}, false, false;
      }
    }

    /** May move the tracked upstreams anywhere. */
    method Fetch() returns (ok: bool)
      modifies this`tracking, this`faults, this`fetches
      ensures fetches == old(fetches) + if ok then 1 else 0
      ensures faults >= old(faults) && (ok <==> faults == old(faults))
      ensures tracking.Keys == old(tracking).Keys
    {
      ok := Runs();
      if ok { fetches := fetches + 1; }
      var news: map<string, Commit> := *;
      tracking := map b | b in tracking :: if b in news then news[b] else tracking[b];
    }

    /** `git merge --ff-only`: moves the checked-out branch forward, leaves it when it already has the
        target, and refuses when the two have diverged. */
    method MergeFastForward(target: Commit) returns (r: Merged)
      requires Valid() && head.Some?
      modifies this`refs, this`faults
      ensures faults >= old(faults) && (r == Stopped <==> faults != old(faults))
      ensures var tip := old(refs)[head.value];
        && (r == Refused <==> !Ancestor(tip, target) && !Ancestor(target, tip))
        && (r == Clean && Ancestor(tip, target) ==> refs == old(refs)[head.value := target])
        && (r == Clean && !Ancestor(tip, target) ==> refs == old(refs))
      ensures r != Clean ==> refs == old(refs)
    {
      var tip := refs[head.value];
      if !Ancestor(tip, target) && !Ancestor(target, tip) { return Refused; }
      var ok := Runs();
      if !ok { return Stopped; }
      if Ancestor(target, tip) {               // already up to date
        if Ancestor(tip, target) { AncestorIsSmaller(tip, target); AncestorIsSmaller(target, tip); }
      } else {
        refs := refs[head.value := target];
      }
      r := Clean;
    }

    /** `git merge --no-edit --no-ff`: a commit with both parents, or a stop with or without conflicts. */
    method MergeNoFastForward(target: Commit) returns (r: Merged)
      requires Valid() && head.Some?
      modifies this`refs, this`merging, this`unmerged
      ensures Valid() && refs == old(refs)[head.value := refs[head.value]]
      ensures if r == Stopped then merging else merging == old(merging) && unmerged == old(unmerged)
      ensures var tip, before := refs[head.value], old(refs)[head.value];
        if r == Clean && !Ancestor(target, before) then tip.Join? && tip.left == before && tip.right == target
        else tip == before
    {
      r :| r in {Clean, Stopped, Refused};
      match r
      case Refused =>
      case Stopped =>
        var conflict: bool := *;
        merging, unmerged := true, conflict;
      case Clean =>
        if !Ancestor(target, refs[head.value]) {
          var id: nat := *;
          refs := refs[head.value := Join(id, refs[head.value], target)];
        }
    }

    method MergeAbort() returns (ok: bool)
      modifies this`merging, this`unmerged, this`faults
      ensures faults >= old(faults) && (ok <==> faults == old(faults))
      ensures if ok then !merging && !unmerged else merging == old(merging) && unmerged == old(unmerged)
    {
      ok := Runs();
      if ok { merging, unmerged := false, false; }
    }

    /** `git branch -d`: refused for a branch the checked-out one does not contain. */
    method DeleteBranch(name: string) returns (ok: bool)
      requires Valid() && head.Some? && name != head.value
      modifies this`refs, this`faults
      ensures faults >= old(faults)
      ensures ok <==> name in old(refs) && Ancestor(old(refs)[name], old(refs)[head.value]) && faults == old(faults)
      ensures refs == if ok then old(refs) - {name} else old(refs)
    {
      if name !in refs || !Ancestor(refs[name], refs[head.value]) { return false; }
      ok := Runs();
      if ok { refs := refs - {name}; }
    }

    /** `git rebase target`: replays the branch's own work on top of the target, or stops halfway.  It may drop
        work that the target has already, and leave a branch alone that is on top of the target already. */
    method Rebase(target: Commit) returns (ok: bool)
      requires Valid() && head.Some?
      modifies this`refs, this`merging, this`unmerged
      ensures Valid() && refs == old(refs)[head.value := refs[head.value]]
      ensures if ok then merging == old(merging) && unmerged == old(unmerged) else merging
      ensures ok ==> Rebased(old(refs)[head.value], refs[head.value], target)
      ensures !ok ==> refs == old(refs)
    {
      ok := *;
      if ok {
        var before := refs[head.value];
        var drop: bool, stay: bool, id: nat := *, *, *;
        refs := refs[head.value :=
          if drop && Work(before) <= Work(target) then target
          else if stay && Ancestor(target, before) then before
          else Child(id, target, Work(before) - Work(target))];
      } else {
        merging, unmerged := true, true;
      }
    }

    static predicate Rebased(before: Commit, tip: Commit, target: Commit) {
      || (tip.Child? && tip.parent == target && tip.work == Work(before) - Work(target))
      || (tip == target && Work(before) <= Work(target))
      || (tip == before && Ancestor(target, before))
    }

    method RebaseAbort() returns (ok: bool)
      modifies this`merging, this`unmerged, this`faults
      ensures faults >= old(faults) && (ok <==> faults == old(faults))
      ensures if ok then !merging && !unmerged else merging == old(merging) && unmerged == old(unmerged)
    {
      ok := Runs();
      if ok { merging, unmerged := false, false; }
    }

    method IsDirty() returns (ok: bool, d: bool)
      modifies this`faults
      ensures faults >= old(faults) && (ok <==> faults == old(faults))
      ensures d <==> dirty != {}
    {
      ok := Runs();
      d := dirty != {};
    }

    method HasUnmergedPaths() returns (ok: bool, u: bool)
      modifies this`faults
      ensures faults >= old(faults) && (ok <==> faults == old(faults))
      ensures u == unmerged
    {
      ok := Runs();
      u := unmerged;
    }

    // ------------------------------------------------------------- sequences

    /** Every branch there was is still where it was. */
    twostate predicate BranchesKept()
      reads this
    {
      forall b :: b in old(refs) ==> b in refs && refs[b] == old(refs)[b]
    }

    /** A new branch with the old tip of `source` and the work that was in the worktree. */
    twostate predicate HoldsAll(name: string, source: string)
      requires source in old(refs)
      reads this
    {
      && name !in old(refs) && refs.Keys == old(refs).Keys + {name}
      && Ancestor(old(refs)[source], refs[name]) && old(dirty) <= Work(refs[name])
    }

    /** `gitCreateCheckpointBranch`: commits the worktree on a new branch.  It can fail with the branch
        made, and even with the commit made. */
    method CreateCheckpointBranch(name: string) returns (ok: bool)
      requires Valid() && head.Some?
      modifies this`refs, this`head, this`dirty, this`merging, this`unmerged, this`faults
      ensures faults >= old(faults) && (ok <==> name !in old(refs) && faults == old(faults))
      ensures Valid() && head.Some? && Kept(old(dirty)) && BranchesKept()
      ensures ok ==> HoldsAll(name, old(head).value) && head == Some(name) && dirty == {}
      ensures ok && old(dirty) != {} ==> !merging && !unmerged
    {
      ok := CreateBranch(name);
      if !ok { return; }
      var d;
      ok, d := IsDirty();
      if !ok { return; }
      if d {
        ok := CommitAll();
        if !ok { return; }
        assert old(dirty) <= Work(refs[name]);
        ok := Runs();        // git diff --check
        if !ok { return; }
      }
      ok := Runs();          // git rev-parse
    }

    /** The failure is reported as it is exactly if the source branch could be checked out again. */
    method RestoreSource(source: string, failure: Failure) returns (r: Result)
      requires Valid() && source in refs
      modifies this`head, this`faults
      ensures Valid() && faults >= old(faults)
      ensures var ok := !merging && faults == old(faults);
        r == Err(if ok then failure else RestoreFailed) && head == if ok then Some(source) else old(head)
    {
      var ok := SwitchBranch(source);
      r := Err(if ok then failure else RestoreFailed);
    }

    /** Fetches, and compares the source branch with its tracked upstream; `level` when the upstream
        has all of the source branch. */
    method InspectUpstream(source: string) returns (need: Need)
      requires source in refs
      modifies this`tracking, this`faults, this`fetches
      ensures faults >= old(faults) && (need.InspectionFailed? <==> faults != old(faults))
      ensures fetches >= old(fetches) && (!need.InspectionFailed? && source in tracking ==> fetches > old(fetches))
      ensures need.UpToDate? && source in tracking ==> Ancestor(tracking[source], refs[source])
      ensures need.Behind? ==> source in tracking && need.upstream == tracking[source]
      ensures need.Behind? ==> !Ancestor(need.upstream, refs[source])
      ensures need.Behind? ==> (need.level <==> Ancestor(refs[source], need.upstream))
    {
      var ok := Runs();                        // git for-each-ref
      if !ok { return InspectionFailed; }
      if source !in tracking { return UpToDate; }
      ok := Fetch();
      if !ok { return InspectionFailed; }
      ok := Runs();                            // git rev-list
      if !ok { return InspectionFailed; }
      var ahead, behind := OnlyIn(refs[source], tracking[source]), OnlyIn(tracking[source], refs[source]);
      need := if behind == 0 then UpToDate else Behind(tracking[source], ahead == 0);
    }

    /** `gitMergeTrackedUpstreamIntoCandidate`, with the candidate checked out. */
    method MergeTrackedUpstream(source: string, candidate: string, hasCheckpoint: bool)
        returns (r: Result, ghost stop: Stop)
      requires Valid() && head == Some(candidate) && source in refs && source != candidate
      requires Ancestor(refs[source], refs[candidate]) && (!hasCheckpoint ==> refs[candidate] == refs[source])
      modifies this`refs, this`tracking, this`head, this`merging, this`unmerged, this`faults, this`fetches
      ensures Valid() && faults >= old(faults) && fetches >= old(fetches)
      ensures r.Ok? && source in tracking ==> fetches > old(fetches)
      ensures faults == old(faults) && !old(merging) ==> StoppedAs(source, candidate, r, stop)
      ensures stop != NoStop ==> MergeNeeded(source, hasCheckpoint)
      ensures candidate in refs && refs == old(refs)[candidate := refs[candidate]]
      ensures Ancestor(old(refs)[candidate], refs[candidate])
      ensures r.Err? ==> refs == old(refs) && r.failure in {CommandFailed, MergeFailed, RestoreFailed}
      ensures r.Err? && r.failure == MergeFailed ==> head == Some(source) && !merging
      ensures r.Ok? ==> head == old(head) && (source in tracking ==> Ancestor(tracking[source], refs[candidate]))
    {
      stop := NoStop;
      var need := InspectUpstream(source);
      if need.InspectionFailed? { r := RestoreSource(source, CommandFailed); return; }
      if need.UpToDate? {
        if source in tracking { AncestorTransitive(tracking[source], refs[source], refs[candidate]); }
        return Ok, NoStop;
      }
      var m;
      if need.level && !hasCheckpoint {
        m := MergeFastForward(need.upstream);
        assert m != Refused;
      } else {
        m := MergeNoFastForward(need.upstream);
        stop := match m
          case Clean => NoStop
          case Refused => NotStarted
          case Stopped => if unmerged then Conflicts else Unfinished;
      }
      if m != Clean { r := AbortAndRestore(source); return; }
      r := Ok;
    }

    /** When no command failed of itself: conflicts, and a merge that never began, are reported with the source
        branch checked out and no merge pending; a merge left unfinished stays where it is. */
    predicate StoppedAs(source: string, candidate: string, r: Result, stop: Stop)
      reads this
    {
      match stop
      case NoStop => r == Ok && !merging
      case Unfinished => r == Err(RestoreFailed) && head == Some(candidate) && merging
      case _ => r == Err(MergeFailed) && head == Some(source) && !merging
    }

    /** The upstream has something new, and it is no mere fast-forward. */
    twostate predicate MergeNeeded(source: string, hasCheckpoint: bool)
      requires source in old(refs)
      reads this
    {
      && source in tracking && !Ancestor(tracking[source], old(refs)[source])
      && (hasCheckpoint || !Ancestor(old(refs)[source], tracking[source]))
    }

    /** If no command fails of itself, a merge with conflicts is taken back and the source branch checked out;
        only a merge that stopped without conflicts stays pending, because nothing aborts it. */
    method AbortAndRestore(source: string) returns (r: Result)
      requires Valid() && source in refs
      modifies this`head, this`merging, this`unmerged, this`faults
      ensures Valid() && r.Err? && r.failure in {CommandFailed, MergeFailed, RestoreFailed} && faults >= old(faults)
      ensures r == Err(MergeFailed) ==> head == Some(source) && !merging
      ensures faults == old(faults) ==>
        if old(merging) && !old(unmerged) then r == Err(RestoreFailed) && merging && head == old(head)
        else r == Err(MergeFailed) && !merging && head == Some(source)
    {
      var ok, u := HasUnmergedPaths();
      if !ok { r := RestoreSource(source, CommandFailed); return; }
      if u {
        ok := MergeAbort();
        if !ok { return Err(CommandFailed); }
      }
      r := RestoreSource(source, MergeFailed);
    }

    /** The candidate takes over: run branch, fast-forwarded source, candidate branch removed.  Being a
        descendant of the source tip, it is never refused as diverged. */
    method ApplyCandidate(source: string, candidate: string, run: string) returns (r: Result)
      requires Valid() && source in refs && candidate in refs && source != candidate && candidate != run
      requires Ancestor(refs[source], refs[candidate])
      modifies this`refs, this`head, this`faults
      ensures faults >= old(faults)
      ensures faults == old(faults) && !merging ==> r == if run in old(refs) then Err(RunBranchFailed) else Ok
      ensures Valid() && (r.Err? ==> r.failure in {RunBranchFailed, RestoreFailed, CommandFailed, FastForwardFailed})
      ensures source in refs && refs[source] in {old(refs)[source], old(refs)[candidate]}
      ensures forall b :: b in old(refs) && b != source && b != candidate ==> b in refs && refs[b] == old(refs)[b]
      ensures
        || (candidate in refs && refs[candidate] == old(refs)[candidate])
        || (run in refs && refs[run] == old(refs)[candidate])
      ensures r == Err(RunBranchFailed) ==> refs == old(refs) && head == Some(source) && !merging
      ensures r.Ok? ==>
        && run !in old(refs) && run in refs && candidate !in refs && head == Some(run)
        && refs[source] == refs[run] == old(refs)[candidate]
    {
      var c := refs[candidate];
      var ok := CreateBranchAt(run, c);
      if !ok { r := RestoreSource(source, RunBranchFailed); return; }
      ok := SwitchBranch(source);
      if !ok { return Err(RestoreFailed); }
      var m := MergeFastForward(c);
      assert m != Refused;
      if m != Clean { return Err(if m == Refused then FastForwardRefused else FastForwardFailed); }
      ok := SwitchBranch(run);
      if !ok { return Err(CommandFailed); }
      ok := DeleteBranch(candidate);
      if !ok { return Err(CommandFailed); }
      ok := Runs();                            // git rev-parse
      r := if ok then Ok else Err(CommandFailed);
    }

    /** The candidate branch, with the user's work committed on it. */
    method MakeCandidate(candidate: string) returns (r: Result, hasCheckpoint: bool)
      requires Valid() && head.Some?
      modifies this`refs, this`head, this`dirty, this`merging, this`unmerged, this`faults
      ensures Valid() && Kept(old(dirty)) && BranchesKept() && faults >= old(faults)
      ensures faults == old(faults) ==>
        r == if old(dirty) != {} && old(unmerged) then Err(UnmergedPaths)
             else if candidate in old(refs) then Err(CommandFailed) else Ok
      ensures r.Ok? ==> (hasCheckpoint <==> old(dirty) != {}) && (!old(merging) ==> !merging)
      ensures r.Err? ==> r.failure in {CommandFailed, UnmergedPaths}
      ensures r.Ok? ==> HoldsAll(candidate, old(head).value) && head == Some(candidate) && dirty == {}
      ensures r.Ok? && !hasCheckpoint ==> refs[candidate] == refs[old(head).value]
    {
      hasCheckpoint := false;
      var ok;
      ok, hasCheckpoint := IsDirty();
      if !ok { return Err(CommandFailed), false; }
      if hasCheckpoint {
        var u;
        ok, u := HasUnmergedPaths();
        if !ok || u { return Err(UnmergedPaths), true; }
        ok := CreateCheckpointBranch(candidate);
      } else {
        ok := CreateBranch(candidate);
      }
      r := if ok then Ok else Err(CommandFailed);
    }

    /** The rest of the preflight, with the candidate checked out. */
    method IntegrateCandidate(source: string, candidate: string, run: string, hasCheckpoint: bool)
        returns (r: Result, ghost stop: Stop)
      requires Valid() && head == Some(candidate) && source in refs && candidate !in {source, run}
      requires Ancestor(refs[source], refs[candidate]) && (!hasCheckpoint ==> refs[candidate] == refs[source])
      modifies this`refs, this`tracking, this`head, this`merging, this`unmerged, this`faults, this`fetches
      ensures r.Ok? && source in tracking ==> fetches > old(fetches)
      ensures Valid() && faults >= old(faults) && (stop != NoStop ==> MergeNeeded(source, hasCheckpoint))
      ensures faults == old(faults) && !old(merging) ==>
        match stop
        case NoStop => r == if run in old(refs) then Err(RunBranchFailed) else Ok
        case Unfinished => r == Err(RestoreFailed) && head == old(head) && merging
        case _ => r == Err(MergeFailed) && head == Some(source) && !merging
      ensures source in refs && Ancestor(old(refs)[source], refs[source])
      ensures forall b :: b in old(refs) && b != source && b != candidate ==> b in refs && refs[b] == old(refs)[b]
      ensures Reachable(old(refs)[candidate]) && r != Err(FastForwardRefused)
      ensures r in {Err(MergeFailed), Err(RunBranchFailed)} ==>
        head == Some(source) && !merging && refs[source] == old(refs)[source]
      ensures r.Ok? ==>
        && run in refs && candidate !in refs && head == Some(run) && refs[source] == refs[run]
        && Ancestor(old(refs)[candidate], refs[run])
        && (source in tracking ==> Ancestor(tracking[source], refs[run]))
    {
      r, stop := MergeTrackedUpstream(source, candidate, hasCheckpoint);
      ghost var tip := refs[candidate];
      Gathers(old(refs[source]), old(refs[candidate]), tip);
      if r.Err? { return; }
      r := ApplyCandidate(source, candidate, run);
      assert Ancestor(tip, tip);
    }

    /** `gitPrepareIntegratedRun`.  Whichever command fails, the source branch is where it was or at a
        descendant, every other branch is untouched, the user's work is in the worktree or on a
        branch, and the checkpoint commit is on a branch.  A conflicting upstream or an existing run
        branch leaves the source branch as it was, checked out and clean.  On success the source and
        run branches coincide and hold the old tip, the checkpoint with the work, and the tracked
        upstream. */
    method PrepareIntegratedRun(candidate: string, run: string)
        returns (r: Result, ghost checkpoint: Option<Commit>, ghost stop: Stop)
      requires Valid() && candidate != run
      modifies this
      ensures Valid() && Kept(old(dirty))
      ensures old(head).None? ==> r.Err? && refs == old(refs) && dirty == old(dirty)
      ensures old(head).Some? ==> SourceOnlyAdvanced(old(head).value)
      ensures checkpoint.Some? ==> Reachable(checkpoint.value)
      ensures r != Err(FastForwardRefused)
      ensures r in {Err(MergeFailed), Err(RunBranchFailed)} ==>
        && head == old(head) && !merging && dirty == {} && BranchesKept()
        && checkpoint.Some? && old(dirty) <= Work(checkpoint.value)
      ensures r.Ok? && old(head).Some? ==> Integrated(old(head).value, candidate, run, checkpoint)
      ensures faults == old(faults) && !old(merging) ==> IntegrationDecided(candidate, run, r, stop)
    {
      checkpoint, stop := None, NoStop;
      var ok := Runs();                        // git branch --show-current
      if !ok { return Err(CommandFailed), None, NoStop; }
      if head.None? { return Err(NoBranch), None, NoStop; }
      var source := head.value;
      var hasCheckpoint;
      r, hasCheckpoint := MakeCandidate(candidate);
      if r.Err? { return; }
      checkpoint := Some(refs[candidate]);
      r, stop := IntegrateCandidate(source, candidate, run, hasCheckpoint);
      WorkIsKept(checkpoint.value, old(dirty));
      if r.Ok? { Gathers(old(refs[source]), checkpoint.value, refs[run]); }
    }

    lemma WorkIsKept(c: Commit, work: set<Change>)
      requires Reachable(c) && work <= Work(c)
      ensures Kept(work)
    {
      var b :| b in refs && Ancestor(c, refs[b]);
      AncestorIsSmaller(c, refs[b]);
    }

    /** What decides the result when no command fails of itself and no merge was pending. */
    twostate predicate IntegrationDecided(candidate: string, run: string, r: Result, stop: Stop)
      reads this
    {
      if old(head).None? then r == Err(NoBranch)
      else if old(dirty) != {} && old(unmerged) then r == Err(UnmergedPaths)
      else if candidate in old(refs) then r == Err(CommandFailed)
      else
        && old(head).value in old(refs)
        && (stop != NoStop ==> MergeNeeded(old(head).value, old(dirty) != {}))
        && match stop
           case NoStop => r == if run in old(refs) then Err(RunBranchFailed) else Ok
           case Unfinished => r == Err(RestoreFailed) && head == Some(candidate) && merging
           case _ => r == Err(MergeFailed) && head == old(head) && !merging
    }

    /** `gitFastForwardUpstream`, with the source branch checked out. */
    method FastForwardUpstream(source: string) returns (r: Result, advanced: bool)
      requires Valid() && head == Some(source)
      modifies this`refs, this`tracking, this`faults, this`fetches
      ensures faults >= old(faults) && (r.Ok? && source in tracking ==> fetches > old(fetches))
      ensures faults == old(faults) ==> r == if Forked(source) then Err(Diverged) else Ok
      ensures r.Ok? ==> (advanced <==> refs != old(refs))
      ensures Valid() && refs == old(refs)[source := refs[source]] && Ancestor(old(refs)[source], refs[source])
      ensures refs[source] == old(refs)[source] || (source in tracking && refs[source] == tracking[source])
      ensures r.Err? ==> refs == old(refs) && r.failure in {CommandFailed, Diverged, FastForwardFailed}
      ensures r == Err(Diverged) ==> source in tracking
      ensures r == Err(Diverged) ==>
        !Ancestor(tracking[source], refs[source]) && !Ancestor(refs[source], tracking[source])
      ensures r.Ok? ==> (source in tracking ==> Ancestor(tracking[source], refs[source]))
      ensures r.Ok? && !advanced ==> refs == old(refs)
    {
      advanced := false;
      var need := InspectUpstream(source);
      if need.InspectionFailed? { return Err(CommandFailed), false; }
      if need.UpToDate? { return Ok, false; }
      if !need.level { return Err(Diverged), false; }
      var m := MergeFastForward(need.upstream);
      assert m != Refused;
      if m != Clean { return Err(FastForwardFailed), false; }
      r, advanced := Ok, true;
    }

    /** The branch and its upstream, as last fetched, each have commits the other has not. */
    twostate predicate Forked(source: string)
      requires source in old(refs)
      reads this
    {
      && source in tracking
      && !Ancestor(tracking[source], old(refs)[source]) && !Ancestor(old(refs)[source], tracking[source])
    }

    /** `gitRebaseCheckpoint`, with the run branch checked out. */
    method RebaseCheckpoint(run: string, source: string) returns (r: Result, ghost stopped: bool)
      requires Valid() && head == Some(run) && source in refs && source != run
      modifies this`refs, this`head, this`merging, this`unmerged, this`faults
      ensures faults >= old(faults)
      ensures faults == old(faults) ==> r == if stopped then Err(RebaseFailed) else Ok
      ensures Valid() && run in refs && refs == old(refs)[run := refs[run]]
      ensures r.Err? ==> refs == old(refs) && r.failure in {CommandFailed, RebaseFailed, RestoreFailed}
      ensures r == Err(RebaseFailed) ==> head == Some(source) && !merging
      ensures r.Ok? ==> head == old(head) && Ancestor(refs[source], refs[run])
      ensures r.Ok? ==> Work(old(refs)[run]) <= Work(refs[run])
    {
      var ok := Rebase(refs[source]);
      stopped := !ok;
      if ok { return Ok, false; }
      ok := RebaseAbort();
      if !ok { return Err(CommandFailed), true; }
      r := RestoreSource(source, RebaseFailed);
    }

    /** Commits uncommitted work on the run branch, and goes back to the source branch. */
    method SetAside(run: string) returns (r: Result, d: bool)
      requires Valid() && head.Some?
      modifies this`refs, this`head, this`dirty, this`merging, this`unmerged, this`faults
      ensures Valid() && Kept(old(dirty)) && BranchesKept() && faults >= old(faults)
      ensures faults == old(faults) ==>
        r == if old(dirty) != {} && old(unmerged) then Err(UnmergedPaths)
             else if old(dirty) != {} && run in old(refs) then Err(CommandFailed) else Ok
      ensures r.Ok? ==> (d <==> old(dirty) != {}) && (!old(merging) ==> !merging)
      ensures r.Err? ==> r.failure in {CommandFailed, UnmergedPaths, RestoreFailed}
      ensures r.Ok? ==> head == old(head) && dirty == {}
      ensures r.Ok? && d ==> HoldsAll(run, old(head).value)
      ensures r.Ok? && !d ==> refs == old(refs) && old(dirty) == {}
    {
      var source := head.value;
      var ok;
      ok, d := IsDirty();
      if !ok { return Err(CommandFailed), false; }
      if d {
        var u;
        ok, u := HasUnmergedPaths();
        if !ok || u { return Err(UnmergedPaths), true; }
        ok := CreateCheckpointBranch(run);
        if !ok { return Err(CommandFailed), true; }
        ok := SwitchBranch(source);
        if !ok { return Err(RestoreFailed), true; }
      }
      r := Ok;
    }

    /** Checks out the run branch: a new one, or the one with the work, rebased if the source branch moved. */
    method OntoRunBranch(run: string, source: string, d: bool, advanced: bool) returns (r: Result, ghost stopped: bool)
      requires Valid() && head == Some(source) && (d ==> run in refs && source != run)
      requires d && !advanced ==> Ancestor(refs[source], refs[run])
      modifies this`refs, this`head, this`merging, this`unmerged, this`faults
      ensures Valid() && faults >= old(faults) && (stopped ==> d && advanced)
      ensures faults == old(faults) && !old(merging) ==>
        r == if !d && run in old(refs) then Err(CommandFailed) else if stopped then Err(RebaseFailed) else Ok
      ensures forall b :: b in old(refs) && (b != run || !d) ==> b in refs && refs[b] == old(refs)[b]
      ensures r.Err? ==> refs == old(refs) && r != Err(Diverged)
      ensures r == Err(RebaseFailed) ==> head == old(head)
      ensures r.Ok? ==> head == Some(run) && run in refs && source in refs && Ancestor(refs[source], refs[run])
      ensures r.Ok? && d ==> Work(old(refs)[run]) <= Work(refs[run])
    {
      stopped := false;
      if d {
        var ok := SwitchBranch(run);
        if !ok { return Err(CommandFailed), false; }
        if advanced {
          r, stopped := RebaseCheckpoint(run, source);
          return;
        }
      } else {
        var ok := CreateBranch(run);
        if !ok { return Err(CommandFailed), false; }
      }
      r := Ok;
    }

    /** The rest of the preflight, with the source branch checked out and the work, if any, on the run branch. */
    method SyncBranch(run: string, source: string, d: bool) returns (r: Result, ghost stopped: bool)
      requires Valid() && head == Some(source)
      requires d ==> run in refs && source != run && Ancestor(refs[source], refs[run])
      modifies this`refs, this`tracking, this`head, this`merging, this`unmerged, this`faults, this`fetches
      ensures Valid() && faults >= old(faults) && (r.Ok? && source in tracking ==> fetches > old(fetches))
      ensures faults == old(faults) && !old(merging) ==>
        r == if Forked(source) then Err(Diverged) else if !d && run in old(refs) then Err(CommandFailed)
             else if stopped then Err(RebaseFailed) else Ok
      ensures OldOrUpstream(source) && Ancestor(old(refs)[source], refs[source])
      ensures stopped ==> d && refs[source] != old(refs)[source]
      ensures forall b :: b in old(refs) && b != source && (b != run || !d) ==> b in refs && refs[b] == old(refs)[b]
      ensures d ==> run in refs && Work(old(refs)[run]) <= Work(refs[run])
      ensures r in {Err(Diverged), Err(RebaseFailed)} ==> head == old(head)
      ensures r == Err(Diverged) ==> refs == old(refs)
      ensures r.Ok? ==> head == Some(run) && run in refs && Ancestor(refs[source], refs[run])
      ensures r.Ok? && source in tracking ==>
        Ancestor(tracking[source], refs[source]) && Ancestor(tracking[source], refs[run])
    {
      stopped := false;
      var advanced;
      r, advanced := FastForwardUpstream(source);
      if r.Err? { return; }
      r, stopped := OntoRunBranch(run, source, d, advanced);
      if r.Err? { return; }
      var ok := Runs();                        // git rev-parse
      if !ok { return Err(CommandFailed), stopped; }
      if source in tracking { AncestorTransitive(tracking[source], refs[source], refs[run]); }
    }

    /** `gitPrepareSyncedRun`.  Whichever command fails, the source branch is where it was or at its
        tracked upstream, a descendant; other branches are untouched, and the user's work is in the
        worktree or on a branch.  A run is refused as diverged only where no fast-forward exists.
        On success the run branch holds the user's work on top of the source branch, which has the
        whole tracked upstream. */
    method PrepareSyncedRun(run: string) returns (r: Result, ghost stopped: bool)
      requires Valid()
      modifies this
      ensures Valid() && Kept(old(dirty))
      ensures old(head).None? ==> r.Err? && refs == old(refs) && dirty == old(dirty)
      ensures old(head).Some? ==> SourceOnlyAdvanced(old(head).value) && OldOrUpstream(old(head).value)
      ensures r in {Err(Diverged), Err(RebaseFailed)} ==> head == old(head) && dirty == {}
      ensures r == Err(Diverged) ==> BranchesKept()
      ensures r.Ok? && old(head).Some? ==> Synced(old(head).value, run)
      ensures faults == old(faults) && !old(merging) ==> SyncDecided(run, r, stopped)
    {
      stopped := false;
      var ok := Runs();                        // git branch --show-current
      if !ok { return Err(CommandFailed), false; }
      if head.None? { return Err(NoBranch), false; }
      var source, d := head.value, false;
      r, d := SetAside(run);
      if r.Err? { return; }
      assert d ==> old(dirty) <= Work(refs[run]);
      r, stopped := SyncBranch(run, source, d);
    }

    /** What decides the result when no command fails of itself and no merge was pending.  A rebase can stop only
        where there is work to rebase and the source branch has moved. */
    twostate predicate SyncDecided(run: string, r: Result, stopped: bool)
      reads this
    {
      if old(head).None? then r == Err(NoBranch)
      else if old(dirty) != {} && old(unmerged) then r == Err(UnmergedPaths)
      else if old(dirty) != {} && run in old(refs) then r == Err(CommandFailed)
      else
        var source := old(head).value;
        && source in old(refs) && source in refs
        && (stopped ==> old(dirty) != {} && refs[source] != old(refs)[source])
        && if Forked(source) then r == Err(Diverged)
           else if run in old(refs) then r == Err(CommandFailed)
           else r == if stopped then Err(RebaseFailed) else Ok
    }

    twostate predicate OldOrUpstream(source: string)
      requires source in old(refs)
      reads this
    {
      source in refs && (refs[source] == old(refs)[source] || (source in tracking && refs[source] == tracking[source]))
    }

    twostate predicate Synced(source: string, run: string)
      reads this
    {
      && run in refs && source in refs && head == Some(run) && Ancestor(refs[source], refs[run])
      && old(dirty) <= Work(refs[run]) && dirty == {}
      && (source in tracking ==> Ancestor(tracking[source], refs[source]) && Ancestor(tracking[source], refs[run]))
      && (source in tracking ==> fetches > old(fetches))
    }

    lemma Gathers(source: Commit, checkpoint: Commit, tip: Commit)
      requires Ancestor(source, checkpoint) && Ancestor(checkpoint, tip)
      ensures Ancestor(source, tip) && Work(checkpoint) <= Work(tip)
    {
      AncestorTransitive(source, checkpoint, tip);
      AncestorIsSmaller(checkpoint, tip);
    }

    twostate predicate SourceOnlyAdvanced(source: string)
      reads this
    {
      && source in old(refs) && source in refs && Ancestor(old(refs)[source], refs[source])
      && forall b :: b in old(refs) && b != source ==> b in refs && refs[b] == old(refs)[b]
    }

    twostate predicate Integrated(source: string, candidate: string, run: string, new checkpoint: Option<Commit>)
      requires source in old(refs)
      reads this
    {
      && run in refs && source in refs && refs[source] == refs[run] && head == Some(run) && candidate !in refs
      && Ancestor(old(refs)[source], refs[run])
      && checkpoint.Some? && Ancestor(checkpoint.value, refs[run])
      && old(dirty) <= Work(refs[run]) && dirty == {}
      && (source in tracking ==> Ancestor(tracking[source], refs[run]) && fetches > old(fetches))
    }
  }
}
