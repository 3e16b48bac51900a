/** Branch history under any number of interleaved writers: `commit_changes` and `merge` read a
    tip, build a commit on it and finish with a compare-and-swap of the branch
    (crates/c6-git/src/lib.rs:466-673, 704-782).  Git itself enters as an object store that only
    grows, ancestry along parent links, and an atomic `update-ref <ref> <new> <old>`. */
module GitHistory {
  import opened Common

  type Oid = nat
  type Branch = string
  type WriterId = nat
  type usize = x: nat | x < 0x1_0000_0000_0000_0000

  /** Commits and their parents. */
  type Objects = map<Oid, seq<Oid>>

  datatype Repo = Repo(objects: Objects, refs: map<Branch, Oid>)

  datatype Revision = ByOid(oid: Oid) | ByBranch(name: Branch)

  // ---- Ancestry -----------------------------------------------------------------------------

  /** A chain of parent links, descendant first. */
  ghost predicate Path(o: Objects, p: seq<Oid>) {
    && p != []
    && (forall i :: 0 <= i < |p| ==> p[i] in o)
    && (forall i :: 0 <= i < |p| - 1 ==> p[i + 1] in o[p[i]])
  }

  /** `merge-base --is-ancestor`: a commit is its own ancestor. */
  ghost predicate IsAncestor(o: Objects, ancestor: Oid, descendant: Oid) {
    exists p :: Path(o, p) && p[0] == descendant && p[|p| - 1] == ancestor
  }

  ghost predicate Closed(o: Objects) {
    forall d, k :: d in o && 0 <= k < |o[d]| ==> o[d][k] in o
  }

  ghost predicate Acyclic(o: Objects) {
    forall p :: Path(o, p) && |p| > 1 ==> p[0] != p[|p| - 1]
  }

  ghost predicate Grows(o: Objects, n: Objects) {
    forall d :: d in o ==> d in n && n[d] == o[d]
  }

  lemma Reflexive(o: Objects, a: Oid)
    requires a in o
    ensures IsAncestor(o, a, a)
  {
    assert Path(o, [a]);
  }

  lemma ParentIsAncestor(o: Objects, d: Oid, k: nat)
    requires Closed(o) && d in o && k < |o[d]|
    ensures IsAncestor(o, o[d][k], d)
    ensures Acyclic(o) ==> o[d][k] != d
  {
    assert Path(o, [d, o[d][k]]);
  }

  lemma JoinPaths(o: Objects, p: seq<Oid>, q: seq<Oid>)
    requires Path(o, p) && Path(o, q) && p[|p| - 1] == q[0]
    ensures Path(o, p + q[1..]) && (p + q[1..])[0] == p[0] && (p + q[1..])[|p| + |q| - 2] == q[|q| - 1]
  {
    var r := p + q[1..];
    forall i | 0 <= i < |r| - 1 ensures r[i] in o && r[i + 1] in o[r[i]] {
      if i >= |p| - 1 {
        assert r[i] == q[i - (|p| - 1)] && r[i + 1] == q[i + 1 - (|p| - 1)];
      }
    }
    if |q| > 1 {
      assert r[|r| - 1] == q[|q| - 1];
    }
  }

  lemma Transitive(o: Objects, a: Oid, b: Oid, c: Oid)
    requires IsAncestor(o, a, b) && IsAncestor(o, b, c)
    ensures IsAncestor(o, a, c)
  {
    var q :| Path(o, q) && q[0] == b && q[|q| - 1] == a;
    var p :| Path(o, p) && p[0] == c && p[|p| - 1] == b;
    JoinPaths(o, p, q);
  }

  lemma Antisymmetric(o: Objects, a: Oid, b: Oid)
    requires Acyclic(o) && IsAncestor(o, a, b) && IsAncestor(o, b, a)
    ensures a == b
  {
    var q :| Path(o, q) && q[0] == b && q[|q| - 1] == a;
    var p :| Path(o, p) && p[0] == a && p[|p| - 1] == b;
    JoinPaths(o, p, q);
    assert (p + q[1..])[0] == a && (p + q[1..])[|p + q[1..]| - 1] == a;
  }

  lemma AncestryGrows(o: Objects, n: Objects, a: Oid, d: Oid)
    requires Grows(o, n) && IsAncestor(o, a, d)
    ensures IsAncestor(n, a, d)
  {
    var p :| Path(o, p) && p[0] == d && p[|p| - 1] == a;
    assert Path(n, p);
  }

  lemma {:induction false} PathStays(o: Objects, n: Objects, p: seq<Oid>)
    requires Closed(o) && Grows(o, n) && Path(n, p) && p[0] in o
    ensures Path(o, p)
    decreases |p|
  {
    if |p| > 1 {
      assert p[0 + 1] in n[p[0]];
      forall i | 0 <= i < |p| - 2 ensures p[1..][i + 1] in n[p[1..][i]] {
        assert p[i + 2] in n[p[i + 1]];
      }
      PathStays(o, n, p[1..]);
      forall i | 0 <= i < |p| ensures p[i] in o {
        if i > 0 {
          assert p[i] == p[1..][i - 1];
        }
      }
    }
  }

  /** Between commits that exist, git's answer never changes. */
  lemma AncestryIsStable(o: Objects, n: Objects, a: Oid, d: Oid)
    requires Closed(o) && Grows(o, n) && d in o
    ensures IsAncestor(n, a, d) <==> IsAncestor(o, a, d)
  {
    if IsAncestor(o, a, d) {
      AncestryGrows(o, n, a, d);
    }
    if IsAncestor(n, a, d) {
      var p :| Path(n, p) && p[0] == d && p[|p| - 1] == a;
      PathStays(o, n, p);
    }
  }

  ghost predicate ParentsIn(o: Objects, parents: seq<Oid>) {
    forall k :: 0 <= k < |parents| ==> parents[k] in o
  }

  lemma FreshCommitKeepsAcyclic(o: Objects, oid: Oid, parents: seq<Oid>)
    requires Closed(o) && Acyclic(o) && oid !in o && ParentsIn(o, parents)
    ensures var n := o[oid := parents]; Closed(n) && Acyclic(n) && Grows(o, n)
  {
    var n := o[oid := parents];
    forall p | Path(n, p) && |p| > 1 ensures p[0] != p[|p| - 1] {
      if p[0] == oid {
        assert p[0 + 1] in n[p[0]];
        TailIsPath(n, p);
        PathStays(o, n, p[1..]);
      } else {
        PathStays(o, n, p);
      }
    }
  }

  lemma TailIsPath(o: Objects, p: seq<Oid>)
    requires Path(o, p) && |p| > 1
    ensures Path(o, p[1..])
  {
    forall i | 0 <= i < |p| - 2 ensures p[1..][i + 1] in o[p[1..][i]] {
      assert p[i + 2] in o[p[i + 1]];
    }
  }

  // ---- The repository -------------------------------------------------------------------------

  function Tip(r: Repo, branch: Branch): Option<Oid> {
    if branch in r.refs then Some(r.refs[branch]) else None
  }

  function Resolved(r: Repo, revision: Revision): Option<Oid> {
    match revision
    case ByOid(oid) => if oid in r.objects then Some(oid) else None
    case ByBranch(name) => Tip(r, name)
  }

  /** `commit-tree` may name a new object or find the identical one already there. */
  ghost predicate Writable(r: Repo, parents: seq<Oid>, oid: Oid) {
    ParentsIn(r.objects, parents) && (oid in r.objects ==> r.objects[oid] == parents)
  }

  function WithCommit(r: Repo, parents: seq<Oid>, oid: Oid): Repo {
    r.(objects := r.objects[oid := parents])
  }

  /** `update-ref` goes through: the branch is still where it was read (absent for the all-zero
      id), and git does not refuse for some other reason. */
  predicate Lands(r: Repo, branch: Branch, expected: Option<Oid>, refused: bool) {
    !refused && Tip(r, branch) == expected
  }

  function Updated(r: Repo, branch: Branch, oid: Oid, expected: Option<Oid>, refused: bool): Repo {
    if Lands(r, branch, expected, refused) then r.(refs := r.refs[branch := oid]) else r
  }

  datatype Failure = Invalid | RevisionNotFound | ConcurrentUpdate | GitFailed

  datatype Result =
    | Committed(branch: Branch, oid: Oid)
    | AlreadyUpToDate(branch: Branch, source: Oid, oid: Oid)
    | FastForward(branch: Branch, oid: Oid)
    | Merged(branch: Branch, source: Oid, oid: Oid)
    | Conflicted
    | Failed(why: Failure)

  function ParentList(parent: Option<Oid>): seq<Oid> {
    if parent.Some? then [parent.value] else []
  }

  /** The tip, or for a new branch the start revision, or nothing: the code asks for no start
      revision even when the repository has commits. */
  function ParentOf(r: Repo, branch: Branch, start: Option<Revision>): Option<Oid> {
    if Tip(r, branch).Some? then Tip(r, branch) else if start.Some? then Resolved(r, start.value) else None
  }

  /** `commit_changes` when nothing else runs meanwhile; `oid` is what `commit-tree` answers. */
  function CommitAlone(r: Repo, branch: Branch, start: Option<Revision>, valid: bool, oid: Oid, refused: bool)
    : (Repo, Result)
  {
    if !valid then (r, Failed(Invalid))
    else if Tip(r, branch).None? && start.Some? && Resolved(r, start.value).None? then (r, Failed(RevisionNotFound))
    else
      var built := WithCommit(r, ParentList(ParentOf(r, branch, start)), oid);
      (Updated(built, branch, oid, Tip(r, branch), refused),
       if refused then Failed(ConcurrentUpdate) else Committed(branch, oid))
  }

  /** `merge` when nothing else runs meanwhile; `merged` is none when `merge-tree` conflicts. */
  ghost function MergeAlone(r: Repo, branch: Branch, revision: Revision, valid: bool, merged: Option<Oid>,
                            refused: bool): (Repo, Result)
  {
    if !valid then (r, Failed(Invalid))
    else if Tip(r, branch).None? || Resolved(r, revision).None? then (r, Failed(RevisionNotFound))
    else MergeFound(r, branch, Tip(r, branch).value, Resolved(r, revision).value, merged, refused)
  }

  /** The same, with both commits found. */
  ghost function MergeFound(r: Repo, branch: Branch, target: Oid, source: Oid, merged: Option<Oid>,
                            refused: bool): (Repo, Result)
  {
    if IsAncestor(r.objects, source, target) then (r, AlreadyUpToDate(branch, source, target))
    else if IsAncestor(r.objects, target, source) then
      (Updated(r, branch, source, Some(target), refused),
       if refused then Failed(ConcurrentUpdate) else FastForward(branch, source))
    else if merged.None? then (r, Conflicted)
    else
      (Updated(WithCommit(r, [target, source], merged.value), branch, merged.value, Some(target), refused),
       if refused then Failed(ConcurrentUpdate) else Merged(branch, source, merged.value))
  }

  /** The commits a successful result promises to the branch. */
  function Secured(result: Result): set<Oid> {
    match result
    case Committed(_, oid) => {oid}
    case AlreadyUpToDate(_, source, oid) => {source, oid}
    case FastForward(_, oid) => {oid}
    case Merged(_, source, oid) => {source, oid}
    case Conflicted => {}
    case Failed(_) => {}
  }

  predicate Succeeds(result: Result) {
    !result.Conflicted? && !result.Failed?
  }

  /** The branch still has this commit in its history. */
  ghost predicate Includes(r: Repo, branch: Branch, oid: Oid) {
    branch in r.refs && IsAncestor(r.objects, oid, r.refs[branch])
  }

  ghost predicate Sound(r: Repo) {
    Closed(r.objects) && Acyclic(r.objects) && forall b :: b in r.refs ==> r.refs[b] in r.objects
  }

  /** Objects only get added and branches only move to descendants. */
  ghost predicate Evolves(r: Repo, s: Repo) {
    Grows(r.objects, s.objects) && forall b :: b in r.refs ==> Includes(s, b, r.refs[b])
  }

  lemma EvolvesReflexive(r: Repo)
    requires Sound(r)
    ensures Evolves(r, r)
  {
    forall b | b in r.refs ensures Includes(r, b, r.refs[b]) {
      Reflexive(r.objects, r.refs[b]);
    }
  }

  lemma IncludesEvolves(r: Repo, s: Repo, branch: Branch, oid: Oid)
    requires Evolves(r, s) && Includes(r, branch, oid)
    ensures Includes(s, branch, oid)
  {
    AncestryGrows(r.objects, s.objects, oid, r.refs[branch]);
    Transitive(s.objects, oid, r.refs[branch], s.refs[branch]);
  }

  lemma EvolvesTransitive(r: Repo, s: Repo, t: Repo)
    requires Evolves(r, s) && Evolves(s, t)
    ensures Evolves(r, t)
  {
    forall b | b in r.refs ensures Includes(t, b, r.refs[b]) {
      IncludesEvolves(s, t, b, r.refs[b]);
    }
  }

  lemma BuildEvolves(r: Repo, parents: seq<Oid>, oid: Oid)
    requires Sound(r) && Writable(r, parents, oid)
    ensures Sound(WithCommit(r, parents, oid)) && Evolves(r, WithCommit(r, parents, oid))
  {
    var s := WithCommit(r, parents, oid);
    if oid in r.objects {
      assert s.objects == r.objects;
      EvolvesReflexive(r);
    } else {
      FreshCommitKeepsAcyclic(r.objects, oid, parents);
      forall b | b in r.refs ensures Includes(s, b, r.refs[b]) {
        Reflexive(s.objects, r.refs[b]);
      }
    }
  }

  /** A branch that is moved from where it was read to a descendant. */
  lemma MoveEvolves(r: Repo, branch: Branch, oid: Oid, expected: Option<Oid>, refused: bool)
    requires Sound(r) && oid in r.objects
    requires expected.Some? ==> IsAncestor(r.objects, expected.value, oid)
    ensures Sound(Updated(r, branch, oid, expected, refused)) && Evolves(r, Updated(r, branch, oid, expected, refused))
  {
    EvolvesReflexive(r);
    var s := Updated(r, branch, oid, expected, refused);
    forall b | b in r.refs ensures Includes(s, b, r.refs[b]) {
      assert Includes(r, b, r.refs[b]);
    }
  }

  /** What a call is for: the repository only evolves, and success puts every promised commit into
      the branch's history. */
  ghost predicate Keeps(r: Repo, s: Repo, result: Result) {
    && Sound(s) && Evolves(r, s)
    && (Succeeds(result) ==> forall a :: a in Secured(result) ==> Includes(s, result.branch, a))
    && (!Succeeds(result) ==> s.refs == r.refs)
  }

  lemma CommitAloneKeeps(r: Repo, branch: Branch, start: Option<Revision>, valid: bool, oid: Oid, refused: bool)
    requires Sound(r) && Writable(r, ParentList(ParentOf(r, branch, start)), oid)
    ensures var (s, result) := CommitAlone(r, branch, start, valid, oid, refused); Keeps(r, s, result)
  {
    var parents := ParentList(ParentOf(r, branch, start));
    var built := WithCommit(r, parents, oid);
    EvolvesReflexive(r);
    BuildEvolves(r, parents, oid);
    Reflexive(built.objects, oid);
    if Tip(r, branch).Some? {
      ParentIsAncestor(built.objects, oid, 0);
      assert built.objects[oid][0] == r.refs[branch];
    }
    MoveEvolves(built, branch, oid, Tip(r, branch), refused);
    EvolvesTransitive(r, built, Updated(built, branch, oid, Tip(r, branch), refused));
  }

  lemma MergeAloneKeeps(r: Repo, branch: Branch, revision: Revision, valid: bool, merged: Option<Oid>, refused: bool)
    requires Sound(r)
    requires Tip(r, branch).Some? && Resolved(r, revision).Some? && merged.Some? ==>
               Writable(r, [Tip(r, branch).value, Resolved(r, revision).value], merged.value)
    ensures var (s, result) := MergeAlone(r, branch, revision, valid, merged, refused); Keeps(r, s, result)
  {
    EvolvesReflexive(r);
    if valid && Tip(r, branch).Some? && Resolved(r, revision).Some? {
      MergeFoundKeeps(r, branch, Tip(r, branch).value, Resolved(r, revision).value, merged, refused);
    }
  }

  lemma MergeFoundKeeps(r: Repo, branch: Branch, target: Oid, source: Oid, merged: Option<Oid>, refused: bool)
    requires Sound(r) && Tip(r, branch) == Some(target) && source in r.objects
    requires merged.Some? ==> Writable(r, [target, source], merged.value)
    ensures var (s, result) := MergeFound(r, branch, target, source, merged, refused); Keeps(r, s, result)
  {
    EvolvesReflexive(r);
    Reflexive(r.objects, source);
    if IsAncestor(r.objects, source, target) {
    } else if IsAncestor(r.objects, target, source) {
      MoveEvolves(r, branch, source, Some(target), refused);
    } else if merged.Some? {
      MergedKeeps(r, branch, target, source, merged.value, refused);
    }
  }

  lemma MergedKeeps(r: Repo, branch: Branch, target: Oid, source: Oid, oid: Oid, refused: bool)
    requires Sound(r) && Tip(r, branch) == Some(target) && source in r.objects && Writable(r, [target, source], oid)
    ensures var s := Updated(WithCommit(r, [target, source], oid), branch, oid, Some(target), refused);
            Keeps(r, s, if refused then Failed(ConcurrentUpdate) else Merged(branch, source, oid))
  {
    var built := WithCommit(r, [target, source], oid);
    BuildEvolves(r, [target, source], oid);
    BothParents(built.objects, oid, target, source);
    MoveEvolves(built, branch, oid, Some(target), refused);
    EvolvesTransitive(r, built, Updated(built, branch, oid, Some(target), refused));
  }

  lemma BothParents(o: Objects, oid: Oid, target: Oid, source: Oid)
    requires Closed(o) && oid in o && o[oid] == [target, source]
    ensures IsAncestor(o, target, oid) && IsAncestor(o, source, oid) && IsAncestor(o, oid, oid)
  {
    Reflexive(o, oid);
    ParentIsAncestor(o, oid, 0);
    ParentIsAncestor(o, oid, 1);
    assert o[oid][0] == target && o[oid][1] == source;
  }

  // ---- What the two calls decide ------------------------------------------------------------------

  /** The commit that a revision names: an object by its id, a branch by its tip. */
  predicate Names(r: Repo, revision: Revision, oid: Oid) {
    match revision
    case ByOid(named) => named == oid && oid in r.objects
    case ByBranch(name) => name in r.refs && r.refs[name] == oid
  }

  lemma ResolvedNames(r: Repo, revision: Revision, oid: Oid)
    ensures Resolved(r, revision) == Some(oid) <==> Names(r, revision, oid)
  {
  }

  /** A commit on `branch`: from the old tip, or for a new branch from the commit its start revision
      names, or from nothing. */
  ghost predicate CommitDecides(r: Repo, s: Repo, branch: Branch, start: Option<Revision>, valid: bool, oid: Oid,
                                refused: bool, result: Result)
  {
    if !valid then s == r && result == Failed(Invalid)
    else if branch !in r.refs && start.Some? && forall named :: !Names(r, start.value, named) then
      s == r && result == Failed(RevisionNotFound)
    else
      && oid in s.objects && s.objects == r.objects[oid := s.objects[oid]]
      && (branch in r.refs ==> s.objects[oid] == [r.refs[branch]])
      && (branch !in r.refs && start.None? ==> s.objects[oid] == [])
      && (branch !in r.refs && start.Some? ==> |s.objects[oid]| == 1 && Names(r, start.value, s.objects[oid][0]))
      && if refused then s.refs == r.refs && result == Failed(ConcurrentUpdate)
         else s.refs == r.refs[branch := oid] && result == Committed(branch, oid)
  }

  lemma CommitAloneDecides(r: Repo, branch: Branch, start: Option<Revision>, valid: bool, oid: Oid, refused: bool)
    ensures var (s, result) := CommitAlone(r, branch, start, valid, oid, refused);
            CommitDecides(r, s, branch, start, valid, oid, refused, result)
  {
    if start.Some? {
      if Resolved(r, start.value).Some? {
        ResolvedNames(r, start.value, Resolved(r, start.value).value);
      } else {
        forall named ensures !Names(r, start.value, named) {
          ResolvedNames(r, start.value, named);
        }
      }
    }
  }

  /** A merge into `target` of the commit the revision names. */
  ghost predicate MergeDecides(r: Repo, s: Repo, branch: Branch, source: Oid, merged: Option<Oid>, refused: bool,
                               result: Result)
    requires branch in r.refs
  {
    var target := r.refs[branch];
    if IsAncestor(r.objects, source, target) then s == r && result == AlreadyUpToDate(branch, source, target)
    else if IsAncestor(r.objects, target, source) then
      s.objects == r.objects
      && if refused then s.refs == r.refs && result == Failed(ConcurrentUpdate)
         else s.refs == r.refs[branch := source] && result == FastForward(branch, source)
    else if merged.None? then s == r && result == Conflicted
    else
      s.objects == r.objects[merged.value := [target, source]]
      && if refused then s.refs == r.refs && result == Failed(ConcurrentUpdate)
         else s.refs == r.refs[branch := merged.value] && result == Merged(branch, source, merged.value)
  }

  /** A merge call, from its inputs to its answer. */
  ghost predicate MergeTable(r: Repo, s: Repo, branch: Branch, revision: Revision, valid: bool, merged: Option<Oid>,
                             refused: bool, result: Result)
  {
    if !valid then s == r && result == Failed(Invalid)
    else if branch !in r.refs || forall named: Oid :: !Names(r, revision, named) then
      s == r && result == Failed(RevisionNotFound)
    else
      forall named: Oid :: Names(r, revision, named) ==> MergeDecides(r, s, branch, named, merged, refused, result)
  }

  lemma MergeAloneDecides(r: Repo, branch: Branch, revision: Revision, valid: bool, merged: Option<Oid>, refused: bool)
    ensures var (s, result) := MergeAlone(r, branch, revision, valid, merged, refused);
            MergeTable(r, s, branch, revision, valid, merged, refused, result)
  {
    if Resolved(r, revision).Some? {
      ResolvedNames(r, revision, Resolved(r, revision).value);
    }
    forall named: Oid ensures Names(r, revision, named) <==> Resolved(r, revision) == Some(named) {
      ResolvedNames(r, revision, named);
    }
  }

  /** The whole of a named source is in the branch afterwards. */
  ghost predicate BranchTaken(r: Repo, s: Repo, branch: Branch, revision: Revision, result: Result) {
    Succeeds(result) && revision.ByBranch? ==> revision.name in r.refs && Includes(s, branch, r.refs[revision.name])
  }

  lemma MergeAloneTakesBranch(r: Repo, branch: Branch, revision: Revision, valid: bool, merged: Option<Oid>,
                              refused: bool)
    requires Sound(r)
    requires Tip(r, branch).Some? && Resolved(r, revision).Some? && merged.Some? ==>
               Writable(r, [Tip(r, branch).value, Resolved(r, revision).value], merged.value)
    ensures var (s, result) := MergeAlone(r, branch, revision, valid, merged, refused);
            Keeps(r, s, result) && BranchTaken(r, s, branch, revision, result)
  {
    MergeAloneKeeps(r, branch, revision, valid, merged, refused);
    MergeAloneSecures(r, branch, revision, valid, merged, refused);
  }

  /** A merge that succeeds promises the commit its revision names. */
  lemma MergeAloneSecures(r: Repo, branch: Branch, revision: Revision, valid: bool, merged: Option<Oid>, refused: bool)
    ensures var (s, result) := MergeAlone(r, branch, revision, valid, merged, refused);
            Succeeds(result) ==>
              result.branch == branch && Resolved(r, revision).Some? && Resolved(r, revision).value in Secured(result)
    ensures revision.ByBranch? && Resolved(r, revision).Some? ==>
              revision.name in r.refs && Resolved(r, revision).value == r.refs[revision.name]
  {
  }

  // ---- The start revision -----------------------------------------------------------------------

  /** A branch that was not there begins with a commit that has no parent. */
  predicate StartsHistory(r: Repo, s: Repo, branch: Branch) {
    branch !in r.refs && branch in s.refs && s.refs[branch] in s.objects && s.objects[s.refs[branch]] == []
  }

  /** The documented rule asks for a start revision unless the repository is empty.  In a repository
      that is not, a call begins an unrelated history all the same exactly when its inputs are
      valid, it names a branch that does not exist and no start revision, and git does not refuse. */
  lemma UnrelatedHistoryIff(r: Repo, branch: Branch, start: Option<Revision>, valid: bool, oid: Oid, refused: bool)
    requires Sound(r) && r.objects != map[] && Writable(r, ParentList(ParentOf(r, branch, start)), oid)
    ensures StartsHistory(r, CommitAlone(r, branch, start, valid, oid, refused).0, branch) <==>
              valid && branch !in r.refs && start.None? && !refused
  {
  }

  /** Such a call: the repository has a commit on one branch, and another branch begins anew. */
  lemma UnrelatedHistoryCanBegin(main: Branch, other: Branch) returns (r: Repo, s: Repo)
    requires main != other
    ensures Sound(r) && r.objects != map[] && main in r.refs && other !in r.refs
    ensures Writable(r, [], 2) && CommitAlone(r, other, None, true, 2, false) == (s, Committed(other, 2))
    ensures StartsHistory(r, s, other) && !IsAncestor(s.objects, s.refs[main], s.refs[other])
  {
    r := Repo(map[1 := []], map[main := 1]);
    s := Repo(map[1 := [], 2 := []], map[main := 1, other := 2]);
    assert 1 in r.objects;
    RootHasNoAncestors(r.objects);
    RootHasNoAncestors(s.objects);
    assert WithCommit(r, [], 2) == Repo(s.objects, r.refs);
  }

  lemma RootHasNoAncestors(o: Objects)
    requires forall d :: d in o ==> o[d] == []
    ensures Acyclic(o) && forall a, d :: IsAncestor(o, a, d) ==> a == d
  {
    forall p | Path(o, p) ensures |p| == 1 {
      if |p| > 1 {
        FirstLink(o, p);
      }
    }
  }

  lemma FirstLink(o: Objects, p: seq<Oid>)
    requires Path(o, p) && |p| > 1
    ensures o[p[0]] != []
  {
    assert p[0 + 1] in o[p[0]];
  }

  datatype FileChange = Upsert(path: string, content: seq<byte>) | Delete(path: string)

  datatype Limits = Limits(maxChanges: usize, maxFileBytes: usize, maxTotalBytes: usize)

  function Size(change: FileChange): nat {
    if change.Upsert? then |change.content| else 0
  }

  function TotalSize(changes: seq<FileChange>): nat {
    if changes == [] then 0 else TotalSize(changes[..|changes| - 1]) + Size(changes[|changes| - 1])
  }

  lemma {:induction false} TotalOfPrefix(changes: seq<FileChange>, n: nat)
    requires n <= |changes|
    ensures TotalSize(changes[..n]) <= TotalSize(changes)
    decreases |changes|
  {
    if n < |changes| {
      TotalOfPrefix(changes[..|changes| - 1], n);
      assert changes[..|changes| - 1][..n] == changes[..n];
    } else {
      assert changes[..n] == changes;
    }
  }

  lemma TotalGrows(changes: seq<FileChange>, i: nat)
    requires i < |changes|
    ensures TotalSize(changes[..i + 1]) == TotalSize(changes[..i]) + Size(changes[i]) <= TotalSize(changes)
  {
    assert changes[..i + 1][..i] == changes[..i];
    TotalOfPrefix(changes, i + 1);
  }

  datatype Fault = BadCount | BadPath | DuplicatePath | FileTooLarge | SizeOverflow | TotalTooLarge

  /** What is wrong with change `i`, the earlier ones being in order. */
  ghost function FaultAt(limits: Limits, changes: seq<FileChange>, validPath: string -> bool, i: nat): Option<Fault>
    requires i < |changes|
  {
    if !validPath(changes[i].path) then Some(BadPath)
    else if exists j :: 0 <= j < i && changes[j].path == changes[i].path then Some(DuplicatePath)
    else if Size(changes[i]) > limits.maxFileBytes then Some(FileTooLarge)
    else if TotalSize(changes[..i + 1]) >= 0x1_0000_0000_0000_0000 then Some(SizeOverflow)
    else None
  }

  ghost predicate InOrder(limits: Limits, changes: seq<FileChange>, validPath: string -> bool, n: nat)
    requires n <= |changes|
  {
    forall k :: 0 <= k < n ==> FaultAt(limits, changes, validPath, k) == None
  }

  /** The answer of `validate_changes`: the first fault there is. */
  ghost predicate IsVerdict(limits: Limits, changes: seq<FileChange>, validPath: string -> bool, fault: Option<Fault>) {
    if !(1 <= |changes| <= limits.maxChanges) then fault == Some(BadCount)
    else if InOrder(limits, changes, validPath, |changes|) then
      fault == if TotalSize(changes) > limits.maxTotalBytes then Some(TotalTooLarge) else None
    else exists i :: 0 <= i < |changes| && InOrder(limits, changes, validPath, i)
                     && fault == FaultAt(limits, changes, validPath, i) && fault.Some?
  }

  /** Each fault says what it says. */
  ghost predicate Explains(limits: Limits, changes: seq<FileChange>, validPath: string -> bool, fault: Fault) {
    match fault
    case BadCount => |changes| == 0 || |changes| > limits.maxChanges
    case BadPath => exists i :: 0 <= i < |changes| && !validPath(changes[i].path)
    case DuplicatePath => exists i, j :: 0 <= i < j < |changes| && changes[i].path == changes[j].path
    case FileTooLarge => exists i :: 0 <= i < |changes| && Size(changes[i]) > limits.maxFileBytes
    case SizeOverflow => TotalSize(changes) >= 0x1_0000_0000_0000_0000
    case TotalTooLarge => TotalSize(changes) > limits.maxTotalBytes
  }

  lemma FaultsAreReal(limits: Limits, changes: seq<FileChange>, validPath: string -> bool, fault: Option<Fault>)
    requires IsVerdict(limits, changes, validPath, fault)
    ensures fault.Some? ==> Explains(limits, changes, validPath, fault.value)
  {
    if 1 <= |changes| <= limits.maxChanges && !InOrder(limits, changes, validPath, |changes|) {
      var i :| 0 <= i < |changes| && InOrder(limits, changes, validPath, i)
               && fault == FaultAt(limits, changes, validPath, i) && fault.Some?;
      TotalOfPrefix(changes, i + 1);
    }
  }

  /** What `validate_changes` is for. */
  ghost predicate Acceptable(limits: Limits, changes: seq<FileChange>, validPath: string -> bool) {
    && 1 <= |changes| <= limits.maxChanges
    && (forall i :: 0 <= i < |changes| ==> validPath(changes[i].path) && Size(changes[i]) <= limits.maxFileBytes)
    && (forall i, j :: 0 <= i < j < |changes| ==> changes[i].path != changes[j].path)
    && TotalSize(changes) <= limits.maxTotalBytes
  }

  /** No fault exactly for the acceptable lists: the overflow branch turns away only totals that
      are over any limit. */
  lemma AcceptableIffNoFault(limits: Limits, changes: seq<FileChange>, validPath: string -> bool, fault: Option<Fault>)
    requires IsVerdict(limits, changes, validPath, fault)
    ensures fault.None? <==> Acceptable(limits, changes, validPath)
  {
    if Acceptable(limits, changes, validPath) {
      forall k | 0 <= k < |changes| ensures FaultAt(limits, changes, validPath, k) == None {
        TotalOfPrefix(changes, k + 1);
      }
    } else if 1 <= |changes| <= limits.maxChanges && InOrder(limits, changes, validPath, |changes|) {
      forall i | 0 <= i < |changes| ensures validPath(changes[i].path) && Size(changes[i]) <= limits.maxFileBytes {
        assert FaultAt(limits, changes, validPath, i) == None;
      }
      forall i, j | 0 <= i < j < |changes| ensures changes[i].path != changes[j].path {
        assert FaultAt(limits, changes, validPath, j) == None;
      }
    }
  }

  class Repository {
    const limits: Limits
    var objects: Objects
    var refs: map<Branch, Oid>

    function View(): Repo
      reads this
    {
      Repo(objects, refs)
    }

    constructor (limits: Limits)
      ensures this.limits == limits && View() == Repo(map[], map[])
    {
      this.limits := limits;
      objects, refs := map[], map[];
    }

    method ValidateChanges(changes: seq<FileChange>, validPath: string -> bool) returns (fault: Option<Fault>)
      ensures IsVerdict(limits, changes, validPath, fault)
    {
      if |changes| == 0 || |changes| > limits.maxChanges {
        return Some(BadCount);
      }
      var total: nat, paths: set<string> := 0, {};
      for i := 0 to |changes|
        invariant InOrder(limits, changes, validPath, i)
        invariant forall path :: path in paths <==> exists j :: 0 <= j < i && changes[j].path == path
        invariant total == TotalSize(changes[..i])
      {
        var path, size := changes[i].path, Size(changes[i]);
        ghost var here := FaultAt(limits, changes, validPath, i);
        TotalGrows(changes, i);
        if !validPath(path) {
          return Some(BadPath);
        }
        if path in paths {
          return Some(DuplicatePath);
        }
        paths := paths + {path};
        if size > limits.maxFileBytes {
          return Some(FileTooLarge);
        }
        if total + size >= 0x1_0000_0000_0000_0000 {
          return Some(SizeOverflow);
        }
        total := total + size;
      }
      assert changes[..|changes|] == changes;
      fault := if total > limits.maxTotalBytes then Some(TotalTooLarge) else None;
    }

    method ResolveRef(branch: Branch) returns (tip: Option<Oid>)
      ensures tip == Tip(View(), branch)
    {
      tip := if branch in refs then Some(refs[branch]) else None;
    }

    method ResolveCommit(revision: Revision) returns (oid: Option<Oid>)
      ensures oid == Resolved(View(), revision)
    {
      if revision.ByOid? {
        oid := if revision.oid in objects then Some(revision.oid) else None;
      } else {
        oid := ResolveRef(revision.name);
      }
    }

    method CommitTree(parents: seq<Oid>, oid: Oid)
      requires Writable(View(), parents, oid)
      modifies `objects
      ensures View() == WithCommit(old(View()), parents, oid)
    {
      objects := objects[oid := parents];
    }

    /** `atomic_update`: what landed stands where the branch had been read and nowhere else; what
        did not land changed nothing.  To move a branch to a descendant is safe. */
    method UpdateRef(branch: Branch, oid: Oid, expected: Option<Oid>, refused: bool) returns (landed: bool)
      modifies `refs
      ensures View() == Updated(old(View()), branch, oid, expected, refused)
      ensures landed <==> Lands(old(View()), branch, expected, refused)
      ensures if landed then Tip(View(), branch) == Some(oid) else View() == old(View())
      ensures forall other :: other != branch ==> Tip(View(), other) == Tip(old(View()), other)
      ensures Sound(old(View())) && oid in objects && (expected.Some? ==> IsAncestor(objects, expected.value, oid)) ==>
                Sound(View()) && Evolves(old(View()), View())
    {
      if Sound(View()) && oid in objects && (expected.Some? ==> IsAncestor(objects, expected.value, oid)) {
        MoveEvolves(View(), branch, oid, expected, refused);
      }
      var current := ResolveRef(branch);
      landed := !refused && current == expected;
      if landed {
        refs := refs[branch := oid];
      }
    }

    method CommitChanges(branch: Branch, start: Option<Revision>, valid: bool, oid: Oid, refused: bool)
      returns (result: Result)
      requires Writable(View(), ParentList(ParentOf(View(), branch, start)), oid)
      modifies this
      ensures (View(), result) == CommitAlone(old(View()), branch, start, valid, oid, refused)
      ensures CommitDecides(old(View()), View(), branch, start, valid, oid, refused, result)
      ensures Sound(old(View())) ==> Keeps(old(View()), View(), result)
    {
      CommitAloneDecides(View(), branch, start, valid, oid, refused);
      if Sound(View()) {
        CommitAloneKeeps(View(), branch, start, valid, oid, refused);
      }
      if !valid {
        return Failed(Invalid);
      }
      var current := ResolveRef(branch);
      var parent := current;
      if current.None? && start.Some? {
        parent := ResolveCommit(start.value);
        if parent.None? {
          return Failed(RevisionNotFound);
        }
      }
      CommitTree(ParentList(parent), oid);
      var landed := UpdateRef(branch, oid, current, refused);
      result := if landed then Committed(branch, oid) else Failed(ConcurrentUpdate);
    }

    /** `below` and `above` are git's answers about the two resolved commits. */
    method Merge(branch: Branch, revision: Revision, valid: bool, below: bool, above: bool, merged: Option<Oid>,
                 refused: bool)
      returns (result: Result)
      requires Tip(View(), branch).Some? && Resolved(View(), revision).Some? ==>
                 var target, source := Tip(View(), branch).value, Resolved(View(), revision).value;
                 && (below <==> IsAncestor(objects, source, target))
                 && (above <==> IsAncestor(objects, target, source))
                 && (merged.Some? ==> Writable(View(), [target, source], merged.value))
      modifies this
      ensures (View(), result) == MergeAlone(old(View()), branch, revision, valid, merged, refused)
      ensures MergeTable(old(View()), View(), branch, revision, valid, merged, refused, result)
      ensures Sound(old(View())) ==>
                Keeps(old(View()), View(), result) && BranchTaken(old(View()), View(), branch, revision, result)
    {
      MergeAloneDecides(View(), branch, revision, valid, merged, refused);
      if Sound(View()) {
        MergeAloneTakesBranch(View(), branch, revision, valid, merged, refused);
      }
      if !valid {
        return Failed(Invalid);
      }
      var target := ResolveRef(branch);
      if target.None? {
        return Failed(RevisionNotFound);
      }
      var source := ResolveCommit(revision);
      if source.None? {
        return Failed(RevisionNotFound);
      }
      if below {
        return AlreadyUpToDate(branch, source.value, target.value);
      }
      if above {
        var landed := UpdateRef(branch, source.value, target, refused);
        return if landed then FastForward(branch, source.value) else Failed(ConcurrentUpdate);
      }
      if merged.None? {
        return Conflicted;
      }
      CommitTree([target.value, source.value], merged.value);
      var landed := UpdateRef(branch, merged.value, target, refused);
      result := if landed then Merged(branch, source.value, merged.value) else Failed(ConcurrentUpdate);
    }
  }

  // ---- Interleavings ----------------------------------------------------------------------------

  /** Where a writer stands between two git commands. */
  datatype Phase =
    | CommitReading(branch: Branch, start: Option<Revision>)
    | CommitResolving(branch: Branch, revision: Revision)
    | CommitBuilding(branch: Branch, parent: Option<Oid>, expected: Option<Oid>)
    | MergeReading(branch: Branch, revision: Revision)
    | MergeResolving(branch: Branch, target: Oid, revision: Revision)
    | Comparing(branch: Branch, target: Oid, source: Oid)
    | ComparingBack(branch: Branch, target: Oid, source: Oid)
    | MergeBuilding(branch: Branch, target: Oid, source: Oid)
    | Updating(branch: Branch, oid: Oid, expected: Option<Oid>, outcome: Result)
    | Done(result: Result)

  datatype System = System(repo: Repo, writers: map<WriterId, Phase>)

  datatype Event =
    | StartCommit(writer: WriterId, branch: Branch, start: Option<Revision>, valid: bool)
    | StartMerge(writer: WriterId, branch: Branch, revision: Revision, valid: bool)
    | Query(writer: WriterId)
    | Build(writer: WriterId, oid: Oid)
    | Conflict(writer: WriterId)
    | Update(writer: WriterId, refused: bool)
    | Abort(writer: WriterId)

  /** What a writer does with the answer of its next read-only git command. */
  ghost function AfterQuery(r: Repo, p: Phase): Phase {
    match p
    case CommitReading(branch, start) =>
      if Tip(r, branch).Some? then CommitBuilding(branch, Tip(r, branch), Tip(r, branch))
      else if start.Some? then CommitResolving(branch, start.value)
      else CommitBuilding(branch, None, None)
    case CommitResolving(branch, revision) =>
      if Resolved(r, revision).Some? then CommitBuilding(branch, Resolved(r, revision), None)
      else Done(Failed(RevisionNotFound))
    case MergeReading(branch, revision) =>
      if Tip(r, branch).Some? then MergeResolving(branch, Tip(r, branch).value, revision)
      else Done(Failed(RevisionNotFound))
    case MergeResolving(branch, target, revision) =>
      if Resolved(r, revision).Some? then Comparing(branch, target, Resolved(r, revision).value)
      else Done(Failed(RevisionNotFound))
    case Comparing(branch, target, source) =>
      if IsAncestor(r.objects, source, target) then Done(AlreadyUpToDate(branch, source, target))
      else ComparingBack(branch, target, source)
    case ComparingBack(branch, target, source) =>
      if IsAncestor(r.objects, target, source) then Updating(branch, source, Some(target), FastForward(branch, source))
      else MergeBuilding(branch, target, source)
    case CommitBuilding(_, _, _) => p
    case MergeBuilding(_, _, _) => p
    case Updating(_, _, _, _) => p
    case Done(_) => p
  }

  predicate Builds(p: Phase) {
    p.CommitBuilding? || p.MergeBuilding?
  }

  function Parents(p: Phase): seq<Oid>
    requires Builds(p)
  {
    if p.CommitBuilding? then ParentList(p.parent) else [p.target, p.source]
  }

  function AfterBuild(p: Phase, oid: Oid): Phase
    requires Builds(p)
  {
    if p.CommitBuilding? then Updating(p.branch, oid, p.expected, Committed(p.branch, oid))
    else Updating(p.branch, oid, Some(p.target), Merged(p.branch, p.source, oid))
  }

  /** An event that is not the writer's next step changes nothing. */
  ghost function Next(y: System, e: Event): System {
    match e
    case StartCommit(w, branch, start, valid) =>
      if w in y.writers then y
      else y.(writers := y.writers[w := if valid then CommitReading(branch, start) else Done(Failed(Invalid))])
    case StartMerge(w, branch, revision, valid) =>
      if w in y.writers then y
      else y.(writers := y.writers[w := if valid then MergeReading(branch, revision) else Done(Failed(Invalid))])
    case Query(w) =>
      if w in y.writers then y.(writers := y.writers[w := AfterQuery(y.repo, y.writers[w])]) else y
    case Build(w, oid) =>
      if w in y.writers && Builds(y.writers[w]) && Writable(y.repo, Parents(y.writers[w]), oid) then
        System(WithCommit(y.repo, Parents(y.writers[w]), oid), y.writers[w := AfterBuild(y.writers[w], oid)])
      else y
    case Conflict(w) =>
      if w in y.writers && y.writers[w].MergeBuilding? then y.(writers := y.writers[w := Done(Conflicted)]) else y
    case Update(w, refused) =>
      if w in y.writers && y.writers[w].Updating? then
        var p := y.writers[w];
        System(Updated(y.repo, p.branch, p.oid, p.expected, refused),
               y.writers[w := Done(if Lands(y.repo, p.branch, p.expected, refused) then p.outcome
                 else Failed(ConcurrentUpdate))])
      else y
    case Abort(w) =>
      if w in y.writers && !y.writers[w].Done? then y.(writers := y.writers[w := Done(Failed(GitFailed))]) else y
  }

  ghost function Run(y: System, es: seq<Event>): System {
    if es == [] then y else Next(Run(y, es[..|es| - 1]), es[|es| - 1])
  }

  // ---- The invariant ------------------------------------------------------------------------------

  ghost predicate PhaseHolds(r: Repo, p: Phase) {
    match p
    case CommitReading(_, _) => true
    case CommitResolving(_, _) => true
    case MergeReading(_, _) => true
    case CommitBuilding(_, parent, expected) =>
      (parent.Some? ==> parent.value in r.objects) && (expected.Some? ==> parent == expected)
    case MergeResolving(branch, target, _) => TargetHolds(r, branch, target)
    case Comparing(branch, target, source) => TargetHolds(r, branch, target) && source in r.objects
    case ComparingBack(branch, target, source) =>
      TargetHolds(r, branch, target) && source in r.objects && source != target
    case MergeBuilding(branch, target, source) => TargetHolds(r, branch, target) && source in r.objects
    case Updating(branch, oid, expected, outcome) =>
      && oid in r.objects
      && (expected.Some? ==> IsAncestor(r.objects, expected.value, oid) && expected.value != oid)
      && Succeeds(outcome) && outcome.branch == branch && outcome.oid == oid
      && forall a :: a in Secured(outcome) ==> IsAncestor(r.objects, a, oid)
    case Done(result) =>
      Succeeds(result) ==> forall a :: a in Secured(result) ==> Includes(r, result.branch, a)
  }

  ghost predicate TargetHolds(r: Repo, branch: Branch, target: Oid) {
    target in r.objects && Includes(r, branch, target)
  }

  ghost predicate Inv(y: System) {
    Sound(y.repo) && forall w :: w in y.writers ==> PhaseHolds(y.repo, y.writers[w])
  }

  /** What holds for a writer keeps holding whatever the others do. */
  lemma PhaseEvolves(r: Repo, s: Repo, p: Phase)
    requires Evolves(r, s) && PhaseHolds(r, p)
    ensures PhaseHolds(s, p)
  {
    if p.Updating? {
      if p.expected.Some? {
        AncestryGrows(r.objects, s.objects, p.expected.value, p.oid);
      }
      forall a | a in Secured(p.outcome) ensures IsAncestor(s.objects, a, p.oid) {
        AncestryGrows(r.objects, s.objects, a, p.oid);
      }
    } else if p.Done? {
      if Succeeds(p.result) {
        forall a | a in Secured(p.result) ensures Includes(s, p.result.branch, a) {
          IncludesEvolves(r, s, p.result.branch, a);
        }
      }
    } else if p.MergeResolving? || p.Comparing? || p.ComparingBack? || p.MergeBuilding? {
      IncludesEvolves(r, s, p.branch, p.target);
    }
  }

  lemma QueryHolds(r: Repo, p: Phase)
    requires Sound(r) && PhaseHolds(r, p)
    ensures PhaseHolds(r, AfterQuery(r, p))
  {
    if p.MergeReading? && p.branch in r.refs {
      Reflexive(r.objects, r.refs[p.branch]);
    } else if p.Comparing? {
      if IsAncestor(r.objects, p.source, p.target) {
        Transitive(r.objects, p.source, p.target, r.refs[p.branch]);
      } else {
        if p.source == p.target {
          Reflexive(r.objects, p.source);
        }
      }
    } else if p.ComparingBack? {
      Reflexive(r.objects, p.source);
    }
  }

  lemma BuildHolds(r: Repo, p: Phase, oid: Oid)
    requires Sound(r) && PhaseHolds(r, p) && Builds(p) && Writable(r, Parents(p), oid)
    ensures PhaseHolds(WithCommit(r, Parents(p), oid), AfterBuild(p, oid))
  {
    BuildEvolves(r, Parents(p), oid);
    BuiltHolds(WithCommit(r, Parents(p), oid), p, oid);
  }

  lemma BuiltHolds(s: Repo, p: Phase, oid: Oid)
    requires Closed(s.objects) && Acyclic(s.objects)
    requires Builds(p) && oid in s.objects && s.objects[oid] == Parents(p)
    requires p.CommitBuilding? && p.expected.Some? ==> p.parent == p.expected
    ensures PhaseHolds(s, AfterBuild(p, oid))
  {
    Reflexive(s.objects, oid);
    if p.MergeBuilding? {
      ParentIsAncestor(s.objects, oid, 0);
      ParentIsAncestor(s.objects, oid, 1);
      assert s.objects[oid][0] == p.target && s.objects[oid][1] == p.source;
    } else if p.parent.Some? {
      ParentIsAncestor(s.objects, oid, 0);
      assert s.objects[oid][0] == p.parent.value;
    }
  }

  lemma UpdateEvolves(r: Repo, p: Phase, refused: bool)
    requires Sound(r) && p.Updating? && PhaseHolds(r, p)
    ensures var s := Updated(r, p.branch, p.oid, p.expected, refused);
            && Sound(s) && Evolves(r, s)
            && (Lands(r, p.branch, p.expected, refused) ==> PhaseHolds(s, Done(p.outcome)))
  {
    MoveEvolves(r, p.branch, p.oid, p.expected, refused);
  }

  lemma NextKeepsInv(y: System, e: Event)
    requires Inv(y)
    ensures Inv(Next(y, e)) && Evolves(y.repo, Next(y, e).repo)
  {
    var z, w := Next(y, e), e.writer;
    EvolvesReflexive(y.repo);
    if w in y.writers {
      var p := y.writers[w];
      if e.Query? {
        QueryHolds(y.repo, p);
      } else if e.Build? {
        if Builds(p) && Writable(y.repo, Parents(p), e.oid) {
          BuildEvolves(y.repo, Parents(p), e.oid);
          BuildHolds(y.repo, p, e.oid);
        }
      } else if e.Update? {
        if p.Updating? {
          UpdateEvolves(y.repo, p, e.refused);
        }
      }
    }
    OthersHold(y, z, w);
  }

  lemma OthersHold(y: System, z: System, w: WriterId)
    requires Inv(y) && Evolves(y.repo, z.repo)
    requires forall v :: v in z.writers && v != w ==> v in y.writers && z.writers[v] == y.writers[v]
    ensures forall v :: v in z.writers && v != w ==> PhaseHolds(z.repo, z.writers[v])
  {
    forall v | v in z.writers && v != w ensures PhaseHolds(z.repo, z.writers[v]) {
      PhaseEvolves(y.repo, z.repo, y.writers[v]);
    }
  }

  lemma {:induction false} RunKeepsInv(y: System, es: seq<Event>)
    requires Inv(y)
    ensures Inv(Run(y, es)) && Evolves(y.repo, Run(y, es).repo)
  {
    if es == [] {
      EvolvesReflexive(y.repo);
    } else {
      RunKeepsInv(y, es[..|es| - 1]);
      var x := Run(y, es[..|es| - 1]);
      NextKeepsInv(x, es[|es| - 1]);
      EvolvesTransitive(y.repo, x.repo, Run(y, es).repo);
    }
  }

  // ---- History ------------------------------------------------------------------------------------

  /** Any sound repository that nobody is writing to. */
  ghost predicate Started(y: System) {
    Sound(y.repo) && y.writers == map[]
  }

  /** Every commit a successful call returned, and every source it merged, stays in the branch's
      history through all later steps of all writers. */
  lemma HistoryIsKept(start: System, es: seq<Event>, later: seq<Event>, w: WriterId, a: Oid)
    requires Started(start) && w in Run(start, es).writers && Run(start, es).writers[w].Done?
    requires var result := Run(start, es).writers[w].result; Succeeds(result) && a in Secured(result)
    ensures Includes(Run(Run(start, es), later).repo, Run(start, es).writers[w].result.branch, a)
  {
    RunKeepsInv(start, es);
    RunKeepsInv(Run(start, es), later);
    IncludesEvolves(Run(start, es).repo, Run(Run(start, es), later).repo, Run(start, es).writers[w].result.branch, a);
  }

  /** Branches never vanish and only move to descendants. */
  lemma TipsOnlyAdvance(start: System, es: seq<Event>, later: seq<Event>, branch: Branch)
    requires Started(start) && branch in Run(start, es).repo.refs
    ensures Includes(Run(Run(start, es), later).repo, branch, Run(start, es).repo.refs[branch])
  {
    RunKeepsInv(start, es);
    RunKeepsInv(Run(start, es), later);
  }

  /** So a compare-and-swap cannot be fooled: a tip that has been left never comes back. */
  lemma TipsNeverReturn(start: System, es: seq<Event>, mid: seq<Event>, later: seq<Event>, branch: Branch)
    requires Started(start) && branch in Run(start, es).repo.refs
    requires var y, z := Run(start, es), Run(Run(start, es), mid);
             branch in z.repo.refs && z.repo.refs[branch] != y.repo.refs[branch]
    ensures var y, u := Run(start, es), Run(Run(Run(start, es), mid), later);
            branch in u.repo.refs && u.repo.refs[branch] != y.repo.refs[branch]
  {
    var y := Run(start, es);
    var z := Run(y, mid);
    var u := Run(z, later);
    RunKeepsInv(start, es);
    RunKeepsInv(y, mid);
    RunKeepsInv(z, later);
    assert Includes(u.repo, branch, z.repo.refs[branch]);
    assert Includes(z.repo, branch, y.repo.refs[branch]);
    if u.repo.refs[branch] == y.repo.refs[branch] {
      AncestryGrows(z.repo.objects, u.repo.objects, y.repo.refs[branch], z.repo.refs[branch]);
      Antisymmetric(u.repo.objects, y.repo.refs[branch], z.repo.refs[branch]);
    }
  }

  /** No lost update: a commit that lands on a branch descends from everything that any earlier
      successful call put there. */
  lemma LaterBuildsOnEarlier(start: System, es: seq<Event>, later: seq<Event>, w: WriterId, v: WriterId, a: Oid)
    requires Started(start) && w in Run(start, es).writers && Run(start, es).writers[w].Done?
    requires var result := Run(start, es).writers[w].result; Succeeds(result) && a in Secured(result)
    requires var z := Run(Run(start, es), later);
             && v in z.writers && z.writers[v].Updating?
                  && z.writers[v].branch == Run(start, es).writers[w].result.branch
             && Lands(z.repo, z.writers[v].branch, z.writers[v].expected, false)
    ensures var z := Run(Run(start, es), later);
            IsAncestor(Next(z, Update(v, false)).repo.objects, a, z.writers[v].oid)
  {
    var z := Run(Run(start, es), later);
    HistoryIsKept(start, es, later, w, a);
    RunKeepsInv(start, es);
    RunKeepsInv(Run(start, es), later);
    LandsOn(z, v, a);
  }

  lemma LandsOn(z: System, v: WriterId, a: Oid)
    requires Inv(z) && v in z.writers && z.writers[v].Updating?
    requires Lands(z.repo, z.writers[v].branch, z.writers[v].expected, false)
               && Includes(z.repo, z.writers[v].branch, a)
    ensures IsAncestor(Next(z, Update(v, false)).repo.objects, a, z.writers[v].oid)
  {
    var p := z.writers[v];
    Transitive(z.repo.objects, a, z.repo.refs[p.branch], p.oid);
  }

  /** A step moves a branch exactly when it is a compare-and-swap that lands; it moves only that
      branch, to the commit the call then returns.  Conflicts, refusals and every other step leave
      all branches alone. */
  lemma RefsMoveExactlyWhen(start: System, es: seq<Event>, e: Event)
    requires Started(start)
    ensures var y := Run(start, es);
            var z := Next(y, e);
            z.repo.refs != y.repo.refs <==>
              && e.Update? && e.writer in y.writers && y.writers[e.writer].Updating?
              && var p := y.writers[e.writer];
                 Lands(y.repo, p.branch, p.expected, e.refused)
    ensures var y := Run(start, es);
            var z := Next(y, e);
            z.repo.refs != y.repo.refs ==>
              var p := y.writers[e.writer];
              && z.repo.refs == y.repo.refs[p.branch := p.oid]
              && z.writers[e.writer] == Done(p.outcome) && Succeeds(p.outcome) && p.outcome.oid == p.oid
  {
    RunKeepsInv(start, es);
  }

  // ---- Commits without a parent ---------------------------------------------------------------------

  /** At step `m` the writer, given no start revision, read that its branch does not exist. */
  ghost predicate ReadsNothingAt(start: System, es: seq<Event>, w: WriterId, m: nat) {
    && m < |es| && es[m] == Query(w)
    && var y := Run(start, es[..m]);
       w in y.writers && y.writers[w].CommitReading? && y.writers[w].start.None?
         && Tip(y.repo, y.writers[w].branch).None?
  }

  ghost predicate ReadsNothing(start: System, es: seq<Event>, w: WriterId) {
    exists m :: ReadsNothingAt(start, es, w, m)
  }

  /** One more event adds at most its own reading. */
  lemma ReadsNothingMore(start: System, es: seq<Event>, w: WriterId)
    requires es != []
    ensures var front := es[..|es| - 1];
            ReadsNothing(start, es, w) <==> ReadsNothing(start, front, w) || ReadsNothingAt(start, es, w, |es| - 1)
  {
    var front := es[..|es| - 1];
    forall m: nat | m < |front| ensures ReadsNothingAt(start, front, w, m) <==> ReadsNothingAt(start, es, w, m) {
      assert front[..m] == es[..m];
    }
    if m: nat :| ReadsNothingAt(start, front, w, m) {
      assert ReadsNothingAt(start, es, w, m);
    }
    if m: nat :| ReadsNothingAt(start, es, w, m) && m < |front| {
      assert ReadsNothingAt(start, front, w, m);
    }
  }

  /** What a phase says about how the writer began. */
  ghost predicate Begun(r: Repo, p: Phase, nothing: bool) {
    match p
    case CommitReading(_, _) => !nothing
    case CommitResolving(_, _) => !nothing
    case CommitBuilding(_, parent, _) => nothing <==> parent.None?
    case Updating(_, oid, _, outcome) =>
      outcome.Committed? ==> oid in r.objects && outcome.oid == oid && (nothing <==> r.objects[oid] == [])
    case Done(result) => result.Committed? ==> result.oid in r.objects && (nothing <==> r.objects[result.oid] == [])
    case MergeReading(_, _) => true
    case MergeResolving(_, _, _) => true
    case Comparing(_, _, _) => true
    case ComparingBack(_, _, _) => true
    case MergeBuilding(_, _, _) => true
  }

  ghost predicate WriterBegun(y: System, w: WriterId, nothing: bool) {
    if w in y.writers then Begun(y.repo, y.writers[w], nothing) else !nothing
  }

  lemma NextKeepsBegun(y: System, e: Event, w: WriterId, nothing: bool)
    requires Inv(y) && WriterBegun(y, w, nothing)
    ensures var queries := e == Query(w) && w in y.writers && y.writers[w].CommitReading? && y.writers[w].start.None?
                         && Tip(y.repo, y.writers[w].branch).None?;
            WriterBegun(Next(y, e), w, nothing || queries)
  {
  }

  lemma {:induction false} RunKeepsBegun(start: System, es: seq<Event>, w: WriterId)
    requires Started(start)
    ensures WriterBegun(Run(start, es), w, ReadsNothing(start, es, w))
  {
    if es == [] {
    } else {
      var front := es[..|es| - 1];
      RunKeepsBegun(start, front, w);
      RunKeepsInv(start, front);
      ReadsNothingMore(start, es, w);
      NextKeepsBegun(Run(start, front), es[|es| - 1], w, ReadsNothing(start, front, w));
    }
  }

  /** In every interleaving, a commit that `commit_changes` landed has no parents exactly when its
      writer was given no start revision and read that the branch does not exist, whatever else
      the repository held. */
  lemma ParentlessExactlyWhen(start: System, es: seq<Event>, w: WriterId)
    requires Started(start) && w in Run(start, es).writers
    requires Run(start, es).writers[w].Done? && Run(start, es).writers[w].result.Committed?
    ensures var y := Run(start, es);
            var oid := y.writers[w].result.oid;
            oid in y.repo.objects && (y.repo.objects[oid] == [] <==> ReadsNothing(start, es, w))
  {
    RunKeepsBegun(start, es, w);
  }

  // ---- One call -------------------------------------------------------------------------------------

  /** The steps of one `commit_changes`, taken back to back, do what `CommitAlone` says. */
  lemma UndisturbedCommit(y: System, w: WriterId, branch: Branch, start: Option<Revision>, valid: bool, oid: Oid,
                          refused: bool)
    requires w !in y.writers
    requires Writable(y.repo, ParentList(ParentOf(y.repo, branch, start)), oid)
    ensures var z := Next(Next(Next(y, StartCommit(w, branch, start, valid)), Query(w)), Query(w));
            var (repo, result) := CommitAlone(y.repo, branch, start, valid, oid, refused);
            Next(Next(z, Build(w, oid)), Update(w, refused)) == System(repo, y.writers[w := Done(result)])
  {
    var a := Next(y, StartCommit(w, branch, start, valid));
    var b := Next(a, Query(w));
    var c := Next(b, Query(w));
    assert c == System(y.repo, y.writers[w := c.writers[w]]);
    if c.writers[w].CommitBuilding? {
      UndisturbedBuild(y, c, w, oid, refused);
    }
  }

  lemma UndisturbedBuild(y: System, c: System, w: WriterId, oid: Oid, refused: bool)
    requires w in c.writers && c == System(y.repo, y.writers[w := c.writers[w]])
    requires c.writers[w].CommitBuilding? && Writable(y.repo, ParentList(c.writers[w].parent), oid)
    ensures var p := c.writers[w];
            Next(Next(c, Build(w, oid)), Update(w, refused))
            == System(Updated(WithCommit(y.repo, ParentList(p.parent), oid), p.branch, oid, p.expected, refused),
                      y.writers[w := Done(if Lands(y.repo, p.branch, p.expected, refused) then Committed(p.branch, oid)
                                          else Failed(ConcurrentUpdate))])
  {
    var d := Next(c, Build(w, oid));
    assert d == System(WithCommit(y.repo, ParentList(c.writers[w].parent), oid),
             y.writers[w := AfterBuild(c.writers[w], oid)]);
  }

  /** Likewise one `merge`. */
  lemma UndisturbedMerge(y: System, w: WriterId, branch: Branch, revision: Revision, valid: bool, merged: Option<Oid>,
                         refused: bool)
    requires w !in y.writers
    requires Tip(y.repo, branch).Some? && Resolved(y.repo, revision).Some? && merged.Some? ==>
               Writable(y.repo, [Tip(y.repo, branch).value, Resolved(y.repo, revision).value], merged.value)
    ensures var c := Next(Next(Next(y, StartMerge(w, branch, revision, valid)), Query(w)), Query(w));
            var z := Next(Next(c, Query(w)), Query(w));
            var (repo, result) := MergeAlone(y.repo, branch, revision, valid, merged, refused);
            Next(Next(z, if merged.Some? then Build(w, merged.value) else Conflict(w)), Update(w, refused))
            == System(repo, y.writers[w := Done(result)])
  {
    var c := Next(Next(Next(y, StartMerge(w, branch, revision, valid)), Query(w)), Query(w));
    UndisturbedRead(y, w, branch, revision, valid);
    if c.writers[w].Comparing? {
      UndisturbedCompare(y, c, w, merged, refused);
    }
  }

  lemma UndisturbedRead(y: System, w: WriterId, branch: Branch, revision: Revision, valid: bool)
    requires w !in y.writers
    ensures var c := Next(Next(Next(y, StartMerge(w, branch, revision, valid)), Query(w)), Query(w));
            c == System(y.repo, y.writers[w :=
              if !valid then Done(Failed(Invalid))
              else if Tip(y.repo, branch).None? || Resolved(y.repo, revision).None? then Done(Failed(RevisionNotFound))
              else Comparing(branch, Tip(y.repo, branch).value, Resolved(y.repo, revision).value)])
  {
    var a := Next(y, StartMerge(w, branch, revision, valid));
    var b := Next(a, Query(w));
    assert b == System(y.repo, y.writers[w := b.writers[w]]);
  }

  lemma UndisturbedCompare(y: System, c: System, w: WriterId, merged: Option<Oid>, refused: bool)
    requires w in c.writers && c.writers[w].Comparing? && c == System(y.repo, y.writers[w := c.writers[w]])
    requires var p := c.writers[w];
             Tip(y.repo, p.branch) == Some(p.target)
             && (merged.Some? ==> Writable(y.repo, [p.target, p.source], merged.value))
    ensures var p := c.writers[w];
            var z := Next(Next(c, Query(w)), Query(w));
            var (repo, result) := MergeFound(y.repo, p.branch, p.target, p.source, merged, refused);
            Next(Next(z, if merged.Some? then Build(w, merged.value) else Conflict(w)), Update(w, refused))
            == System(repo, y.writers[w := Done(result)])
  {
    var p := c.writers[w];
    var d := Next(c, Query(w));
    assert d == System(y.repo, y.writers[w := d.writers[w]]);
    var e := Next(d, Query(w));
    assert e == System(y.repo, y.writers[w := e.writers[w]]);
    var f := Next(e, if merged.Some? then Build(w, merged.value) else Conflict(w));
    assert f == System(f.repo, y.writers[w := f.writers[w]]);
  }
}
