/** Where the commits of successful calls come from, in every interleaving: the parents they have
    and the source they merge were named by the call and read from the repository at some earlier
    step (crates/c6-git/src/lib.rs:482-488, 585-641, 704-724). */
module GitProvenance {
  import opened Common
  import opened GitHistory

  // ---- What happened earlier in a run -----------------------------------------------------------------

  /** The writer's call, as it began. */
  ghost predicate BeganCommitAt(start: System, es: seq<Event>, w: WriterId, branch: Branch, from: Option<Revision>,
                                m: nat) {
    m < |es| && es[m] == StartCommit(w, branch, from, true) && w !in Run(start, es[..m]).writers
  }

  ghost predicate BeganCommit(start: System, es: seq<Event>, w: WriterId, branch: Branch, from: Option<Revision>) {
    exists m :: BeganCommitAt(start, es, w, branch, from, m)
  }

  ghost predicate BeganMergeAt(start: System, es: seq<Event>, w: WriterId, branch: Branch, revision: Revision, m: nat) {
    m < |es| && es[m] == StartMerge(w, branch, revision, true) && w !in Run(start, es[..m]).writers
  }

  ghost predicate BeganMerge(start: System, es: seq<Event>, w: WriterId, branch: Branch, revision: Revision) {
    exists m :: BeganMergeAt(start, es, w, branch, revision, m)
  }

  /** The revision named this commit at some step. */
  ghost predicate NamedAt(start: System, es: seq<Event>, revision: Revision, oid: Oid, m: nat) {
    m <= |es| && Names(Run(start, es[..m]).repo, revision, oid)
  }

  ghost predicate WasNamed(start: System, es: seq<Event>, revision: Revision, oid: Oid) {
    exists m :: NamedAt(start, es, revision, oid, m)
  }

  /** The branch stood here at some step. */
  ghost predicate WasTip(start: System, es: seq<Event>, branch: Branch, oid: Oid) {
    WasNamed(start, es, ByBranch(branch), oid)
  }

  /** The merge's own revision named this source. */
  ghost predicate SourceOf(start: System, es: seq<Event>, w: WriterId, branch: Branch, source: Oid) {
    exists revision :: BeganMerge(start, es, w, branch, revision) && WasNamed(start, es, revision, source)
  }

  /** The parent a commit call may use: the branch's tip, or without one what its start names. */
  ghost predicate ParentOfCall(start: System, es: seq<Event>, w: WriterId, branch: Branch, parent: Option<Oid>,
                               expected: Option<Oid>)
  {
    if expected.Some? then parent == expected && WasTip(start, es, branch, parent.value)
    else if parent.None? then BeganCommit(start, es, w, branch, None)
    else exists revision ::
           BeganCommit(start, es, w, branch, Some(revision)) && WasNamed(start, es, revision, parent.value)
  }

  /** A commit with the parents its call asked for. */
  ghost predicate CommitFrom(start: System, es: seq<Event>, w: WriterId, o: Objects, branch: Branch, oid: Oid,
                             expected: Option<Oid>)
  {
    oid in o && exists parent :: o[oid] == ParentList(parent) && ParentOfCall(start, es, w, branch, parent, expected)
  }

  /** A merge commit of the branch's tip and the named source, in this order. */
  ghost predicate MergeFrom(start: System, es: seq<Event>, w: WriterId, o: Objects, branch: Branch, source: Oid,
                            oid: Oid, target: Oid)
  {
    oid in o && o[oid] == [target, source] && WasTip(start, es, branch, target)
      && SourceOf(start, es, w, branch, source)
  }

  ghost predicate ResultFrom(start: System, es: seq<Event>, w: WriterId, o: Objects, result: Result) {
    match result
    case Committed(branch, oid) => exists expected :: CommitFrom(start, es, w, o, branch, oid, expected)
    case AlreadyUpToDate(branch, source, oid) =>
      WasTip(start, es, branch, oid) && SourceOf(start, es, w, branch, source)
    case FastForward(branch, oid) => SourceOf(start, es, w, branch, oid)
    case Merged(branch, source, oid) => exists target :: MergeFrom(start, es, w, o, branch, source, oid, target)
    case Conflicted => true
    case Failed(_) => true
  }

  ghost predicate OutcomeFrom(start: System, es: seq<Event>, w: WriterId, o: Objects, outcome: Result,
                              expected: Option<Oid>) {
    match outcome
    case Committed(branch, oid) => CommitFrom(start, es, w, o, branch, oid, expected)
    case FastForward(branch, oid) => SourceOf(start, es, w, branch, oid)
    case Merged(branch, source, oid) =>
      expected.Some? && MergeFrom(start, es, w, o, branch, source, oid, expected.value)
    case AlreadyUpToDate(_, _, _) => false
    case Conflicted => false
    case Failed(_) => false
  }

  /** How a phase came about. */
  ghost predicate From(start: System, es: seq<Event>, w: WriterId, o: Objects, p: Phase) {
    match p
    case CommitReading(branch, from) => BeganCommit(start, es, w, branch, from)
    case CommitResolving(branch, revision) => BeganCommit(start, es, w, branch, Some(revision))
    case CommitBuilding(branch, parent, expected) => ParentOfCall(start, es, w, branch, parent, expected)
    case MergeReading(branch, revision) => BeganMerge(start, es, w, branch, revision)
    case MergeResolving(branch, target, revision) =>
      WasTip(start, es, branch, target) && BeganMerge(start, es, w, branch, revision)
    case Comparing(branch, target, source) =>
      WasTip(start, es, branch, target) && SourceOf(start, es, w, branch, source)
    case ComparingBack(branch, target, source) =>
      WasTip(start, es, branch, target) && SourceOf(start, es, w, branch, source)
    case MergeBuilding(branch, target, source) =>
      WasTip(start, es, branch, target) && SourceOf(start, es, w, branch, source)
    case Updating(branch, oid, expected, outcome) => OutcomeFrom(start, es, w, o, outcome, expected)
    case Done(result) => ResultFrom(start, es, w, o, result)
  }

  // ---- It stays so ------------------------------------------------------------------------------------

  /** One run continues another. */
  ghost predicate Continues(es: seq<Event>, fs: seq<Event>) {
    |es| <= |fs| && fs[..|es|] == es
  }

  lemma NamedContinues(start: System, es: seq<Event>, fs: seq<Event>, revision: Revision, oid: Oid)
    requires Continues(es, fs) && WasNamed(start, es, revision, oid)
    ensures WasNamed(start, fs, revision, oid)
  {
    var m: nat :| NamedAt(start, es, revision, oid, m);
    assert fs[..|es|][..m] == fs[..m];
    assert NamedAt(start, fs, revision, oid, m);
  }

  lemma BeganMergeContinues(start: System, es: seq<Event>, fs: seq<Event>, w: WriterId, branch: Branch,
                            revision: Revision)
    requires Continues(es, fs) && BeganMerge(start, es, w, branch, revision)
    ensures BeganMerge(start, fs, w, branch, revision)
  {
    var m: nat :| BeganMergeAt(start, es, w, branch, revision, m);
    assert fs[..|es|][..m] == fs[..m] && fs[..|es|][m] == fs[m];
    assert BeganMergeAt(start, fs, w, branch, revision, m);
  }

  lemma BeganCommitContinues(start: System, es: seq<Event>, fs: seq<Event>, w: WriterId, branch: Branch,
                             from: Option<Revision>)
    requires Continues(es, fs) && BeganCommit(start, es, w, branch, from)
    ensures BeganCommit(start, fs, w, branch, from)
  {
    var m: nat :| BeganCommitAt(start, es, w, branch, from, m);
    assert fs[..|es|][..m] == fs[..m] && fs[..|es|][m] == fs[m];
    assert BeganCommitAt(start, fs, w, branch, from, m);
  }

  lemma SourceContinues(start: System, es: seq<Event>, fs: seq<Event>, w: WriterId, branch: Branch, source: Oid)
    requires Continues(es, fs) && SourceOf(start, es, w, branch, source)
    ensures SourceOf(start, fs, w, branch, source)
  {
    var revision :| BeganMerge(start, es, w, branch, revision) && WasNamed(start, es, revision, source);
    BeganMergeContinues(start, es, fs, w, branch, revision);
    NamedContinues(start, es, fs, revision, source);
  }

  lemma ParentContinues(start: System, es: seq<Event>, fs: seq<Event>, w: WriterId, branch: Branch, parent: Option<Oid>,
                        expected: Option<Oid>)
    requires Continues(es, fs) && ParentOfCall(start, es, w, branch, parent, expected)
    ensures ParentOfCall(start, fs, w, branch, parent, expected)
  {
    if expected.Some? {
      NamedContinues(start, es, fs, ByBranch(branch), parent.value);
    } else if parent.None? {
      BeganCommitContinues(start, es, fs, w, branch, None);
    } else {
      var revision :| BeganCommit(start, es, w, branch, Some(revision)) && WasNamed(start, es, revision, parent.value);
      BeganCommitContinues(start, es, fs, w, branch, Some(revision));
      NamedContinues(start, es, fs, revision, parent.value);
    }
  }

  lemma CommitContinues(start: System, es: seq<Event>, fs: seq<Event>, w: WriterId, o: Objects, n: Objects,
                        branch: Branch, oid: Oid, expected: Option<Oid>)
    requires Continues(es, fs) && Grows(o, n) && CommitFrom(start, es, w, o, branch, oid, expected)
    ensures CommitFrom(start, fs, w, n, branch, oid, expected)
  {
    var parent :| o[oid] == ParentList(parent) && ParentOfCall(start, es, w, branch, parent, expected);
    ParentContinues(start, es, fs, w, branch, parent, expected);
  }

  lemma MergeContinues(start: System, es: seq<Event>, fs: seq<Event>, w: WriterId, o: Objects, n: Objects,
                       branch: Branch, source: Oid, oid: Oid, target: Oid)
    requires Continues(es, fs) && Grows(o, n) && MergeFrom(start, es, w, o, branch, source, oid, target)
    ensures MergeFrom(start, fs, w, n, branch, source, oid, target)
  {
    NamedContinues(start, es, fs, ByBranch(branch), target);
    SourceContinues(start, es, fs, w, branch, source);
  }

  lemma ResultContinues(start: System, es: seq<Event>, fs: seq<Event>, w: WriterId, o: Objects, n: Objects,
                        result: Result)
    requires Continues(es, fs) && Grows(o, n) && ResultFrom(start, es, w, o, result)
    ensures ResultFrom(start, fs, w, n, result)
  {
    match result
    case Committed(branch, oid) =>
      var expected :| CommitFrom(start, es, w, o, branch, oid, expected);
      CommitContinues(start, es, fs, w, o, n, branch, oid, expected);
    case AlreadyUpToDate(branch, source, oid) =>
      NamedContinues(start, es, fs, ByBranch(branch), oid);
      SourceContinues(start, es, fs, w, branch, source);
    case FastForward(branch, oid) => SourceContinues(start, es, fs, w, branch, oid);
    case Merged(branch, source, oid) =>
      var target: nat :| MergeFrom(start, es, w, o, branch, source, oid, target);
      MergeContinues(start, es, fs, w, o, n, branch, source, oid, target);
    case Conflicted =>
    case Failed(_) =>
  }

  lemma OutcomeContinues(start: System, es: seq<Event>, fs: seq<Event>, w: WriterId, o: Objects, n: Objects,
                         outcome: Result, expected: Option<Oid>)
    requires Continues(es, fs) && Grows(o, n) && OutcomeFrom(start, es, w, o, outcome, expected)
    ensures OutcomeFrom(start, fs, w, n, outcome, expected)
  {
    if outcome.Committed? {
      CommitContinues(start, es, fs, w, o, n, outcome.branch, outcome.oid, expected);
    } else if outcome.FastForward? {
      SourceContinues(start, es, fs, w, outcome.branch, outcome.oid);
    } else if outcome.Merged? {
      MergeContinues(start, es, fs, w, o, n, outcome.branch, outcome.source, outcome.oid, expected.value);
    }
  }

  lemma FromContinues(start: System, es: seq<Event>, fs: seq<Event>, w: WriterId, o: Objects, n: Objects, p: Phase)
    requires Continues(es, fs) && Grows(o, n) && From(start, es, w, o, p)
    ensures From(start, fs, w, n, p)
  {
    match p
    case CommitReading(branch, from) => BeganCommitContinues(start, es, fs, w, branch, from);
    case CommitResolving(branch, revision) => BeganCommitContinues(start, es, fs, w, branch, Some(revision));
    case CommitBuilding(branch, parent, expected) => ParentContinues(start, es, fs, w, branch, parent, expected);
    case MergeReading(branch, revision) => BeganMergeContinues(start, es, fs, w, branch, revision);
    case MergeResolving(branch, target, revision) =>
      NamedContinues(start, es, fs, ByBranch(branch), target);
      BeganMergeContinues(start, es, fs, w, branch, revision);
    case Comparing(branch, target, source) => BothContinue(start, es, fs, w, branch, target, source);
    case ComparingBack(branch, target, source) => BothContinue(start, es, fs, w, branch, target, source);
    case MergeBuilding(branch, target, source) => BothContinue(start, es, fs, w, branch, target, source);
    case Updating(_, _, expected, outcome) => OutcomeContinues(start, es, fs, w, o, n, outcome, expected);
    case Done(result) => ResultContinues(start, es, fs, w, o, n, result);
  }

  lemma BothContinue(start: System, es: seq<Event>, fs: seq<Event>, w: WriterId, branch: Branch, target: Oid,
                     source: Oid)
    requires Continues(es, fs) && WasTip(start, es, branch, target) && SourceOf(start, es, w, branch, source)
    ensures WasTip(start, fs, branch, target) && SourceOf(start, fs, w, branch, source)
  {
    NamedContinues(start, es, fs, ByBranch(branch), target);
    SourceContinues(start, es, fs, w, branch, source);
  }

  // ---- One step -----------------------------------------------------------------------------------------

  /** What a revision names now it has been named. */
  lemma NamedNow(start: System, es: seq<Event>, revision: Revision, oid: Oid)
    requires Names(Run(start, es).repo, revision, oid)
    ensures WasNamed(start, es, revision, oid)
  {
    assert es[..|es|] == es;
    assert NamedAt(start, es, revision, oid, |es|);
  }

  lemma QueryFrom(start: System, es: seq<Event>, w: WriterId, p: Phase)
    requires From(start, es, w, Run(start, es).repo.objects, p)
    ensures From(start, es, w, Run(start, es).repo.objects, AfterQuery(Run(start, es).repo, p))
  {
    var r := Run(start, es).repo;
    if p.CommitReading? {
      if Tip(r, p.branch).Some? {
        NamedNow(start, es, ByBranch(p.branch), r.refs[p.branch]);
      }
    } else if p.CommitResolving? {
      if Resolved(r, p.revision).Some? {
        ResolvedNames(r, p.revision, Resolved(r, p.revision).value);
        NamedNow(start, es, p.revision, Resolved(r, p.revision).value);
      }
    } else if p.MergeReading? {
      if Tip(r, p.branch).Some? {
        NamedNow(start, es, ByBranch(p.branch), r.refs[p.branch]);
      }
    } else if p.MergeResolving? {
      if Resolved(r, p.revision).Some? {
        ResolvedNames(r, p.revision, Resolved(r, p.revision).value);
        NamedNow(start, es, p.revision, Resolved(r, p.revision).value);
      }
    }
  }

  lemma BuildFrom(start: System, es: seq<Event>, w: WriterId, r: Repo, p: Phase, oid: Oid)
    requires Builds(p) && From(start, es, w, r.objects, p)
    ensures From(start, es, w, WithCommit(r, Parents(p), oid).objects, AfterBuild(p, oid))
  {
    var n := WithCommit(r, Parents(p), oid).objects;
    if p.CommitBuilding? {
      assert n[oid] == ParentList(p.parent);
    }
  }

  lemma UpdateFrom(start: System, es: seq<Event>, w: WriterId, o: Objects, p: Phase)
    requires p.Updating? && From(start, es, w, o, p)
    ensures ResultFrom(start, es, w, o, p.outcome)
  {
    if p.outcome.Merged? {
      assert MergeFrom(start, es, w, o, p.outcome.branch, p.outcome.source, p.outcome.oid, p.expected.value);
    }
  }

  lemma StartFrom(start: System, es: seq<Event>, w: WriterId, e: Event)
    requires e.writer == w && w !in Run(start, es).writers && (e.StartCommit? || e.StartMerge?) && e.valid
    ensures e.StartCommit? ==> BeganCommit(start, es + [e], w, e.branch, e.start)
    ensures e.StartMerge? ==> BeganMerge(start, es + [e], w, e.branch, e.revision)
  {
    assert (es + [e])[..|es|] == es;
    if e.StartCommit? {
      assert BeganCommitAt(start, es + [e], w, e.branch, e.start, |es|);
    } else {
      assert BeganMergeAt(start, es + [e], w, e.branch, e.revision, |es|);
    }
  }

  /** The acting writer after its step, by what was known before it. */
  lemma StepFrom(start: System, es: seq<Event>, e: Event)
    requires Inv(Run(start, es))
    requires var y := Run(start, es); e.writer in y.writers ==>
               From(start, es, e.writer, y.repo.objects, y.writers[e.writer])
    ensures var z := Next(Run(start, es), e);
            e.writer in z.writers ==> From(start, es + [e], e.writer, z.repo.objects, z.writers[e.writer])
  {
    var y, w := Run(start, es), e.writer;
    var z, fs := Next(y, e), es + [e];
    NextKeepsInv(y, e);
    assert Continues(es, fs);
    if w !in y.writers {
      if (e.StartCommit? || e.StartMerge?) && e.valid {
        StartFrom(start, es, w, e);
      }
    } else {
      ActsFrom(start, es, e);
      FromContinues(start, es, fs, w, z.repo.objects, z.repo.objects, z.writers[w]);
    }
  }

  lemma ActsFrom(start: System, es: seq<Event>, e: Event)
    requires Inv(Run(start, es)) && e.writer in Run(start, es).writers
    requires var y := Run(start, es); From(start, es, e.writer, y.repo.objects, y.writers[e.writer])
    ensures var z := Next(Run(start, es), e);
            e.writer in z.writers && From(start, es, e.writer, z.repo.objects, z.writers[e.writer])
  {
    var y, w := Run(start, es), e.writer;
    var p := y.writers[w];
    if e.Query? {
      QueryFrom(start, es, w, p);
    } else if e.Build? {
      if Builds(p) && Writable(y.repo, Parents(p), e.oid) {
        BuildFrom(start, es, w, y.repo, p, e.oid);
      }
    } else if e.Update? {
      if p.Updating? {
        UpdateFrom(start, es, w, y.repo.objects, p);
      }
    }
  }

  // ---- Every run ------------------------------------------------------------------------------------------

  lemma {:induction false} RunFrom(start: System, es: seq<Event>, w: WriterId)
    requires Started(start)
    ensures var y := Run(start, es); w in y.writers ==> From(start, es, w, y.repo.objects, y.writers[w])
    decreases |es|
  {
    if es == [] {
    } else {
      var front, e := es[..|es| - 1], es[|es| - 1];
      var y := Run(start, front);
      assert front + [e] == es;
      RunFrom(start, front, w);
      RunKeepsInv(start, front);
      if e.writer == w {
        StepFrom(start, front, e);
      } else if w in y.writers {
        NextKeepsInv(y, e);
        FromContinues(start, front, es, w, y.repo.objects, Next(y, e).repo.objects, y.writers[w]);
      }
    }
  }

  /** The source of every successful merge is the commit that the call's own revision named at some
      step: for a named branch, its tip then. */
  lemma MergeSourceWasNamed(start: System, es: seq<Event>, w: WriterId)
    requires Started(start) && w in Run(start, es).writers && Run(start, es).writers[w].Done?
    requires var result := Run(start, es).writers[w].result; Succeeds(result) && !result.Committed?
    ensures var result := Run(start, es).writers[w].result;
            var source := if result.FastForward? then result.oid else result.source;
            exists revision :: BeganMerge(start, es, w, result.branch, revision)
              && WasNamed(start, es, revision, source)
  {
    RunFrom(start, es, w);
    var y := Run(start, es);
    var result := y.writers[w].result;
    if result.Merged? {
      var target: nat :| MergeFrom(start, es, w, y.repo.objects, result.branch, result.source, result.oid, target);
    }
  }

  /** The parents of what is about to land, on a branch that is still where it was read: for a
      commit the tip alone, for a merge the tip and then the named source; for a new branch the
      commit its start revision named, or none if none was given. */
  lemma LandedParents(start: System, es: seq<Event>, w: WriterId)
    requires Started(start) && w in Run(start, es).writers && Run(start, es).writers[w].Updating?
    requires var y := Run(start, es);
             Lands(y.repo, y.writers[w].branch, y.writers[w].expected, false)
    ensures var y := Run(start, es);
            var branch, outcome := y.writers[w].branch, y.writers[w].outcome;
            var o := y.repo.objects;
            && (outcome.Committed? ==> outcome.oid in o)
            && (outcome.Committed? && branch in y.repo.refs ==> o[outcome.oid] == [y.repo.refs[branch]])
            && (outcome.Committed? && branch !in y.repo.refs ==>
                  || (o[outcome.oid] == [] && BeganCommit(start, es, w, branch, None))
                  || (|o[outcome.oid]| == 1 && StartNamed(start, es, w, branch, o[outcome.oid][0])))
            && (outcome.Merged? ==>
                  && branch in y.repo.refs && outcome.oid in o
                  && o[outcome.oid] == [y.repo.refs[branch], outcome.source]
                  && SourceOf(start, es, w, branch, outcome.source))
  {
    RunFrom(start, es, w);
    RunKeepsInv(start, es);
    var y := Run(start, es);
    var p := y.writers[w];
    assert PhaseHolds(y.repo, p);
    if p.outcome.Committed? {
      var parent :| y.repo.objects[p.outcome.oid] == ParentList(parent)
                    && ParentOfCall(start, es, w, p.outcome.branch, parent, p.expected);
    }
  }

  /** The start revision of the commit call named this commit. */
  ghost predicate StartNamed(start: System, es: seq<Event>, w: WriterId, branch: Branch, oid: Oid) {
    exists revision :: BeganCommit(start, es, w, branch, Some(revision)) && WasNamed(start, es, revision, oid)
  }
}
