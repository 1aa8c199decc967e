/** Properties of the branch-reuse decision: which guard decides, which
    lookups are issued, and what the single label deletion looks like. */
module ReuseProperties {
  import opened Wrappers
  import opened Upgrades
  import opened Reuse

  /** The branch exists and no manual-rebase request decided: the staleness gate is evaluated. */
  predicate ReachesStaleness(config: BranchConfig, snap: Snapshot) {
    snap.branchExists && !ManualRebaseRequested(snap.branchPr, config.rebaseLabel)
  }

  /** ... and the staleness check gave no verdict: the conflict check is evaluated. */
  predicate ReachesConflict(config: BranchConfig, snap: Snapshot) {
    && ReachesStaleness(config, snap)
    && !(StaleCheckEnabled(config, snap.repoForceRebase) && snap.isStale)
  }

  /** ... and the conflict check gave no verdict: the range-strategy guard is evaluated. */
  predicate ReachesStrategyGuard(config: BranchConfig, snap: Snapshot) {
    && ReachesConflict(config, snap)
    && !(snap.branchPr.Some? && snap.branchPr.value.isConflicted && !snap.isModified)
  }

  /** A `rebase!` title or a ticked rebase checkbox recreates the branch whatever
      the staleness, conflict, label and upgrade state, and nothing beyond the
      existence and pull-request lookups is issued: in particular no label is
      deleted even when the rebase label is also present. */
  lemma ManualRebaseWins(config: BranchConfig, snap: Snapshot, dryRun: bool)
    requires snap.branchExists && snap.branchPr.Some?
    requires TitleRequestsRebase(snap.branchPr.value) || BodyRequestsRebase(snap.branchPr.value)
    ensures ShouldReuseExistingBranch(config, snap, dryRun)
         == Run(Recreate, [BranchExists(config.branchName), GetBranchPr(config.branchName)])
  {
  }

  /** With only the rebase label present, the branch is recreated and the label
      is deleted from that pull request exactly once, or not at all in dry-run. */
  lemma RebaseLabelDeletedOnce(config: BranchConfig, snap: Snapshot, dryRun: bool)
    requires snap.branchExists && snap.branchPr.Some?
    requires !TitleRequestsRebase(snap.branchPr.value) && !BodyRequestsRebase(snap.branchPr.value)
    requires LabelRequestsRebase(snap.branchPr.value, config.rebaseLabel)
    ensures var run := ShouldReuseExistingBranch(config, snap, dryRun);
      && run.verdict == Recreate
      && run.trace == [BranchExists(config.branchName), GetBranchPr(config.branchName)]
                      + (if dryRun then [] else [DeleteLabel(snap.branchPr.value.number, config.rebaseLabel)])
      && multiset(run.trace)[DeleteLabel(snap.branchPr.value.number, config.rebaseLabel)]
         == (if dryRun then 0 else 1)
      && forall e :: e in run.trace && e.DeleteLabel? ==> e == DeleteLabel(snap.branchPr.value.number, config.rebaseLabel)
  {
  }

  /** A label is deleted exactly when the label request is the one that decides
      and the run is not a dry run. */
  lemma LabelDeletedOnlyOnLabelRequest(config: BranchConfig, snap: Snapshot, dryRun: bool)
    ensures (exists e :: e in ShouldReuseExistingBranch(config, snap, dryRun).trace && e.DeleteLabel?)
        <==> && snap.branchExists && !dryRun && snap.branchPr.Some?
             && !TitleRequestsRebase(snap.branchPr.value) && !BodyRequestsRebase(snap.branchPr.value)
             && LabelRequestsRebase(snap.branchPr.value, config.rebaseLabel)
  {
    var run := ShouldReuseExistingBranch(config, snap, dryRun);
    if snap.branchExists && !dryRun && snap.branchPr.Some?
       && !TitleRequestsRebase(snap.branchPr.value) && !BodyRequestsRebase(snap.branchPr.value)
       && LabelRequestsRebase(snap.branchPr.value, config.rebaseLabel)
    {
      assert run.trace[2].DeleteLabel?;
    }
  }

  /** Dry-run mode never changes the verdict; it only drops the label deletion,
      which is always the last effect of a run. */
  lemma DryRunOnlySuppressesDeletion(config: BranchConfig, snap: Snapshot)
    ensures ShouldReuseExistingBranch(config, snap, true).verdict
         == ShouldReuseExistingBranch(config, snap, false).verdict
    ensures var dry := ShouldReuseExistingBranch(config, snap, true).trace;
      var live := ShouldReuseExistingBranch(config, snap, false).trace;
      live == dry || (snap.branchPr.Some? && live == dry + [DeleteLabel(snap.branchPr.value.number, config.rebaseLabel)])
  {
  }

  /** The repository's force-rebase setting is looked up exactly when the gate
      is evaluated with `rebaseWhen = auto` and automerge off. */
  lemma ForceRebaseLookupIff(config: BranchConfig, snap: Snapshot, dryRun: bool)
    ensures GetRepoForceRebase in ShouldReuseExistingBranch(config, snap, dryRun).trace
        <==> ReachesStaleness(config, snap) && NeedsForceRebaseLookup(config)
  {
  }

  /** Staleness is looked up exactly when the gate is reached and passes. */
  lemma StaleLookupIff(config: BranchConfig, snap: Snapshot, dryRun: bool)
    ensures IsBranchStale(config.branchName) in ShouldReuseExistingBranch(config, snap, dryRun).trace
        <==> ReachesStaleness(config, snap) && StaleCheckEnabled(config, snap.repoForceRebase)
  {
  }

  /** A branch that does not exist triggers no lookup besides its existence. */
  lemma MissingBranchLooksUpNothingElse(config: BranchConfig, snap: Snapshot, dryRun: bool)
    requires !snap.branchExists
    ensures var run := ShouldReuseExistingBranch(config, snap, dryRun);
      && run.verdict == Recreate && run.verdict.isModified.None?
      && forall e :: e in run.trace ==> e == BranchExists(config.branchName)
  {
  }

  /** The modification lookup is issued exactly when the staleness gate is
      reached and passes on a stale branch, or the conflict check is reached
      with a conflicted pull request; a manual-rebase request skips both. */
  lemma ModifiedLookupIff(config: BranchConfig, snap: Snapshot, dryRun: bool)
    ensures IsBranchModified(config.branchName) in ShouldReuseExistingBranch(config, snap, dryRun).trace
        <==> || (ReachesStaleness(config, snap) && StaleCheckEnabled(config, snap.repoForceRebase) && snap.isStale)
             || (ReachesConflict(config, snap) && snap.branchPr.Some? && snap.branchPr.value.isConflicted)
  {
  }

  /** The modification lookup is issued at most once, although the source has
      two call sites for it. */
  lemma ModifiedLookupAtMostOnce(config: BranchConfig, snap: Snapshot, dryRun: bool)
    ensures multiset(ShouldReuseExistingBranch(config, snap, dryRun).trace)[IsBranchModified(config.branchName)] <= 1
  {
    var name := config.branchName;
    var m := IsBranchModified(name);
    var run := ShouldReuseExistingBranch(config, snap, dryRun);
    if !snap.branchExists {
      return;
    }
    var lookedUp := [BranchExists(name), GetBranchPr(name)];
    assert multiset(lookedUp)[m] == 0;
    var manual := ManualRebaseStep(snap.branchPr, config.rebaseLabel, dryRun);
    if manual.verdict.Some? {
      assert m !in manual.trace;
      assert run.trace == lookedUp + manual.trace;
      return;
    }
    var stale := StalenessStep(config, snap);
    assert multiset(stale.trace)[m] <= 1;
    if stale.verdict.Some? {
      assert run.trace == lookedUp + stale.trace;
      return;
    }
    assert multiset(stale.trace)[m] == 0;
    var conflict := ConflictStep(config, snap);
    assert multiset(conflict.trace)[m] <= 1;
    assert run.trace == lookedUp + stale.trace + conflict.trace;
  }

  /** Once the gate passes on a stale branch, a modified branch is kept and
      flagged, an unmodified one recreated. */
  lemma StaleBranchVerdict(config: BranchConfig, snap: Snapshot, dryRun: bool)
    requires ReachesStaleness(config, snap)
    requires StaleCheckEnabled(config, snap.repoForceRebase) && snap.isStale
    ensures ShouldReuseExistingBranch(config, snap, dryRun).verdict
         == if snap.isModified then KeepModified else Recreate
  {
  }

  /** A conflicted pull request on an unmodified branch recreates it unless
      `rebaseWhen = never`; on a modified branch the decision falls through to
      the range-strategy guard. */
  lemma ConflictVerdict(config: BranchConfig, snap: Snapshot, dryRun: bool)
    requires ReachesConflict(config, snap)
    requires snap.branchPr.Some? && snap.branchPr.value.isConflicted
    ensures !snap.isModified ==>
      ShouldReuseExistingBranch(config, snap, dryRun).verdict
      == if config.rebaseWhen == Never then Keep else Recreate
    ensures snap.isModified ==>
      ShouldReuseExistingBranch(config, snap, dryRun).verdict == StrategyVerdict(config.upgrades)
  {
  }

  /** When no earlier guard fired, the branch is recreated exactly when some
      package file mixes update-lockfile with another strategy, and otherwise
      kept as unmodified. */
  lemma StrategyGuardVerdict(config: BranchConfig, snap: Snapshot, dryRun: bool)
    requires ReachesStrategyGuard(config, snap)
    ensures ShouldReuseExistingBranch(config, snap, dryRun).verdict
         == if HasMixedLockfileGroup(config.upgrades) then RecreateUnmodified else Keep
  {
  }

  /** `isModified: true` comes only from the stale-and-modified case. */
  lemma ModifiedFlagOnlyFromStaleness(config: BranchConfig, snap: Snapshot, dryRun: bool)
    ensures ShouldReuseExistingBranch(config, snap, dryRun).verdict.isModified == Some(true)
        <==> && ReachesStaleness(config, snap)
             && StaleCheckEnabled(config, snap.repoForceRebase) && snap.isStale && snap.isModified
  {
  }

  /** A kept branch always carries `isModified`; a recreated branch carries it
      only when the range-strategy guard decided. */
  lemma VerdictShape(config: BranchConfig, snap: Snapshot, dryRun: bool)
    ensures var v := ShouldReuseExistingBranch(config, snap, dryRun).verdict;
      && (v.reuseExistingBranch ==> v.isModified.Some?)
      && (!v.reuseExistingBranch && v.isModified.Some?
          <==> ReachesStrategyGuard(config, snap) && HasMixedLockfileGroup(config.upgrades))
  {
  }

  /** StaleBranchVerdict instantiated with `rebaseWhen = behind-base-branch`
      and no pull request: on a stale branch, modified keeps and flags,
      unmodified recreates. */
  lemma BehindBaseBranchExamples(config: BranchConfig, snap: Snapshot, dryRun: bool)
    requires config.rebaseWhen == BehindBaseBranch
    requires snap.branchExists && snap.branchPr.None? && snap.isStale
    ensures snap.isModified ==> ShouldReuseExistingBranch(config, snap, dryRun).verdict == KeepModified
    ensures !snap.isModified ==> ShouldReuseExistingBranch(config, snap, dryRun).verdict == Recreate
  {
  }
}
