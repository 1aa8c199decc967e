/** `shouldReuseExistingBranch` of `lib/workers/branch/reuse.ts`: the ordered
    chain of guards that decides whether an existing upgrade branch is kept,
    kept but flagged as modified, or discarded and recreated.

    The git and platform lookups are answered by an immutable `Snapshot`, the
    global dry-run setting is a parameter, and every lookup issued, together
    with the one label deletion, is recorded in order in the returned trace. */
module Reuse {
  import opened Wrappers
  import opened Upgrades

  /** A pull request title starting with this asks for a manual rebase. */
  const RebaseTitlePrefix: string := "rebase!"
  /** A pull request body containing this ticked checkbox asks for a manual rebase. */
  const RebaseCheckbox: string := "- [x] <!-- rebase-check -->"

  datatype RebaseWhen = Auto | Never | Conflicted | BehindBaseBranch

  datatype BranchConfig = BranchConfig(
    branchName: string,
    rebaseWhen: RebaseWhen,
    automerge: bool,
    rebaseLabel: string,
    upgrades: seq<Upgrade>)

  /** The pull request of the branch. Title, body and labels are optional in
      the source; an absent conflict flag reads as false. */
  datatype Pr = Pr(
    number: int,
    title: Option<string>,
    body: Option<string>,
    labels: Option<seq<string>>,
    isConflicted: bool)

  /** What the git and platform lookups answer for the branch during one run. */
  datatype Snapshot = Snapshot(
    branchExists: bool,
    branchPr: Option<Pr>,
    isStale: bool,
    isModified: bool,
    repoForceRebase: bool)

  /** The verdict; `isModified` is an optional field in the source. */
  datatype ParentBranch = ParentBranch(reuseExistingBranch: bool, isModified: Option<bool>)

  /** The lookups the decision issues and its one side effect. */
  datatype Effect =
    | BranchExists(branch: string)
    | GetBranchPr(branch: string)
    | GetRepoForceRebase
    | IsBranchStale(branch: string)
    | IsBranchModified(branch: string)
    | DeleteLabel(prNumber: int, labelName: string)

  datatype Run = Run(verdict: ParentBranch, trace: seq<Effect>)

  /** One guard of the chain: a verdict when it fires, and the effects it issued. */
  datatype Step = Step(verdict: Option<ParentBranch>, trace: seq<Effect>)

  /** `{ reuseExistingBranch: false }` */
  const Recreate := ParentBranch(false, None)
  /** `{ reuseExistingBranch: false, isModified: false }` */
  const RecreateUnmodified := ParentBranch(false, Some(false))
  /** `{ reuseExistingBranch: true, isModified: false }` */
  const Keep := ParentBranch(true, Some(false))
  /** `{ reuseExistingBranch: true, isModified: true }` */
  const KeepModified := ParentBranch(true, Some(true))

  predicate Contains(text: string, part: string) {
    exists i :: 0 <= i <= |text| && part <= text[i..]
  }

  predicate TitleRequestsRebase(pr: Pr) {
    pr.title.Some? && RebaseTitlePrefix <= pr.title.value
  }

  predicate BodyRequestsRebase(pr: Pr) {
    pr.body.Some? && Contains(pr.body.value, RebaseCheckbox)
  }

  predicate LabelRequestsRebase(pr: Pr, rebaseLabel: string) {
    pr.labels.Some? && rebaseLabel in pr.labels.value
  }

  /** Some manual-rebase request is present on the pull request. */
  predicate ManualRebaseRequested(pr: Option<Pr>, rebaseLabel: string) {
    pr.Some? && (TitleRequestsRebase(pr.value) || BodyRequestsRebase(pr.value)
                 || LabelRequestsRebase(pr.value, rebaseLabel))
  }

  /** The gate in front of the staleness check. */
  predicate StaleCheckEnabled(config: BranchConfig, repoForceRebase: bool) {
    || config.rebaseWhen == BehindBaseBranch
    || (config.rebaseWhen == Auto && (config.automerge || repoForceRebase))
  }

  /** The repository's force-rebase setting is consulted only when the
      short-circuit evaluation of the gate reaches it. */
  predicate NeedsForceRebaseLookup(config: BranchConfig) {
    config.rebaseWhen == Auto && !config.automerge
  }

  /** Title, then checkbox, then label; only the label request has an effect,
      and that effect is suppressed in dry-run mode. */
  function ManualRebaseStep(pr: Option<Pr>, rebaseLabel: string, dryRun: bool): (s: Step)
    ensures s.verdict.Some? <==> ManualRebaseRequested(pr, rebaseLabel)
    ensures s.verdict.Some? ==> s.verdict.value == Recreate
    ensures forall e :: e in s.trace ==> pr.Some? && e == DeleteLabel(pr.value.number, rebaseLabel)
  {
    if pr.None? then Step(None, [])
    else if TitleRequestsRebase(pr.value) then Step(Some(Recreate), [])
    else if BodyRequestsRebase(pr.value) then Step(Some(Recreate), [])
    else if LabelRequestsRebase(pr.value, rebaseLabel) then
      Step(Some(Recreate), if dryRun then [] else [DeleteLabel(pr.value.number, rebaseLabel)])
    else Step(None, [])
  }

  /** The staleness check: a stale branch is recreated unless it has been modified. */
  function StalenessStep(config: BranchConfig, snap: Snapshot): (s: Step)
    ensures s.verdict.Some? <==> StaleCheckEnabled(config, snap.repoForceRebase) && snap.isStale
    ensures s.verdict.Some? ==> s.verdict.value == (if snap.isModified then KeepModified else Recreate)
    ensures GetRepoForceRebase in s.trace <==> NeedsForceRebaseLookup(config)
    ensures IsBranchStale(config.branchName) in s.trace <==> StaleCheckEnabled(config, snap.repoForceRebase)
    ensures IsBranchModified(config.branchName) in s.trace <==> s.verdict.Some?
  {
    var name := config.branchName;
    var gate := if NeedsForceRebaseLookup(config) then [GetRepoForceRebase] else [];
    if StaleCheckEnabled(config, snap.repoForceRebase) then
      if snap.isStale then
        var trace := gate + [IsBranchStale(name), IsBranchModified(name)];
        Step(Some(if snap.isModified then KeepModified else Recreate), trace)
      else Step(None, gate + [IsBranchStale(name)])
    else Step(None, gate)
  }

  /** The conflict check: a conflicted, unmodified branch is recreated unless rebasing
      is disabled; a conflicted, modified branch falls through. */
  function ConflictStep(config: BranchConfig, snap: Snapshot): (s: Step)
    ensures s.verdict.Some? <==> snap.branchPr.Some? && snap.branchPr.value.isConflicted && !snap.isModified
    ensures s.verdict.Some? ==> s.verdict.value == (if config.rebaseWhen == Never then Keep else Recreate)
    ensures s.trace == [] || s.trace == [IsBranchModified(config.branchName)]
    ensures s.trace != [] <==> snap.branchPr.Some? && snap.branchPr.value.isConflicted
  {
    if snap.branchPr.Some? && snap.branchPr.value.isConflicted then
      var trace := [IsBranchModified(config.branchName)];
      if !snap.isModified then
        Step(Some(if config.rebaseWhen == Never then Keep else Recreate), trace)
      else Step(None, trace)
    else Step(None, [])
  }

  /** The mixed-strategy guard, run as the source's early-returning loop over
      the upgrades, then the default verdict. */
  function StrategyVerdict(upgrades: seq<Upgrade>): (v: ParentBranch)
    ensures v.isModified == Some(false)
    ensures !v.reuseExistingBranch <==> HasMixedLockfileGroup(upgrades)
  {
    assert upgrades[..0] == [];
    assert upgrades[0..] == upgrades;
    MixedFromMatches(upgrades, 0, map[]);
    if MixedFrom(map[], upgrades) then RecreateUnmodified else Keep
  }

  /** The whole chain; the first guard that fires decides. */
  function ShouldReuseExistingBranch(config: BranchConfig, snap: Snapshot, dryRun: bool): (run: Run)
    ensures |run.trace| > 0 && run.trace[0] == BranchExists(config.branchName)
    ensures !snap.branchExists ==> run == Run(Recreate, [BranchExists(config.branchName)])
    ensures run.verdict.reuseExistingBranch ==> snap.branchExists
    ensures run.verdict in {Recreate, RecreateUnmodified, Keep, KeepModified}
  {
    var name := config.branchName;
    if !snap.branchExists then Run(Recreate, [BranchExists(name)])
    else
      var lookedUp := [BranchExists(name), GetBranchPr(name)];
      var manual := ManualRebaseStep(snap.branchPr, config.rebaseLabel, dryRun);
      if manual.verdict.Some? then Run(manual.verdict.value, lookedUp + manual.trace)
      else
        var stale := StalenessStep(config, snap);
        if stale.verdict.Some? then Run(stale.verdict.value, lookedUp + stale.trace)
        else
          var conflict := ConflictStep(config, snap);
          var trace := lookedUp + stale.trace + conflict.trace;
          if conflict.verdict.Some? then Run(conflict.verdict.value, trace)
          else Run(StrategyVerdict(config.upgrades), trace)
  }
}
