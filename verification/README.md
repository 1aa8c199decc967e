# Branch reuse decision and trailing-slash helpers

This project models, in Dafny, two parts of Renovate:

- `shouldReuseExistingBranch` (`lib/workers/branch/reuse.ts`). On each run it
  decides whether an existing upgrade branch is kept as it is, kept but flagged
  as modified by a user, or discarded and recreated. It is an ordered chain of
  guards, and the first guard that fires decides:
  1. the branch does not exist;
  2. a manual rebase request on the pull request, checked in this order: a
     `rebase!` title, a ticked rebase checkbox in the body, the rebase label;
  3. staleness, behind the `rebaseWhen` / automerge / repository force-rebase gate;
  4. a conflicted pull request;
  5. some package file mixes `update-lockfile` with another range strategy;
  6. the default verdict.
- `ensureTrailingSlash` and `trimTrailingSlash` (`lib/util/url.ts`). These are
  regular-expression rewrites of a string's trailing slashes.

Files:

- `wrappers.dfy` defines `Option`.
- `url.dfy` holds the two slash helpers. It also gives a declarative account of
  what an end-anchored `replace` does: the leftmost index whose tail matches is
  replaced.
- `upgrades.dfy` groups the upgrades by package file. It holds the source's
  early-returning grouping loop twice: as the function `MixedFrom`, which the
  decision runs, and as the imperative method `DetectMixedLockfile`. Both are
  proved equal to the declarative condition `HasMixedLockfileGroup`.
- `reuse.dfy` holds the decision. Each guard is a step function that returns
  an optional verdict and the effects it issued. `ShouldReuseExistingBranch`
  chains the steps.
- `reuse_properties.dfy` holds the properties of the whole decision.

The git and platform lookups are not called. Their answers are fields of an
immutable `Snapshot`:

- `branchExists`
- `getBranchPr`
- `isBranchStale`
- `isBranchModified`
- `getRepoForceRebase`

The global `dryRun` setting is a boolean parameter. A run returns a verdict
and a trace. The trace lists every lookup the source would issue, in order,
plus the one side effect, `deleteLabel(pr.number, rebaseLabel)`.

Only the range-strategy guard returns a recreate verdict that carries
`isModified`, namely `{ reuseExistingBranch: false, isModified: false }`
(lib/workers/branch/reuse.ts:110-113). `ReuseProperties.VerdictShape` states
exactly when that shape occurs.

## Model

| member | source | states |
|---|---|---|
| Url.EnsureTrailingSlash | lib/util/url.ts:19-21 | the result ends with `/`, starts with the input, and is at most one character longer |
| Url.EnsureTrailingSlashCases | lib/util/url.ts:20 | an input already ending in `/` is returned unchanged; any other input gets exactly one `/` appended; `""` becomes `"/"` |
| Url.OptionalSlashAlwaysMatches | lib/util/url.ts:20 | `\/?$` always matches; its leftmost match starts at the final slash if there is one, and at the end of the string otherwise |
| Url.EnsureTrailingSlashReplacesMatch | lib/util/url.ts:20 | the function equals replacing the leftmost match of `\/?$` with `/` |
| Url.EnsureTrailingSlashIdempotent | lib/util/url.ts:19-21 | applying it twice equals applying it once |
| Url.TrimTrailingSlash | lib/util/url.ts:23-25 | the result never ends with `/`; it is a prefix of the input; every removed character is `/` |
| Url.TrimTrailingSlashUnique | lib/util/url.ts:24 | any prefix that does not end with `/` and leaves only slashes behind is the result, so the maximal run of trailing slashes is removed |
| Url.TrimTrailingSlashReplacesMatch | lib/util/url.ts:24 | the function equals deleting the leftmost match of `\/+$` |
| Url.TrimTrailingSlashWithoutMatch | lib/util/url.ts:24 | when `\/+$` does not match, the input is returned unchanged |
| Url.TrimTrailingSlashIdempotent | lib/util/url.ts:23-25 | applying it twice equals applying it once |
| Url.TrimAfterEnsure | lib/util/url.ts:19-25 | trimming after ensuring a slash gives the same as trimming alone |
| Url.EnsureAfterTrim | lib/util/url.ts:19-25 | trimming then ensuring leaves exactly one trailing slash after the trimmed string |
| Upgrades.GroupedIsStrategiesFor | lib/workers/branch/reuse.ts:97-101 | the record built upgrade by upgrade has exactly the package files of the upgrades as keys, and maps each to exactly its set of distinct strategies |
| Upgrades.MixedFromMatches | lib/workers/branch/reuse.ts:98-115 | `MixedFrom`, the loop as a function, started from the record of a prefix in which no group mixes, stops with true iff some package file of the whole list receives more than one distinct strategy including `update-lockfile` |
| Upgrades.DetectMixedLockfile | lib/workers/branch/reuse.ts:97-115 | the early-returning grouping loop returns true iff some package file receives more than one distinct range strategy and one of them is `update-lockfile` |
| Upgrades.LockfileWithBumpIsMixed | lib/workers/branch/reuse.ts:103-106 | `update-lockfile` and `bump` on one package file trigger the guard |
| Upgrades.BumpWithPinIsNotMixed | lib/workers/branch/reuse.ts:103-106 | `bump` and `pin` on one package file do not trigger the guard |
| Reuse.ManualRebaseStep | lib/workers/branch/reuse.ts:27-48 | it decides iff a PR exists and its title, body or labels request a rebase; the verdict is always `{ reuseExistingBranch: false }`; its only possible effect is deleting the rebase label from that PR |
| Reuse.StalenessStep | lib/workers/branch/reuse.ts:50-71 | it decides iff the gate passes and the branch is stale: modified gives keep-and-flag, unmodified gives recreate; force-rebase is looked up iff `rebaseWhen = auto` with automerge off; staleness is looked up iff the gate passes; modification is looked up iff it decides |
| Reuse.ConflictStep | lib/workers/branch/reuse.ts:73-89 | it decides iff the PR is conflicted and the branch unmodified: `never` keeps, anything else recreates; modification is looked up iff the PR is conflicted |
| Reuse.StrategyVerdict | lib/workers/branch/reuse.ts:97-117 | running the early-returning loop over the upgrades, the branch is recreated iff some package file mixes `update-lockfile` with another strategy, and kept by default otherwise; either way `isModified` is `false` |
| Reuse.ShouldReuseExistingBranch | lib/workers/branch/reuse.ts:13-118 | the existence lookup comes first; a missing branch gives `{ reuseExistingBranch: false }` after that lookup alone; reuse never happens for a missing branch; the verdict is one of the four shapes the source returns |
| ReuseProperties.MissingBranchLooksUpNothingElse | lib/workers/branch/reuse.ts:18-21 | a missing branch gives a verdict without `isModified`, and no PR, staleness, modification or conflict lookup |
| ReuseProperties.ManualRebaseWins | lib/workers/branch/reuse.ts:27-35 | a `rebase!` title or a ticked checkbox recreates the branch whatever the staleness, conflict, label and upgrade state; no lookup follows and no label is deleted |
| ReuseProperties.RebaseLabelDeletedOnce | lib/workers/branch/reuse.ts:36-47 | with only the label request present, the branch is recreated, the trace is exactly the existence and PR lookups followed by `deleteLabel(pr.number, rebaseLabel)` outside dry-run, so the deletion is issued once, or zero times in dry-run; no other deletion is issued |
| ReuseProperties.LabelDeletedOnlyOnLabelRequest | lib/workers/branch/reuse.ts:36-47 | some label is deleted iff the branch exists, the run is not a dry run, and the label request is the first manual request present |
| ReuseProperties.DryRunOnlySuppressesDeletion | lib/workers/branch/reuse.ts:39-45 | dry-run never changes the verdict; the only difference it makes to the trace is the final label deletion |
| ReuseProperties.ForceRebaseLookupIff | lib/workers/branch/reuse.ts:50-54 | the repository force-rebase setting is looked up iff the gate is reached with `rebaseWhen = auto` and automerge off |
| ReuseProperties.StaleLookupIff | lib/workers/branch/reuse.ts:50-55 | staleness is looked up iff the gate is reached and `rebaseWhen = behind-base-branch`, or `auto` with automerge or force-rebase |
| ReuseProperties.ModifiedLookupIff | lib/workers/branch/reuse.ts:55-77 | the modification lookup is issued iff the staleness gate is reached and passes on a stale branch, or the conflict check is reached with a conflicted PR; a manual-rebase request skips it |
| ReuseProperties.ModifiedLookupAtMostOnce | lib/workers/branch/reuse.ts:58-77 | the modification lookup appears at most once in any run, although the source calls it from two places |
| ReuseProperties.StaleBranchVerdict | lib/workers/branch/reuse.ts:55-65 | once the gate passes on a stale branch, a modified branch gives `{ true, isModified: true }` and an unmodified one gives `{ false }` |
| ReuseProperties.ConflictVerdict | lib/workers/branch/reuse.ts:74-89 | with no earlier verdict and a conflicted PR: an unmodified branch is kept under `never` and recreated otherwise; a modified branch falls through to the range-strategy guard |
| ReuseProperties.StrategyGuardVerdict | lib/workers/branch/reuse.ts:97-117 | with no earlier verdict: the verdict is `{ false, isModified: false }` iff some package file mixes `update-lockfile` with another strategy, and `{ true, isModified: false }` otherwise |
| ReuseProperties.ModifiedFlagOnlyFromStaleness | lib/workers/branch/reuse.ts:61 | `isModified: true` occurs iff the staleness gate is reached and passes on a stale, modified branch |
| ReuseProperties.VerdictShape | lib/workers/branch/reuse.ts:110-117 | a reused branch always carries `isModified`; a recreated branch carries it iff the range-strategy guard decided |
| ReuseProperties.BehindBaseBranchExamples | lib/workers/branch/reuse.ts:50-65 | with `behind-base-branch`, no PR and a stale branch: modified gives keep-and-flag, unmodified gives recreate |

## Left out

- Logging is left out (`logger.debug` and `logger.info`, including the dry-run notice). It has no effect on the verdict.
- The git and platform calls are not modelled: `branchExists`, `isBranchStale`, `isBranchModified`, `platform.getBranchPr`, `platform.getRepoForceRebase` and `platform.deleteLabel`. They are I/O. Their answers are `Snapshot` fields, and the deletion is a recorded `Effect`.
- Failures of these calls are not modelled. The source awaits them without catching, so a failure propagates to the caller. The model records only that a call was issued.
- `GlobalConfig.get('dryRun')` is a global lookup. It is the `dryRun` parameter.
- `rebaseWhen` is a closed enumeration of `auto`, `never`, `conflicted` and `behind-base-branch`. The source compares strings, and any value other than `auto`, `never` and `behind-base-branch` behaves like `conflicted` here.
- `pr.isConflicted` is optional in the source. An absent flag reads as false, which is its truthiness.
- `groupedByPackageFile` is a plain object. A package file named after an inherited property, such as `constructor`, would find a non-Set value there. That JavaScript prototype quirk is not modelled: the model's map starts empty for every key.
- The second run's view of a deleted label is not modelled. A deletion changes the platform state that a later run would see. Running the decision twice on an identical snapshot gives an identical run, because Dafny functions are deterministic, so no lemma states it.
- The rest of `lib/util/url.ts` is left out: `joinUrlParts`, `ensurePathPrefix`, `resolveBaseUrl`, `getQueryString`, `validateUrl`, `parseUrl`, `createURLFromHostOrURL` and `parseLinkHeader`. They wrap the WHATWG `URL` parser, `url-join`, `URLSearchParams` and `parse-link-header`, and none of those is part of this model.
- The re2 regular-expression engine is left out: its caveat on `ensureTrailingSlash`, and the `regEx` wrapper `trimTrailingSlash` uses. Both engines anchor a non-multiline `$` at the end of the text, and the model follows that plain end-anchored semantics.
