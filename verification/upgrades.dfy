/** The upgrades of one branch and the "mixed range strategies with
    update-lockfile" guard of `lib/workers/branch/reuse.ts`. */
module Upgrades {

  /** The range strategy that only refreshes the lockfile. */
  const UpdateLockfile: string := "update-lockfile"

  datatype Upgrade = Upgrade(packageFile: string, rangeStrategy: string)

  /** The distinct range strategies the upgrades apply to one package file. */
  function StrategiesFor(upgrades: seq<Upgrade>, packageFile: string): set<string> {
    set u | u in upgrades && u.packageFile == packageFile :: u.rangeStrategy
  }

  function PackageFiles(upgrades: seq<Upgrade>): set<string> {
    set u | u in upgrades :: u.packageFile
  }

  /** More than one strategy, one of which is update-lockfile. */
  predicate MixesLockfile(strategies: set<string>) {
    |strategies| > 1 && UpdateLockfile in strategies
  }

  /** Some package file receives update-lockfile together with another strategy. */
  predicate HasMixedLockfileGroup(upgrades: seq<Upgrade>) {
    exists u :: u in upgrades && MixesLockfile(StrategiesFor(upgrades, u.packageFile))
  }

  /** The record the source's loop builds, upgrade by upgrade: each package
      file seen so far mapped to the set of strategies added for it. */
  function Grouped(upgrades: seq<Upgrade>): map<string, set<string>>
    decreases |upgrades|
  {
    if upgrades == [] then map[]
    else Record(Grouped(upgrades[..|upgrades| - 1]), upgrades[|upgrades| - 1])
  }

  /** One pass of the loop body: start an empty set for a new package file, then add the
      upgrade's strategy to its file's set. */
  function Record(grouped: map<string, set<string>>, u: Upgrade): map<string, set<string>> {
    grouped[u.packageFile := (if u.packageFile in grouped then grouped[u.packageFile] else {}) + {u.rangeStrategy}]
  }

  lemma StrategiesForAppend(upgrades: seq<Upgrade>, u: Upgrade, f: string)
    ensures StrategiesFor(upgrades + [u], f)
         == StrategiesFor(upgrades, f) + (if u.packageFile == f then {u.rangeStrategy} else {})
  {
  }

  lemma PackageFilesAppend(upgrades: seq<Upgrade>, u: Upgrade)
    ensures PackageFiles(upgrades + [u]) == PackageFiles(upgrades) + {u.packageFile}
  {
  }

  /** The incrementally built record holds exactly the package files of the
      upgrades, each with exactly its distinct strategies. */
  lemma {:induction false} GroupedIsStrategiesFor(upgrades: seq<Upgrade>)
    ensures Grouped(upgrades).Keys == PackageFiles(upgrades)
    ensures forall f :: f in Grouped(upgrades) ==> Grouped(upgrades)[f] == StrategiesFor(upgrades, f)
    decreases |upgrades|
  {
    if upgrades != [] {
      var prefix := upgrades[..|upgrades| - 1];
      var u := upgrades[|upgrades| - 1];
      assert upgrades == prefix + [u];
      GroupedIsStrategiesFor(prefix);
      PackageFilesAppend(prefix, u);
      forall f | f in Grouped(upgrades)
        ensures Grouped(upgrades)[f] == StrategiesFor(upgrades, f)
      {
        StrategiesForAppend(prefix, u, f);
        if f == u.packageFile && f !in Grouped(prefix) {
          assert StrategiesFor(prefix, f) == {};
        }
      }
    }
  }

  lemma StrategiesForGrow(upgrades: seq<Upgrade>, i: nat, f: string)
    requires i <= |upgrades|
    ensures StrategiesFor(upgrades[..i], f) <= StrategiesFor(upgrades, f)
  {
  }

  lemma MixesLockfileGrows(small: set<string>, large: set<string>)
    requires small <= large && MixesLockfile(small)
    ensures MixesLockfile(large)
  {
    assert large == small + (large - small);
  }

  /** One iteration of the loop extends the record of the prefix by the next upgrade. */
  lemma GroupedNext(upgrades: seq<Upgrade>, i: nat)
    requires i < |upgrades|
    ensures Grouped(upgrades[..i + 1]) == Record(Grouped(upgrades[..i]), upgrades[i])
  {
    assert upgrades[..i + 1][..i] == upgrades[..i];
  }

  /** A package file whose recorded strategies already mix in a prefix still
      mixes in the whole list. */
  lemma MixedPrefixMixesWhole(upgrades: seq<Upgrade>, i: nat, f: string)
    requires i <= |upgrades| && f in Grouped(upgrades[..i]) && MixesLockfile(Grouped(upgrades[..i])[f])
    ensures HasMixedLockfileGroup(upgrades)
  {
    GroupedIsStrategiesFor(upgrades[..i]);
    var v :| v in upgrades[..i] && v.packageFile == f;
    StrategiesForGrow(upgrades, i, f);
    MixesLockfileGrows(StrategiesFor(upgrades[..i], f), StrategiesFor(upgrades, f));
    assert v in upgrades;
  }

  /** No group of the complete record mixes, so no package file does. */
  lemma UnmixedGroupingHasNoMixedGroup(upgrades: seq<Upgrade>)
    requires forall f :: f in Grouped(upgrades) ==> !MixesLockfile(Grouped(upgrades)[f])
    ensures !HasMixedLockfileGroup(upgrades)
  {
    GroupedIsStrategiesFor(upgrades);
    forall u | u in upgrades
      ensures !MixesLockfile(StrategiesFor(upgrades, u.packageFile))
    {
      assert u.packageFile in PackageFiles(upgrades);
    }
  }

  /** The loop of the source as a function, continued from the record of the
      upgrades already processed: it stops with true right after the first
      upgrade whose package file's strategies then mix update-lockfile with
      another one, and gives false when the upgrades run out. */
  function MixedFrom(grouped: map<string, set<string>>, rest: seq<Upgrade>): bool
    decreases |rest|
  {
    if rest == [] then false
    else
      var next := Record(grouped, rest[0]);
      var strategies := next[rest[0].packageFile];
      if |strategies| > 1 && UpdateLockfile in strategies then true
      else MixedFrom(next, rest[1..])
  }

  /** Continuing the loop from a record of a prefix in which no group mixes
      finds a mix exactly when some package file of the whole list mixes. */
  lemma {:induction false} MixedFromMatches(upgrades: seq<Upgrade>, i: nat, grouped: map<string, set<string>>)
    requires i <= |upgrades| && grouped == Grouped(upgrades[..i])
    requires forall f :: f in grouped ==> !MixesLockfile(grouped[f])
    ensures MixedFrom(grouped, upgrades[i..]) <==> HasMixedLockfileGroup(upgrades)
    decreases |upgrades| - i
  {
    if i == |upgrades| {
      assert upgrades[..i] == upgrades;
      UnmixedGroupingHasNoMixedGroup(upgrades);
    } else {
      var u := upgrades[i];
      assert upgrades[i..][1..] == upgrades[i + 1..];
      GroupedNext(upgrades, i);
      var next := Record(grouped, u);
      if MixesLockfile(next[u.packageFile]) {
        MixedPrefixMixesWhole(upgrades, i + 1, u.packageFile);
      } else {
        MixedFromMatches(upgrades, i + 1, next);
      }
    }
  }

  /** The loop of the source: record each upgrade's strategy under its package
      file and return as soon as the current file's strategies mix
      update-lockfile with another one. */
  method DetectMixedLockfile(upgrades: seq<Upgrade>) returns (found: bool)
    ensures found <==> HasMixedLockfileGroup(upgrades)
  {
    var grouped: map<string, set<string>> := map[];
    for i := 0 to |upgrades|
      invariant grouped == Grouped(upgrades[..i])
      invariant forall f :: f in grouped ==> !MixesLockfile(grouped[f])
    {
      var upgrade := upgrades[i];
      GroupedNext(upgrades, i);
      grouped := Record(grouped, upgrade);
      var strategies := grouped[upgrade.packageFile];
      if |strategies| > 1 && UpdateLockfile in strategies {
        MixedPrefixMixesWhole(upgrades, i + 1, upgrade.packageFile);
        return true;
      }
    }
    assert upgrades[..|upgrades|] == upgrades;
    UnmixedGroupingHasNoMixedGroup(upgrades);
    return false;
  }

  /** update-lockfile and bump on one package file trigger the guard. */
  lemma LockfileWithBumpIsMixed(file: string)
    ensures HasMixedLockfileGroup([Upgrade(file, UpdateLockfile), Upgrade(file, "bump")])
  {
    var ups := [Upgrade(file, UpdateLockfile), Upgrade(file, "bump")];
    assert StrategiesFor(ups, file) == {UpdateLockfile, "bump"} by {
      assert ups[0] in ups && ups[1] in ups;
    }
    assert ups[0] in ups;
  }

  /** bump and pin on one package file, without update-lockfile, do not. */
  lemma BumpWithPinIsNotMixed(file: string)
    ensures !HasMixedLockfileGroup([Upgrade(file, "bump"), Upgrade(file, "pin")])
  {
  }
}
