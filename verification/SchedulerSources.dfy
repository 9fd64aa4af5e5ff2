/**
 Which Volcano source files are read and how much of each
 (internal/source/scheduler_sources.go). Walking the file system is an input.
 */
module SchedulerSources {
  import opened Prelude

  // ---- Who owns a plugin file -----------------------------------------------

  /** A directory by its path elements from the repository root. */
  type Directory = seq<string>

  const PLUGINS: Directory := ["pkg", "scheduler", "plugins"]

  /** A Go file below the plugins directory, with the hooks and plugin names found in it. */
  datatype PluginFile = PluginFile(
    path: string, directory: Directory, hooks: seq<string>, pluginNames: set<string>, content: string)

  datatype Candidate = Candidate(path: string, hooks: seq<string>, pluginNames: set<string>, content: string)

  predicate IsOwner(unit: Directory, directory: Directory, registered: set<Directory>) {
    PLUGINS <= unit <= directory && unit in registered
  }

  /** The walk upwards ends at the plugins directory and returns the deepest registered ancestor. */
  method NearestRegisteredPluginUnit(directory: Directory, registered: set<Directory>)
    returns (owner: Option<Directory>)
    ensures owner.None? ==> forall unit :: !IsOwner(unit, directory, registered)
    ensures owner.Some? ==> (
      && IsOwner(owner.value, directory, registered)
      && forall unit :: IsOwner(unit, directory, registered) ==> |unit| <= |owner.value|)
  {
    var unit := directory;
    while PLUGINS <= unit
      invariant unit <= directory
      invariant forall u :: IsOwner(u, directory, registered) ==> |u| <= |unit|
      decreases |unit|
    {
      if unit in registered {
        return Some(unit);
      }
      forall u | IsOwner(u, directory, registered) ensures |u| < |unit| {
        assert |u| == |unit| ==> u == unit;
      }
      if unit == PLUGINS {
        break;
      }
      unit := unit[..|unit| - 1];
    }
    forall u ensures !IsOwner(u, directory, registered) {
      if PLUGINS <= u <= directory && |u| <= |unit| {
        assert PLUGINS <= unit;
      }
    }
    return None;
  }

  /** Ancestors of one directory form a chain, so the deepest one is unique. */
  lemma DeepestOwnerIsUnique(directory: Directory, registered: set<Directory>, u: Directory, v: Directory)
    requires IsOwner(u, directory, registered) && IsOwner(v, directory, registered) && |u| == |v|
    ensures u == v
  {
  }

  /** The directories in which some file registers a hook. */
  function RegisteredUnits(files: seq<PluginFile>): set<Directory> {
    set f | f in files && f.hooks != [] :: f.directory
  }

  function PackageNames(files: seq<PluginFile>, directory: Directory): set<string> {
    set f, name | f in files && f.directory == directory && name in f.pluginNames :: name
  }

  /** The owner of a directory, as the walk finds it. */
  ghost predicate Owns(owner: Directory, directory: Directory, registered: set<Directory>) {
    && IsOwner(owner, directory, registered)
    && forall unit :: IsOwner(unit, directory, registered) ==> |unit| <= |owner|
  }

  /** The candidate made of a file of a registered plugin carries the plugin names of the owning directory. */
  ghost predicate Represents(c: Candidate, f: PluginFile, files: seq<PluginFile>) {
    && c.path == f.path && c.hooks == f.hooks && c.content == f.content
    && exists owner :: Owns(owner, f.directory, RegisteredUnits(files)) && c.pluginNames == PackageNames(files, owner)
  }

  method PackageTables(files: seq<PluginFile>) returns (registered: set<Directory>, names: map<Directory, set<string>>)
    ensures registered == RegisteredUnits(files)
    ensures forall d :: PackageNames(files, d) == if d in names then names[d] else {}
  {
    registered, names := {}, map[];
    for i := 0 to |files|
      invariant registered == RegisteredUnits(files[..i])
      invariant forall d :: PackageNames(files[..i], d) == if d in names then names[d] else {}
    {
      var file := files[i];
      assert files[..i + 1] == files[..i] + [file];
      forall d ensures PackageNames(files[..i + 1], d) ==
        PackageNames(files[..i], d) + if d == file.directory then file.pluginNames else {}
      {
      }
      var known := if file.directory in names then names[file.directory] else {};
      names := names[file.directory := known + file.pluginNames];
      if |file.hooks| > 0 {
        registered := registered + {file.directory};
      }
    }
    assert files[..|files|] == files;
  }

  /** Some file of the directory registers a hook, and the directory lies between the plugins and this one. */
  predicate Registers(files: seq<PluginFile>, unit: Directory, directory: Directory) {
    && ["pkg", "scheduler", "plugins"] <= unit <= directory
    && exists i :: 0 <= i < |files| && files[i].directory == unit && |files[i].hooks| > 0
  }

  /** The file's path, hooks and content, with the plugin names found in the deepest such directory. */
  ghost predicate IndexedAs(files: seq<PluginFile>, f: PluginFile, c: Candidate) {
    && c.path == f.path && c.hooks == f.hooks && c.content == f.content
    && exists unit :: Registers(files, unit, f.directory)
         && (forall u :: Registers(files, u, f.directory) ==> |u| <= |unit|)
         && forall name :: name in c.pluginNames <==>
              exists i :: 0 <= i < |files| && files[i].directory == unit && name in files[i].pluginNames
  }

  ghost predicate HasUnit(files: seq<PluginFile>, directory: Directory) {
    exists unit :: Registers(files, unit, directory)
  }

  /** Of the first `n` files, those below a registering directory make a candidate each, in order. */
  ghost predicate Indexes(files: seq<PluginFile>, n: nat, candidates: seq<Candidate>)
    requires n <= |files|
  {
    if n == 0 then candidates == []
    else if !HasUnit(files, files[n - 1].directory) then Indexes(files, n - 1, candidates)
    else
      var k := |candidates| - 1;
      k >= 0 && IndexedAs(files, files[n - 1], candidates[k]) && Indexes(files, n - 1, candidates[..k])
  }

  lemma RegistersIff(files: seq<PluginFile>, unit: Directory, directory: Directory)
    ensures Registers(files, unit, directory) <==> IsOwner(unit, directory, RegisteredUnits(files))
  {
    if unit in RegisteredUnits(files) {
      var f :| f in files && f.hooks != [] && f.directory == unit;
      var i :| 0 <= i < |files| && files[i] == f;
    }
  }

  lemma RepresentsIsIndexed(files: seq<PluginFile>, f: PluginFile, c: Candidate)
    requires Represents(c, f, files)
    ensures IndexedAs(files, f, c)
  {
    var unit :| Owns(unit, f.directory, RegisteredUnits(files)) && c.pluginNames == PackageNames(files, unit);
    forall u ensures Registers(files, u, f.directory) <==> IsOwner(u, f.directory, RegisteredUnits(files)) {
      RegistersIff(files, u, f.directory);
    }
    forall name | name in c.pluginNames
      ensures exists i :: 0 <= i < |files| && files[i].directory == unit && name in files[i].pluginNames
    {
      var g :| g in files && g.directory == unit && name in g.pluginNames;
      var i :| 0 <= i < |files| && files[i] == g;
    }
  }

  lemma OwnerIff(files: seq<PluginFile>, directory: Directory, owner: Option<Directory>)
    requires owner.None? ==> forall unit :: !IsOwner(unit, directory, RegisteredUnits(files))
    requires owner.Some? ==> IsOwner(owner.value, directory, RegisteredUnits(files))
    ensures owner.Some? <==> HasUnit(files, directory)
  {
    forall unit {
      RegistersIff(files, unit, directory);
    }
  }

  /** A plugin file is indexed exactly when some ancestor directory registers a hook, and once. */
  method DiscoverPluginSources(files: seq<PluginFile>) returns (candidates: seq<Candidate>)
    ensures Indexes(files, |files|, candidates)
  {
    var registered, names := PackageTables(files);
    candidates := [];
    for i := 0 to |files|
      invariant Indexes(files, i, candidates)
    {
      var file := files[i];
      var owner := NearestRegisteredPluginUnit(file.directory, registered);
      OwnerIff(files, file.directory, owner);
      if owner.None? {
        continue;
      }
      var candidate := Candidate(
        file.path, file.hooks, if owner.value in names then names[owner.value] else {}, file.content);
      assert Owns(owner.value, file.directory, registered);
      RepresentsIsIndexed(files, file, candidate);
      assert (candidates + [candidate])[..|candidates|] == candidates;
      candidates := candidates + [candidate];
    }
  }

  // ---- The content budget ---------------------------------------------------

  datatype SourceFile = SourceFile(path: string, hooks: seq<string>, pluginNames: set<string>, content: string)

  function Min(a: int, b: int): int {
    if a <= b then a else b
  }

  function Total(lengths: seq<nat>): nat {
    if lengths == [] then 0 else Total(lengths[..|lengths| - 1]) + lengths[|lengths| - 1]
  }

  /** Lengths that respect every file's own cap and the common total. */
  predicate Allowed(lengths: seq<nat>, caps: seq<nat>, total: nat) {
    && |lengths| == |caps| && (forall i :: 0 <= i < |caps| ==> lengths[i] <= caps[i])
    && Total(lengths) <= total
  }

  function Lengths(files: seq<SourceFile>): seq<nat> {
    seq(|files|, i requires 0 <= i < |files| => |files[i].content|)
  }

  /** What a file may contribute at most: the per-file limit or all of it. */
  function Caps(candidates: map<string, Candidate>, paths: seq<string>, perFile: nat): seq<nat>
    requires forall p <- paths :: p in candidates
  {
    seq(|paths|, i requires 0 <= i < |paths| => Min(perFile, |candidates[paths[i]].content|))
  }

  function Paths(files: seq<SourceFile>): seq<string> {
    seq(|files|, i requires 0 <= i < |files| => files[i].path)
  }

  /** A file is cut below its cap only when the budget is spent. */
  predicate Greedy(lengths: seq<nat>, caps: seq<nat>, total: nat) {
    && Allowed(lengths, caps, total)
    && forall i :: 0 <= i < |caps| && lengths[i] < caps[i] ==> Total(lengths[..i + 1]) == total
  }

  lemma {:induction false} TotalGrows(lengths: seq<nat>, i: nat, j: nat)
    requires i <= j <= |lengths|
    ensures Total(lengths[..i]) <= Total(lengths[..j])
    decreases j
  {
    if i < j {
      assert lengths[..j][..j - 1] == lengths[..j - 1];
      TotalGrows(lengths, i, j - 1);
    }
  }

  predicate FromCandidate(file: SourceFile, c: Candidate) {
    file.path == c.path && file.hooks == c.hooks && file.pluginNames == c.pluginNames && file.content <= c.content
  }

  datatype Error = BadPerFileLimit | BadTotalLimit

  lemma GreedyNext(lengths: seq<nat>, caps: seq<nat>, total: nat, length: nat, cap: nat)
    requires Greedy(lengths, caps, total) && Total(lengths) + length <= total && length <= cap
    requires length < cap ==> Total(lengths) + length == total
    ensures Greedy(lengths + [length], caps + [cap], total) && Total(lengths + [length]) == Total(lengths) + length
  {
    var more := lengths + [length];
    assert more[..|lengths|] == lengths && more[..|lengths| + 1] == more;
    forall i | 0 <= i < |caps| && lengths[i] < caps[i] ensures Total(more[..i + 1]) == total {
      assert more[..i + 1] == lengths[..i + 1];
    }
  }

  lemma LengthsNext(files: seq<SourceFile>, file: SourceFile)
    ensures Lengths(files + [file]) == Lengths(files) + [|file.content|]
  {
  }

  /** The first files are read as they must be. */
  predicate Spent(
    candidates: map<string, Candidate>, paths: seq<string>, perFile: nat, total: nat, files: seq<SourceFile>)
    requires forall p <- paths :: p in candidates
  {
    && |files| == |paths| && (forall j :: 0 <= j < |paths| ==> FromCandidate(files[j], candidates[paths[j]]))
    && Greedy(Lengths(files), Caps(candidates, paths, perFile), total)
  }

  lemma SpendNext(candidates: map<string, Candidate>, paths: seq<string>, perFile: nat, total: nat,
                  files: seq<SourceFile>, path: string, file: SourceFile)
    requires path in candidates && (forall p <- paths :: p in candidates)
      && Spent(candidates, paths, perFile, total, files)
    requires FromCandidate(file, candidates[path])
    requires |file.content| == Min(Min(perFile, total - Total(Lengths(files))), |candidates[path].content|)
    ensures (forall p <- paths + [path] :: p in candidates)
      && Spent(candidates, paths + [path], perFile, total, files + [file])
    ensures Total(Lengths(files + [file])) == Total(Lengths(files)) + |file.content| <= total
  {
    var cap := Min(perFile, |candidates[path].content|);
    GreedyNext(Lengths(files), Caps(candidates, paths, perFile), total, |file.content|, cap);
    LengthsNext(files, file);
    assert Caps(candidates, paths + [path], perFile) == Caps(candidates, paths, perFile) + [cap];
  }

  /** Reads the candidates in path order until the budget is spent; later files keep their path only. */
  method SpendBudget(candidates: map<string, Candidate>, paths: seq<string>, perFileLimit: nat, totalLimit: nat)
    returns (files: seq<SourceFile>)
    requires forall p <- paths :: p in candidates
    ensures Spent(candidates, paths, perFileLimit, totalLimit, files)
  {
    files := [];
    var remaining := totalLimit;
    for i := 0 to |paths|
      invariant Spent(candidates, paths[..i], perFileLimit, totalLimit, files)
      invariant remaining == totalLimit - Total(Lengths(files)) >= 0
    {
      assert paths[i] in paths && paths[..i + 1] == paths[..i] + [paths[i]];
      var candidate := candidates[paths[i]];
      var contentLimit := Min(Min(perFileLimit, remaining), |candidate.content|);
      var file := SourceFile(candidate.path, candidate.hooks, candidate.pluginNames, candidate.content[..contentLimit]);
      SpendNext(candidates, paths[..i], perFileLimit, totalLimit, files, paths[i], file);
      files := files + [file];
      remaining := remaining - contentLimit;
    }
    assert paths[..|paths|] == paths;
  }

  /** The part of `LoadSchedulerSources` after discovery. */
  method BoundContents(candidates: map<string, Candidate>, perFileLimit: int, totalLimit: int)
    returns (result: Result<seq<SourceFile>, Error>)
    requires forall path <- candidates :: candidates[path].path == path
    ensures result.Err? <==> perFileLimit <= 0 || totalLimit <= 0
    ensures result.Ok? ==> (
      var paths := Paths(result.value);
      && StrictlySorted(paths) && (forall path :: path in paths <==> path in candidates)
      && (forall i :: 0 <= i < |paths| ==> FromCandidate(result.value[i], candidates[paths[i]]))
      && Greedy(Lengths(result.value), Caps(candidates, paths, perFileLimit), totalLimit))
    ensures result.Ok? ==> forall i :: 0 <= i < |result.value| ==> (
      var file := result.value[i];
      && file.path in candidates
      && file.hooks == candidates[file.path].hooks && file.pluginNames == candidates[file.path].pluginNames
      && file.content <= candidates[file.path].content && |file.content| <= perFileLimit)
  {
    if perFileLimit <= 0 {
      return Err(BadPerFileLimit);
    }
    if totalLimit <= 0 {
      return Err(BadTotalLimit);
    }
    var paths := SortedKeys(candidates.Keys);
    var files := SpendBudget(candidates, paths, perFileLimit, totalLimit);
    assert Paths(files) == paths;
    forall i | 0 <= i < |files| ensures |files[i].content| <= perFileLimit && files[i].path in candidates {
      assert Lengths(files)[i] <= Caps(candidates, paths, perFileLimit)[i];
      assert Paths(files)[i] in paths;
    }
    return Ok(files);
  }

  // ---- What greedy means ----------------------------------------------------

  lemma PrefixIsGreedy(lengths: seq<nat>, caps: seq<nat>, total: nat)
    requires Greedy(lengths, caps, total) && caps != []
    ensures Greedy(lengths[..|caps| - 1], caps[..|caps| - 1], total)
  {
    var n := |caps| - 1;
    forall i | 0 <= i < n && lengths[i] < caps[i] ensures Total(lengths[..n][..i + 1]) == total {
      assert lengths[..n][..i + 1] == lengths[..i + 1];
    }
  }

  /** The budget is spent as far as the files allow. */
  lemma {:induction false} GreedySpendsAll(lengths: seq<nat>, caps: seq<nat>, total: nat)
    requires Greedy(lengths, caps, total)
    ensures Total(lengths) == Min(total, Total(caps))
  {
    if caps != [] {
      var n := |caps| - 1;
      PrefixIsGreedy(lengths, caps, total);
      GreedySpendsAll(lengths[..n], caps[..n], total);
      assert lengths[..n + 1] == lengths;
    }
  }

  /** Every earlier file comes first: among all allowed allocations no prefix of the files gets more. */
  lemma {:induction false} GreedyFavoursEarlierFiles(
    lengths: seq<nat>, other: seq<nat>, caps: seq<nat>, total: nat, n: nat)
    requires Greedy(lengths, caps, total) && Allowed(other, caps, total) && n <= |caps|
    ensures Total(other[..n]) <= Total(lengths[..n])
  {
    if n > 0 {
      GreedyFavoursEarlierFiles(lengths, other, caps, total, n - 1);
      assert lengths[..n][..n - 1] == lengths[..n - 1] && other[..n][..n - 1] == other[..n - 1];
      if lengths[n - 1] < caps[n - 1] {
        TotalGrows(other, n, |other|);
        assert other[..|other|] == other;
      }
    }
  }

  /** Hence the contract above fixes every content length. */
  lemma GreedyIsDetermined(lengths: seq<nat>, other: seq<nat>, caps: seq<nat>, total: nat, i: nat)
    requires Greedy(lengths, caps, total) && Greedy(other, caps, total) && i < |caps|
    ensures lengths[i] == other[i]
  {
    GreedyFavoursEarlierFiles(lengths, other, caps, total, i);
    GreedyFavoursEarlierFiles(other, lengths, caps, total, i);
    GreedyFavoursEarlierFiles(lengths, other, caps, total, i + 1);
    GreedyFavoursEarlierFiles(other, lengths, caps, total, i + 1);
    assert lengths[..i + 1][..i] == lengths[..i] && other[..i + 1][..i] == other[..i];
  }

  /** After a file that was cut, contents are empty. */
  lemma NothingAfterACut(lengths: seq<nat>, caps: seq<nat>, total: nat, i: nat, j: nat)
    requires Greedy(lengths, caps, total) && i < j < |caps| && lengths[i] < caps[i]
    ensures lengths[j] == 0
  {
    TotalGrows(lengths, i + 1, j);
    TotalGrows(lengths, j + 1, |lengths|);
    assert lengths[..j + 1][..j] == lengths[..j] && lengths[..|lengths|] == lengths;
  }
}
