/**
 The static import closure of the reachability report (`resolveSpec`, `closure` and the classification in
 scripts/report-cloud-reachability.js). A disk says which paths are files and which specifiers a file's text contains;
 path resolution itself is a parameter.
 */
module Closure {
  import opened Prelude

  datatype Disk = Disk(files: set<string>, specs: map<string, seq<string>>, cloud: string,
    base: (string, string) -> string)

  /** Every file has been scanned for specifiers. */
  ghost predicate Scanned(d: Disk) {
    d.files <= d.specs.Keys
  }

  /** `file` is the first candidate that is a file; None when no candidate is one. */
  ghost predicate IsFirstFile(d: Disk, candidates: seq<string>, file: Option<string>) {
    if file.None? then forall k :: 0 <= k < |candidates| ==> candidates[k] !in d.files
    else
      exists k :: 0 <= k < |candidates| && candidates[k] == file.value && file.value in d.files
        && forall j :: 0 <= j < k ==> candidates[j] !in d.files
  }

  function FirstFile(d: Disk, candidates: seq<string>): (file: Option<string>)
    ensures IsFirstFile(d, candidates, file)
  {
    if candidates == [] then None
    else if candidates[0] in d.files then Some(candidates[0])
    else FirstFile(d, candidates[1..])
  }

  /** The files a specifier may mean, best first; a package name means none. */
  function Candidates(d: Disk, from: string, spec: string): seq<string> {
    if !("." <= spec) then []
    else
      var base := d.base(from, spec);
      [base + ".ts", base + ".tsx", base + "/index.ts", base]
  }

  /** The file a relative specifier means; None for a package name or a missing file. */
  function ResolveSpec(d: Disk, from: string, spec: string): (file: Option<string>)
    ensures IsFirstFile(d, Candidates(d, from, spec), file)
    ensures file.Some? ==> file.value in d.files && "." <= spec
  {
    FirstFile(d, Candidates(d, from, spec))
  }

  /** A relative specifier means a module before a component, before the index of a directory, before the bare path. */
  lemma SpecMeans(d: Disk, from: string, spec: string, file: string)
    ensures ResolveSpec(d, from, spec) == Some(file) <==>
      && |spec| > 0 && spec[0] == '.' && file in d.files
      && var base := d.base(from, spec);
      || file == base + ".ts"
      || (file == base + ".tsx" && base + ".ts" !in d.files)
      || (file == base + "/index.ts" && base + ".ts" !in d.files && base + ".tsx" !in d.files)
      || (file == base && base + ".ts" !in d.files && base + ".tsx" !in d.files && base + "/index.ts" !in d.files)
  {
    var base := d.base(from, spec);
    var all := [base + ".ts", base + ".tsx", base + "/index.ts", base];
    if "." <= spec {
      var two, one := [base + "/index.ts", base], [base];
      assert all[1..] == [base + ".tsx"] + two && all[1..][1..] == two && two[1..] == one && one[1..] == [];
      assert FirstFile(d, one) == if base in d.files then Some(base) else None;
      assert FirstFile(d, two) == if two[0] in d.files then Some(two[0]) else FirstFile(d, one);
      assert FirstFile(d, all[1..]) == if all[1] in d.files then Some(all[1]) else FirstFile(d, two);
    }
  }

  /** A file imports a cloud file when one of its specifiers resolves to it. */
  ghost predicate Imports(d: Disk, from: string, target: string) {
    && from in d.files && from in d.specs && d.cloud <= target
    && exists k :: 0 <= k < |d.specs[from]| && ResolveSpec(d, from, d.specs[from][k]) == Some(target)
  }

  ghost predicate ImportChain(d: Disk, p: seq<string>) {
    |p| > 0 && p[0] in d.files && forall k :: 0 <= k < |p| - 1 ==> Imports(d, p[k], p[k + 1])
  }

  /** A file that a chain of imports leads to from an existing start file. */
  ghost predicate Reachable(d: Disk, starts: seq<string>, file: string) {
    exists p :: ImportChain(d, p) && p[0] in starts && p[|p| - 1] == file
  }

  lemma ReachableStart(d: Disk, starts: seq<string>, file: string)
    requires file in starts && file in d.files
    ensures Reachable(d, starts, file)
  {
    assert ImportChain(d, [file]) && [file][0] == file;
  }

  lemma ReachableImport(d: Disk, starts: seq<string>, file: string, target: string)
    requires Reachable(d, starts, file) && Imports(d, file, target)
    ensures Reachable(d, starts, target)
  {
    var p :| ImportChain(d, p) && p[0] in starts && p[|p| - 1] == file;
    var q := p + [target];
    assert ImportChain(d, q) by {
      forall k | 0 <= k < |q| - 1 ensures Imports(d, q[k], q[k + 1]) {
        assert k < |p| - 1 ==> Imports(d, p[k], p[k + 1]);
      }
    }
    assert q[0] in starts && q[|q| - 1] == target;
  }

  /** A set that contains the existing start files and everything its files import. */
  ghost predicate ClosedUnderImports(d: Disk, starts: seq<string>, files: set<string>) {
    && (forall f :: f in starts && f in d.files ==> f in files)
    && forall f, g :: f in files && Imports(d, f, g) ==> g in files
  }

  /** Reachable files belong to every closed set. */
  lemma {:induction false} ChainStaysInside(d: Disk, starts: seq<string>, files: set<string>, p: seq<string>)
    requires ClosedUnderImports(d, starts, files) && ImportChain(d, p) && p[0] in starts
    ensures p[|p| - 1] in files
    decreases |p|
  {
    if |p| > 1 {
      var n := |p| - 1;
      assert ImportChain(d, p[..n]) by {
        forall k | 0 <= k < n - 1 ensures Imports(d, p[..n][k], p[..n][k + 1]) {
          assert Imports(d, p[k], p[k + 1]);
        }
      }
      ChainStaysInside(d, starts, files, p[..n]);
      assert Imports(d, p[n - 1], p[n]);
    }
  }

  lemma ReachableStaysInside(d: Disk, starts: seq<string>, files: set<string>, file: string)
    requires ClosedUnderImports(d, starts, files) && Reachable(d, starts, file)
    ensures file in files
  {
    var p :| ImportChain(d, p) && p[0] in starts && p[|p| - 1] == file;
    ChainStaysInside(d, starts, files, p);
  }

  /** Pending paths are existing files to be reached, or start paths that may not exist. */
  ghost predicate Justified(d: Disk, starts: seq<string>, paths: seq<string>) {
    forall k :: 0 <= k < |paths| && paths[k] in d.files ==> Reachable(d, starts, paths[k])
  }

  /** Nothing is forgotten: start files and imports of seen files are seen or pending. */
  ghost predicate Covered(d: Disk, starts: seq<string>, seen: set<string>, stack: seq<string>) {
    && (forall f :: f in starts && f in d.files ==> f in seen || f in stack)
    && forall f, g :: f in seen && Imports(d, f, g) ==> g in seen || g in stack
  }

  /** One of the first `k` specifiers of a file resolves to the cloud file `target`. */
  ghost predicate SpecNames(d: Disk, from: string, k: nat, target: string)
    requires from in d.specs && k <= |d.specs[from]|
  {
    d.cloud <= target && exists j :: 0 <= j < k && ResolveSpec(d, from, d.specs[from][j]) == Some(target)
  }

  lemma OneMoreSpec(d: Disk, from: string, k: nat, target: string)
    requires from in d.specs && k < |d.specs[from]|
    ensures SpecNames(d, from, k + 1, target) <==>
      SpecNames(d, from, k, target) || (d.cloud <= target && ResolveSpec(d, from, d.specs[from][k]) == Some(target))
  {
    hide ResolveSpec;
  }

  /** What scanning a file pushes, in order. */
  method Targets(d: Disk, file: string) returns (targets: seq<string>)
    requires Scanned(d) && file in d.files
    ensures forall g :: g in targets <==> Imports(d, file, g)
  {
    hide ResolveSpec;
    targets := [];
    var k := 0;
    while k < |d.specs[file]|
      invariant 0 <= k <= |d.specs[file]|
      invariant forall g :: g in targets <==> SpecNames(d, file, k, g)
    {
      hide SpecNames;
      var target := ResolveSpec(d, file, d.specs[file][k]);
      forall g
        ensures SpecNames(d, file, k + 1, g) <==> SpecNames(d, file, k, g) || (d.cloud <= g && target == Some(g))
      {
        OneMoreSpec(d, file, k, g);
      }
      if target.Some? && d.cloud <= target.value {
        targets := targets + [target.value];
      }
      k := k + 1;
    }
  }

  lemma StartsArePending(d: Disk, starts: seq<string>)
    ensures Justified(d, starts, starts) && Covered(d, starts, {}, starts)
  {
    hide Imports, Reachable;
    forall k | 0 <= k < |starts| && starts[k] in d.files ensures Reachable(d, starts, starts[k]) {
      ReachableStart(d, starts, starts[k]);
    }
  }

  /** Dropping a path that was seen or is no file forgets nothing. */
  lemma SkipKeeps(d: Disk, starts: seq<string>, seen: set<string>, stack: seq<string>, file: string)
    requires Justified(d, starts, stack + [file]) && Covered(d, starts, seen, stack + [file])
    requires file in seen || file !in d.files
    ensures Justified(d, starts, stack) && Covered(d, starts, seen, stack)
  {
    hide Reachable;
    var before := stack + [file];
    assert forall k :: 0 <= k < |stack| ==> before[k] == stack[k];
    forall f | f in before && f in d.files ensures f in stack || f in seen {
    }
    assert forall f, g :: Imports(d, f, g) ==> g in d.files;
    hide Imports;
  }

  /** Visiting a file makes its imports pending. */
  lemma VisitKeeps(
    d: Disk, starts: seq<string>, seen: set<string>, stack: seq<string>, file: string, targets: seq<string>)
    requires Justified(d, starts, stack + [file]) && Covered(d, starts, seen, stack + [file]) && file in d.files
    requires forall g :: g in targets <==> Imports(d, file, g)
    ensures Reachable(d, starts, file)
    ensures Justified(d, starts, stack + targets) && Covered(d, starts, seen + {file}, stack + targets)
  {
    hide Imports, Reachable;
    var before, after := stack + [file], stack + targets;
    assert before[|stack|] == file;
    assert forall k :: 0 <= k < |stack| ==> before[k] == stack[k];
    forall g | g in targets ensures Reachable(d, starts, g) {
      ReachableImport(d, starts, file, g);
    }
    forall f | f in before ensures f in stack || f == file {
    }
    assert forall f :: f in after <==> f in stack || f in targets;
  }

  /** The worklist: it visits exactly the files that a chain of imports reaches from a start file. */
  method Close(d: Disk, starts: seq<string>) returns (seen: set<string>)
    requires Scanned(d)
    ensures seen <= d.files
    ensures forall f :: f in seen <==> Reachable(d, starts, f)
  {
    hide Imports, Reachable, Justified, Covered;
    seen := {};
    var stack := starts;
    StartsArePending(d, starts);
    while |stack| > 0
      invariant seen <= d.files && forall f :: f in seen ==> Reachable(d, starts, f)
      invariant Justified(d, starts, stack) && Covered(d, starts, seen, stack)
      decreases |d.files - seen|, |stack|
    {
      var file := stack[|stack| - 1];
      ghost var before := stack;
      stack := stack[..|stack| - 1];
      assert before == stack + [file];
      if file in seen || file !in d.files {
        SkipKeeps(d, starts, seen, stack, file);
      } else {
        var targets := Targets(d, file);
        VisitKeeps(d, starts, seen, stack, file, targets);
        assert d.files - (seen + {file}) == (d.files - seen) - {file};
        seen := seen + {file};
        stack := stack + targets;
      }
    }
    assert stack == [];
    NothingPending(d, starts, seen);
    forall f | Reachable(d, starts, f) ensures f in seen {
      ReachableStaysInside(d, starts, seen, f);
    }
  }

  lemma NothingPending(d: Disk, starts: seq<string>, seen: set<string>)
    requires Covered(d, starts, seen, [])
    ensures ClosedUnderImports(d, starts, seen)
  {
  }

  ghost function ReachableFiles(d: Disk, starts: seq<string>): set<string> {
    set f | f in d.files && Reachable(d, starts, f)
  }

  lemma ReachableIsFile(d: Disk, starts: seq<string>, f: string)
    requires Reachable(d, starts, f)
    ensures f in d.files
  {
    var p :| ImportChain(d, p) && p[0] in starts && p[|p| - 1] == f;
    if |p| > 1 {
      assert Imports(d, p[|p| - 2], p[|p| - 1]);
    }
  }

  /** The closure is the least set of existing files that holds the start files and is closed under imports. */
  lemma ClosureIsLeast(d: Disk, starts: seq<string>, files: set<string>)
    ensures ClosedUnderImports(d, starts, ReachableFiles(d, starts))
    ensures ClosedUnderImports(d, starts, files) ==> ReachableFiles(d, starts) <= files
  {
    hide Imports, Reachable;
    forall f | f in starts && f in d.files ensures Reachable(d, starts, f) {
      ReachableStart(d, starts, f);
    }
    forall f, g | f in ReachableFiles(d, starts) && Imports(d, f, g) ensures g in ReachableFiles(d, starts) {
      ReachableImport(d, starts, f, g);
      ReachableIsFile(d, starts, g);
    }
    if ClosedUnderImports(d, starts, files) {
      forall f | f in ReachableFiles(d, starts) ensures f in files {
        ReachableStaysInside(d, starts, files, f);
      }
    }
  }

  /** More starts reach no less; order and repetition of starts do not matter. */
  lemma ClosureIsMonotone(d: Disk, starts: seq<string>, more: seq<string>)
    requires forall f :: f in starts ==> f in more
    ensures ReachableFiles(d, starts) <= ReachableFiles(d, more)
  {
    forall f | Reachable(d, starts, f) ensures Reachable(d, more, f) {
      var p :| ImportChain(d, p) && p[0] in starts && p[|p| - 1] == f;
    }
  }

  // ----- Classification -----

  datatype Category = Host | ProductSurfaceKeep | LiveBoundaryKeep | UnreachedCheck

  /** The category of a module, given the two closures and whether its name starts with "live". */
  function Categorize(host: set<string>, product: set<string>, isLive: string -> bool, file: string): Category {
    if file in host then Host
    else if file in product then ProductSurfaceKeep
    else if isLive(file) then LiveBoundaryKeep
    else UnreachedCheck
  }

  function Count(categories: seq<Category>, c: Category): nat {
    if categories == [] then 0
    else Count(categories[..|categories| - 1], c) + if categories[|categories| - 1] == c then 1 else 0
  }

  /** The four counts add up to the number of modules. */
  lemma {:induction false} CountsAddUp(categories: seq<Category>)
    ensures Count(categories, Host) + Count(categories, ProductSurfaceKeep) + Count(categories, LiveBoundaryKeep)
      + Count(categories, UnreachedCheck) == |categories|
    decreases |categories|
  {
    if |categories| > 0 {
      CountsAddUp(categories[..|categories| - 1]);
    }
  }

  /** The report: both closures, and the category of each module. */
  method Classify(
    d: Disk, modules: seq<string>, hostEntries: seq<string>, productOnly: seq<string>, isLive: string -> bool)
    returns (categories: seq<Category>)
    requires Scanned(d)
    ensures |categories| == |modules|
    ensures forall k :: 0 <= k < |modules| ==>
      var inHost, inProduct := Reachable(d, hostEntries, modules[k]),
        Reachable(d, hostEntries + productOnly, modules[k]);
      && (categories[k] == Host <==> inHost)
      && (categories[k] == ProductSurfaceKeep <==> inProduct && !inHost)
      && (categories[k] == LiveBoundaryKeep <==> !inProduct && isLive(modules[k]))
      && (categories[k] == UnreachedCheck <==> !inProduct && !isLive(modules[k]))
  {
    hide Reachable;
    var host := Close(d, hostEntries);
    var product := Close(d, hostEntries + productOnly);
    HostIsInProduct(d, hostEntries, productOnly);
    categories := seq(|modules|, k requires 0 <= k < |modules| => Categorize(host, product, isLive, modules[k]));
  }

  /** Host modules are product modules too, so the order of the category tests loses nothing. */
  lemma HostIsInProduct(d: Disk, hostEntries: seq<string>, productOnly: seq<string>)
    ensures forall f :: Reachable(d, hostEntries, f) ==> Reachable(d, hostEntries + productOnly, f)
  {
    ClosureIsMonotone(d, hostEntries, hostEntries + productOnly);
    hide Reachable;
    forall f | Reachable(d, hostEntries, f) ensures Reachable(d, hostEntries + productOnly, f) {
      ReachableIsFile(d, hostEntries, f);
      assert f in ReachableFiles(d, hostEntries);
    }
  }
}
