/** Which libraries a set of plugins needs: a worklist over what the files import. */
module Closure {
  type Path = string
  type Leaf = string

  /** What the build finds on the machine: the names a file imports, by their last
      part, without those of the system; where the source prefix has a library of
      that name; and which libraries lie among the plugins. */
  datatype Prefix = Prefix(imports: map<Path, seq<Leaf>>, resolve: map<Leaf, Path>, plugins: set<Path>)

  /** The last part of a path. */
  function Name(p: Path): Leaf {
    if |p| == 0 || p[|p| - 1] == '/' || p[|p| - 1] == '\\' then [] else Name(p[..|p| - 1]) + [p[|p| - 1]]
  }

  predicate IsSeparator(c: char) { c == '/' || c == '\\' }

  /** What follows the last separator, if there is one. */
  lemma {:induction false} NameIsLast(p: Path)
    ensures |Name(p)| <= |p| && p[|p| - |Name(p)|..] == Name(p)
    ensures forall i :: 0 <= i < |Name(p)| ==> !IsSeparator(Name(p)[i])
    ensures |Name(p)| < |p| ==> IsSeparator(p[|p| - |Name(p)| - 1])
    decreases |p|
  {
    if |p| > 0 && !IsSeparator(p[|p| - 1]) {
      NameIsLast(p[..|p| - 1]);
    }
  }

  function Imports(x: Prefix, p: Path): seq<Leaf> { if p in x.imports then x.imports[p] else [] }

  /** An import that is followed: not the file's own name, found, and no plugin. */
  predicate Follows(x: Prefix, from: Path, leaf: Leaf) {
    leaf != Name(from) && leaf in x.resolve && x.resolve[leaf] !in x.plugins
  }

  /** Whether `from` needs `to` directly. */
  ghost predicate Needs(x: Prefix, from: Path, to: Path) {
    exists leaf :: leaf in Imports(x, from) && leaf != Name(from) && leaf in x.resolve && x.resolve[leaf] == to
                && to !in x.plugins
  }

  /** Whether `from` imports a name nothing was found for. */
  predicate Lacks(x: Prefix, from: Path, leaf: Leaf) {
    leaf in Imports(x, from) && leaf != Name(from) && leaf !in x.resolve
  }

  ghost predicate Looked(x: Prefix, seeds: seq<Path>, from: Path) { from in seeds || Reached(x, seeds, from) }

  /** A chain of needs from a seed to `to`. */
  ghost predicate Chain(x: Prefix, seeds: seq<Path>, chain: seq<Path>, to: Path)
    decreases |chain|
  {
    if |chain| == 0 then exists seed :: seed in seeds && Needs(x, seed, to)
    else Chain(x, seeds, chain[..|chain| - 1], chain[|chain| - 1]) && Needs(x, chain[|chain| - 1], to)
  }

  ghost predicate Reached(x: Prefix, seeds: seq<Path>, to: Path) { exists chain :: Chain(x, seeds, chain, to) }

  lemma ReachedOn(x: Prefix, seeds: seq<Path>, from: Path, to: Path)
    requires from in seeds || Reached(x, seeds, from)
    requires Needs(x, from, to)
    ensures Reached(x, seeds, to)
  {
    if from in seeds {
      assert Chain(x, seeds, [], to);
    } else {
      var chain :| Chain(x, seeds, chain, from);
      assert (chain + [from])[..|chain|] == chain;
      assert Chain(x, seeds, chain + [from], to);
    }
  }

  /** A set that has what the seeds need, and what each of its own needs, has all that
      is reached. */
  lemma {:induction false} ClosedHasAll(x: Prefix, seeds: seq<Path>, all: set<Path>, chain: seq<Path>, to: Path)
    requires forall from, p :: (from in seeds || from in all) && Needs(x, from, p) ==> p in all
    requires Chain(x, seeds, chain, to)
    ensures to in all
    decreases |chain|
  {
    if |chain| > 0 {
      ClosedHasAll(x, seeds, all, chain[..|chain| - 1], chain[|chain| - 1]);
    }
  }

  // -- the worklist ----------------------------------------------------------------

  /** The files whose imports are all found. */
  ghost predicate Done(x: Prefix, seen: set<Path>, found: map<Leaf, Path>) {
    forall from, p :: from in seen && Needs(x, from, p) ==> p in found.Values
  }

  ghost predicate Held(x: Prefix, seeds: seq<Path>, found: map<Leaf, Path>) {
    forall leaf :: leaf in found ==> leaf in x.resolve && found[leaf] == x.resolve[leaf] && Reached(x, seeds, found[leaf])
  }

  ghost predicate Warned(x: Prefix, seeds: seq<Path>, seen: set<Path>, missing: set<Leaf>) {
    && (forall leaf :: leaf in missing ==> exists from :: Looked(x, seeds, from) && Lacks(x, from, leaf))
    && (forall from, leaf :: from in seen && Lacks(x, from, leaf) ==> leaf in missing)
  }

  /** Everything to look at has been, or is waiting. */
  ghost predicate Listed(seeds: seq<Path>, seen: set<Path>, found: map<Leaf, Path>, queue: seq<Path>) {
    && (forall p :: p in seeds || p in found.Values ==> p in seen || p in queue)
    && (forall p :: p in queue ==> p in seeds || p in found.Values)
  }

  lemma Grows(before: map<Leaf, Path>, after: map<Leaf, Path>)
    requires before.Keys <= after.Keys && forall leaf :: leaf in before ==> after[leaf] == before[leaf]
    ensures before.Values <= after.Values
  {
    forall p | p in before.Values ensures p in after.Values {
      var leaf :| leaf in before && before[leaf] == p;
      assert leaf in after && after[leaf] == p;
    }
  }

  lemma FewerLeft(all: set<Leaf>, before: set<Leaf>, after: set<Leaf>)
    requires before <= after <= all
    ensures before == after || all - after < all - before
  {
    if leaf :| leaf in after && leaf !in before {
      assert leaf in all - before && leaf !in all - after;
    }
  }

  lemma NothingElse(queue: seq<Path>)
    requires |queue| > 0
    ensures forall p :: p in queue <==> p in queue[..|queue| - 1] || p == queue[|queue| - 1]
  {
    assert queue == queue[..|queue| - 1] + [queue[|queue| - 1]];
  }

  lemma DoneMore(x: Prefix, seen: set<Path>, before: map<Leaf, Path>, found: map<Leaf, Path>, item: Path)
    requires Done(x, seen, before) && before.Values <= found.Values
    requires forall p :: Needs(x, item, p) ==> p in found.Values
    ensures Done(x, seen + {item}, found)
  {
  }

  /** Every library the seeds reach and nothing else, whatever refers to what, and every
      name one of them or a seed imports that was not found. */
  method Libraries(x: Prefix, seeds: seq<Path>) returns (all: set<Path>, missing: set<Leaf>)
    ensures forall p :: p in all <==> Reached(x, seeds, p)
    ensures forall leaf :: leaf in missing <==> exists from :: Looked(x, seeds, from) && Lacks(x, from, leaf)
  {
    missing := {};
    var seen: set<Path> := {};
    var found: map<Leaf, Path> := map[];
    var queue := seeds;
    while |queue| > 0
      invariant Done(x, seen, found) && Held(x, seeds, found) && Listed(seeds, seen, found, queue)
      invariant Warned(x, seeds, seen, missing)
      decreases x.resolve.Keys - found.Keys, |queue|
    {
      var item := queue[|queue| - 1];
      NothingElse(queue);
      queue := queue[..|queue| - 1];
      if item in seen {
        continue;
      }
      ghost var before := found;
      assert Looked(x, seeds, item);
      found, queue, missing := Look(x, seeds, item, found, queue, missing);
      Grows(before, found);
      DoneMore(x, seen, before, found, item);
      FewerLeft(x.resolve.Keys, before.Keys, found.Keys);
      seen := seen + {item};
    }
    all := found.Values;
    AllFound(x, seeds, seen, found);
  }

  lemma AllFound(x: Prefix, seeds: seq<Path>, seen: set<Path>, found: map<Leaf, Path>)
    requires Done(x, seen, found) && Held(x, seeds, found) && Listed(seeds, seen, found, [])
    ensures forall p :: p in found.Values <==> Reached(x, seeds, p)
    ensures forall p :: Looked(x, seeds, p) ==> p in seen
  {
    forall p | Reached(x, seeds, p) ensures p in found.Values {
      var chain :| Chain(x, seeds, chain, p);
      ClosedHasAll(x, seeds, found.Values, chain, p);
    }
  }

  /** The imports of one file. */
  method Look(x: Prefix, seeds: seq<Path>, item: Path, found: map<Leaf, Path>, queue: seq<Path>, missing: set<Leaf>)
    returns (found': map<Leaf, Path>, queue': seq<Path>, missing': set<Leaf>)
    requires Held(x, seeds, found) && (item in seeds || item in found.Values)
    ensures Held(x, seeds, found') && found'.Keys <= x.resolve.Keys
    ensures forall p :: Needs(x, item, p) ==> p in found'.Values
    ensures found.Keys <= found'.Keys && forall leaf :: leaf in found ==> found'[leaf] == found[leaf]
    ensures forall p :: p in queue ==> p in queue'
    ensures forall p :: p in queue' ==> p in queue || p in found'.Values
    ensures forall p :: p in found'.Values ==> p in found.Values || p in queue'
    ensures found'.Keys == found.Keys ==> queue' == queue
    ensures forall leaf :: leaf in missing' <==> leaf in missing || Lacks(x, item, leaf)
  {
    found', queue', missing' := found, queue, missing;
    var names := Imports(x, item);
    for i := 0 to |names|
      invariant Held(x, seeds, found')
      invariant found.Keys <= found'.Keys && forall leaf :: leaf in found ==> found'[leaf] == found[leaf]
      invariant forall j :: 0 <= j < i && Follows(x, item, names[j]) ==> names[j] in found'
      invariant forall p :: p in queue ==> p in queue'
      invariant forall p :: p in queue' ==> p in queue || p in found'.Values
      invariant forall leaf :: leaf in found' ==> leaf in found || found'[leaf] in queue'
      invariant found'.Keys == found.Keys ==> queue' == queue
      invariant forall leaf :: leaf in missing' ==> leaf in missing || Lacks(x, item, leaf)
      invariant forall leaf :: leaf in missing ==> leaf in missing'
      invariant forall j :: 0 <= j < i && Lacks(x, item, names[j]) ==> names[j] in missing'
    {
      var leaf := names[i];
      if leaf in found' || leaf == Name(item) {
        continue;
      }
      if leaf !in x.resolve {
        missing' := missing' + {leaf};
        continue;
      }
      var path := x.resolve[leaf];
      if path in x.plugins {
        continue;
      }
      assert Needs(x, item, path);
      assert item in seeds || Reached(x, seeds, item);
      ReachedOn(x, seeds, item, path);
      ghost var before := found';
      found' := found'[leaf := path];
      queue' := queue' + [path];
      assert leaf in found' && path in found'.Values;
      forall p | p in before.Values ensures p in found'.Values {
        var l :| l in before && before[l] == p;
        assert l in found' && found'[l] == p;
      }
    }
    forall p | Needs(x, item, p) ensures p in found'.Values {
      var leaf :| leaf in names && Follows(x, item, leaf) && x.resolve[leaf] == p;
      assert found'[leaf] == p;
    }
  }
}
