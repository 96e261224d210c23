/** Putting the app's own plugins in the operator's plugins directory at every launch. */
module Seeding {
  import opened Bytes

  /** `<name>/<version>` under the plugins directory. */
  type Place = (string, string)

  /** A copy there: the stamp this app leaves in its own, whether the mixer's trust
      record is beside it, and the files. */
  datatype Copy = Copy(stamp: Option<string>, trusted: bool, files: string)

  type Plugins = map<Place, Copy>

  /** A plugin this app carries, and what its files and their times are stamped. */
  datatype Bundled = Bundled(name: string, version: string, files: string, stamp: string)

  function PlaceOf(b: Bundled): Place { (b.name, b.version) }

  predicate Ours(d: Plugins, at: Place) { at in d && d[at].stamp.Some? }

  predicate Theirs(d: Plugins, at: Place) { at in d && d[at].stamp.None? }

  /** Of the copies this app made of a name, one version is kept. */
  function RetireOlder(d: Plugins, name: string, keep: string): Plugins {
    map at | at in d && !(at.0 == name && at.1 != keep && d[at].stamp.Some?) :: d[at]
  }

  /** One plugin of the bundle: left, replaced or copied. */
  function SeedOne(d: Plugins, b: Bundled): Plugins {
    var at := PlaceOf(b);
    if at in d && d[at].stamp == Some(b.stamp) then d[at := d[at].(trusted := true)]
    else if Theirs(d, at) then d
    else RetireOlder(d[at := Copy(Some(b.stamp), true, b.files)], b.name, b.version)
  }

  function Seed(d: Plugins, bundle: seq<Bundled>): Plugins {
    if |bundle| == 0 then d else SeedOne(Seed(d, bundle[..|bundle| - 1]), bundle[|bundle| - 1])
  }

  /** Launch after launch, each with the bundle of the app as it then was. */
  function Launched(d: Plugins, bundles: seq<seq<Bundled>>): Plugins {
    if |bundles| == 0 then d else Seed(Launched(d, bundles[..|bundles| - 1]), bundles[|bundles| - 1])
  }

  /** Each place once, as a directory lists them. */
  predicate Listing(bundle: seq<Bundled>) {
    forall i, j :: 0 <= i < j < |bundle| ==> PlaceOf(bundle[i]) != PlaceOf(bundle[j])
  }

  /** Of two versions of a name the operator has one of their own. */
  predicate Separate(d: Plugins, bundle: seq<Bundled>) {
    forall i, j :: 0 <= i < j < |bundle| && bundle[i].name == bundle[j].name
      ==> Theirs(d, PlaceOf(bundle[i])) || Theirs(d, PlaceOf(bundle[j]))
  }

  // -- what every launch keeps --------------------------------------------------------

  /** What the operator put there is as it was. */
  predicate TheirsKept(d: Plugins, d': Plugins) { forall at :: at in d && d[at].stamp.None? ==> at in d' && d'[at] == d[at] }

  /** At most one of this app's versions of a name. */
  predicate OneOfOurs(d: Plugins) {
    forall a, b :: a in d && b in d && Ours(d, a) && Ours(d, b) && a.0 == b.0 ==> a == b
  }

  /** It is there: the operator's own, or this app's, trusted and of this bundle. */
  predicate There(d: Plugins, b: Bundled) {
    var at := PlaceOf(b);
    at in d && (d[at].stamp.None? || (d[at].stamp == Some(b.stamp) && d[at].trusted))
  }

  /** What is the operator's, before and after. */
  predicate SameTheirs(d: Plugins, d': Plugins) {
    TheirsKept(d, d') && forall at :: at in d' && d'[at].stamp.None? ==> Theirs(d, at)
  }

  lemma SeedOneKeeps(d: Plugins, b: Bundled)
    requires OneOfOurs(d)
    ensures SameTheirs(d, SeedOne(d, b)) && OneOfOurs(SeedOne(d, b)) && There(SeedOne(d, b), b)
    ensures forall at: Place :: at.0 != b.name && at in d ==> at in SeedOne(d, b) && SeedOne(d, b)[at] == d[at]
  {
  }

  lemma {:induction false} SeedKeeps(d: Plugins, bundle: seq<Bundled>)
    requires OneOfOurs(d)
    ensures SameTheirs(d, Seed(d, bundle)) && OneOfOurs(Seed(d, bundle))
    decreases |bundle|
  {
    if |bundle| > 0 {
      SeedKeeps(d, bundle[..|bundle| - 1]);
      SeedOneKeeps(Seed(d, bundle[..|bundle| - 1]), bundle[|bundle| - 1]);
    }
  }

  lemma {:induction false} StaysThere(d: Plugins, bundle: seq<Bundled>, i: nat)
    requires OneOfOurs(d) && Separate(d, bundle) && i < |bundle|
    ensures There(Seed(d, bundle), bundle[i])
    decreases |bundle|
  {
    var front, last := bundle[..|bundle| - 1], bundle[|bundle| - 1];
    SeedKeeps(d, front);
    SeedOneKeeps(Seed(d, front), last);
    if i < |front| {
      StaysThere(d, front, i);
      assert front[i] == bundle[i];
      if bundle[i].name == last.name {
        assert Theirs(d, PlaceOf(bundle[i])) || Theirs(d, PlaceOf(last));
      }
    }
  }

  /** All of the bundle is there after seeding exactly when no two of its plugins share
      a name, or the operator has a copy of their own of one of the two. */
  lemma AllThereExactly(d: Plugins, bundle: seq<Bundled>)
    requires OneOfOurs(d) && Listing(bundle)
    ensures (forall i :: 0 <= i < |bundle| ==> There(Seed(d, bundle), bundle[i])) <==> Separate(d, bundle)
  {
    SeedKeeps(d, bundle);
    var t := Seed(d, bundle);
    if Separate(d, bundle) {
      forall i | 0 <= i < |bundle| ensures There(t, bundle[i]) {
        StaysThere(d, bundle, i);
      }
    } else {
      var i, j :| 0 <= i < j < |bundle| && bundle[i].name == bundle[j].name
        && !Theirs(d, PlaceOf(bundle[i])) && !Theirs(d, PlaceOf(bundle[j]));
      if There(t, bundle[i]) && There(t, bundle[j]) {
        assert Ours(t, PlaceOf(bundle[i])) && Ours(t, PlaceOf(bundle[j]));
        assert false;
      }
    }
  }

  /** Two versions of a name, where the operator has neither: only the one read last is
      there. */
  lemma TwoVersionsLoseOne(d: Plugins, a: Bundled, b: Bundled)
    requires OneOfOurs(d) && a.name == b.name && a.version != b.version
    requires PlaceOf(a) !in d && PlaceOf(b) !in d
    ensures !There(Seed(d, [a, b]), a) && There(Seed(d, [a, b]), b)
  {
    assert [a, b][..1] == [a] && [a][..0] == [];
    assert Seed(d, [a]) == SeedOne(d, a);
    assert Seed(d, [a, b]) == SeedOne(SeedOne(d, a), b);
    SeedOneKeeps(d, a);
    SeedOneKeeps(SeedOne(d, a), b);
  }

  /** A bundle that is all there changes nothing. */
  lemma {:induction false} NothingToDo(d: Plugins, bundle: seq<Bundled>)
    requires forall i :: 0 <= i < |bundle| ==> There(d, bundle[i])
    ensures Seed(d, bundle) == d
    decreases |bundle|
  {
    if |bundle| > 0 {
      var front, last := bundle[..|bundle| - 1], bundle[|bundle| - 1];
      forall i | 0 <= i < |front| ensures There(d, front[i]) {
        assert front[i] == bundle[i];
      }
      NothingToDo(d, front);
      assert There(d, last);
    }
  }

  /** Over any launches, the operator's copies stay as they are and this app keeps at
      most one version of a name. After the last, if its bundle can all be there, it
      is, and launching again changes nothing. */
  lemma {:induction false} EveryLaunch(d: Plugins, bundles: seq<seq<Bundled>>)
    requires OneOfOurs(d)
    ensures SameTheirs(d, Launched(d, bundles)) && OneOfOurs(Launched(d, bundles))
    ensures |bundles| > 0 && Separate(d, bundles[|bundles| - 1]) ==>
      var (t, last) := (Launched(d, bundles), bundles[|bundles| - 1]);
      && (forall i :: 0 <= i < |last| ==> There(t, last[i]))
      && Seed(t, last) == t
    decreases |bundles|
  {
    if |bundles| > 0 {
      var before, last := Launched(d, bundles[..|bundles| - 1]), bundles[|bundles| - 1];
      EveryLaunch(d, bundles[..|bundles| - 1]);
      SeedKeeps(before, last);
      if Separate(d, last) {
        forall i | 0 <= i < |last| ensures There(Seed(before, last), last[i]) {
          StaysThere(before, last, i);
        }
        NothingToDo(Seed(before, last), last);
      }
    }
  }

  // -- which files are in place ----------------------------------------------------------

  /** It is there, and this app's copy has its files. */
  predicate UpToDate(d: Plugins, b: Bundled) {
    There(d, b) && (Ours(d, PlaceOf(b)) ==> d[PlaceOf(b)].files == b.files)
  }

  /** A copy of this app's with its stamp and other files is there already. */
  predicate Stale(d: Plugins, b: Bundled) {
    PlaceOf(b) in d && d[PlaceOf(b)].stamp == Some(b.stamp) && d[PlaceOf(b)].files != b.files
  }

  lemma {:induction false} StaysStale(d: Plugins, bundle: seq<Bundled>, i: nat)
    requires OneOfOurs(d) && Listing(bundle) && Separate(d, bundle) && i < |bundle|
    ensures UpToDate(Seed(d, bundle), bundle[i]) <==> !Stale(d, bundle[i])
    decreases |bundle|
  {
    var front, last := bundle[..|bundle| - 1], bundle[|bundle| - 1];
    StaysThere(d, bundle, i);
    if i < |front| {
      assert front[i] == bundle[i];
      StaysStale(d, front, i);
      StaysThere(d, front, i);
      UpToDateElsewhere(Seed(d, front), last, bundle[i]);
    } else {
      NotYetTouched(d, front, last);
      SeedOneIsUpToDate(Seed(d, front), last);
    }
    assert Seed(d, bundle) == SeedOne(Seed(d, front), last);
  }

  lemma SameElsewhere(d: Plugins, b: Bundled, at: Place)
    requires at != PlaceOf(b) && at in SeedOne(d, b)
    ensures at in d && SeedOne(d, b)[at] == d[at]
  {
  }

  lemma UpToDateElsewhere(d: Plugins, b: Bundled, other: Bundled)
    requires PlaceOf(other) != PlaceOf(b) && There(d, other) && There(SeedOne(d, b), other)
    ensures UpToDate(SeedOne(d, b), other) <==> UpToDate(d, other)
  {
    SameElsewhere(d, b, PlaceOf(other));
  }

  lemma SeedOneIsUpToDate(d: Plugins, b: Bundled)
    ensures UpToDate(SeedOne(d, b), b) <==> !Stale(d, b)
  {
  }

  /** Until its turn comes, whether a plugin's place is stale does not change. */
  lemma {:induction false} NotYetTouched(d: Plugins, front: seq<Bundled>, b: Bundled)
    requires OneOfOurs(d) && forall i :: 0 <= i < |front| ==> PlaceOf(front[i]) != PlaceOf(b)
    requires forall i :: 0 <= i < |front| && front[i].name == b.name ==> Theirs(d, PlaceOf(front[i])) || Theirs(d, PlaceOf(b))
    ensures Stale(Seed(d, front), b) <==> Stale(d, b)
    decreases |front|
  {
    if |front| > 0 {
      var before, last := front[..|front| - 1], front[|front| - 1];
      assert forall i :: 0 <= i < |before| ==> before[i] == front[i];
      NotYetTouched(d, before, b);
      SeedKeeps(d, before);
      assert last == front[|front| - 1];
    }
  }

  /** After a launch this app's copies have the bundle's files exactly when none of its
      own was there before with the stamp of one in the bundle and other files. */
  lemma UpToDateExactly(d: Plugins, bundle: seq<Bundled>)
    requires OneOfOurs(d) && Listing(bundle) && Separate(d, bundle)
    ensures (forall i :: 0 <= i < |bundle| ==> UpToDate(Seed(d, bundle), bundle[i]))
      <==> forall i :: 0 <= i < |bundle| ==> !Stale(d, bundle[i])
  {
    forall i | 0 <= i < |bundle| ensures UpToDate(Seed(d, bundle), bundle[i]) <==> !Stale(d, bundle[i]) {
      StaysStale(d, bundle, i);
    }
  }

  /** Builds of a plugin with the same stamp have the same files, but where the operator
      has a copy of their own. */
  predicate StampsTell(d: Plugins, builds: set<Bundled>) {
    forall b, c :: b in builds && c in builds && PlaceOf(b) == PlaceOf(c) && b.stamp == c.stamp && !Theirs(d, PlaceOf(b))
      ==> b.files == c.files
  }

  predicate DrawnFrom(bundle: seq<Bundled>, builds: set<Bundled>) { forall i :: 0 <= i < |bundle| ==> bundle[i] in builds }

  predicate AllDrawnFrom(bundles: seq<seq<Bundled>>, builds: set<Bundled>) {
    forall i :: 0 <= i < |bundles| ==> DrawnFrom(bundles[i], builds)
  }

  /** Every copy of this app's is of one of the builds. */
  ghost predicate Traced(d: Plugins, builds: set<Bundled>) {
    forall at: Place :: Ours(d, at) ==> OfSome(at, d[at], builds)
  }

  ghost predicate OfSome(at: Place, copy: Copy, builds: set<Bundled>) {
    exists b :: b in builds && PlaceOf(b) == at && copy.stamp == Some(b.stamp) && copy.files == b.files
  }

  lemma SeedOneIsTraced(d: Plugins, b: Bundled, builds: set<Bundled>)
    requires Traced(d, builds) && b in builds
    ensures Traced(SeedOne(d, b), builds)
  {
    forall at: Place | Ours(SeedOne(d, b), at) ensures OfSome(at, SeedOne(d, b)[at], builds) {
      if at != PlaceOf(b) {
        SameElsewhere(d, b, at);
      }
    }
  }

  lemma {:induction false} SeedIsTraced(d: Plugins, bundle: seq<Bundled>, builds: set<Bundled>)
    requires Traced(d, builds) && DrawnFrom(bundle, builds)
    ensures Traced(Seed(d, bundle), builds)
    decreases |bundle|
  {
    if |bundle| > 0 {
      SeedIsTraced(d, bundle[..|bundle| - 1], builds);
      SeedOneIsTraced(Seed(d, bundle[..|bundle| - 1]), bundle[|bundle| - 1], builds);
    }
  }

  lemma {:induction false} LaunchedIsTraced(d: Plugins, bundles: seq<seq<Bundled>>, builds: set<Bundled>)
    requires Traced(d, builds) && AllDrawnFrom(bundles, builds)
    ensures Traced(Launched(d, bundles), builds)
    decreases |bundles|
  {
    if |bundles| > 0 {
      LaunchedIsTraced(d, bundles[..|bundles| - 1], builds);
      SeedIsTraced(Launched(d, bundles[..|bundles| - 1]), bundles[|bundles| - 1], builds);
    }
  }

  /** After the last launch its bundle is there with its files, if it can be there. */
  predicate LastUpToDate(d: Plugins, bundles: seq<seq<Bundled>>) {
    |bundles| > 0 && Separate(d, bundles[|bundles| - 1]) ==>
      var last := bundles[|bundles| - 1];
      forall i :: 0 <= i < |last| ==> UpToDate(Launched(d, bundles), last[i])
  }

  lemma TracedIsUpToDate(d: Plugins, t: Plugins, b: Bundled, builds: set<Bundled>)
    requires StampsTell(d, builds) && Traced(t, builds) && SameTheirs(d, t) && b in builds && There(t, b)
    ensures UpToDate(t, b)
  {
    var at := PlaceOf(b);
    if Ours(t, at) {
      assert OfSome(at, t[at], builds);
      var c :| c in builds && PlaceOf(c) == at && t[at].stamp == Some(c.stamp) && t[at].files == c.files;
      assert !Theirs(d, at);
    }
  }

  /** Two builds of one stamp and other files: the second never comes in place. */
  lemma RebuildIsLost(d: Plugins, b: Bundled, c: Bundled)
    requires PlaceOf(b) == PlaceOf(c) && b.stamp == c.stamp && b.files != c.files && PlaceOf(b) !in d
    ensures There(Launched(d, [[b], [c]]), c) && Launched(d, [[b], [c]])[PlaceOf(c)].files == b.files
  {
    assert [[b], [c]][..1] == [[b]] && [[b]][..0] == [];
    assert Launched(d, [[b]]) == Seed(d, [b]);
    SeedsOne(d, b);
    SeedsOne(Seed(d, [b]), c);
  }

  lemma SeedsOne(d: Plugins, b: Bundled)
    ensures Seed(d, [b]) == SeedOne(d, b)
  {
    assert [b][..0] == [] && Seed(d, []) == d;
  }

  /** From a directory with no copy of this app's, every run of launches of such builds
      ends with the files of its last bundle exactly when stamps tell builds apart. */
  lemma StampsTellExactly(d: Plugins, builds: set<Bundled>)
    requires forall at: Place :: !Ours(d, at)
    ensures (forall bundles :: AllDrawnFrom(bundles, builds) ==> LastUpToDate(d, bundles)) <==> StampsTell(d, builds)
  {
    if StampsTell(d, builds) {
      forall bundles | AllDrawnFrom(bundles, builds) ensures LastUpToDate(d, bundles) {
        EveryLaunch(d, bundles);
        LaunchedIsTraced(d, bundles, builds);
        if |bundles| > 0 && Separate(d, bundles[|bundles| - 1]) {
          var last := bundles[|bundles| - 1];
          forall i | 0 <= i < |last| ensures UpToDate(Launched(d, bundles), last[i]) {
            assert DrawnFrom(last, builds);
            TracedIsUpToDate(d, Launched(d, bundles), last[i], builds);
          }
        }
      }
    } else {
      var b, c :| b in builds && c in builds && PlaceOf(b) == PlaceOf(c) && b.stamp == c.stamp
        && !Theirs(d, PlaceOf(b)) && b.files != c.files;
      assert PlaceOf(b) !in d by { assert !Ours(d, PlaceOf(b)); }
      RebuildIsLost(d, b, c);
      EveryLaunch(d, [[b], [c]]);
      assert Ours(Launched(d, [[b], [c]]), PlaceOf(c)) by { assert !Theirs(d, PlaceOf(c)); }
      assert AllDrawnFrom([[b], [c]], builds) && Separate(d, [c]) && [c][0] == c;
      assert !LastUpToDate(d, [[b], [c]]);
    }
  }

  // -- the directory itself --------------------------------------------------------------

  class Directory {
    var dest: Plugins

    constructor (there: Plugins)
      ensures dest == there
    {
      dest := there;
    }

    /** The loop over the bundle. */
    method SeedAll(bundle: seq<Bundled>)
      modifies this
      ensures dest == Seed(old(dest), bundle)
    {
      assert bundle[..0] == [];
      for i := 0 to |bundle|
        invariant dest == Seed(old(dest), bundle[..i])
      {
        assert bundle[..i + 1][..i] == bundle[..i];
        PutInPlace(bundle[i]);
      }
      assert bundle[..|bundle|] == bundle;
    }

    method PutInPlace(b: Bundled)
      modifies this
      ensures dest == SeedOne(old(dest), b)
    {
      var at := (b.name, b.version);
      if at in dest {
        var stamp := dest[at].stamp;
        if stamp == Some(b.stamp) {
          dest := dest[at := dest[at].(trusted := true)];
          return;
        }
        if stamp.None? {
          return;
        }
        dest := dest - {at};
      }
      dest := dest[at := Copy(Some(b.stamp), true, b.files)];
      assert dest == old(dest)[at := Copy(Some(b.stamp), true, b.files)];
      Retire(b.name, b.version);
    }

    /** One look at each version of a name. */
    method Retire(name: string, keep: string)
      modifies this
      ensures dest == RetireOlder(old(dest), name, keep)
    {
      var left := dest.Keys;
      while left != {}
        invariant dest.Keys <= old(dest).Keys && forall at :: at in dest ==> dest[at] == old(dest)[at]
        invariant left <= dest.Keys
        invariant forall at :: at in left ==> at in dest
        invariant forall at :: at in old(dest) && at !in left ==>
          (at in dest <==> at in RetireOlder(old(dest), name, keep))
        decreases |left|
      {
        var at :| at in left;
        left := left - {at};
        if at.0 == name && at.1 != keep && dest[at].stamp.Some? {
          dest := dest - {at};
        }
      }
    }
  }
}
