/** What the evaluation suite grades: expected and produced deltas, subject by
    subject. */
module Grader {
  import opened Bytes

  /** One change: of what, of which, and to what. */
  datatype Delta = Delta(what: string, id: string, to: Option<string>)

  type Subject = (string, string)

  const SCHEDULED: Option<string> := Some("SCHEDULED")

  function SubjectOf(d: Delta): Subject { (d.what, d.id) }

  /** What one subject went through, in order. */
  function To(ds: seq<Delta>, key: Subject): seq<Option<string>> {
    if |ds| == 0 then []
    else
      var d := ds[|ds| - 1];
      To(ds[..|ds| - 1], key) + if d.what == key.0 && d.id == key.1 then [d.to] else []
  }

  /** A scheduled take stands for whatever was produced in its place. */
  function Filled(want: seq<Option<string>>, got: seq<Option<string>>): (r: seq<Option<string>>)
    ensures |r| == |want|
  {
    seq(|want|, i requires 0 <= i < |want| => if i < |got| && want[i] == SCHEDULED then got[i] else want[i])
  }

  /** Two lists agree, a scheduled take with anything. */
  predicate Agree(want: seq<Option<string>>, got: seq<Option<string>>) {
    |want| == |got| && forall i :: 0 <= i < |want| ==> want[i] == SCHEDULED || want[i] == got[i]
  }

  lemma FilledAgrees(want: seq<Option<string>>, got: seq<Option<string>>)
    ensures Filled(want, got) == got <==> Agree(want, got)
  {
    if Filled(want, got) == got {
      assert forall i :: 0 <= i < |want| ==> Filled(want, got)[i] == got[i];
    }
  }

  predicate Differs(expected: seq<Delta>, produced: seq<Delta>, key: Subject) {
    !Agree(To(expected, key), To(produced, key))
  }

  /** Every subject went through what was expected of it. */
  ghost predicate Passes(expected: seq<Delta>, produced: seq<Delta>) {
    forall key: Subject :: !Differs(expected, produced, key)
  }

  predicate Reported(lines: seq<Line>, key: Subject) { exists i :: 0 <= i < |lines| && lines[i].key == key }

  datatype Line = Line(key: Subject, want: seq<Option<string>>, got: seq<Option<string>>)

  /** A line says what was expected of its subject, a scheduled take as the one it got in
      that place, and everything it got. */
  predicate Told(expected: seq<Delta>, produced: seq<Delta>, line: Line) {
    var want := To(expected, line.key);
    && line.got == To(produced, line.key) && |line.want| == |want|
    && forall i :: 0 <= i < |want| ==>
         line.want[i] == if want[i] == Some("SCHEDULED") && i < |line.got| then line.got[i] else want[i]
  }

  /** Something a line would have to name that is no text. */
  predicate Nameless(expected: seq<Delta>, produced: seq<Delta>, key: Subject) {
    None in Filled(To(expected, key), To(produced, key)) || None in To(produced, key)
  }

  /** The lines, or the subject at which joining a line's states raised. */
  datatype Graded = Lines(lines: seq<Line>) | TypeError(at: Subject)

  /** A line for each subject that differs, and none exactly when every subject went
      through what was expected of it, unless one that differs has a state that is no
      text: then, and only then, grading raises. */
  method Grade(expected: seq<Delta>, produced: seq<Delta>) returns (graded: Graded)
    ensures graded.TypeError? ==> Differs(expected, produced, graded.at) && Nameless(expected, produced, graded.at)
    ensures graded.Lines? ==> forall key: Subject :: Differs(expected, produced, key) ==> !Nameless(expected, produced, key)
    ensures graded == Lines([]) <==> Passes(expected, produced)
    ensures graded.Lines? ==> forall key: Subject :: Differs(expected, produced, key) <==> Reported(graded.lines, key)
    ensures graded.Lines? ==> Sorted(expected + produced, graded.lines)
    ensures graded.Lines? ==> forall i :: 0 <= i < |graded.lines| ==> Stands(expected, produced, graded.lines[i])
  {
    var subjects := Subjects(expected + produced);
    var lines: seq<Line> := [];
    for n := 0 to |subjects|
      invariant Sorted(expected + produced, lines) && Before(expected + produced, lines, subjects, n)
      invariant forall i :: 0 <= i < |lines| ==> Stands(expected, produced, lines[i])
      invariant AllReported(expected, produced, lines, subjects[..n])
    {
      var line := GradeOne(expected, produced, subjects[n]);
      ghost var was := lines;
      if line.Some? {
        if None in line.value.want || None in line.value.got {
          return TypeError(subjects[n]);
        }
        lines := lines + [line.value];
      }
      Behind(expected + produced, was, lines, subjects, n);
      OneMoreReported(expected, produced, was, lines, subjects[..n], subjects[n]);
      assert subjects[..n + 1] == subjects[..n] + [subjects[n]];
    }
    assert subjects[..|subjects|] == subjects;
    Complete(expected, produced, subjects);
    Verdict(expected, produced, lines);
    graded := Lines(lines);
  }

  predicate AllReported(expected: seq<Delta>, produced: seq<Delta>, lines: seq<Line>, subjects: seq<Subject>) {
    forall key :: key in subjects && Differs(expected, produced, key) ==>
      Reported(lines, key) && !Nameless(expected, produced, key)
  }

  lemma OneMoreReported(expected: seq<Delta>, produced: seq<Delta>, was: seq<Line>, lines: seq<Line>,
                        subjects: seq<Subject>, key: Subject)
    requires AllReported(expected, produced, was, subjects)
    requires if Differs(expected, produced, key)
      then was <= lines && |lines| > |was| && lines[|was|].key == key && !Nameless(expected, produced, key)
      else lines == was
    ensures AllReported(expected, produced, lines, subjects + [key])
  {
    StillReported(was, lines);
  }

  lemma Verdict(expected: seq<Delta>, produced: seq<Delta>, lines: seq<Line>)
    requires forall i :: 0 <= i < |lines| ==> Stands(expected, produced, lines[i])
    requires forall key: Subject :: Differs(expected, produced, key) ==> Reported(lines, key)
    ensures lines == [] <==> Passes(expected, produced)
    ensures forall key: Subject :: Differs(expected, produced, key) <==> Reported(lines, key)
  {
    if |lines| > 0 {
      assert Stands(expected, produced, lines[0]);
    } else {
      assert forall key: Subject :: !Differs(expected, produced, key);
    }
  }

  /** The line of a subject, if it differs. */
  method GradeOne(expected: seq<Delta>, produced: seq<Delta>, key: Subject) returns (line: Option<Line>)
    ensures line.Some? <==> Differs(expected, produced, key)
    ensures line.Some? ==> line.value.key == key && Stands(expected, produced, line.value)
    ensures line.Some? ==> (Nameless(expected, produced, key) <==> None in line.value.want || None in line.value.got)
  {
    var want, got := To(expected, key), To(produced, key);
    FilledAgrees(want, got);
    line := if Filled(want, got) == got then None else Some(Line(key, Filled(want, got), got));
  }

  predicate Stands(expected: seq<Delta>, produced: seq<Delta>, line: Line) {
    Differs(expected, produced, line.key) && Told(expected, produced, line)
  }

  predicate Sorted(ds: seq<Delta>, lines: seq<Line>) {
    forall i, j :: 0 <= i < j < |lines| ==> FirstAt(ds, lines[i].key) < FirstAt(ds, lines[j].key)
  }

  /** The lines are of subjects before the `n`th. */
  predicate Before(ds: seq<Delta>, lines: seq<Line>, subjects: seq<Subject>, n: nat) {
    forall i, k :: 0 <= i < |lines| && n <= k < |subjects| ==> FirstAt(ds, lines[i].key) < FirstAt(ds, subjects[k])
  }

  lemma Behind(ds: seq<Delta>, was: seq<Line>, lines: seq<Line>, subjects: seq<Subject>, n: nat)
    requires n < |subjects| && AsTheyCome(ds, subjects) && Sorted(ds, was) && Before(ds, was, subjects, n)
    requires lines == was || (was <= lines && |lines| == |was| + 1 && lines[|was|].key == subjects[n])
    ensures Sorted(ds, lines) && Before(ds, lines, subjects, n + 1)
  {
  }

  lemma StillReported(was: seq<Line>, lines: seq<Line>)
    requires was <= lines
    ensures forall key: Subject :: Reported(was, key) ==> Reported(lines, key)
    ensures |lines| > |was| ==> Reported(lines, lines[|was|].key)
  {
    forall key: Subject | Reported(was, key) ensures Reported(lines, key) {
      var i :| 0 <= i < |was| && was[i].key == key;
      assert lines[i].key == key;
    }
  }

  /** What differs is a subject of one side. */
  lemma Complete(expected: seq<Delta>, produced: seq<Delta>, subjects: seq<Subject>)
    requires forall i :: 0 <= i < |expected + produced| ==> SubjectOf((expected + produced)[i]) in subjects
    ensures forall key: Subject :: Differs(expected, produced, key) ==> key in subjects
  {
    forall key: Subject | key !in subjects ensures !Differs(expected, produced, key) {
      NotThere(expected, produced, key);
    }
  }

  /** Each subject once, in the order they first come. */
  method Subjects(ds: seq<Delta>) returns (keys: seq<Subject>)
    ensures forall i :: 0 <= i < |ds| ==> SubjectOf(ds[i]) in keys
    ensures AsTheyCome(ds, keys)
  {
    keys := [];
    for n := 0 to |ds|
      invariant forall i :: 0 <= i < n ==> SubjectOf(ds[i]) in keys
      invariant forall i :: 0 <= i < |keys| ==> FirstAt(ds, keys[i]) < n
      invariant AsTheyCome(ds, keys)
    {
      NotBefore(ds, SubjectOf(ds[n]), n);
      if SubjectOf(ds[n]) !in keys {
        keys := keys + [SubjectOf(ds[n])];
      }
    }
  }

  /** Where a subject first comes, or past the end. */
  function FirstAt(ds: seq<Delta>, key: Subject): (n: nat)
    ensures n <= |ds| && (n < |ds| ==> SubjectOf(ds[n]) == key)
    ensures forall i :: 0 <= i < n ==> SubjectOf(ds[i]) != key
  {
    if |ds| == 0 || SubjectOf(ds[0]) == key then 0 else 1 + FirstAt(ds[1..], key)
  }

  lemma NotBefore(ds: seq<Delta>, key: Subject, n: nat)
    requires n < |ds| && SubjectOf(ds[n]) == key
    ensures FirstAt(ds, key) <= n
    ensures (exists i :: 0 <= i < n && SubjectOf(ds[i]) == key) || FirstAt(ds, key) == n
  {
  }

  /** They come in this order. */
  predicate AsTheyCome(ds: seq<Delta>, keys: seq<Subject>) {
    forall i, j :: 0 <= i < j < |keys| ==> FirstAt(ds, keys[i]) < FirstAt(ds, keys[j])
  }

  lemma {:induction false} Untouched(ds: seq<Delta>, key: Subject)
    requires forall i :: 0 <= i < |ds| ==> SubjectOf(ds[i]) != key
    ensures To(ds, key) == []
    decreases |ds|
  {
    if |ds| > 0 {
      Untouched(ds[..|ds| - 1], key);
    }
  }

  lemma NotThere(expected: seq<Delta>, produced: seq<Delta>, key: Subject)
    requires forall i :: 0 <= i < |expected + produced| ==> SubjectOf((expected + produced)[i]) != key
    ensures Agree(To(expected, key), To(produced, key))
  {
    assert forall i :: 0 <= i < |expected| ==> expected[i] == (expected + produced)[i];
    assert forall i :: 0 <= i < |produced| ==> produced[i] == (expected + produced)[|expected| + i];
    Untouched(expected, key);
    Untouched(produced, key);
  }

  // -- the order between subjects does not matter -------------------------------------

  lemma {:induction false} ToAdds(a: seq<Delta>, b: seq<Delta>, key: Subject)
    ensures To(a + b, key) == To(a, key) + To(b, key)
    decreases |b|
  {
    if |b| == 0 {
      assert a + b == a;
    } else {
      ToAdds(a, b[..|b| - 1], key);
      assert (a + b)[..|a + b| - 1] == a + b[..|b| - 1];
    }
  }

  /** Two neighbours of different subjects may change places. */
  lemma NeighboursMaySwap(a: seq<Delta>, c: Delta, d: Delta, b: seq<Delta>, key: Subject)
    requires SubjectOf(c) != SubjectOf(d)
    ensures To(a + [c] + [d] + b, key) == To(a + [d] + [c] + b, key)
  {
    ToAdds(a + [c] + [d], b, key);
    ToAdds(a + [c], [d], key);
    ToAdds(a, [c], key);
    ToAdds(a + [d] + [c], b, key);
    ToAdds(a + [d], [c], key);
    ToAdds(a, [d], key);
    assert [c][..0] == [] && [d][..0] == [];
  }

  /** Two neighbours change places if they are of different subjects. */
  function Swapped(ds: seq<Delta>, i: nat): (r: seq<Delta>)
    ensures |r| == |ds|
  {
    if i + 1 >= |ds| || SubjectOf(ds[i]) == SubjectOf(ds[i + 1]) then ds
    else ds[..i] + [ds[i + 1]] + [ds[i]] + ds[i + 2..]
  }

  function Shuffled(ds: seq<Delta>, swaps: seq<nat>): (r: seq<Delta>)
    ensures |r| == |ds|
    decreases |swaps|
  {
    if |swaps| == 0 then ds else Swapped(Shuffled(ds, swaps[..|swaps| - 1]), swaps[|swaps| - 1])
  }

  lemma SwapKeepsTo(ds: seq<Delta>, i: nat, key: Subject)
    ensures To(Swapped(ds, i), key) == To(ds, key)
  {
    if i + 1 < |ds| && SubjectOf(ds[i]) != SubjectOf(ds[i + 1]) {
      assert ds == ds[..i] + [ds[i]] + [ds[i + 1]] + ds[i + 2..];
      NeighboursMaySwap(ds[..i], ds[i], ds[i + 1], ds[i + 2..], key);
    }
  }

  lemma {:induction false} ShuffleKeepsTo(ds: seq<Delta>, swaps: seq<nat>, key: Subject)
    ensures To(Shuffled(ds, swaps), key) == To(ds, key)
    decreases |swaps|
  {
    if |swaps| > 0 {
      ShuffleKeepsTo(ds, swaps[..|swaps| - 1], key);
      SwapKeepsTo(Shuffled(ds, swaps[..|swaps| - 1]), swaps[|swaps| - 1], key);
    }
  }

  lemma {:induction false} ShuffleTwice(ds: seq<Delta>, a: seq<nat>, b: seq<nat>)
    ensures Shuffled(ds, a + b) == Shuffled(Shuffled(ds, a), b)
    decreases |b|
  {
    if |b| == 0 {
      assert a + b == a;
    } else {
      ShuffleTwice(ds, a, b[..|b| - 1]);
      assert (a + b)[..|a + b| - 1] == a + b[..|b| - 1];
    }
  }

  /** Swaps before the last element leave it where it is. */
  lemma {:induction false} ShuffleFront(ds: seq<Delta>, last: Delta, swaps: seq<nat>)
    requires forall i :: 0 <= i < |swaps| ==> swaps[i] + 1 < |ds|
    ensures Shuffled(ds + [last], swaps) == Shuffled(ds, swaps) + [last]
    decreases |swaps|
  {
    if |swaps| > 0 {
      var front, i := swaps[..|swaps| - 1], swaps[|swaps| - 1];
      ShuffleFront(ds, last, front);
      var t := Shuffled(ds, front);
      assert (t + [last])[i] == t[i] && (t + [last])[i + 1] == t[i + 1];
      assert Swapped(t + [last], i) == Swapped(t, i) + [last];
    }
  }

  /** A delta that no later one is of the subject of can be brought to the end. */
  lemma {:induction false} ToTheEnd(a: seq<Delta>, d: Delta, b: seq<Delta>) returns (swaps: seq<nat>)
    requires forall i :: 0 <= i < |b| ==> SubjectOf(b[i]) != SubjectOf(d)
    ensures Shuffled(a + [d] + b, swaps) == a + b + [d]
    ensures forall i :: 0 <= i < |swaps| ==> swaps[i] + 1 < |a + [d] + b|
    decreases |b|
  {
    var ds := a + [d] + b;
    if |b| == 0 {
      swaps := [];
      assert ds == a + b + [d];
    } else {
      var c := a + [b[0]];
      assert Swapped(ds, |a|) == c + [d] + b[1..];
      assert Shuffled(ds, []) == ds && [|a|][..0] == [];
      assert Shuffled(ds, [|a|]) == Swapped(ds, |a|);
      var rest := ToTheEnd(c, d, b[1..]);
      swaps := [|a|] + rest;
      ShuffleTwice(ds, [|a|], rest);
      assert c + b[1..] + [d] == a + b + [d];
    }
  }

  /** The last delta of a subject. */
  lemma {:induction false} LastOf(ds: seq<Delta>, key: Subject) returns (k: nat)
    requires To(ds, key) != []
    ensures k < |ds| && SubjectOf(ds[k]) == key && ds[k].to == To(ds, key)[|To(ds, key)| - 1]
    ensures forall i :: k < i < |ds| ==> SubjectOf(ds[i]) != key
    decreases |ds|
  {
    if SubjectOf(ds[|ds| - 1]) == key {
      k := |ds| - 1;
    } else {
      k := LastOf(ds[..|ds| - 1], key);
    }
  }

  lemma SomethingDone(ds: seq<Delta>)
    requires |ds| > 0
    ensures To(ds, SubjectOf(ds[|ds| - 1])) != []
  {
  }

  /** With the same order within every subject, swaps of neighbours lead from one run to
      the other. */
  lemma {:induction false} SwapsLead(a: seq<Delta>, b: seq<Delta>) returns (swaps: seq<nat>)
    requires SameOrders(a, b)
    ensures Shuffled(a, swaps) == b
    ensures forall i :: 0 <= i < |swaps| ==> swaps[i] + 1 < |a|
    decreases |b|
  {
    if |b| == 0 {
      if |a| > 0 {
        SomethingDone(a);
      }
      return [];
    }
    var front, last := b[..|b| - 1], b[|b| - 1];
    assert To(a, SubjectOf(last)) == To(b, SubjectOf(last));
    var k := LastOf(a, SubjectOf(last));
    var before, after := a[..k], a[k + 1..];
    assert a == before + [last] + after && b == front + [last];
    var there := ToTheEnd(before, last, after);
    forall key: Subject ensures To(before + after, key) == To(front, key) {
      SameWithout(before, after, front, last, key);
    }
    var rest := SwapsLead(before + after, front);
    ShuffleTwice(a, there, rest);
    ShuffleFront(before + after, last, rest);
    swaps := there + rest;
  }

  lemma SameWithout(before: seq<Delta>, after: seq<Delta>, front: seq<Delta>, last: Delta, key: Subject)
    requires To(before + [last] + after, key) == To(front + [last], key)
    requires forall i :: 0 <= i < |after| ==> SubjectOf(after[i]) != SubjectOf(last)
    ensures To(before + after, key) == To(front, key)
  {
    ToWithout(before, last, after, key);
    ToAdds(front, [last], key);
    ToOne(last, key);
    SameFronts(To(before + after, key), To(front, key), To([last], key));
  }

  lemma ToOne(d: Delta, key: Subject)
    ensures To([d], key) == if key == SubjectOf(d) then [d.to] else []
  {
    assert [d][..0] == [];
  }

  lemma SameFronts(a: seq<Option<string>>, b: seq<Option<string>>, end: seq<Option<string>>)
    requires a + end == b + end
    ensures a == b
  {
    assert |a| == |b|;
    assert a == (a + end)[..|a|] && b == (b + end)[..|b|];
  }

  lemma ToWithout(before: seq<Delta>, last: Delta, after: seq<Delta>, key: Subject)
    requires forall i :: 0 <= i < |after| ==> SubjectOf(after[i]) != SubjectOf(last)
    ensures To(before + [last] + after, key)
         == To(before + after, key) + if key == SubjectOf(last) then [last.to] else []
  {
    ToAdds(before + [last], after, key);
    ToAdds(before, [last], key);
    ToAdds(before, after, key);
    assert [last][..0] == [];
    if key == SubjectOf(last) {
      Untouched(after, key);
    }
  }

  /** Every subject went through the same in both. */
  ghost predicate SameOrders(a: seq<Delta>, b: seq<Delta>) { forall key: Subject :: To(a, key) == To(b, key) }

  lemma ShuffleKeepsOrders(ds: seq<Delta>, swaps: seq<nat>)
    ensures SameOrders(ds, Shuffled(ds, swaps))
  {
    forall key: Subject ensures To(ds, key) == To(Shuffled(ds, swaps), key) {
      ShuffleKeepsTo(ds, swaps, key);
    }
  }

  ghost predicate Leads(a: seq<Delta>, b: seq<Delta>) { exists swaps :: Shuffled(a, swaps) == b }

  /** Two runs keep the order within every subject exactly when swapping neighbours of
      different subjects leads from one to the other. */
  lemma SameOrdersExactly(a: seq<Delta>, b: seq<Delta>)
    ensures SameOrders(a, b) <==> Leads(a, b)
  {
    if SameOrders(a, b) {
      var swaps := SwapsLead(a, b);
      assert Shuffled(a, swaps) == b;
    }
    if Leads(a, b) {
      var swaps :| Shuffled(a, swaps) == b;
      ShuffleKeepsOrders(a, swaps);
    }
  }

  /** So no such shuffle of a run changes its verdict. */
  lemma ShuffleKeepsVerdict(expected: seq<Delta>, produced: seq<Delta>, swaps: seq<nat>)
    ensures Passes(expected, produced) <==> Passes(expected, Shuffled(produced, swaps))
  {
    ShuffleKeepsOrders(produced, swaps);
    SameOrdersSameVerdict(expected, produced, Shuffled(produced, swaps));
  }

  lemma SameOrdersSameVerdict(expected: seq<Delta>, produced: seq<Delta>, other: seq<Delta>)
    requires SameOrders(produced, other)
    ensures Passes(expected, produced) <==> Passes(expected, other)
  {
    forall key: Subject ensures Differs(expected, produced, key) <==> Differs(expected, other, key) {
      assert To(produced, key) == To(other, key);
    }
  }

  lemma SwapKeepsVerdict(expected: seq<Delta>, a: seq<Delta>, c: Delta, d: Delta, b: seq<Delta>)
    requires SubjectOf(c) != SubjectOf(d)
    ensures Passes(expected, a + [c] + [d] + b) <==> Passes(expected, a + [d] + [c] + b)
  {
    forall key: Subject ensures To(a + [c] + [d] + b, key) == To(a + [d] + [c] + b, key) {
      NeighboursMaySwap(a, c, d, b, key);
    }
    SameOrdersSameVerdict(expected, a + [c] + [d] + b, a + [d] + [c] + b);
  }
}
