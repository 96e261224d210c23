/** Whatever a schema lets through, the type written for it admits. */
module TypeScriptProof {
  import opened Bytes
  import opened TypeScript
  import TsLiteral

  /** A scalar whose literal reads back as itself: of strings, one with no backslash and
      no line break. */
  predicate Literally(v: Json) { Scalar(v) && (v.Str? ==> TsLiteral.Safe(Codes(v.s))) }

  /** Its key reads back: no quote, no backslash and no line break. */
  predicate Keyed(name: string) { TsLiteral.KeySafe(Codes(name)) }

  /** The names of its own properties read back. */
  predicate WellKeyed(s: Schema) { s.Node? ==> forall i :: 0 <= i < |s.props| ==> Keyed(s.props[i].name) }

  /** Every `enum` and `const` in it lists such scalars, and every property has such a
      name. */
  predicate Plain(s: Schema)
    decreases s, 1
  {
    WellKeyed(s) && Within(s)
  }

  /** The same, but for the names of its own properties. */
  predicate Within(s: Schema)
    decreases s, 0
  {
    s.Anything? ||
    (&& (s.enums.Some? ==> forall i :: 0 <= i < |s.enums.value| ==> Literally(s.enums.value[i]))
     && (s.konst.Some? ==> Literally(s.konst.value))
     && (s.oneOf.Choice? ==> forall i :: 0 <= i < |s.oneOf.of| ==> Plain(s.oneOf.of[i]))
     && (s.anyOf.Choice? ==> forall i :: 0 <= i < |s.anyOf.of| ==> Plain(s.anyOf.of[i]))
     && Plain(s.items)
     && (forall i :: 0 <= i < |s.props| ==> Plain(s.props[i].schema)))
  }

  /** It is emitted as an interface. */
  predicate IsInterface(s: Schema) {
    s.Node? && s.kinds.Some? && KObject in s.kinds.value && (|s.props| > 0 || s.open)
  }

  /** Its `type` names no other kind there is. */
  predicate OnlyObject(s: Schema)
    requires IsInterface(s)
  {
    forall i :: 0 <= i < |s.kinds.value| ==> s.kinds.value[i] == KObject || s.kinds.value[i].KOther?
  }

  predicate Sound(defs: Defs) {
    forall name :: name in defs ==> Plain(defs[name]) && (IsInterface(defs[name]) ==> OnlyObject(defs[name]))
  }

  lemma KeyNames(name: string)
    requires Keyed(name)
    ensures TsLiteral.ReadKey(KeyFor(name)).Some? && NameOf(KeyFor(name)) == Some(name)
  {
    TsLiteral.KeyExactly(Codes(name));
    CharsOf(name);
  }

  lemma LiteralAdmits(fuel: nat, defs: Defs, v: Json)
    requires Literally(v)
    ensures Inhabits(fuel, defs, LiteralOf(v), v)
  {
    if v.Str? {
      TsLiteral.LiteralExactly(Codes(v.s));
    }
  }

  lemma {:induction false} Included(fuel: nat, defs: Defs, s: Schema, v: Json)
    requires Sound(defs) && Plain(s) && Valid(fuel, defs, s, v)
    ensures Inhabits(fuel, defs, TsType(s), v)
    decreases fuel, s, 4
  {
    if s.Node? {
      if s.ref.Some? {
        DeclaredIncluded(fuel - 1, defs, defs[s.ref.value], v);
      } else if s.enums.Some? {
        var i :| 0 <= i < |s.enums.value| && s.enums.value[i] == v;
        LiteralAdmits(fuel, defs, v);
        assert Inhabits(fuel, defs, Literals(s.enums.value)[i], v);
      } else if s.konst.Some? {
        LiteralAdmits(fuel, defs, v);
      } else if s.oneOf.Choice? {
        var i :| 0 <= i < |s.oneOf.of| && Valid(fuel, defs, s.oneOf.of[i], v);
        ChoiceIncluded(fuel, defs, s.oneOf, i, v);
      } else if s.anyOf.Choice? {
        var i :| 0 <= i < |s.anyOf.of| && Valid(fuel, defs, s.anyOf.of[i], v);
        ChoiceIncluded(fuel, defs, s.anyOf, i, v);
      } else if s.kinds.Some? {
        KindsIncluded(fuel, defs, s, v);
      }
    }
  }

  lemma {:induction false} ChoiceIncluded(fuel: nat, defs: Defs, c: Choice, i: nat, v: Json)
    requires Sound(defs) && c.Choice? && i < |c.of| && Plain(c.of[i]) && Valid(fuel, defs, c.of[i], v)
    ensures Inhabits(fuel, defs, Alternatives(c), v)
    decreases fuel, c, 0
  {
    Included(fuel, defs, c.of[i], v);
    InUnion(fuel, defs, Distinct(All(c)), All(c)[i], v);
  }

  /** A part admits it, so the union does. */
  lemma InUnion(fuel: nat, defs: Defs, parts: seq<Ts>, part: Ts, v: Json)
    requires part in parts && Inhabits(fuel, defs, part, v)
    ensures Inhabits(fuel, defs, Union(parts), v)
  {
    var i :| 0 <= i < |parts| && parts[i] == part;
    assert Inhabits(fuel, defs, Union(parts).parts[i], v);
  }

  lemma {:induction false} KindsIncluded(fuel: nat, defs: Defs, s: Schema, v: Json)
    requires Sound(defs) && Plain(s) && Valid(fuel, defs, s, v)
    requires s.Node? && s.ref.None? && s.enums.None? && s.konst.None? && s.oneOf.NoChoice? && s.anyOf.NoChoice?
    requires s.kinds.Some?
    ensures Inhabits(fuel, defs, TsType(s), v)
    decreases fuel, s, 3
  {
    var ks := s.kinds.value;
    var i :| 0 <= i < |ks| && HasKind(v, ks[i]);
    var solid := Solid(ks);
    var parts := Distinct(Kinds(s, solid));
    if ks[i] == KNull {
      if |solid| > 0 {
        assert NullType in parts + [NullType];
        InUnion(fuel, defs, parts + [NullType], NullType, v);
      }
    } else {
      assert ks[i] in solid;
      KindIncluded(fuel, defs, s, ks[i], v);
      KindsHas(s, solid, ks[i]);
      var all := if KNull in ks then parts + [NullType] else parts;
      InUnion(fuel, defs, all, OfKind(s, ks[i]), v);
    }
  }

  lemma {:induction false} KindsHas(s: Schema, ks: seq<Kind>, k: Kind)
    requires s.Node? && k in ks
    ensures OfKind(s, k) in Kinds(s, ks)
    decreases |ks|
  {
    var front, last := ks[..|ks| - 1], ks[|ks| - 1];
    assert ks == front + [last];
    if k != last {
      KindsHas(s, front, k);
    }
  }

  lemma {:induction false} KindIncluded(fuel: nat, defs: Defs, s: Schema, k: Kind, v: Json)
    requires Sound(defs) && Plain(s) && Valid(fuel, defs, s, v) && s.Node?
    requires HasKind(v, k) && k != KNull
    ensures Inhabits(fuel, defs, OfKind(s, k), v)
    decreases fuel, s, 2
  {
    match k
    case KArray =>
      forall i | 0 <= i < |v.items| ensures Inhabits(fuel, defs, TsType(s.items), v.items[i]) {
        Included(fuel, defs, s.items, v.items[i]);
      }
    case KObject =>
      if |s.props| > 0 {
        ShapeIncluded(fuel, defs, s, v);
      }
    case _ =>
  }

  lemma {:induction false} ShapeIncluded(fuel: nat, defs: Defs, s: Schema, v: Json)
    requires Sound(defs) && Plain(s) && Valid(fuel, defs, s, v) && s.Node? && v.Obj?
    ensures Inhabits(fuel, defs, InlineObject(s), v)
    decreases fuel, s, 1
  {
    forall i | 0 <= i < |s.props|
      ensures TsLiteral.ReadKey(KeyFor(s.props[i].name)).Some? && NameOf(KeyFor(s.props[i].name)) == Some(s.props[i].name)
      ensures s.props[i].name in v.fields ==>
        Inhabits(fuel, defs, TsType(s.props[i].schema), v.fields[s.props[i].name])
    {
      KeyNames(s.props[i].name);
      if s.props[i].name in v.fields {
        Included(fuel, defs, s.props[i].schema, v.fields[s.props[i].name]);
      }
    }
  }

  lemma {:induction false} DeclaredIncluded(fuel: nat, defs: Defs, s: Schema, v: Json)
    requires Sound(defs) && Plain(s) && Valid(fuel, defs, s, v)
    requires IsInterface(s) ==> OnlyObject(s)
    ensures Inhabits(fuel, defs, Declared(s), v)
    decreases fuel, s, 5
  {
    if IsInterface(s) {
      assert v.Obj?;
      if |s.props| > 0 {
        ShapeIncluded(fuel, defs, s, v);
      }
    } else {
      Included(fuel, defs, s, v);
    }
  }

  // -- what a type refuses ----------------------------------------------------------------

  /** A value is one of a literal list: a string by what its text reads back as. */
  ghost predicate Listed(vs: seq<Json>, v: Json) {
    exists i :: 0 <= i < |vs| && Reads(vs[i], v)
  }

  ghost predicate Reads(literal: Json, v: Json) {
    if literal.Str? then v.Str? && TsLiteral.Read(TsLiteral.Written(Codes(literal.s))) == Some(Codes(v.s))
    else Scalar(literal) && v == literal
  }

  lemma LiteralIs(fuel: nat, defs: Defs, literal: Json, v: Json)
    ensures Inhabits(fuel, defs, LiteralOf(literal), v) <==> Reads(literal, v)
  {
  }

  /** The value of every member its key names has the member's type, and a required one is
      there. */
  ghost predicate MembersFit(fuel: nat, defs: Defs, s: Schema, v: Json)
    requires s.Node? && v.Obj?
  {
    forall i :: 0 <= i < |s.props| ==> MemberFits(fuel, defs, s, i, v)
  }

  predicate MemberFits(fuel: nat, defs: Defs, s: Schema, i: nat, v: Json)
    requires s.Node? && v.Obj? && i < |s.props|
  {
    && TsLiteral.ReadKey(KeyFor(s.props[i].name)).Some?
    && var name := NameOf(KeyFor(s.props[i].name));
       if name.Some? && name.value in v.fields
       then Inhabits(fuel, defs, TsType(s.props[i].schema), v.fields[name.value])
       else s.props[i].name !in s.required
  }

  /** The value is of one of the kinds named, its items and members by their own types. A
      kind nobody knows is `unknown`, and no kind at all is `null`. */
  ghost predicate OfKinds(fuel: nat, defs: Defs, s: Schema, ks: seq<Kind>, v: Json)
    requires s.Node?
  {
    || (exists name :: KOther(name) in ks)
    || match v
       case Null => KNull in ks || |ks| == 0
       case Bool(_) => KBoolean in ks
       case Num(_) => KNumber in ks || KInteger in ks
       case Str(_) => KString in ks
       case Arr(items) => KArray in ks && forall i :: 0 <= i < |items| ==> Inhabits(fuel, defs, TsType(s.items), items[i])
       case Obj(_) => KObject in ks && MembersFit(fuel, defs, s, v)
  }

  /** One kind's type. */
  lemma KindIs(fuel: nat, defs: Defs, s: Schema, k: Kind, v: Json)
    requires s.Node? && k != KNull
    ensures Inhabits(fuel, defs, OfKind(s, k), v) <==> OfKinds(fuel, defs, s, [k], v)
  {
    forall l: Kind ensures l in [k] <==> l == k {
    }
    match k
    case KOther(name) => assert KOther(name) in [k];
    case KObject => ShapeIs(fuel, defs, s, v);
    case KArray => ArrayIs(fuel, defs, TsType(s.items), v);
    case _ =>
  }

  lemma ArrayIs(fuel: nat, defs: Defs, t: Ts, v: Json)
    ensures Inhabits(fuel, defs, ArrayOf(t), v) <==>
      v.Arr? && forall i :: 0 <= i < |v.items| ==> Inhabits(fuel, defs, t, v.items[i])
  {
  }

  lemma ShapeIs(fuel: nat, defs: Defs, s: Schema, v: Json)
    requires s.Node?
    ensures Inhabits(fuel, defs, InlineObject(s), v) <==> v.Obj? && MembersFit(fuel, defs, s, v)
    ensures |s.props| == 0 && v.Obj? ==> MembersFit(fuel, defs, s, v)
  {
    var t := InlineObject(s);
    assert forall i :: 0 <= i < |s.props| ==>
      t.members[i] == Field(KeyFor(s.props[i].name), s.props[i].name in s.required, TsType(s.props[i].schema));
    if v.Obj? {
      if Inhabits(fuel, defs, t, v) {
        forall i | 0 <= i < |s.props| ensures MemberFits(fuel, defs, s, i, v) {
          assert t.members[i].key == KeyFor(s.props[i].name);
        }
      }
      if MembersFit(fuel, defs, s, v) {
        forall i | 0 <= i < |t.members|
          ensures TsLiteral.ReadKey(t.members[i].key).Some?
          ensures var name := NameOf(t.members[i].key);
            if name.Some? && name.value in v.fields then Inhabits(fuel, defs, t.members[i].type_, v.fields[name.value])
            else !t.members[i].needed
        {
          assert MemberFits(fuel, defs, s, i, v);
        }
      }
    }
  }

  lemma UnionIs(fuel: nat, defs: Defs, parts: seq<Ts>, v: Json)
    ensures Inhabits(fuel, defs, Union(parts), v) <==> exists p :: p in parts && Inhabits(fuel, defs, p, v)
  {
    if p :| p in parts && Inhabits(fuel, defs, p, v) {
      InUnion(fuel, defs, parts, p, v);
    }
    if Inhabits(fuel, defs, Union(parts), v) {
      var i :| 0 <= i < |parts| && Inhabits(fuel, defs, Union(parts).parts[i], v);
      assert parts[i] in parts;
    }
  }

  lemma {:induction false} KindsAre(s: Schema, ks: seq<Kind>, t: Ts)
    requires s.Node?
    ensures t in Kinds(s, ks) <==> exists k :: k in ks && t == OfKind(s, k)
    decreases |ks|
  {
    if |ks| > 0 {
      var front, last := ks[..|ks| - 1], ks[|ks| - 1];
      KindsAre(s, front, t);
      assert ks == front + [last] && Kinds(s, ks) == Kinds(s, front) + [OfKind(s, last)];
      if t == OfKind(s, last) {
        assert last in ks;
      }
      if k :| k in front && t == OfKind(s, k) {
        assert k in ks;
      }
      if k :| k in ks && t == OfKind(s, k) {
        assert k in front || k == last;
      }
    }
  }

  /** Of a list of kinds the value is of one. */
  lemma KindByKind(fuel: nat, defs: Defs, s: Schema, ks: seq<Kind>, v: Json)
    requires s.Node? && |ks| > 0
    ensures OfKinds(fuel, defs, s, ks, v) <==> exists k :: k in ks && OfKinds(fuel, defs, s, [k], v)
  {
    if OfKinds(fuel, defs, s, ks, v) {
      if name :| KOther(name) in ks {
        assert KOther(name) in [KOther(name)];
      } else {
        var k := match v
          case Null => KNull case Bool(_) => KBoolean case Str(_) => KString case Arr(_) => KArray
          case Obj(_) => KObject case Num(_) => if KNumber in ks then KNumber else KInteger;
        assert k in ks && k in [k];
        assert OfKinds(fuel, defs, s, [k], v);
      }
    }
    if k :| k in ks && OfKinds(fuel, defs, s, [k], v) {
      if name :| KOther(name) in [k] {
        assert KOther(name) in ks;
      }
    }
  }

  /** The type of a node with neither reference, enum, const nor choice admits exactly the
      values of the kinds it names. */
  lemma KindsAdmitExactly(fuel: nat, defs: Defs, s: Schema, v: Json)
    requires s.Node? && s.ref.None? && s.enums.None? && s.konst.None? && s.oneOf.NoChoice? && s.anyOf.NoChoice?
    requires s.kinds.Some?
    ensures Inhabits(fuel, defs, TsType(s), v) <==> OfKinds(fuel, defs, s, s.kinds.value, v)
  {
    var ks := s.kinds.value;
    var solid := Solid(ks);
    if |solid| == 0 {
      assert forall k :: k in ks ==> k == KNull by {
        forall k | k in ks ensures k == KNull { assert k != KNull ==> k in solid; }
      }
    } else {
      var parts := Distinct(Kinds(s, solid));
      var all := if KNull in ks then parts + [NullType] else parts;
      assert solid[0] in ks;
      UnionIs(fuel, defs, all, v);
      KindByKind(fuel, defs, s, ks, v);
      if Inhabits(fuel, defs, TsType(s), v) {
        var p :| p in all && Inhabits(fuel, defs, p, v);
        SomeKind(fuel, defs, s, ks, solid, p, v);
      }
      if k :| k in ks && OfKinds(fuel, defs, s, [k], v) {
        SomePart(fuel, defs, s, ks, solid, k, v);
      }
    }
  }

  lemma SomeKind(fuel: nat, defs: Defs, s: Schema, ks: seq<Kind>, solid: seq<Kind>, p: Ts, v: Json)
    requires s.Node? && solid == Solid(ks) && Inhabits(fuel, defs, p, v)
    requires p in Distinct(Kinds(s, solid)) || (p == NullType && KNull in ks)
    ensures exists k :: k in ks && OfKinds(fuel, defs, s, [k], v)
  {
    if p in Distinct(Kinds(s, solid)) {
      KindsAre(s, solid, p);
      var k :| k in solid && p == OfKind(s, k);
      KindIs(fuel, defs, s, k, v);
    } else {
      assert KNull in [KNull] && OfKinds(fuel, defs, s, [KNull], v);
    }
  }

  lemma SomePart(fuel: nat, defs: Defs, s: Schema, ks: seq<Kind>, solid: seq<Kind>, k: Kind, v: Json)
    requires s.Node? && solid == Solid(ks) && k in ks && OfKinds(fuel, defs, s, [k], v)
    ensures var all := Distinct(Kinds(s, solid)) + if KNull in ks then [NullType] else [];
      exists p :: p in all && Inhabits(fuel, defs, p, v)
  {
    var parts := Distinct(Kinds(s, solid));
    if k == KNull {
      NullIs(fuel, defs, s, v);
      assert NullType in parts + [NullType];
    } else {
      KindsAre(s, solid, OfKind(s, k));
      KindIs(fuel, defs, s, k, v);
      assert OfKind(s, k) in parts;
    }
  }

  lemma NullIs(fuel: nat, defs: Defs, s: Schema, v: Json)
    requires s.Node?
    ensures OfKinds(fuel, defs, s, [KNull], v) <==> Inhabits(fuel, defs, NullType, v)
  {
    forall k: Kind ensures k in [KNull] <==> k == KNull {
    }
  }

  /** And any other node's type by its parts: a reference what its name stands for, a list
      of values those and no others, a choice what one of its alternatives admits, and a
      node that says nothing anything. */
  lemma PartsAdmitExactly(fuel: nat, defs: Defs, s: Schema, v: Json)
    requires s.Node? && (s.ref.Some? || s.enums.Some? || s.konst.Some? || s.oneOf.Choice? || s.anyOf.Choice? || s.kinds.None?)
    ensures Inhabits(fuel, defs, TsType(s), v) <==>
      if s.ref.Some? then fuel > 0 && s.ref.value in defs && Inhabits(fuel - 1, defs, Declared(defs[s.ref.value]), v)
      else if s.enums.Some? then Listed(s.enums.value, v)
      else if s.konst.Some? then Reads(s.konst.value, v)
      else if s.oneOf.Choice? then AnyOfTypes(fuel, defs, s.oneOf.of, v)
      else if s.anyOf.Choice? then AnyOfTypes(fuel, defs, s.anyOf.of, v)
      else true
  {
    if s.ref.None? && s.enums.Some? {
      var vs := s.enums.value;
      forall i | 0 <= i < |vs| ensures Inhabits(fuel, defs, Literals(vs)[i], v) <==> Reads(vs[i], v) {
        LiteralIs(fuel, defs, vs[i], v);
      }
    } else if s.ref.None? && s.enums.None? && s.konst.Some? {
      LiteralIs(fuel, defs, s.konst.value, v);
    } else if s.ref.None? && s.enums.None? && s.konst.None? && s.oneOf.Choice? {
      ChoiceIs(fuel, defs, s.oneOf, v);
    } else if s.ref.None? && s.enums.None? && s.konst.None? && s.anyOf.Choice? {
      ChoiceIs(fuel, defs, s.anyOf, v);
    }
  }

  /** An empty choice is `unknown`. */
  ghost predicate AnyOfTypes(fuel: nat, defs: Defs, of: seq<Schema>, v: Json) {
    |of| == 0 || exists i :: 0 <= i < |of| && Inhabits(fuel, defs, TsType(of[i]), v)
  }

  lemma ChoiceIs(fuel: nat, defs: Defs, c: Choice, v: Json)
    requires c.Choice?
    ensures Inhabits(fuel, defs, Alternatives(c), v) <==> AnyOfTypes(fuel, defs, c.of, v)
  {
    UnionIs(fuel, defs, Distinct(All(c)), v);
    if i :| 0 <= i < |c.of| && Inhabits(fuel, defs, TsType(c.of[i]), v) {
      assert All(c)[i] in Distinct(All(c));
    }
    if p :| p in Distinct(All(c)) && Inhabits(fuel, defs, p, v) {
      var i :| 0 <= i < |c.of| && All(c)[i] == p;
    }
  }

  /** A named schema with properties, or open, stands for its interface, and any other for
      its type. */
  lemma DeclaredAdmitsExactly(fuel: nat, defs: Defs, s: Schema, v: Json)
    ensures Inhabits(fuel, defs, Declared(s), v) <==>
      if s.Node? && s.kinds.Some? && KObject in s.kinds.value && (|s.props| > 0 || s.open)
      then v.Obj? && MembersFit(fuel, defs, s, v)
      else Inhabits(fuel, defs, TsType(s), v)
  {
    if s.Node? {
      ShapeIs(fuel, defs, s, v);
    }
  }

  // -- where a literal loses values ------------------------------------------------------

  /** A node whose type is the literals it lists, all of which it lets through. */
  predicate IsEnum(fuel: nat, defs: Defs, s: Schema) {
    && s.Node? && s.ref.None? && s.enums.Some?
    && forall i :: 0 <= i < |s.enums.value| ==> Scalar(s.enums.value[i]) && Valid(fuel, defs, s, s.enums.value[i])
  }

  predicate AllLiterally(vs: seq<Json>) { forall i :: 0 <= i < |vs| ==> Literally(vs[i]) }

  /** The longest of the strings that do not read back. */
  lemma {:induction false} LongestLost(vs: seq<Json>) returns (k: nat)
    requires !AllLiterally(vs) && forall i :: 0 <= i < |vs| ==> Scalar(vs[i])
    ensures k < |vs| && !Literally(vs[k])
    ensures forall i :: 0 <= i < |vs| && !Literally(vs[i]) ==> |vs[i].s| <= |vs[k].s|
    decreases |vs|
  {
    var front, last := vs[..|vs| - 1], |vs| - 1;
    if AllLiterally(front) {
      k := last;
      assert forall i :: 0 <= i < last ==> vs[i] == front[i];
    } else {
      k := LongestLost(front);
      if !Literally(vs[last]) && |vs[k].s| < |vs[last].s| {
        k := last;
      }
    }
  }

  /** No literal of the list admits it: those that read back are of other strings, and
      the others are of shorter ones. */
  lemma LongestIsLost(fuel: nat, defs: Defs, vs: seq<Json>, k: nat)
    requires k < |vs| && forall i :: 0 <= i < |vs| ==> Scalar(vs[i])
    requires !Literally(vs[k]) && forall i :: 0 <= i < |vs| && !Literally(vs[i]) ==> |vs[i].s| <= |vs[k].s|
    ensures !Inhabits(fuel, defs, Union(Literals(vs)), vs[k])
  {
    forall i | 0 <= i < |vs| ensures !Inhabits(fuel, defs, Literals(vs)[i], vs[k]) {
      if vs[i].Str? {
        TsLiteral.LiteralExactly(Codes(vs[i].s));
        if !Literally(vs[i]) && TsLiteral.Read(TsLiteral.Written(Codes(vs[i].s))).Some? {
          TsLiteral.UnsafeReadsShorter(Codes(vs[i].s));
        }
      }
    }
  }

  /** The type of an enum admits every value the schema lets through exactly when none of
      its strings has a backslash or a line break. */
  lemma EnumExactly(fuel: nat, defs: Defs, s: Schema)
    requires IsEnum(fuel, defs, s)
    ensures (forall v :: Valid(fuel, defs, s, v) ==> Inhabits(fuel, defs, TsType(s), v)) <==> AllLiterally(s.enums.value)
  {
    var vs := s.enums.value;
    if AllLiterally(vs) {
      forall v | Valid(fuel, defs, s, v) ensures Inhabits(fuel, defs, TsType(s), v) {
        var i :| 0 <= i < |vs| && vs[i] == v;
        LiteralAdmits(fuel, defs, v);
        assert Inhabits(fuel, defs, Literals(vs)[i], v);
      }
    } else {
      var k := LongestLost(vs);
      LongestIsLost(fuel, defs, vs, k);
      assert Valid(fuel, defs, s, vs[k]);
    }
  }

  /** So does the type of a const. */
  lemma ConstExactly(fuel: nat, defs: Defs, s: Schema)
    requires s.Node? && s.ref.None? && s.enums.None? && s.konst.Some?
    requires Scalar(s.konst.value) && Valid(fuel, defs, s, s.konst.value)
    ensures (forall v :: Valid(fuel, defs, s, v) ==> Inhabits(fuel, defs, TsType(s), v)) <==> Literally(s.konst.value)
  {
    var c := s.konst.value;
    if Literally(c) {
      LiteralAdmits(fuel, defs, c);
    } else {
      TsLiteral.LiteralExactly(Codes(c.s));
      assert !Inhabits(fuel, defs, TsType(s), c);
    }
  }

  /** A schema that lists one value. */
  function OneOfThese(v: Json): Schema {
    Node(None, Some([v]), None, NoChoice, NoChoice, None, Anything, [], {}, false, false)
  }

  /** A string with a backslash in it, listed by itself, is let through by its schema and
      not by its type. */
  lemma BackslashIsLost(fuel: nat, defs: Defs, before: string, after: string)
    ensures var v := Str(before + "\\" + after);
      Valid(fuel, defs, OneOfThese(v), v) && !Inhabits(fuel, defs, TsType(OneOfThese(v)), v)
  {
    var v := Str(before + "\\" + after);
    assert v.s[|before|] == '\\' && Codes(v.s)[|before|] == TsLiteral.BACKSLASH;
    assert [v][0] == v;
    assert !Literally([v][0]);
    LongestIsLost(fuel, defs, [v], 0);
  }

  // -- where the interface loses values ------------------------------------------------

  /** The interface written for a schema admits a value the schema lets through exactly
      when it is an object. */
  lemma InterfaceAdmits(fuel: nat, defs: Defs, s: Schema, v: Json)
    requires Sound(defs) && Plain(s) && IsInterface(s) && Valid(fuel, defs, s, v)
    ensures Inhabits(fuel, defs, Declared(s), v) <==> v.Obj?
  {
    if v.Obj? && |s.props| > 0 {
      ShapeIncluded(fuel, defs, s, v);
    }
  }

  predicate OfAKind(s: Schema, v: Json)
    requires s.Node? && s.kinds.Some?
  {
    exists i :: 0 <= i < |s.kinds.value| && HasKind(v, s.kinds.value[i])
  }

  /** No value of another kind gets past its `type`, `enum` and `const`: with neither of
      the last two, its `type` names no other kind; otherwise nothing they list is of a
      kind it names. */
  predicate ObjectsOnly(s: Schema)
    requires IsInterface(s)
  {
    if s.enums.Some? then
      forall i :: 0 <= i < |s.enums.value| ==>
        !OfAKind(s, s.enums.value[i]) || (s.konst.Some? && s.konst.value != s.enums.value[i])
    else if s.konst.Some? then !OfAKind(s, s.konst.value)
    else OnlyObject(s)
  }

  /** A value of a kind. */
  function Sample(k: Kind): Json {
    match k
    case KString => Str("")
    case KInteger => Num(0.0)
    case KNumber => Num(0.0)
    case KBoolean => Bool(true)
    case KArray => Arr([])
    case KObject => Obj(map[])
    case _ => Null
  }

  /** A value of another kind that a schema lets through, if there is one. */
  lemma LostValue(fuel: nat, defs: Defs, s: Schema) returns (v: Json)
    requires Within(s) && IsInterface(s) && s.ref.None? && s.oneOf.NoChoice? && s.anyOf.NoChoice? && !ObjectsOnly(s)
    ensures Valid(fuel, defs, s, v) && !v.Obj?
  {
    if s.enums.Some? {
      var i :| 0 <= i < |s.enums.value| && OfAKind(s, s.enums.value[i])
        && (s.konst.Some? ==> s.konst.value == s.enums.value[i]);
      v := s.enums.value[i];
      assert Literally(v);
    } else if s.konst.Some? {
      v := s.konst.value;
    } else {
      var i :| 0 <= i < |s.kinds.value| && s.kinds.value[i] != KObject && !s.kinds.value[i].KOther?;
      v := Sample(s.kinds.value[i]);
      assert HasKind(v, s.kinds.value[i]);
    }
  }

  /** A property of this name may have this value. */
  predicate Allowed(fuel: nat, defs: Defs, s: Schema, name: string, w: Json)
    requires s.Node?
  {
    && (forall i :: 0 <= i < |s.props| && s.props[i].name == name ==> Valid(fuel, defs, s.props[i].schema, w))
    && (s.closed ==> Names(s.props, name))
  }

  /** The member written for a property refuses nothing: the name its key reads as is
      there whenever the property must be, and any value that one may have the type
      admits. */
  ghost predicate Keeps(fuel: nat, defs: Defs, s: Schema, i: nat)
    requires s.Node? && i < |s.props|
  {
    var (p, read) := (s.props[i], NameOf(KeyFor(s.props[i].name)));
    && (p.name in s.required ==> read.Some? && read.value in s.required)
    && (read.Some? ==>
          forall w :: Allowed(fuel, defs, s, read.value, w) ==> Inhabits(fuel, defs, TsType(p.schema), w))
  }

  ghost predicate AllKeep(fuel: nat, defs: Defs, s: Schema)
    requires s.Node?
  {
    forall i :: 0 <= i < |s.props| ==> Keeps(fuel, defs, s, i)
  }

  /** A member whose key reads back does. */
  lemma KeyedKeeps(fuel: nat, defs: Defs, s: Schema, i: nat)
    requires Sound(defs) && Within(s) && s.Node? && i < |s.props| && Keyed(s.props[i].name)
    ensures Keeps(fuel, defs, s, i)
  {
    KeyNames(s.props[i].name);
    forall w | Allowed(fuel, defs, s, s.props[i].name, w) ensures Inhabits(fuel, defs, TsType(s.props[i].schema), w) {
      Included(fuel, defs, s.props[i].schema, w);
    }
  }

  ghost predicate AnyObject(fuel: nat, defs: Defs, s: Schema) { exists v: Json :: v.Obj? && Valid(fuel, defs, s, v) }

  predicate Readable(s: Schema)
    requires s.Node?
  {
    forall i :: 0 <= i < |s.props| ==> TsLiteral.ReadKey(KeyFor(s.props[i].name)).Some?
  }

  /** With members that refuse nothing an object gets through. */
  lemma KeptIsAdmitted(fuel: nat, defs: Defs, s: Schema, v: Json)
    requires s.Node? && Readable(s) && AllKeep(fuel, defs, s) && v.Obj? && Valid(fuel, defs, s, v)
    ensures Inhabits(fuel, defs, InlineObject(s), v)
  {
    forall i | 0 <= i < |s.props|
      ensures var name := NameOf(KeyFor(s.props[i].name));
        if name.Some? && name.value in v.fields then Inhabits(fuel, defs, TsType(s.props[i].schema), v.fields[name.value])
        else s.props[i].name !in s.required
    {
      assert Keeps(fuel, defs, s, i);
      var name := NameOf(KeyFor(s.props[i].name));
      if name.Some? && name.value in v.fields {
        assert Allowed(fuel, defs, s, name.value, v.fields[name.value]);
      }
    }
  }

  /** With one that does, some object does not: the given one, without the property read
      or with the value refused. */
  lemma RefusedObject(fuel: nat, defs: Defs, s: Schema, i: nat, v: Json) returns (lost: Json)
    requires s.Node? && s.enums.None? && s.konst.None? && s.ref.None? && s.oneOf.NoChoice? && s.anyOf.NoChoice?
    requires v.Obj? && Valid(fuel, defs, s, v)
    requires i < |s.props| && !Keeps(fuel, defs, s, i)
    ensures lost.Obj? && Valid(fuel, defs, s, lost) && !Inhabits(fuel, defs, InlineObject(s), lost)
  {
    var p, read := s.props[i], NameOf(KeyFor(s.props[i].name));
    var member := InlineObject(s).members[i];
    if p.name in s.required && read.None? {
      lost := v;
    } else if p.name in s.required && read.value !in s.required {
      lost := Obj(v.fields - {read.value});
    } else {
      var w :| Allowed(fuel, defs, s, read.value, w) && !Inhabits(fuel, defs, TsType(p.schema), w);
      lost := Obj(v.fields[read.value := w]);
    }
  }

  /** Its keys being one name each, the interface admits all that the schema lets
      through exactly when that is objects only, or nothing, and no member refuses any:
      for a key that reads back never, and for another as `Keeps` says. */
  lemma InterfaceExactly(fuel: nat, defs: Defs, s: Schema)
    requires Sound(defs) && Within(s) && IsInterface(s) && s.ref.None? && s.oneOf.NoChoice? && s.anyOf.NoChoice?
    requires Readable(s)
    ensures (forall v :: Valid(fuel, defs, s, v) ==> Inhabits(fuel, defs, Declared(s), v))
      <==> ObjectsOnly(s) && (AnyObject(fuel, defs, s) ==> AllKeep(fuel, defs, s))
  {
    if !ObjectsOnly(s) {
      var v := LostValue(fuel, defs, s);
      assert !Inhabits(fuel, defs, Declared(s), v);
    } else if AnyObject(fuel, defs, s) {
      var v: Json :| v.Obj? && Valid(fuel, defs, s, v);
      if AllKeep(fuel, defs, s) {
        forall u | Valid(fuel, defs, s, u) ensures Inhabits(fuel, defs, Declared(s), u) {
          KeptIsAdmitted(fuel, defs, s, u);
        }
      } else {
        var i :| 0 <= i < |s.props| && !Keeps(fuel, defs, s, i);
        var lost := RefusedObject(fuel, defs, s, i, v);
        assert !Inhabits(fuel, defs, Declared(s), lost);
      }
    }
  }

  /** So with names that read back it does exactly when nothing but objects gets
      through. */
  lemma KeyedInterfaceExactly(fuel: nat, defs: Defs, s: Schema)
    requires Sound(defs) && Plain(s) && IsInterface(s) && s.ref.None? && s.oneOf.NoChoice? && s.anyOf.NoChoice?
    ensures (forall v :: Valid(fuel, defs, s, v) ==> Inhabits(fuel, defs, Declared(s), v)) <==> ObjectsOnly(s)
  {
    forall i | 0 <= i < |s.props|
      ensures Keeps(fuel, defs, s, i) && TsLiteral.ReadKey(KeyFor(s.props[i].name)).Some?
    {
      KeyedKeeps(fuel, defs, s, i);
      KeyNames(s.props[i].name);
    }
    InterfaceExactly(fuel, defs, s);
  }

  /** An object with one property, which it must have. */
  function OneRequired(name: string): Schema {
    Node(None, None, None, NoChoice, NoChoice, Some([KObject]), Anything, [Property(name, Anything)], {name}, false, false)
  }

  /** Its interface refuses no object that the schema lets through exactly when the name
      has no quote, no backslash and no line break; and else it refuses one with that
      property alone. */
  lemma RequiredKeyExactly(fuel: nat, defs: Defs, name: string)
    ensures (forall v :: Valid(fuel, defs, OneRequired(name), v) ==> Inhabits(fuel, defs, Declared(OneRequired(name)), v))
      <==> Keyed(name)
    ensures var v := Obj(map[name := Null]);
      Valid(fuel, defs, OneRequired(name), v) && (Inhabits(fuel, defs, Declared(OneRequired(name)), v) <==> Keyed(name))
  {
    var s := OneRequired(name);
    var v := Obj(map[name := Null]);
    var member := InlineObject(s).members[0];
    assert s.kinds.value[0] == KObject;
    assert Declared(s) == InlineObject(s) && InlineObject(s).members == [Field(KeyFor(name), true, Unknown)];
    assert Valid(fuel, defs, s, v);
    if Keyed(name) {
      KeyNames(name);
      forall u | Valid(fuel, defs, s, u) ensures Inhabits(fuel, defs, Declared(s), u) {
        assert u.Obj? && name in u.fields;
        assert Inhabits(fuel, defs, Unknown, u.fields[name]);
      }
    } else if TsLiteral.ReadKey(KeyFor(name)).Some? {
      TsLiteral.UnsafeKeyIsShorter(Codes(name));
      assert member.needed && NameOf(member.key) != Some(name);
      assert !Inhabits(fuel, defs, InlineObject(s), v);
    }
  }
}
