/** The TypeScript generator: JSON Schema nodes as type expressions, and which JSON
    values each side lets through. */
module TypeScript {
  import opened Bytes
  import TsLiteral

  datatype Json =
    | Null
    | Bool(b: bool)
    | Num(n: real)
    | Str(s: string)
    | Arr(items: seq<Json>)
    | Obj(fields: map<string, Json>)

  /** The kinds `type` may name; anything else is `Other`. */
  datatype Kind = KString | KInteger | KNumber | KBoolean | KNull | KArray | KObject | KOther(name: string)

  datatype Property = Property(name: string, schema: Schema)

  /** What `oneOf` or `anyOf` lists. */
  datatype Choice = NoChoice | Choice(of: seq<Schema>)

  /** A schema: `true`, `{}` and whatever is not an object, or a node with the
      keywords the generator reads. A reference is the name at its end. `kinds` is a
      list also when `type` is a single name. `open` is `additionalProperties: true`,
      `closed` is `additionalProperties: false`. */
  datatype Schema =
    | Anything
    | Node(ref: Option<string>, enums: Option<seq<Json>>, konst: Option<Json>,
           oneOf: Choice, anyOf: Choice, kinds: Option<seq<Kind>>,
           items: Schema, props: seq<Property>, required: set<string>, open: bool, closed: bool)

  type Defs = map<string, Schema>

  // -- what a schema lets through --------------------------------------------------

  predicate HasKind(v: Json, k: Kind) {
    match k
    case KString => v.Str?
    case KInteger => v.Num? && v.n == v.n.Floor as real
    case KNumber => v.Num?
    case KBoolean => v.Bool?
    case KNull => v.Null?
    case KArray => v.Arr?
    case KObject => v.Obj?
    case KOther(_) => false
  }

  predicate Names(ps: seq<Property>, name: string) { exists i :: 0 <= i < |ps| && ps[i].name == name }

  /** Validity, following at most `fuel` references on the way to any part of it. */
  predicate Valid(fuel: nat, defs: Defs, s: Schema, v: Json)
    decreases fuel, s
  {
    s.Anything? ||
    (&& (s.ref.Some? ==> fuel > 0 && s.ref.value in defs && Valid(fuel - 1, defs, defs[s.ref.value], v))
     && (s.enums.Some? ==> v in s.enums.value)
     && (s.konst.Some? ==> v == s.konst.value)
     && (s.oneOf.Choice? ==> OneOf(fuel, defs, s.oneOf, v))
     && (s.anyOf.Choice? ==> AnyOf(fuel, defs, s.anyOf, v))
     && (s.kinds.Some? ==> exists i :: 0 <= i < |s.kinds.value| && HasKind(v, s.kinds.value[i]))
     && (v.Arr? ==> forall i :: 0 <= i < |v.items| ==> Valid(fuel, defs, s.items, v.items[i]))
     && (v.Obj? ==>
           && (forall i :: 0 <= i < |s.props| && s.props[i].name in v.fields
                 ==> Valid(fuel, defs, s.props[i].schema, v.fields[s.props[i].name]))
           && s.required <= v.fields.Keys
           && (s.closed ==> forall name :: name in v.fields ==> Names(s.props, name))))
  }

  predicate AnyOf(fuel: nat, defs: Defs, c: Choice, v: Json)
    requires c.Choice?
    decreases fuel, c
  {
    exists i :: 0 <= i < |c.of| && Valid(fuel, defs, c.of[i], v)
  }

  predicate OneOf(fuel: nat, defs: Defs, c: Choice, v: Json)
    requires c.Choice?
    decreases fuel, c
  {
    exists i :: 0 <= i < |c.of| && Valid(fuel, defs, c.of[i], v)
             && forall j :: 0 <= j < |c.of| && j != i ==> !Valid(fuel, defs, c.of[j], v)
  }

  // -- type expressions --------------------------------------------------------------

  /** A member by the text of its key. */
  datatype Field = Field(key: TsLiteral.Text, needed: bool, type_: Ts)

  datatype Ts =
    | Unknown
    | Never
    | NullType
    | StringType
    | NumberType
    | BooleanType
    | Literal(value: Json)
    | Quoted(text: TsLiteral.Text)
    | Spelt(value: Json)
    | Named(name: string)
    | Union(parts: seq<Ts>)
    | ArrayOf(inner: Ts)
    | AnyRecord
    | Shape(members: seq<Field>, indexed: bool)

  /** The parts of a union, each once, in the order they first come. */
  function Distinct(parts: seq<Ts>): (r: seq<Ts>)
    ensures forall p :: p in r <==> p in parts
    ensures forall i, j :: 0 <= i < j < |r| ==> r[i] != r[j]
  {
    if |parts| == 0 then []
    else
      var (front, last) := (Distinct(parts[..|parts| - 1]), parts[|parts| - 1]);
      assert parts == parts[..|parts| - 1] + [last];
      if last in front then front else front + [last]
  }

  /** The loop that drops what has been seen. */
  method DropSeen(parts: seq<Ts>) returns (out: seq<Ts>)
    ensures out == Distinct(parts)
  {
    var seen: set<Ts> := {};
    out := [];
    for i := 0 to |parts|
      invariant out == Distinct(parts[..i])
      invariant forall p :: p in seen <==> p in parts[..i]
    {
      assert parts[..i + 1][..i] == parts[..i];
      if parts[i] !in seen {
        seen := seen + {parts[i]};
        out := out + [parts[i]];
      }
    }
    assert parts[..|parts|] == parts;
  }

  /** One schema node as a type expression. */
  function TsType(s: Schema): Ts
    decreases s, 3
  {
    if s.Anything? then Unknown
    else if s.ref.Some? then Named(s.ref.value)
    else if s.enums.Some? then if |s.enums.value| == 0 then Never else Union(Literals(s.enums.value))
    else if s.konst.Some? then LiteralOf(s.konst.value)
    else if s.oneOf.Choice? then Alternatives(s.oneOf)
    else if s.anyOf.Choice? then Alternatives(s.anyOf)
    else if s.kinds.None? then Unknown
    else
      var solid := Solid(s.kinds.value);
      if |solid| == 0 then NullType
      else
        var parts := Distinct(Kinds(s, solid));
        Union(if KNull in s.kinds.value then parts + [NullType] else parts)
  }

  predicate Scalar(v: Json) { !v.Arr? && !v.Obj? }

  /** The code points of a string. */
  function Codes(s: string): (r: TsLiteral.Text)
    ensures |r| == |s|
  {
    seq(|s|, i requires 0 <= i < |s| => s[i] as int)
  }

  predicate IsChar(c: nat) { c < 0xd800 || 0xe000 <= c < 0x110000 }

  /** The string of some code points. */
  function Chars(t: TsLiteral.Text): Option<string> {
    if forall i :: 0 <= i < |t| ==> IsChar(t[i])
    then Some(seq(|t|, i requires 0 <= i < |t| => t[i] as char)) else None
  }

  lemma CharsOf(s: string)
    ensures Chars(Codes(s)) == Some(s)
  {
    assert forall i :: 0 <= i < |s| ==> IsChar(Codes(s)[i]);
    assert Chars(Codes(s)).value == s;
  }

  /** The property a key names, where it names one that a string can be. */
  function NameOf(key: TsLiteral.Text): Option<string> {
    match TsLiteral.ReadKey(key)
    case None => None
    case Some(t) => Chars(t)
  }

  /** A scalar as a literal type, a string as the text of its literal. An array or an
      object is spelt as Python would, and what TypeScript makes of that is left open. */
  function LiteralOf(v: Json): Ts {
    match v
    case Str(s) => Quoted(TsLiteral.Written(Codes(s)))
    case Arr(_) => Spelt(v)
    case Obj(_) => Spelt(v)
    case _ => Literal(v)
  }

  function Literals(vs: seq<Json>): (r: seq<Ts>)
    ensures |r| == |vs| && forall i :: 0 <= i < |vs| ==> r[i] == LiteralOf(vs[i])
  {
    if |vs| == 0 then [] else Literals(vs[..|vs| - 1]) + [LiteralOf(vs[|vs| - 1])]
  }

  function Alternatives(c: Choice): Ts
    requires c.Choice?
    decreases c, 2
  {
    if |c.of| == 0 then Unknown else Union(Distinct(All(c)))
  }

  function All(c: Choice): (r: seq<Ts>)
    requires c.Choice?
    ensures |r| == |c.of|
    decreases c, 1
  {
    seq(|c.of|, i requires 0 <= i < |c.of| => TsType(c.of[i]))
  }

  function Solid(ks: seq<Kind>): (r: seq<Kind>)
    ensures forall k :: k in r <==> k in ks && k != KNull
  {
    if |ks| == 0 then []
    else
      assert ks == ks[..|ks| - 1] + [ks[|ks| - 1]];
      Solid(ks[..|ks| - 1]) + if ks[|ks| - 1] == KNull then [] else [ks[|ks| - 1]]
  }

  function Kinds(s: Schema, ks: seq<Kind>): (r: seq<Ts>)
    requires s.Node?
    ensures |r| == |ks|
    decreases s, 2, |ks|
  {
    if |ks| == 0 then [] else Kinds(s, ks[..|ks| - 1]) + [OfKind(s, ks[|ks| - 1])]
  }

  function OfKind(s: Schema, k: Kind): Ts
    requires s.Node?
    decreases s, 1
  {
    match k
    case KString => StringType
    case KInteger => NumberType
    case KNumber => NumberType
    case KBoolean => BooleanType
    case KArray => ArrayOf(TsType(s.items))
    case KObject => if |s.props| == 0 then AnyRecord else InlineObject(s)
    case _ => Unknown
  }

  function KeyFor(name: string): TsLiteral.Text { TsLiteral.Key(Codes(name)) }

  function InlineObject(s: Schema): Ts
    requires s.Node?
    decreases s, 0
  {
    Shape(seq(|s.props|, i requires 0 <= i < |s.props| =>
            Field(KeyFor(s.props[i].name), s.props[i].name in s.required, TsType(s.props[i].schema))), s.open)
  }

  /** What the named type stands for: an interface for an object with properties,
      whatever else its `type` lists, and else its type expression. */
  function Declared(s: Schema): Ts {
    if s.Node? && s.kinds.Some? && KObject in s.kinds.value && (|s.props| > 0 || s.open)
    then if |s.props| > 0 then InlineObject(s) else Shape([], true)
    else TsType(s)
  }

  /** Which JSON values a type expression admits. An object type admits properties it
      does not mention, and one with a key that cannot be read is no type at all. */
  predicate Inhabits(fuel: nat, defs: Defs, t: Ts, v: Json)
    decreases fuel, t
  {
    match t
    case Unknown => true
    case Never => false
    case NullType => v.Null?
    case StringType => v.Str?
    case NumberType => v.Num?
    case BooleanType => v.Bool?
    case Literal(c) => v == c
    case Quoted(text) => v.Str? && TsLiteral.Read(text) == Some(Codes(v.s))
    case Spelt(_) => false
    case Named(n) => fuel > 0 && n in defs && Inhabits(fuel - 1, defs, Declared(defs[n]), v)
    case Union(parts) => exists i :: 0 <= i < |parts| && Inhabits(fuel, defs, parts[i], v)
    case ArrayOf(inner) => v.Arr? && forall i :: 0 <= i < |v.items| ==> Inhabits(fuel, defs, inner, v.items[i])
    case AnyRecord => v.Obj?
    case Shape(members, _) =>
      v.Obj? && forall i :: 0 <= i < |members| ==>
        && TsLiteral.ReadKey(members[i].key).Some?
        && var name := NameOf(members[i].key);
           if name.Some? && name.value in v.fields then Inhabits(fuel, defs, members[i].type_, v.fields[name.value])
           else !members[i].needed
  }
}
