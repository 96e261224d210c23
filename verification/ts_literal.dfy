/** String values as TypeScript literal types and names as property keys: what
    `_literal` and `_key` write and what a TypeScript lexer reads. Strings are sequences
    of code points. */
module TsLiteral {
  import opened Bytes

  type Text = seq<nat>

  const QUOTE: nat := 34
  const BACKSLASH: nat := 92
  const LF: nat := 10
  const CR: nat := 13

  /** Quotes get a backslash, and nothing else does. */
  function Escaped(s: Text): Text {
    if |s| == 0 then [] else (if s[0] == QUOTE then [BACKSLASH, QUOTE] else [s[0]]) + Escaped(s[1..])
  }

  function Written(s: Text): Text { [QUOTE] + Escaped(s) + [QUOTE] }

  // -- the lexer: the StringLiteral production of ECMA-262 --------------------------

  predicate IsHex(c: nat) { 48 <= c <= 57 || 65 <= c <= 70 || 97 <= c <= 102 }

  function HexOf(c: nat): nat
    requires IsHex(c)
  {
    if c <= 57 then c - 48 else if c <= 70 then c - 55 else c - 87
  }

  /** `n` hexadecimal digits and what they spell. */
  function Hex(t: Text, n: nat): Option<nat> {
    if n == 0 then Some(0)
    else if |t| < n || !IsHex(t[n - 1]) then None
    else
      match Hex(t, n - 1)
      case None => None
      case Some(v) => Some(v * 16 + HexOf(t[n - 1]))
  }

  /** How many hexadecimal digits come first. */
  function Digits(t: Text): (n: nat)
    ensures n <= |t|
  {
    if |t| == 0 || !IsHex(t[0]) then 0 else 1 + Digits(t[1..])
  }

  predicate IsLineEnd(c: nat) { c == LF || c == CR || c == 0x2028 || c == 0x2029 }

  /** An escape after its backslash: what it stands for, and how long it is. */
  function Escape(t: Text): (r: Option<(Text, nat)>)
    ensures r.Some? ==> 1 <= r.value.1 <= |t| && |r.value.0| <= 1
  {
    if |t| == 0 then None
    else
      var c := t[0];
      if c == 120 then (if Hex(t[1..], 2).None? then None else Some(([Hex(t[1..], 2).value], 3)))
      else if c == 117 && |t| > 1 && t[1] == 123 then
        var n := Digits(t[2..]);
        if n == 0 || |t| <= 2 + n || t[2 + n] != 125 || Hex(t[2..], n).None? || Hex(t[2..], n).value > 0x10ffff then None
        else Some(([Hex(t[2..], n).value], n + 3))
      else if c == 117 then (if Hex(t[1..], 4).None? then None else Some(([Hex(t[1..], 4).value], 5)))
      else if c == CR && |t| > 1 && t[1] == LF then Some(([], 2))
      else if IsLineEnd(c) then Some(([], 1))
      else if c == 48 && (|t| == 1 || !(48 <= t[1] <= 57)) then Some(([0], 1))
      else if 48 <= c <= 57 then None
      else Some(([Single(c)], 1))
  }

  /** b, t, n, v, f and r; anything else is itself. */
  function Single(c: nat): nat {
    if c == 98 then 8 else if c == 116 then 9 else if c == 110 then 10
    else if c == 118 then 11 else if c == 102 then 12 else if c == 114 then 13 else c
  }

  /** What is read up to the closing quote, and what is left after it. */
  function Inside(t: Text): Option<(Text, Text)>
    decreases |t|
  {
    if |t| == 0 || t[0] == LF || t[0] == CR then None
    else if t[0] == QUOTE then Some(([], t[1..]))
    else if t[0] == BACKSLASH then
      match Escape(t[1..])
      case None => None
      case Some((value, n)) =>
        (match Inside(t[1 + n..])
         case None => None
         case Some((more, left)) => Some((value + more, left)))
    else
      match Inside(t[1..])
      case None => None
      case Some((more, left)) => Some(([t[0]] + more, left))
  }

  /** The value of a literal, if all of the text is one. */
  function Read(t: Text): Option<Text> {
    if |t| == 0 || t[0] != QUOTE then None
    else
      match Inside(t[1..])
      case None => None
      case Some((value, left)) => if |left| == 0 then Some(value) else None
  }

  // -- which strings come back -----------------------------------------------------

  predicate Safe(s: Text) { forall i :: 0 <= i < |s| ==> s[i] != BACKSLASH && s[i] != LF && s[i] != CR }

  function Rest(s: Text): Text { Escaped(s) + [QUOTE] }

  lemma SafeTail(s: Text)
    requires |s| > 0
    ensures Safe(s) <==> s[0] != BACKSLASH && s[0] != LF && s[0] != CR && Safe(s[1..])
  {
    if s[0] != BACKSLASH && s[0] != LF && s[0] != CR && Safe(s[1..]) {
      forall i | 0 <= i < |s| ensures s[i] != BACKSLASH && s[i] != LF && s[i] != CR {
        assert i > 0 ==> s[i] == s[1..][i - 1];
      }
    }
  }

  lemma {:induction false} SafeComesBack(s: Text)
    requires Safe(s)
    ensures Inside(Rest(s)) == Some((s, []))
    decreases |s|
  {
    if |s| > 0 {
      SafeTail(s);
      SafeComesBack(s[1..]);
      if s[0] == QUOTE {
        assert Rest(s) == [BACKSLASH, QUOTE] + Rest(s[1..]);
        assert Rest(s)[1..] == [QUOTE] + Rest(s[1..]);
        assert Rest(s)[1 + 1..] == Rest(s[1..]);
        assert Escape(Rest(s)[1..]) == Some(([QUOTE], 1));
        assert [QUOTE] + s[1..] == s;
      } else {
        assert Rest(s) == [s[0]] + Rest(s[1..]);
        assert Rest(s)[1..] == Rest(s[1..]);
        assert [s[0]] + s[1..] == s;
      }
    }
  }

  /** Text in which nothing needs a backslash is written as it is. */
  lemma {:induction false} AsItIs(s: Text, n: nat)
    requires n <= |Rest(s)| && forall i :: 0 <= i < n ==> Rest(s)[i] != QUOTE && Rest(s)[i] != BACKSLASH
    ensures n <= |s| && Rest(s)[n..] == Rest(s[n..])
    decreases n
  {
    if n > 0 {
      assert |s| > 0;
      assert Rest(s)[0] != BACKSLASH;
      assert Rest(s) == [s[0]] + Rest(s[1..]);
      assert Rest(s[1..]) == Rest(s)[1..];
      AsItIs(s[1..], n - 1);
      assert Rest(s)[n..] == Rest(s[1..])[n - 1..] && s[n..] == s[1..][n - 1..];
    }
  }

  lemma {:induction false} HexIsHex(t: Text, n: nat)
    requires Hex(t, n).Some?
    ensures n <= |t| && forall i :: 0 <= i < n ==> IsHex(t[i])
    decreases n
  {
    if n > 0 {
      HexIsHex(t, n - 1);
    }
  }

  /** An escape that is not of a quote or a backslash takes only text that was not
      given a backslash of its own. */
  lemma EscapeTakes(s: Text)
    requires |s| > 0 && s[0] != QUOTE && s[0] != BACKSLASH && Escape(Rest(s)).Some?
    ensures var n := Escape(Rest(s)).value.1; 1 <= n <= |s| && Rest(s)[n..] == Rest(s[n..])
  {
    var t := Rest(s);
    var n := Escape(t).value.1;
    assert t == [s[0]] + Rest(s[1..]);
    if t[0] == 120 {
      HexIsHex(t[1..], 2);
      assert t[1] == t[1..][0] && t[2] == t[1..][1];
    } else if t[0] == 117 && t[1] == 123 {
      HexIsHex(t[2..], n - 3);
      forall i | 2 <= i < n - 1 ensures IsHex(t[i]) {
        assert t[i] == t[2..][i - 2];
      }
    } else if t[0] == 117 {
      HexIsHex(t[1..], 4);
      forall i | 1 <= i < n ensures IsHex(t[i]) {
        assert t[i] == t[1..][i - 1];
      }
    }
    AsItIs(s, n);
  }

  /** Anything else comes back shorter, or not at all. */
  lemma {:induction false} UnsafeIsShorter(s: Text)
    ensures var r := Inside(Rest(s));
      r.Some? && |r.value.1| == 0 ==> |r.value.0| <= |s| && (|r.value.0| == |s| ==> Safe(s))
    decreases |s|
  {
    if |s| > 0 {
      SafeTail(s);
      if s[0] == QUOTE {
        UnsafeIsShorter(s[1..]);
        assert Rest(s) == [BACKSLASH, QUOTE] + Rest(s[1..]);
        assert Rest(s)[1..] == [QUOTE] + Rest(s[1..]);
        assert Rest(s)[1 + 1..] == Rest(s[1..]);
      } else {
        assert Rest(s) == [s[0]] + Rest(s[1..]);
        assert Rest(s)[1..] == Rest(s[1..]);
        if s[0] == BACKSLASH {
          BackslashIsShorter(s);
        } else {
          UnsafeIsShorter(s[1..]);
        }
      }
    }
  }

  lemma {:induction false} BackslashIsShorter(s: Text)
    requires |s| > 0 && s[0] == BACKSLASH && Rest(s)[1..] == Rest(s[1..])
    ensures var r := Inside(Rest(s)); r.Some? && |r.value.1| == 0 ==> |r.value.0| < |s|
    decreases |s|, 0
  {
    var tail := s[1..];
    if |tail| == 0 {
      assert Rest(tail) == [QUOTE];
      assert Rest(s)[1 + 1..] == [];
    } else if tail[0] == QUOTE {
      assert Rest(tail) == [BACKSLASH, QUOTE] + Rest(tail[1..]);
      assert Rest(s)[1 + 1..] == [QUOTE] + Rest(tail[1..]);
      assert Rest(s)[1 + 1..][1..] == Rest(tail[1..]);
    } else if Escape(Rest(tail)).Some? {
      var n := Escape(Rest(tail)).value.1;
      if tail[0] == BACKSLASH {
        assert Rest(tail) == [BACKSLASH] + Rest(tail[1..]);
        assert n == 1 && Rest(tail)[n..] == Rest(tail[n..]);
      } else {
        EscapeTakes(tail);
      }
      assert Rest(s)[1 + n..] == Rest(tail)[n..];
      UnsafeIsShorter(tail[n..]);
    }
  }

  /** A string's literal type is that string exactly when it has no backslash and no
      line feed or carriage return. */
  lemma LiteralExactly(s: Text)
    ensures Read(Written(s)) == Some(s) <==> Safe(s)
  {
    assert Written(s)[1..] == Rest(s);
    if Safe(s) {
      SafeComesBack(s);
    } else {
      UnsafeIsShorter(s);
    }
  }

  /** And any other string reads back as a shorter one, if as a string at all. */
  lemma UnsafeReadsShorter(s: Text)
    requires !Safe(s) && Read(Written(s)).Some?
    ensures |Read(Written(s)).value| < |s|
  {
    assert Written(s)[1..] == Rest(s);
    UnsafeIsShorter(s);
  }

  // -- property keys -----------------------------------------------------------------

  predicate IsLetter(c: nat) { c == 95 || 65 <= c <= 90 || 97 <= c <= 122 }

  /** An identifier, as far as ASCII goes. */
  predicate IsIdentifier(s: Text) {
    |s| > 0 && IsLetter(s[0]) && forall i :: 0 <= i < |s| ==> IsLetter(s[i]) || 48 <= s[i] <= 57
  }

  /** An identifier is written as it is; any other name goes between quotes, and nothing
      in it is escaped. */
  function Key(s: Text): Text { if IsIdentifier(s) then s else [QUOTE] + s + [QUOTE] }

  /** The IdentifierName production, in ASCII and without escapes. */
  predicate IsName(t: Text) {
    && |t| > 0 && NamePart(t[0]) && !(48 <= t[0] <= 57)
    && forall i :: 0 <= i < |t| ==> NamePart(t[i])
  }

  predicate NamePart(c: nat) { c == 36 || 48 <= c <= 57 || 65 <= c <= 90 || c == 95 || 97 <= c <= 122 }

  /** The property a key names, if all of the text is one key. */
  function ReadKey(t: Text): Option<Text> { if IsName(t) then Some(t) else Read(t) }

  predicate KeySafe(s: Text) { Safe(s) && forall i :: 0 <= i < |s| ==> s[i] != QUOTE }

  lemma KeySafeTail(s: Text)
    requires |s| > 0
    ensures KeySafe(s) <==>
      s[0] != QUOTE && s[0] != BACKSLASH && s[0] != LF && s[0] != CR && KeySafe(s[1..])
  {
    SafeTail(s);
    if s[0] != QUOTE && KeySafe(s[1..]) {
      forall i | 0 <= i < |s| ensures s[i] != QUOTE {
        assert i > 0 ==> s[i] == s[1..][i - 1];
      }
    }
  }

  /** Between bare quotes a name comes back as it is, or shorter, or not at all. */
  lemma {:induction false} BareComesBack(s: Text)
    ensures KeySafe(s) ==> Inside(s + [QUOTE]) == Some((s, []))
    ensures var r := Inside(s + [QUOTE]);
      r.Some? && |r.value.1| == 0 ==> |r.value.0| <= |s| && (|r.value.0| == |s| ==> KeySafe(s))
    decreases |s|
  {
    var t := s + [QUOTE];
    if |s| == 0 {
      assert t[1..] == [];
    } else {
      KeySafeTail(s);
      assert t[1..] == s[1..] + [QUOTE];
      if s[0] == BACKSLASH {
        if Escape(t[1..]).Some? {
          var n := Escape(t[1..]).value.1;
          if n < |s| {
            assert t[1 + n..] == s[1 + n..] + [QUOTE];
            BareComesBack(s[1 + n..]);
          } else {
            assert t[1 + n..] == [];
          }
        }
      } else {
        BareComesBack(s[1..]);
        assert [s[0]] + s[1..] == s;
      }
    }
  }

  /** A key names the property it was written for exactly when the name has no quote, no
      backslash and no line break. */
  lemma KeyExactly(s: Text)
    ensures ReadKey(Key(s)) == Some(s) <==> KeySafe(s)
  {
    if !IsIdentifier(s) {
      BetweenQuotes(s);
    }
  }

  lemma BetweenQuotes(s: Text)
    requires !IsIdentifier(s)
    ensures ReadKey(Key(s)) == Some(s) <==> KeySafe(s)
    ensures !KeySafe(s) && ReadKey(Key(s)).Some? ==> |ReadKey(Key(s)).value| < |s|
  {
    assert Key(s)[0] == QUOTE;
    assert Key(s)[1..] == s + [QUOTE];
    BareComesBack(s);
  }

  /** And a key for any other name is of a shorter one, if it is a key at all. */
  lemma UnsafeKeyIsShorter(s: Text)
    requires !KeySafe(s) && ReadKey(Key(s)).Some?
    ensures |ReadKey(Key(s)).value| < |s|
  {
    BetweenQuotes(s);
  }
}
