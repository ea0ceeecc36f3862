/** The canonical text itself: how values are spelled, and that the text is fit to be encoded and hashed. */
module JsonText {
  import opened Ordering
  import opened CanonicalJson
  import opened JsonParser

  // ---------------------------------------------------------------- strings

  /** Four lower-case hexadecimal digits. */
  predicate HexOf(t: Text, c: CodeUnit) {
    && |t| == 4 && (forall i :: 0 <= i < 4 ==> 48 <= t[i] <= 57 || 97 <= t[i] <= 102)
    && 4096 * HexWorth(t[0]) + 256 * HexWorth(t[1]) + 16 * HexWorth(t[2]) + HexWorth(t[3]) == c
  }

  function HexWorth(c: CodeUnit): int {
    if c <= 57 then c - 48 else c - 97 + 10
  }

  /** How a code unit that is not part of a surrogate pair is spelled: a backslash and a letter for the seven units that
      have one, a backslash, u and four digits for the other control characters and for surrogates, or itself. */
  predicate SpellsUnit(t: Text, c: CodeUnit) {
    if c == 8 then t == Ascii("\\b")
    else if c == 9 then t == Ascii("\\t")
    else if c == 10 then t == Ascii("\\n")
    else if c == 12 then t == Ascii("\\f")
    else if c == 13 then t == Ascii("\\r")
    else if c == 34 then t == Ascii("\\\"")
    else if c == 92 then t == Ascii("\\\\")
    else if c < 32 || 0xD800 <= c <= 0xDFFF then |t| == 6 && t[..2] == Ascii("\\u") && HexOf(t[2..], c)
    else t == [c]
  }

  lemma UnitSpelled(c: CodeUnit)
    ensures SpellsUnit(Escaped([c]), c)
  {
    assert Escaped([c]) == EscapeUnit(c) + Escaped([]) == EscapeUnit(c);
    if ShortEscape(c) == 0 && (c < 32 || HighSurrogate(c) || LowSurrogate(c)) {
      HexSpelled(c);
    }
  }

  lemma HexSpelled(c: CodeUnit)
    ensures UnicodeEscape(c)[..2] == Ascii("\\u") && HexOf(UnicodeEscape(c)[2..], c)
  {
    var t := UnicodeEscape(c)[2..];
    assert t == [HexDigit(c / 4096), HexDigit(c / 256 % 16), HexDigit(c / 16 % 16), HexDigit(c % 16)];
    HexQuad(c);
    HexWorths(c / 4096);
    HexWorths(c / 256 % 16);
    HexWorths(c / 16 % 16);
    HexWorths(c % 16);
  }

  lemma HexWorths(d: int)
    requires 0 <= d < 16
    ensures HexWorth(HexDigit(d)) == d && (48 <= HexDigit(d) <= 57 || 97 <= HexDigit(d) <= 102)
  {
  }

  /** The pair of a high and a low surrogate. */
  predicate Pair(a: CodeUnit, b: CodeUnit) {
    0xD800 <= a <= 0xDBFF && 0xDC00 <= b <= 0xDFFF
  }

  lemma PairSpelled(a: CodeUnit, b: CodeUnit)
    requires Pair(a, b)
    ensures Escaped([a, b]) == [a, b]
  {
    assert [a, b][2..] == [];
  }

  /** Strings are spelled piece by piece, wherever they are not cut through a surrogate pair. */
  lemma {:induction false} SpelledApart(a: Text, b: Text)
    requires a != [] && b != [] ==> !Pair(a[|a| - 1], b[0])
    ensures Escaped(a + b) == Escaped(a) + Escaped(b)
    decreases |a|
  {
    if a == [] {
      assert a + b == b;
    } else if StartsWithPair(a) {
      SpelledApart(a[2..], b);
      PairApart(a, b, a[2..], a + b);
    } else {
      SpelledApart(a[1..], b);
      UnitApart(a, b, a[1..], a + b);
    }
  }

  predicate StartsWithPair(s: Text) {
    |s| > 1 && HighSurrogate(s[0]) && LowSurrogate(s[1])
  }

  lemma EscapedPair(s: Text, tail: Text)
    requires StartsWithPair(s) && tail == s[2..]
    ensures Escaped(s) == [s[0], s[1]] + Escaped(tail)
  {
  }

  lemma EscapedUnit(s: Text, tail: Text)
    requires s != [] && !StartsWithPair(s) && tail == s[1..]
    ensures Escaped(s) == EscapeUnit(s[0]) + Escaped(tail)
  {
  }

  lemma Regrouped(a: Text, b: Text, c: Text)
    ensures a + (b + c) == (a + b) + c
  {
  }

  lemma PairApart(a: Text, b: Text, tail: Text, whole: Text)
    requires StartsWithPair(a) && tail == a[2..] && whole == a + b
    requires Escaped(tail + b) == Escaped(tail) + Escaped(b)
    ensures Escaped(whole) == Escaped(a) + Escaped(b)
  {
    EscapedPair(a, tail);
    assert whole[2..] == tail + b && whole[0] == a[0] && whole[1] == a[1];
    EscapedPair(whole, tail + b);
    Regrouped([a[0], a[1]], Escaped(tail), Escaped(b));
  }

  lemma UnitApart(a: Text, b: Text, tail: Text, whole: Text)
    requires a != [] && !StartsWithPair(a) && tail == a[1..] && whole == a + b && !StartsWithPair(whole)
    requires Escaped(tail + b) == Escaped(tail) + Escaped(b)
    ensures Escaped(whole) == Escaped(a) + Escaped(b)
  {
    EscapedUnit(a, tail);
    assert whole[1..] == tail + b && whole[0] == a[0];
    EscapedUnit(whole, tail + b);
    Regrouped(EscapeUnit(a[0]), Escaped(tail), Escaped(b));
  }

  // ---------------------------------------------------------------- values

  /** The text of a value, one constructor at a time; arrays and objects from their first item or least key on. */
  lemma ScalarText(n: Text, s: Text)
    ensures Print(Null) == Ascii("null") && Print(Bool(true)) == Ascii("true") && Print(Bool(false)) == Ascii("false")
    ensures Print(Num(n)) == n && Print(Str(s)) == Ascii("\"") + Escaped(s) + Ascii("\"")
    ensures Print(Arr([])) == Ascii("[]") && Print(Obj([])) == Ascii("{}")
  {
    assert Ascii("\"") == [QUOTE];
  }

  lemma Punctuation()
    ensures Ascii("[") == [LBRACKET] && Ascii("]") == [RBRACKET] && Ascii(",") == [COMMA] && Ascii("}") == [RBRACE]
    ensures Ascii("{\"") == [LBRACE, QUOTE] && Ascii("\":") == [QUOTE, COLON]
  {
  }

  lemma Bracketed(open: CodeUnit, first: Text, rest: seq<Text>, close: CodeUnit)
    ensures [open] + Join([first] + rest) + [close]
         == [open] + first + (if rest == [] then [close] else [COMMA] + ([open] + Join(rest) + [close])[1..])
  {
    if rest != [] {
      JoinFrom(first, rest);
      assert ([open] + Join(rest) + [close])[1..] == Join(rest) + [close];
    }
  }

  lemma ArrayText(first: Value, items: seq<Value>)
    ensures Print(Arr([first] + items))
         == Ascii("[") + Print(first) + (if items == [] then Ascii("]") else Ascii(",") + Print(Arr(items))[1..])
  {
    var all := [first] + items;
    assert all[1..] == items;
    assert PrintItems(all) == [Print(first)] + PrintItems(items);
    Punctuation();
    Bracketed(LBRACKET, Print(first), PrintItems(items), RBRACKET);
  }

  lemma JoinFrom(first: Text, rest: seq<Text>)
    requires rest != []
    ensures Join([first] + rest) == first + [COMMA] + Join(rest)
  {
    assert ([first] + rest)[1..] == rest;
  }

  lemma ObjectText(first: Member, members: seq<Member>)
    requires forall m :: m in members ==> UnitsLess(first.key, m.key)
    ensures Print(Obj([first] + members))
         == Ascii("{\"") + Escaped(first.key) + Ascii("\":") + Print(first.value)
            + (if members == [] then Ascii("}") else Ascii(",") + Print(Obj(members))[1..])
  {
    var least, sorted := Printed(first.key, Print(first.value)), Sort(PrintMembers(members), PrintedLeq);
    LeastFirst(first, members);
    SortPermutes(PrintMembers(members), PrintedLeq);
    SameMembers(PrintMembers(members), sorted);
    MappedFirst(least, sorted);
    Punctuation();
    Bracketed(LBRACE, MemberText(least), Map(MemberText, sorted), RBRACE);
    Spread(Escaped(first.key), least.text);
  }

  lemma MappedFirst(p: Printed, rest: seq<Printed>)
    ensures Map(MemberText, [p] + rest) == [MemberText(p)] + Map(MemberText, rest)
  {
  }

  lemma Spread(key: Text, value: Text)
    ensures [LBRACE] + ([QUOTE] + key + [QUOTE] + [COLON] + value) == [LBRACE, QUOTE] + key + [QUOTE, COLON] + value
  {
  }

  lemma {:induction false} PrintedKeys(members: seq<Member>)
    ensures forall p :: p in PrintMembers(members) ==> exists m :: m in members && m.key == p.key
  {
    if members != [] {
      PrintedKeys(members[1..]);
      assert members[0] in members;
    }
  }

  lemma LeastFirst(first: Member, members: seq<Member>)
    requires forall m :: m in members ==> UnitsLess(first.key, m.key)
    ensures Sort(PrintMembers([first] + members), PrintedLeq)
         == [Printed(first.key, Print(first.value))] + Sort(PrintMembers(members), PrintedLeq)
  {
    var least, rest := Printed(first.key, Print(first.value)), PrintMembers(members);
    assert ([first] + members)[1..] == members;
    assert PrintMembers([first] + members) == [least] + rest;
    assert ([least] + rest)[1..] == rest;
    var sorted := Sort(rest, PrintedLeq);
    SortPermutes(rest, PrintedLeq);
    SameMembers(rest, sorted);
    PrintedKeys(members);
    if sorted != [] {
      assert sorted[0] in rest;
      UnitsLessTrichotomy(first.key, sorted[0].key);
    }
  }

  // ---------------------------------------------------------------- fit to be hashed

  /** No control characters, and every surrogate in a pair, so that encoding the text loses nothing. */
  predicate WellFormed(t: Text) {
    forall i :: 0 <= i < |t| ==> UnitFits(t, i)
  }

  predicate UnitFits(t: Text, i: nat)
    requires i < |t|
  {
    && t[i] >= 32
    && (0xD800 <= t[i] <= 0xDBFF ==> i + 1 < |t| && 0xDC00 <= t[i + 1] <= 0xDFFF)
    && (0xDC00 <= t[i] <= 0xDFFF ==> i > 0 && 0xD800 <= t[i - 1] <= 0xDBFF)
  }

  lemma WellFormedConcat(a: Text, b: Text)
    requires WellFormed(a) && WellFormed(b)
    ensures WellFormed(a + b)
  {
    var t := a + b;
    forall i | 0 <= i < |t|
      ensures UnitFits(t, i)
    {
      if i < |a| {
        assert UnitFits(a, i);
        assert t[i] == a[i] && (i + 1 < |a| ==> t[i + 1] == a[i + 1]) && (i > 0 ==> t[i - 1] == a[i - 1]);
      } else {
        var j := i - |a|;
        assert UnitFits(b, j);
        assert t[i] == b[j] && (j + 1 < |b| ==> t[i + 1] == b[j + 1]) && (j > 0 ==> t[i - 1] == b[j - 1]);
      }
    }
  }

  lemma {:induction false} EscapedWellFormed(s: Text)
    ensures WellFormed(Escaped(s))
  {
    if s == [] {
    } else if |s| > 1 && HighSurrogate(s[0]) && LowSurrogate(s[1]) {
      EscapedWellFormed(s[2..]);
      WellFormedConcat([s[0], s[1]], Escaped(s[2..]));
    } else {
      EscapedWellFormed(s[1..]);
      WellFormedConcat(EscapeUnit(s[0]), Escaped(s[1..]));
    }
  }

  lemma QuotedWellFormed(s: Text)
    ensures WellFormed(Quoted(s))
  {
    EscapedWellFormed(s);
    WellFormedConcat([QUOTE], Escaped(s));
    WellFormedConcat([QUOTE] + Escaped(s), [QUOTE]);
  }

  lemma {:induction false} JoinWellFormed(parts: seq<Text>)
    requires forall i :: 0 <= i < |parts| ==> WellFormed(parts[i])
    ensures WellFormed(Join(parts))
  {
    if |parts| > 1 {
      JoinWellFormed(parts[1..]);
      WellFormedConcat(parts[0], [COMMA]);
      WellFormedConcat(parts[0] + [COMMA], Join(parts[1..]));
    }
  }

  lemma Enclosed(open: CodeUnit, body: Text, close: CodeUnit)
    requires WellFormed(body) && 32 <= open < 0xD800 && 32 <= close < 0xD800
    ensures WellFormed([open] + body + [close])
  {
    WellFormedConcat([open], body);
    WellFormedConcat([open] + body, [close]);
  }

  /** The text of every value is well-formed and free of control characters, whatever its strings hold. */
  lemma {:induction false} PrintWellFormed(v: Value)
    requires Representable(v)
    ensures WellFormed(Print(v))
    decreases v, 1
  {
    match v {
      case Num(n) =>
      case Str(s) => QuotedWellFormed(s);
      case Arr(items) =>
        ItemsWellFormed(items);
        JoinWellFormed(PrintItems(items));
        Enclosed(LBRACKET, Join(PrintItems(items)), RBRACKET);
      case Obj(members) =>
        MembersWellFormed(members);
        var sorted := Sort(PrintMembers(members), PrintedLeq);
        SortPermutes(PrintMembers(members), PrintedLeq);
        SameMembers(PrintMembers(members), sorted);
        var parts := Map(MemberText, sorted);
        forall i | 0 <= i < |parts|
          ensures WellFormed(parts[i])
        {
          assert sorted[i] in PrintMembers(members);
          MemberWellFormed(sorted[i]);
        }
        JoinWellFormed(parts);
        Enclosed(LBRACE, Join(parts), RBRACE);
      case _ =>
    }
  }

  lemma MemberWellFormed(p: Printed)
    requires WellFormed(p.text)
    ensures WellFormed(MemberText(p))
  {
    QuotedWellFormed(p.key);
    WellFormedConcat(Quoted(p.key), [COLON]);
    WellFormedConcat(Quoted(p.key) + [COLON], p.text);
  }

  lemma {:induction false} ItemsWellFormed(items: seq<Value>)
    requires RepresentableItems(items)
    ensures forall i :: 0 <= i < |items| ==> WellFormed(PrintItems(items)[i])
    decreases items, 0
  {
    if items != [] {
      PrintWellFormed(items[0]);
      ItemsWellFormed(items[1..]);
    }
  }

  lemma {:induction false} MembersWellFormed(members: seq<Member>)
    requires RepresentableMembers(members)
    ensures forall p :: p in PrintMembers(members) ==> WellFormed(p.text)
    decreases members, 0
  {
    if members != [] {
      PrintWellFormed(members[0].value);
      MembersWellFormed(members[1..]);
    }
  }

  // ---------------------------------------------------------------- numbers and missing properties

  predicate SomeDigits(t: Text) {
    t != [] && forall i :: 0 <= i < |t| ==> 48 <= t[i] <= 57
  }

  /** Every text Number::toString gives for a finite number can be printed: sign, digits, a fraction, an exponent with its
      sign. */
  lemma NumbersPrintable(sign: Text, whole: Text, fraction: Text, exponent: Text)
    requires sign == [] || sign == Ascii("-")
    requires SomeDigits(whole)
    requires fraction == [] || (fraction[..1] == Ascii(".") && SomeDigits(fraction[1..]))
    requires exponent == []
          || (|exponent| > 2 && exponent[..2] in {Ascii("e+"), Ascii("e-")} && SomeDigits(exponent[2..]))
    ensures Canonical(Num(sign + whole + fraction + exponent)) == Some(sign + whole + fraction + exponent)
  {
    assert forall i :: 0 <= i < |fraction| ==> NumeralUnit(fraction[i]) by {
      assert forall i :: 1 <= i < |fraction| ==> fraction[i] == fraction[1..][i - 1];
      assert fraction != [] ==> fraction[0] == fraction[..1][0] == Ascii(".")[0];
    }
    assert forall i :: 0 <= i < |exponent| ==> NumeralUnit(exponent[i]) by {
      assert forall i :: 2 <= i < |exponent| ==> exponent[i] == exponent[2..][i - 2];
      assert exponent != [] ==> exponent[0] == exponent[..2][0] && exponent[1] == exponent[..2][1];
    }
  }

  /** A payload the gateway can digest: no value missing but as a property, and no number that is not finite. */
  predicate Sendable(v: Value)
    decreases v
  {
    match v
    case Undefined => false
    case NonFinite => false
    case Num(n) => Numeral(n)
    case Arr(items) => forall i :: 0 <= i < |items| ==> Sendable(items[i])
    case Obj(members) => forall i :: 0 <= i < |members| ==> members[i].value == Undefined || Sendable(members[i].value)
    case _ => true
  }

  /** The gateway prints exactly those. */
  lemma {:induction false} SendableExactly(v: Value)
    ensures GatewayCanonical(v).Some? <==> Sendable(v)
    decreases v, 1
  {
    match v {
      case Arr(items) => ItemsSendable(items);
      case Obj(members) => MembersSendable(members);
      case _ =>
    }
  }

  lemma {:induction false} ItemsSendable(items: seq<Value>)
    ensures RepresentableItems(DropInItems(items)) <==> forall i :: 0 <= i < |items| ==> Sendable(items[i])
    decreases items, 0
  {
    if items != [] {
      SendableExactly(items[0]);
      ItemsSendable(items[1..]);
      assert forall i :: 0 < i < |items| ==> items[i] == items[1..][i - 1];
    }
  }

  lemma {:induction false} MembersSendable(members: seq<Member>)
    ensures RepresentableMembers(DropInMembers(members))
       <==> forall i :: 0 <= i < |members| ==> members[i].value == Undefined || Sendable(members[i].value)
    decreases members, 0
  {
    if members != [] {
      SendableExactly(members[0].value);
      MembersSendable(members[1..]);
      assert forall i :: 0 < i < |members| ==> members[i] == members[1..][i - 1];
      var rest := DropInMembers(members[1..]);
      if members[0].value == Undefined {
        assert DropInMembers(members) == rest;
      } else {
        assert DropInMembers(members)[1..] == rest;
      }
    }
  }

  /** Of an object it prints every property that is not undefined, in turn without undefined ones, and no other. */
  lemma {:induction false} DroppedExactly(members: seq<Member>, key: Text, v: Value)
    ensures Member(key, v) in DropInMembers(members)
       <==> exists m :: m in members && m.key == key && m.value != Undefined && DropUndefined(m.value) == v
  {
    if members != [] {
      DroppedExactly(members[1..], key, v);
      assert members == [members[0]] + members[1..];
    }
  }
}
