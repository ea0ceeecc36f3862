/** A JSON reader that undoes the canonical printer, and the meaning of equal canonical text. */
module JsonParser {
  import opened Ordering
  import opened CanonicalJson

  datatype Parsed<+T> = Fail | Ok(value: T, rest: Text)

  // ---------------------------------------------------------------- strings

  function Prepend(c: CodeUnit, p: Parsed<Text>): Parsed<Text> {
    match p
    case Fail => Fail
    case Ok(s, rest) => Ok([c] + s, rest)
  }

  /** The unit a short escape stands for, -1 when the letter is none. */
  function Unescape(c: CodeUnit): (u: int)
    ensures -1 <= u < 0x10000
  {
    if c == 98 then 8
    else if c == 116 then 9
    else if c == 110 then 10
    else if c == 102 then 12
    else if c == 114 then 13
    else if c == QUOTE || c == BACKSLASH || c == 47 then c
    else -1
  }

  /** Reads a string body up to and including the closing quote. */
  function ParseEscaped(t: Text): (r: Parsed<Text>)
    ensures r.Ok? ==> |r.rest| < |t|
    decreases |t|
  {
    if t == [] then Fail
    else if t[0] == QUOTE then Ok([], t[1..])
    else if t[0] < 32 then Fail
    else if t[0] != BACKSLASH then Prepend(t[0], ParseEscaped(t[1..]))
    else if |t| < 2 then Fail
    else if t[1] != 117 then
      if Unescape(t[1]) < 0 then Fail else Prepend(Unescape(t[1]), ParseEscaped(t[2..]))
    else if |t| < 6 || HexValue(t[2]) < 0 || HexValue(t[3]) < 0 || HexValue(t[4]) < 0 || HexValue(t[5]) < 0 then Fail
    else
      var c := 4096 * HexValue(t[2]) + 256 * HexValue(t[3]) + 16 * HexValue(t[4]) + HexValue(t[5]);
      Prepend(c, ParseEscaped(t[6..]))
  }

  lemma HexRoundTrip(d: int)
    requires 0 <= d < 16
    ensures HexValue(HexDigit(d)) == d
  {
  }

  lemma HexQuad(c: CodeUnit)
    ensures 4096 * (c / 4096) + 256 * (c / 256 % 16) + 16 * (c / 16 % 16) + c % 16 == c
  {
    assert c / 256 == 16 * (c / 4096) + c / 256 % 16;
    assert c / 16 == 16 * (c / 256) + c / 16 % 16;
    assert c == 16 * (c / 16) + c % 16;
  }

  lemma UnicodeEscapeParses(c: CodeUnit, rest: Text)
    ensures ParseEscaped(UnicodeEscape(c) + rest) == Prepend(c, ParseEscaped(rest))
  {
    var t := UnicodeEscape(c) + rest;
    HexQuad(c);
    HexRoundTrip(c / 4096);
    HexRoundTrip(c / 256 % 16);
    HexRoundTrip(c / 16 % 16);
    HexRoundTrip(c % 16);
    assert t[6..] == rest;
  }

  lemma UnitParses(c: CodeUnit, rest: Text)
    ensures ParseEscaped(EscapeUnit(c) + rest) == Prepend(c, ParseEscaped(rest))
  {
    var t := EscapeUnit(c) + rest;
    if ShortEscape(c) != 0 {
      assert t[2..] == rest;
    } else if c < 32 || HighSurrogate(c) || LowSurrogate(c) {
      UnicodeEscapeParses(c, rest);
    } else {
      assert t[1..] == rest;
    }
  }

  lemma LiteralParses(c: CodeUnit, rest: Text)
    requires c >= 32 && c != QUOTE && c != BACKSLASH
    ensures ParseEscaped([c] + rest) == Prepend(c, ParseEscaped(rest))
  {
    assert ([c] + rest)[1..] == rest;
  }

  lemma PairParses(a: CodeUnit, b: CodeUnit, rest: Text)
    requires HighSurrogate(a) && LowSurrogate(b)
    ensures ParseEscaped([a, b] + rest) == Prepend(a, Prepend(b, ParseEscaped(rest)))
  {
    assert [a, b] + rest == [a] + ([b] + rest);
    LiteralParses(a, [b] + rest);
    LiteralParses(b, rest);
  }

  lemma Regroup(a: Text, b: Text, c: Text, d: Text)
    ensures a + b + c + d == a + (b + c + d)
  {
  }

  lemma ConsTail(c: CodeUnit, rest: Text)
    ensures ([c] + rest)[0] == c && ([c] + rest)[1..] == rest
  {
  }

  lemma {:induction false} EscapedParses(s: Text, rest: Text)
    ensures ParseEscaped(Escaped(s) + [QUOTE] + rest) == Ok(s, rest)
  {
    var tail := [QUOTE] + rest;
    if s == [] {
      assert Escaped(s) + [QUOTE] + rest == tail;
      ConsTail(QUOTE, rest);
    } else if |s| > 1 && HighSurrogate(s[0]) && LowSurrogate(s[1]) {
      EscapedParses(s[2..], rest);
      var more := Escaped(s[2..]) + [QUOTE] + rest;
      Regroup([s[0], s[1]], Escaped(s[2..]), [QUOTE], rest);
      PairParses(s[0], s[1], more);
      assert s == [s[0]] + ([s[1]] + s[2..]);
    } else {
      EscapedParses(s[1..], rest);
      var more := Escaped(s[1..]) + [QUOTE] + rest;
      Regroup(EscapeUnit(s[0]), Escaped(s[1..]), [QUOTE], rest);
      UnitParses(s[0], more);
      assert s == [s[0]] + s[1..];
    }
  }

  // ---------------------------------------------------------------- values

  function NumeralLength(t: Text): (n: nat)
    ensures n <= |t|
  {
    if t == [] || !NumeralUnit(t[0]) then 0 else 1 + NumeralLength(t[1..])
  }

  function ParseValue(t: Text): (r: Parsed<Value>)
    ensures r.Ok? ==> |r.rest| < |t|
    decreases |t|, 1
  {
    if NULL_TEXT <= t then Ok(Null, t[4..])
    else if TRUE_TEXT <= t then Ok(Bool(true), t[4..])
    else if FALSE_TEXT <= t then Ok(Bool(false), t[5..])
    else if t == [] then Fail
    else if t[0] == QUOTE then
      match ParseEscaped(t[1..])
      case Fail => Fail
      case Ok(s, rest) => Ok(Str(s), rest)
    else if t[0] == LBRACKET then
      if |t| > 1 && t[1] == RBRACKET then Ok(Arr([]), t[2..])
      else
        match ParseItems(t[1..])
        case Fail => Fail
        case Ok(items, rest) => Ok(Arr(items), rest)
    else if t[0] == LBRACE then
      if |t| > 1 && t[1] == RBRACE then Ok(Obj([]), t[2..])
      else
        match ParseMembers(t[1..])
        case Fail => Fail
        case Ok(members, rest) => Ok(Obj(members), rest)
    else if NumeralUnit(t[0]) then Ok(Num(t[..NumeralLength(t)]), t[NumeralLength(t)..])
    else Fail
  }

  function ParseItems(t: Text): (r: Parsed<seq<Value>>)
    ensures r.Ok? ==> |r.rest| < |t|
    decreases |t|, 2
  {
    match ParseValue(t)
    case Fail => Fail
    case Ok(v, rest) =>
      if rest == [] then Fail
      else if rest[0] == RBRACKET then Ok([v], rest[1..])
      else if rest[0] != COMMA then Fail
      else
        match ParseItems(rest[1..])
        case Fail => Fail
        case Ok(vs, rest') => Ok([v] + vs, rest')
  }

  function ParseMember(t: Text): (r: Parsed<Member>)
    ensures r.Ok? ==> |r.rest| < |t|
    decreases |t|, 2
  {
    if t == [] || t[0] != QUOTE then Fail
    else
      match ParseEscaped(t[1..])
      case Fail => Fail
      case Ok(key, rest) =>
        if rest == [] || rest[0] != COLON then Fail
        else
          match ParseValue(rest[1..])
          case Fail => Fail
          case Ok(v, rest') => Ok(Member(key, v), rest')
  }

  function ParseMembers(t: Text): (r: Parsed<seq<Member>>)
    ensures r.Ok? ==> |r.rest| < |t|
    decreases |t|, 3
  {
    match ParseMember(t)
    case Fail => Fail
    case Ok(m, rest) =>
      if rest == [] then Fail
      else if rest[0] == RBRACE then Ok([m], rest[1..])
      else if rest[0] != COMMA then Fail
      else
        match ParseMembers(rest[1..])
        case Fail => Fail
        case Ok(ms, rest') => Ok([m] + ms, rest')
  }

  // ---------------------------------------------------------------- round trip

  /** A numeral can only be told from what follows when that does not go on like a numeral. */
  predicate Delimited(rest: Text) {
    rest == [] || !NumeralUnit(rest[0])
  }

  lemma {:induction false} NumeralEnds(n: Text, rest: Text)
    requires (forall i :: 0 <= i < |n| ==> NumeralUnit(n[i])) && Delimited(rest)
    ensures NumeralLength(n + rest) == |n|
  {
    if n == [] {
      assert n + rest == rest;
    } else {
      assert (n + rest)[1..] == n[1..] + rest;
      NumeralEnds(n[1..], rest);
    }
  }

  lemma NumParses(n: Text, rest: Text)
    requires Numeral(n) && Delimited(rest)
    ensures ParseValue(n + rest) == Ok(Num(n), rest)
  {
    var t := n + rest;
    NumeralEnds(n, rest);
    assert t[0] == n[0] && NumeralUnit(t[0]);
    assert t[..|n|] == n && t[|n|..] == rest;
  }

  lemma WordParses(word: Text, v: Value, rest: Text)
    requires (word == NULL_TEXT && v == Null) || (word == TRUE_TEXT && v == Bool(true))
          || (word == FALSE_TEXT && v == Bool(false))
    ensures ParseValue(word + rest) == Ok(v, rest)
  {
    var t := word + rest;
    assert word <= t && t[|word|..] == rest && t[0] == word[0];
  }

  lemma StrParses(s: Text, rest: Text)
    ensures ParseValue(Quoted(s) + rest) == Ok(Str(s), rest)
  {
    EscapedParses(s, rest);
    Regroup([QUOTE], Escaped(s), [QUOTE], rest);
    ConsTail(QUOTE, Escaped(s) + [QUOTE] + rest);
  }

  lemma MemberParses(key: Text, v: Value, text: Text, rest: Text)
    requires ParseValue(text + rest) == Ok(v, rest)
    ensures ParseMember(MemberText(Printed(key, text)) + rest) == Ok(Member(key, v), rest)
  {
    var body := [COLON] + (text + rest);
    EscapedParses(key, body);
    MemberRegroup(Escaped(key), text, rest);
    ConsTail(QUOTE, Escaped(key) + [QUOTE] + body);
    ConsTail(COLON, text + rest);
  }

  lemma MemberRegroup(e: Text, text: Text, rest: Text)
    ensures ([QUOTE] + e + [QUOTE]) + [COLON] + text + rest == [QUOTE] + (e + [QUOTE] + ([COLON] + (text + rest)))
  {
  }

  /** A printed value starts with none of the closing brackets. */
  lemma PlainHead(v: Value)
    requires Representable(v)
    ensures Plain(v) != [] && Plain(v)[0] != RBRACKET
  {
  }

  lemma JoinHead(parts: seq<Text>)
    requires parts != [] && parts[0] != []
    ensures Join(parts) != [] && Join(parts)[0] == parts[0][0]
  {
  }

  lemma {:induction false} PlainParses(v: Value, rest: Text)
    requires Representable(v) && Delimited(rest)
    ensures ParseValue(Plain(v) + rest) == Ok(v, rest)
    decreases v, 1
  {
    match v {
      case Null =>
        WordParses(NULL_TEXT, v, rest);
      case Bool(b) =>
        WordParses(if b then TRUE_TEXT else FALSE_TEXT, v, rest);
      case Num(n) =>
        NumParses(n, rest);
      case Str(s) =>
        StrParses(s, rest);
      case Arr(items) =>
        ArrParses(items, rest);
      case Obj(members) =>
        ObjParses(members, rest);
    }
  }

  lemma {:induction false} ArrParses(items: seq<Value>, rest: Text)
    requires RepresentableItems(items) && Delimited(rest)
    ensures ParseValue(Plain(Arr(items)) + rest) == Ok(Arr(items), rest)
    decreases items, 1
  {
    var body := Join(PlainItems(items));
    var t := Plain(Arr(items)) + rest;
    Regroup([LBRACKET], body, [RBRACKET], rest);
    ConsTail(LBRACKET, body + [RBRACKET] + rest);
    if items == [] {
      assert t[1..] == [RBRACKET] + rest && t[2..] == rest;
    } else {
      PlainHead(items[0]);
      JoinHead(PlainItems(items));
      assert t[1] == body[0];
      ItemsParse(items, rest);
    }
  }

  lemma {:induction false} ItemsParse(items: seq<Value>, rest: Text)
    requires items != [] && RepresentableItems(items)
    ensures ParseItems(Join(PlainItems(items)) + [RBRACKET] + rest) == Ok(items, rest)
    decreases items, 0
  {
    if |items| == 1 {
      PlainParses(items[0], [RBRACKET] + rest);
      OneItem(items, rest);
    } else {
      var body := Join(PlainItems(items[1..]));
      PlainParses(items[0], [COMMA] + (body + [RBRACKET] + rest));
      ItemsParse(items[1..], rest);
      ItemsText(items);
      NextItem(items, body, Join(PlainItems(items)), rest);
    }
  }

  lemma OneItem(items: seq<Value>, rest: Text)
    requires |items| == 1
    requires ParseValue(Plain(items[0]) + ([RBRACKET] + rest)) == Ok(items[0], [RBRACKET] + rest)
    ensures ParseItems(Join(PlainItems(items)) + [RBRACKET] + rest) == Ok(items, rest)
  {
    ItemsText(items);
    LastItem(items[0], rest);
    assert items == [items[0]];
  }

  lemma ItemsText(items: seq<Value>)
    requires items != []
    ensures |items| == 1 ==> Join(PlainItems(items)) == Plain(items[0])
    ensures |items| > 1 ==> Join(PlainItems(items)) == Plain(items[0]) + [COMMA] + Join(PlainItems(items[1..]))
  {
    assert PlainItems(items)[1..] == PlainItems(items[1..]);
  }

  lemma LastItem(v: Value, rest: Text)
    requires ParseValue(Plain(v) + ([RBRACKET] + rest)) == Ok(v, [RBRACKET] + rest)
    ensures ParseItems(Plain(v) + [RBRACKET] + rest) == Ok([v], rest)
  {
    LastPart(Plain(v), RBRACKET, rest);
  }

  lemma NextItem(items: seq<Value>, body: Text, all: Text, rest: Text)
    requires items != [] && all == Plain(items[0]) + [COMMA] + body
    requires var more := [COMMA] + (body + [RBRACKET] + rest); ParseValue(Plain(items[0]) + more) == Ok(items[0], more)
    requires ParseItems(body + [RBRACKET] + rest) == Ok(items[1..], rest)
    ensures ParseItems(all + [RBRACKET] + rest) == Ok(items, rest)
  {
    NextPart(Plain(items[0]), body, RBRACKET, rest);
    assert items == [items[0]] + items[1..];
  }

  lemma LastPart(first: Text, close: CodeUnit, rest: Text)
    ensures first + [close] + rest == first + ([close] + rest)
    ensures ([close] + rest)[0] == close && ([close] + rest)[1..] == rest
  {
  }

  lemma NextPart(first: Text, body: Text, close: CodeUnit, rest: Text)
    ensures first + [COMMA] + body + [close] + rest == first + ([COMMA] + (body + [close] + rest))
    ensures ([COMMA] + (body + [close] + rest))[1..] == body + [close] + rest
  {
  }

  lemma MembersHead(members: seq<Member>)
    requires members != []
    ensures Join(Map(MemberText, PlainMembers(members))) != []
    ensures Join(Map(MemberText, PlainMembers(members)))[0] == QUOTE
  {
    var parts := Map(MemberText, PlainMembers(members));
    assert parts[0] == MemberText(PlainMember(members[0]));
    JoinHead(parts);
  }

  lemma MembersText(members: seq<Member>)
    requires members != []
    ensures var first := MemberText(Printed(members[0].key, Plain(members[0].value)));
      var all := Join(Map(MemberText, PlainMembers(members)));
      && (|members| == 1 ==> all == first)
      && (|members| > 1 ==> all == first + [COMMA] + Join(Map(MemberText, PlainMembers(members[1..]))))
  {
    var parts := Map(MemberText, PlainMembers(members));
    assert parts[0] == MemberText(Printed(members[0].key, Plain(members[0].value)));
    assert parts[1..] == Map(MemberText, PlainMembers(members[1..]));
  }

  lemma {:induction false} ObjParses(members: seq<Member>, rest: Text)
    requires RepresentableMembers(members) && Delimited(rest)
    ensures ParseValue(Plain(Obj(members)) + rest) == Ok(Obj(members), rest)
    decreases members, 1
  {
    var body := Join(Map(MemberText, PlainMembers(members)));
    var t := Plain(Obj(members)) + rest;
    Regroup([LBRACE], body, [RBRACE], rest);
    ConsTail(LBRACE, body + [RBRACE] + rest);
    if members == [] {
      assert t[1..] == [RBRACE] + rest && t[2..] == rest;
    } else {
      MembersHead(members);
      MembersParse(members, rest);
    }
  }

  lemma {:induction false} MembersParse(members: seq<Member>, rest: Text)
    requires members != [] && RepresentableMembers(members)
    ensures ParseMembers(Join(Map(MemberText, PlainMembers(members))) + [RBRACE] + rest) == Ok(members, rest)
    decreases members, 0
  {
    if |members| == 1 {
      PlainParses(members[0].value, [RBRACE] + rest);
      OneMember(members, rest);
    } else {
      var body := Join(Map(MemberText, PlainMembers(members[1..])));
      PlainParses(members[0].value, [COMMA] + (body + [RBRACE] + rest));
      MembersParse(members[1..], rest);
      var m := members[0];
      MemberParses(m.key, m.value, Plain(m.value), [COMMA] + (body + [RBRACE] + rest));
      MembersText(members);
      NextMember(members, MemberText(Printed(m.key, Plain(m.value))), body, Join(Map(MemberText, PlainMembers(members))),
                 rest);
    }
  }

  lemma OneMember(members: seq<Member>, rest: Text)
    requires |members| == 1
    requires var v := members[0].value; ParseValue(Plain(v) + ([RBRACE] + rest)) == Ok(v, [RBRACE] + rest)
    ensures ParseMembers(Join(Map(MemberText, PlainMembers(members))) + [RBRACE] + rest) == Ok(members, rest)
  {
    MembersText(members);
    LastMember(members[0], rest);
    assert members == [members[0]];
  }

  lemma LastMember(m: Member, rest: Text)
    requires ParseValue(Plain(m.value) + ([RBRACE] + rest)) == Ok(m.value, [RBRACE] + rest)
    ensures ParseMembers(MemberText(Printed(m.key, Plain(m.value))) + [RBRACE] + rest) == Ok([m], rest)
  {
    MemberParses(m.key, m.value, Plain(m.value), [RBRACE] + rest);
    LastPart(MemberText(Printed(m.key, Plain(m.value))), RBRACE, rest);
  }

  lemma NextMember(members: seq<Member>, first: Text, body: Text, all: Text, rest: Text)
    requires members != [] && all == first + [COMMA] + body
    requires var more := [COMMA] + (body + [RBRACE] + rest); ParseMember(first + more) == Ok(members[0], more)
    requires ParseMembers(body + [RBRACE] + rest) == Ok(members[1..], rest)
    ensures ParseMembers(all + [RBRACE] + rest) == Ok(members, rest)
  {
    NextPart(first, body, RBRACE, rest);
    assert members == [members[0]] + members[1..];
  }

  /** The reader recovers the key-normalised value from the printed text followed by anything that does not
      continue a numeral. */
  lemma RoundTrip(v: Value, rest: Text)
    requires Representable(v) && Delimited(rest)
    ensures ParseValue(Print(v) + rest) == Ok(Normal(v), rest)
  {
    PrintIsPlain(v);
    NormalRepresentable(v);
    PlainParses(Normal(v), rest);
  }

  // -------------------------------------------------- what equal text means

  /** A JavaScript object has each property once, at every depth. */
  ghost predicate DistinctKeys(v: Value)
    decreases v
  {
    match v
    case Arr(items) => forall i :: 0 <= i < |items| ==> DistinctKeys(items[i])
    case Obj(members) =>
      && (forall i, j :: 0 <= i < j < |members| ==> members[i].key != members[j].key)
      && (forall i :: 0 <= i < |members| ==> DistinctKeys(members[i].value))
    case _ => true
  }

  /** Equality up to the order of properties, defined without any sorting. */
  ghost predicate Equivalent(a: Value, b: Value)
    decreases a
  {
    match a
    case Arr(items) =>
      b.Arr? && |items| == |b.items| && forall i :: 0 <= i < |items| ==> Equivalent(items[i], b.items[i])
    case Obj(members) =>
      b.Obj? && |members| == |b.members| && forall i :: 0 <= i < |members| ==> Matched(members[i], b.members)
    case _ => a == b
  }

  ghost predicate Matched(m: Member, members: seq<Member>)
    decreases m
  {
    exists j :: 0 <= j < |members| && m.key == members[j].key && Equivalent(m.value, members[j].value)
  }

  lemma KeyLeqTotalPreorder()
    ensures TotalPreorder(KeyLeq)
  {
    forall a, b, c
      ensures KeyLeq(a, b) || KeyLeq(b, a)
      ensures KeyLeq(a, b) && KeyLeq(b, c) ==> KeyLeq(a, c)
    {
      UnitsLessTrichotomy(a.key, b.key);
      UnitsLessTrichotomy(b.key, c.key);
      UnitsLessTrichotomy(a.key, c.key);
      if KeyLeq(a, b) && KeyLeq(b, c) && UnitsLess(c.key, a.key) && a.key != b.key && b.key != c.key {
        UnitsLessTransitive(a.key, b.key, c.key);
      }
    }
  }

  ghost predicate KeysDistinct(members: seq<Member>) {
    forall i, j :: 0 <= i < j < |members| ==> members[i].key != members[j].key
  }

  lemma SameKeySameMember(members: seq<Member>, x: Member, y: Member)
    requires KeysDistinct(members) && x in members && y in members && KeyLeq(x, y) && KeyLeq(y, x)
    ensures x == y
  {
    UnitsLessTrichotomy(x.key, y.key);
    var i :| 0 <= i < |members| && members[i] == x;
    var j :| 0 <= j < |members| && members[j] == y;
    if i < j || j < i {
      assert false;
    }
  }

  lemma NormalKeysDistinct(members: seq<Member>)
    requires KeysDistinct(members)
    ensures KeysDistinct(NormalMembers(members)) && NoDuplicates(NormalMembers(members))
  {
  }

  lemma {:induction false} NormalEqualIsEquivalent(a: Value, b: Value)
    requires DistinctKeys(a) && DistinctKeys(b)
    ensures Normal(a) == Normal(b) <==> Equivalent(a, b)
    decreases a
  {
    match a {
      case Arr(items) =>
        if b.Arr? && |items| == |b.items| {
          forall i | 0 <= i < |items| {
            NormalEqualIsEquivalent(items[i], b.items[i]);
          }
          ItemsAgree(items, b.items);
        }
      case Obj(members) =>
        if b.Obj? {
          forall i, j | 0 <= i < |members| && 0 <= j < |b.members| {
            NormalEqualIsEquivalent(members[i].value, b.members[j].value);
          }
          CoveredIsEquivalent(members, b.members);
          MembersAgree(members, b.members);
        }
      case _ =>
    }
  }

  lemma CoveredIsEquivalent(a: seq<Member>, b: seq<Member>)
    requires forall i, j :: 0 <= i < |a| && 0 <= j < |b| ==>
      (Normal(a[i].value) == Normal(b[j].value) <==> Equivalent(a[i].value, b[j].value))
    ensures |a| == |b| && Covered(a, b) <==> Equivalent(Obj(a), Obj(b))
  {
    forall i | 0 <= i < |a|
      ensures Found(a[i], b) <==> Matched(a[i], b)
    {
    }
  }

  lemma ItemsAgree(a: seq<Value>, b: seq<Value>)
    requires |a| == |b|
    ensures NormalItems(a) == NormalItems(b) <==> forall i :: 0 <= i < |a| ==> Normal(a[i]) == Normal(b[i])
  {
    if NormalItems(a) == NormalItems(b) {
      forall i | 0 <= i < |a|
        ensures Normal(a[i]) == Normal(b[i])
      {
        assert NormalItems(a)[i] == NormalItems(b)[i];
      }
    }
  }

  /** Every property of a is, normalised, a property of b. */
  ghost predicate Covered(a: seq<Member>, b: seq<Member>) {
    forall i :: 0 <= i < |a| ==> Found(a[i], b)
  }

  ghost predicate Found(m: Member, members: seq<Member>) {
    exists j :: 0 <= j < |members| && m.key == members[j].key && Normal(m.value) == Normal(members[j].value)
  }

  lemma MembersAgree(a: seq<Member>, b: seq<Member>)
    requires KeysDistinct(a) && KeysDistinct(b)
    ensures Sort(NormalMembers(a), KeyLeq) == Sort(NormalMembers(b), KeyLeq) <==> |a| == |b| && Covered(a, b)
  {
    var na, nb := NormalMembers(a), NormalMembers(b);
    SortPermutes(na, KeyLeq);
    SortPermutes(nb, KeyLeq);
    if Sort(na, KeyLeq) == Sort(nb, KeyLeq) {
      RearrangedCover(a, b);
    }
    if |a| == |b| && Covered(a, b) {
      CoverRearranged(a, b);
      KeyLeqTotalPreorder();
      NormalKeysDistinct(a);
      forall x, y | x in na && y in na && KeyLeq(x, y) && KeyLeq(y, x) {
        SameKeySameMember(na, x, y);
      }
      SortCanonical(na, nb, KeyLeq);
    }
  }

  lemma RearrangedCover(a: seq<Member>, b: seq<Member>)
    requires multiset(NormalMembers(a)) == multiset(NormalMembers(b))
    ensures |a| == |b| && Covered(a, b)
  {
    var na, nb := NormalMembers(a), NormalMembers(b);
    SameMembers(na, nb);
    forall i | 0 <= i < |a|
      ensures Found(a[i], b)
    {
      assert na[i] in nb;
      var j :| 0 <= j < |nb| && nb[j] == na[i];
    }
  }

  lemma CoverRearranged(a: seq<Member>, b: seq<Member>)
    requires KeysDistinct(a) && |a| == |b| && Covered(a, b)
    ensures multiset(NormalMembers(a)) == multiset(NormalMembers(b))
  {
    var na, nb := NormalMembers(a), NormalMembers(b);
    NormalKeysDistinct(a);
    forall i | 0 <= i < |na|
      ensures na[i] in nb
    {
      var j :| 0 <= j < |b| && a[i].key == b[j].key && Normal(a[i].value) == Normal(b[j].value);
      assert nb[j] == na[i];
    }
    SameLengthCover(na, nb);
  }

  /** Two values print alike exactly when they are equal up to the order of their properties. */
  lemma CanonicalInjective(a: Value, b: Value)
    requires Representable(a) && Representable(b) && DistinctKeys(a) && DistinctKeys(b)
    ensures Canonical(a) == Canonical(b) <==> Equivalent(a, b)
  {
    if Print(a) == Print(b) {
      RoundTrip(a, []);
      RoundTrip(b, []);
      assert Print(a) + [] == Print(b) + [];
    }
    PrintIsPlain(a);
    PrintIsPlain(b);
    NormalEqualIsEquivalent(a, b);
  }

  // ------------------------------------------------------ the gateway's copy

  /** Where the digest copy of the printer gives a text, the gateway copy gives the same one. */
  lemma {:induction false} CopiesAgree(v: Value)
    requires Representable(v)
    ensures DropUndefined(v) == v && GatewayCanonical(v) == Canonical(v)
    decreases v, 1
  {
    match v {
      case Arr(items) => ItemsKept(items);
      case Obj(members) => MembersKept(members);
      case _ =>
    }
  }

  lemma {:induction false} ItemsKept(items: seq<Value>)
    requires RepresentableItems(items)
    ensures DropInItems(items) == items
    decreases items, 0
  {
    if items != [] {
      CopiesAgree(items[0]);
      ItemsKept(items[1..]);
    }
  }

  lemma {:induction false} MembersKept(members: seq<Member>)
    requires RepresentableMembers(members)
    ensures DropInMembers(members) == members
    decreases members, 0
  {
    if members != [] {
      CopiesAgree(members[0].value);
      MembersKept(members[1..]);
    }
  }

  ghost predicate HasKey(members: seq<Member>, key: Text) {
    exists i :: 0 <= i < |members| && members[i].key == key
  }

  lemma {:induction false} DropKeepsDistinct(v: Value)
    requires DistinctKeys(v)
    ensures DistinctKeys(DropUndefined(v))
    decreases v, 1
  {
    match v {
      case Arr(items) => DropItemsDistinct(items);
      case Obj(members) =>
        assert KeysDistinct(members);
        DropMembersDistinct(members);
      case _ =>
    }
  }

  lemma {:induction false} DropItemsDistinct(items: seq<Value>)
    requires forall i :: 0 <= i < |items| ==> DistinctKeys(items[i])
    ensures forall i :: 0 <= i < |DropInItems(items)| ==> DistinctKeys(DropInItems(items)[i])
    decreases items, 0
  {
    if items != [] {
      DropKeepsDistinct(items[0]);
      DropItemsDistinct(items[1..]);
    }
  }

  lemma {:induction false} DropMembersDistinct(members: seq<Member>)
    requires KeysDistinct(members) && forall i :: 0 <= i < |members| ==> DistinctKeys(members[i].value)
    ensures KeysDistinct(DropInMembers(members))
    ensures forall i :: 0 <= i < |DropInMembers(members)| ==>
      DistinctKeys(DropInMembers(members)[i].value) && HasKey(members, DropInMembers(members)[i].key)
    decreases members, 0
  {
    if members != [] {
      DropKeepsDistinct(members[0].value);
      DropMembersDistinct(members[1..]);
      var rest := DropInMembers(members[1..]);
      forall i | 0 <= i < |rest|
        ensures HasKey(members, rest[i].key) && rest[i].key != members[0].key
      {
        var j :| 0 <= j < |members[1..]| && members[1..][j].key == rest[i].key;
        assert members[j + 1] == members[1..][j];
      }
      assert members[0].value.Undefined? ==> DropInMembers(members) == rest;
    }
  }

  /** Two payloads have the same digest text exactly when they are equal up to the order of properties, once undefined
      properties are dropped. */
  lemma GatewayInjective(a: Value, b: Value)
    requires DistinctKeys(a) && DistinctKeys(b) && GatewayCanonical(a).Some? && GatewayCanonical(b).Some?
    ensures GatewayCanonical(a) == GatewayCanonical(b) <==> Equivalent(DropUndefined(a), DropUndefined(b))
  {
    DropKeepsDistinct(a);
    DropKeepsDistinct(b);
    CanonicalInjective(DropUndefined(a), DropUndefined(b));
  }
}
