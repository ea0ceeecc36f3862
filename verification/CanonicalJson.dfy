/** Canonical JSON: the printer, a parser that undoes it, and what equal text means. */
module CanonicalJson {
  import opened Ordering

  type CodeUnit = c: int | 0 <= c < 0x10000
  type Text = seq<CodeUnit>

  predicate TextAtMost(a: Text, b: Text) {
    !UnitsLess(b, a)
  }

  lemma TextTotalPreorder()
    ensures TotalPreorder(TextAtMost)
  {
    forall a: Text, b: Text, c: Text
      ensures TextAtMost(a, b) || TextAtMost(b, a)
      ensures TextAtMost(a, b) && TextAtMost(b, c) ==> TextAtMost(a, c)
    {
      UnitsLessTrichotomy(a, b);
      UnitsLessTrichotomy(b, c);
      UnitsLessTrichotomy(c, a);
      if TextAtMost(a, b) && TextAtMost(b, c) && UnitsLess(c, a) && a != b {
        UnitsLessTransitive(c, a, b);
      }
    }
  }

  /** The code units of a literal in the source. */
  function Ascii(s: string): (t: Text)
    ensures |t| == |s| && forall i :: 0 <= i < |s| && s[i] < 128 as char ==> t[i] == s[i] as int
  {
    seq(|s|, i requires 0 <= i < |s| => if s[i] < 128 as char then s[i] as int else 0xFFFD)
  }

  /** JavaScript values as the printer sees them. A finite number is its shortest decimal numeral; an object
      is its own enumerable properties in insertion order. */
  datatype Value =
    | Undefined
    | NonFinite
    | Null
    | Bool(b: bool)
    | Num(numeral: Text)
    | Str(s: Text)
    | Arr(items: seq<Value>)
    | Obj(members: seq<Member>)

  datatype Member = Member(key: Text, value: Value)

  const QUOTE: CodeUnit := 34
  const COMMA: CodeUnit := 44
  const COLON: CodeUnit := 58
  const LBRACKET: CodeUnit := 91
  const BACKSLASH: CodeUnit := 92
  const RBRACKET: CodeUnit := 93
  const LBRACE: CodeUnit := 123
  const RBRACE: CodeUnit := 125
  const NULL_TEXT: Text := [110, 117, 108, 108]
  const TRUE_TEXT: Text := [116, 114, 117, 101]
  const FALSE_TEXT: Text := [102, 97, 108, 115, 101]

  /** Digits, `-`, `+`, `.`, `e`, `E`: all that Number::toString writes for a finite number. */
  predicate NumeralUnit(c: CodeUnit) {
    48 <= c <= 57 || c == 45 || c == 43 || c == 46 || c == 101 || c == 69
  }

  predicate Numeral(t: Text) {
    t != [] && forall i :: 0 <= i < |t| ==> NumeralUnit(t[i])
  }

  /** The printer throws on everything else. */
  predicate Representable(v: Value)
    decreases v, 1
  {
    match v
    case Undefined => false
    case NonFinite => false
    case Num(n) => Numeral(n)
    case Arr(items) => RepresentableItems(items)
    case Obj(members) => RepresentableMembers(members)
    case _ => true
  }

  predicate RepresentableItems(items: seq<Value>)
    decreases items, 0
  {
    items == [] || (Representable(items[0]) && RepresentableItems(items[1..]))
  }

  predicate RepresentableMembers(members: seq<Member>)
    decreases members, 0
  {
    members == [] || (Representable(members[0].value) && RepresentableMembers(members[1..]))
  }

  // ---------------------------------------------------------------- strings

  predicate HighSurrogate(c: CodeUnit) {
    0xD800 <= c <= 0xDBFF
  }

  predicate LowSurrogate(c: CodeUnit) {
    0xDC00 <= c <= 0xDFFF
  }

  function HexDigit(d: int): CodeUnit
    requires 0 <= d < 16
  {
    if d < 10 then 48 + d else 87 + d
  }

  function HexValue(c: CodeUnit): (d: int)
    ensures -1 <= d < 16
  {
    if 48 <= c <= 57 then c - 48 else if 97 <= c <= 102 then c - 87 else -1
  }

  function UnicodeEscape(c: CodeUnit): Text {
    [BACKSLASH, 117, HexDigit(c / 4096), HexDigit(c / 256 % 16), HexDigit(c / 16 % 16), HexDigit(c % 16)]
  }

  /** The short escape letter of a code unit, 0 when it has none. */
  function ShortEscape(c: CodeUnit): CodeUnit {
    if c == 8 then 98
    else if c == 9 then 116
    else if c == 10 then 110
    else if c == 12 then 102
    else if c == 13 then 114
    else if c == QUOTE then QUOTE
    else if c == BACKSLASH then BACKSLASH
    else 0
  }

  function EscapeUnit(c: CodeUnit): Text {
    if ShortEscape(c) != 0 then [BACKSLASH, ShortEscape(c)]
    else if c < 32 || HighSurrogate(c) || LowSurrogate(c) then UnicodeEscape(c)
    else [c]
  }

  /** JSON.stringify of a string without the quotes: surrogate pairs stay, lone surrogates are escaped. */
  function Escaped(s: Text): Text {
    if s == [] then []
    else if |s| > 1 && HighSurrogate(s[0]) && LowSurrogate(s[1]) then [s[0], s[1]] + Escaped(s[2..])
    else EscapeUnit(s[0]) + Escaped(s[1..])
  }

  function Quoted(s: Text): Text {
    [QUOTE] + Escaped(s) + [QUOTE]
  }

  // ---------------------------------------------------------------- the printer

  predicate KeyLeq(a: Member, b: Member) {
    !UnitsLess(b.key, a.key)
  }

  datatype Printed = Printed(key: Text, text: Text)

  predicate PrintedLeq(a: Printed, b: Printed) {
    !UnitsLess(b.key, a.key)
  }

  function Join(parts: seq<Text>): Text {
    if parts == [] then []
    else if |parts| == 1 then parts[0]
    else parts[0] + [COMMA] + Join(parts[1..])
  }

  function MemberText(p: Printed): Text {
    Quoted(p.key) + [COLON] + p.text
  }

  /** canonicalJson: keys in code-unit order, recursively. (No text for values on which it throws.) */
  function Print(v: Value): Text
    decreases v, 1
  {
    match v
    case Undefined => []
    case NonFinite => []
    case Null => NULL_TEXT
    case Bool(b) => if b then TRUE_TEXT else FALSE_TEXT
    case Num(n) => n
    case Str(s) => Quoted(s)
    case Arr(items) => [LBRACKET] + Join(PrintItems(items)) + [RBRACKET]
    case Obj(members) =>
      [LBRACE] + Join(Map(MemberText, Sort(PrintMembers(members), PrintedLeq))) + [RBRACE]
  }

  function PrintItems(items: seq<Value>): (r: seq<Text>)
    ensures |r| == |items|
    decreases items, 0
  {
    if items == [] then [] else [Print(items[0])] + PrintItems(items[1..])
  }

  function PrintMembers(members: seq<Member>): (r: seq<Printed>)
    ensures |r| == |members|
    decreases members, 0
  {
    if members == [] then []
    else [Printed(members[0].key, Print(members[0].value))] + PrintMembers(members[1..])
  }

  /** The whole function with its error path: no text for an unrepresentable value. */
  function Canonical(v: Value): Option<Text> {
    if Representable(v) then Some(Print(v)) else None
  }

  /** The gateway's copy first drops undefined properties, at every depth (but not undefined array items). */
  function DropUndefined(v: Value): Value
    decreases v, 1
  {
    match v
    case Arr(items) => Arr(DropInItems(items))
    case Obj(members) => Obj(DropInMembers(members))
    case _ => v
  }

  function DropInItems(items: seq<Value>): seq<Value>
    decreases items, 0
  {
    if items == [] then [] else [DropUndefined(items[0])] + DropInItems(items[1..])
  }

  function DropInMembers(members: seq<Member>): seq<Member>
    decreases members, 0
  {
    if members == [] then []
    else
      (if members[0].value.Undefined? then [] else [Member(members[0].key, DropUndefined(members[0].value))])
      + DropInMembers(members[1..])
  }

  function GatewayCanonical(v: Value): Option<Text> {
    Canonical(DropUndefined(v))
  }

  // ------------------------------------------------------------- normal values

  /** The same value with the properties of every object in key order. */
  function Normal(v: Value): Value
    decreases v, 1
  {
    match v
    case Arr(items) => Arr(NormalItems(items))
    case Obj(members) => Obj(Sort(NormalMembers(members), KeyLeq))
    case _ => v
  }

  function NormalItems(items: seq<Value>): (r: seq<Value>)
    ensures |r| == |items|
    ensures forall i :: 0 <= i < |items| ==> r[i] == Normal(items[i])
    decreases items, 0
  {
    if items == [] then [] else [Normal(items[0])] + NormalItems(items[1..])
  }

  function NormalMembers(members: seq<Member>): (r: seq<Member>)
    ensures |r| == |members|
    ensures forall i :: 0 <= i < |members| ==> r[i] == Member(members[i].key, Normal(members[i].value))
    decreases members, 0
  {
    if members == [] then []
    else [Member(members[0].key, Normal(members[0].value))] + NormalMembers(members[1..])
  }

  /** Prints properties in the order they stand. */
  function Plain(v: Value): Text
    decreases v, 1
  {
    match v
    case Undefined => []
    case NonFinite => []
    case Null => NULL_TEXT
    case Bool(b) => if b then TRUE_TEXT else FALSE_TEXT
    case Num(n) => n
    case Str(s) => Quoted(s)
    case Arr(items) => [LBRACKET] + Join(PlainItems(items)) + [RBRACKET]
    case Obj(members) => [LBRACE] + Join(Map(MemberText, PlainMembers(members))) + [RBRACE]
  }

  function PlainItems(items: seq<Value>): (r: seq<Text>)
    ensures |r| == |items|
    ensures forall i :: 0 <= i < |items| ==> r[i] == Plain(items[i])
    decreases items, 0
  {
    if items == [] then [] else [Plain(items[0])] + PlainItems(items[1..])
  }

  function PlainMembers(members: seq<Member>): (r: seq<Printed>)
    ensures |r| == |members|
    ensures forall i :: 0 <= i < |members| ==> r[i] == PlainMember(members[i])
    decreases members, 0
  {
    if members == [] then []
    else [Printed(members[0].key, Plain(members[0].value))] + PlainMembers(members[1..])
  }

  function PlainMember(m: Member): Printed
    decreases m, 1
  {
    Printed(m.key, Plain(m.value))
  }

  // ------------------------------------------- printing is printing the normal value

  lemma {:induction false} PrintIsPlain(v: Value)
    ensures Print(v) == Plain(Normal(v))
    decreases v, 1
  {
    match v {
      case Arr(items) =>
        PrintItemsPlain(items);
      case Obj(members) =>
        PrintMembersPlain(members);
        var normal := NormalMembers(members);
        SortMapKeyed(PlainMember, normal, KeyLeq, PrintedLeq);
        assert PlainMembers(Sort(normal, KeyLeq)) == Map(PlainMember, Sort(normal, KeyLeq));
      case _ =>
    }
  }

  lemma {:induction false} PrintItemsPlain(items: seq<Value>)
    ensures PrintItems(items) == PlainItems(NormalItems(items))
    decreases items, 0
  {
    if items != [] {
      PrintIsPlain(items[0]);
      PrintItemsPlain(items[1..]);
    }
  }

  lemma {:induction false} PrintMembersPlain(members: seq<Member>)
    ensures PrintMembers(members) == Map(PlainMember, NormalMembers(members))
    decreases members, 0
  {
    if members != [] {
      PrintIsPlain(members[0].value);
      PrintMembersPlain(members[1..]);
      assert NormalMembers(members)[1..] == NormalMembers(members[1..]);
    }
  }

  lemma {:induction false} ItemsRepresentable(items: seq<Value>)
    ensures RepresentableItems(items) <==> forall i :: 0 <= i < |items| ==> Representable(items[i])
  {
    if items != [] {
      ItemsRepresentable(items[1..]);
      assert forall i :: 0 < i < |items| ==> items[i] == items[1..][i - 1];
    }
  }

  lemma {:induction false} MembersRepresentable(members: seq<Member>)
    ensures RepresentableMembers(members) <==> forall m :: m in members ==> Representable(m.value)
  {
    if members != [] {
      MembersRepresentable(members[1..]);
      assert members == [members[0]] + members[1..];
    }
  }

  /** Key sorting neither adds nor removes anything unprintable. */
  lemma {:induction false} NormalRepresentable(v: Value)
    ensures Representable(Normal(v)) <==> Representable(v)
    decreases v, 1
  {
    match v {
      case Arr(items) =>
        NormalItemsRepresentable(items);
      case Obj(members) =>
        NormalMembersRepresentable(members);
        var normal := NormalMembers(members);
        SortPermutes(normal, KeyLeq);
        MembersRepresentable(normal);
        MembersRepresentable(Sort(normal, KeyLeq));
      case _ =>
    }
  }

  lemma {:induction false} NormalItemsRepresentable(items: seq<Value>)
    ensures RepresentableItems(NormalItems(items)) <==> RepresentableItems(items)
    decreases items, 0
  {
    if items != [] {
      NormalRepresentable(items[0]);
      NormalItemsRepresentable(items[1..]);
      assert NormalItems(items)[1..] == NormalItems(items[1..]);
    }
  }

  lemma {:induction false} NormalMembersRepresentable(members: seq<Member>)
    ensures RepresentableMembers(NormalMembers(members)) <==> RepresentableMembers(members)
    decreases members, 0
  {
    if members != [] {
      NormalRepresentable(members[0].value);
      NormalMembersRepresentable(members[1..]);
      assert NormalMembers(members)[1..] == NormalMembers(members[1..]);
    }
  }
}
