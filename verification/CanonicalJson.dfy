/** canonicalJson of operator/threshold-group.mjs. Strings are sequences of UTF-16 code units. */
module CanonicalJson {
  import opened Outcomes
  import opened Sequences

  type CodeUnit = u: int | 0 <= u < 0x1_0000

  type Str = seq<CodeUnit>

  /** A JavaScript value. Numbers that are not safe integers, undefined, functions and so on are Other. Hole is an
      absent array element, which map and join skip. */
  datatype Json =
    | Null
    | Bool(truth: bool)
    | Number(value: int)
    | NegativeZero
    | Text(text: Str)
    | Array(items: seq<Json>)
    | Object(members: seq<Member>)
    | Hole
    | Other

  datatype Member = Member(key: Str, value: Json)

  /** A member whose value is printed. */
  datatype Printed = Printed(key: Str, text: Str)

  const MAX_SAFE_INTEGER: int := 0x1F_FFFF_FFFF_FFFF

  const NULL: Str := [110, 117, 108, 108]
  const TRUE: Str := [116, 114, 117, 101]
  const FALSE: Str := [102, 97, 108, 115, 101]
  const QUOTE: CodeUnit := 34
  const BACKSLASH: CodeUnit := 92
  const COMMA: CodeUnit := 44
  const COLON: CodeUnit := 58
  const MINUS: CodeUnit := 45
  const LBRACKET: CodeUnit := 91
  const RBRACKET: CodeUnit := 93
  const LBRACE: CodeUnit := 123
  const RBRACE: CodeUnit := 125

  // ------------------------------------------------------------------ strings

  predicate High(c: CodeUnit) { 0xD800 <= c < 0xDC00 }

  predicate Low(c: CodeUnit) { 0xDC00 <= c < 0xE000 }

  function HexDigit(d: int): CodeUnit
    requires 0 <= d < 16
  {
    if d < 10 then 48 + d else 87 + d
  }

  function Hex4(c: CodeUnit): Str {
    [HexDigit(c / 16 / 16 / 16), HexDigit(c / 16 / 16 % 16), HexDigit(c / 16 % 16), HexDigit(c % 16)]
  }

  /** The letter of a short escape, or 0. */
  function ShortEscape(c: CodeUnit): CodeUnit {
    if c == QUOTE || c == BACKSLASH then c
    else if c == 8 then 98 else if c == 9 then 116 else if c == 10 then 110 else if c == 12 then 102
    else if c == 13 then 114 else 0
  }

  /** One unit that is not half of a surrogate pair. */
  function QuoteUnit(c: CodeUnit): Str {
    if ShortEscape(c) != 0 then [BACKSLASH, ShortEscape(c)]
    else if c < 32 || High(c) || Low(c) then [BACKSLASH, 117] + Hex4(c)
    else [c]
  }

  predicate PairAhead(s: Str) { |s| >= 2 && High(s[0]) && Low(s[1]) }

  function QuoteUnits(s: Str): Str {
    if s == [] then []
    else if PairAhead(s) then [s[0], s[1]] + QuoteUnits(s[2..])
    else QuoteUnit(s[0]) + QuoteUnits(s[1..])
  }

  /** JSON.stringify of a string. */
  function QuoteString(s: Str): Str { [QUOTE] + QuoteUnits(s) + [QUOTE] }

  // ------------------------------------------------------------------ numbers

  function Digits(n: nat): Str {
    if n < 10 then [48 + n] else Digits(n / 10) + [48 + n % 10]
  }

  function PrintInteger(i: int): Str {
    if i < 0 then [MINUS] + Digits(-i) else Digits(i)
  }

  // ------------------------------------------------------------------ printing

  /** Code unit order, as Array.prototype.sort compares strings. */
  predicate LexLe(a: Str, b: Str) {
    if a == [] then true
    else if b == [] then false
    else a[0] < b[0] || (a[0] == b[0] && LexLe(a[1..], b[1..]))
  }

  function PrintedOrder(): (Printed, Printed) -> bool { (x: Printed, y: Printed) => LexLe(x.key, y.key) }

  function MemberOrder(): (Member, Member) -> bool { (x: Member, y: Member) => LexLe(x.key, y.key) }

  /** Texts separated by commas. */
  function Join(texts: seq<Str>): Str {
    if texts == [] then []
    else if |texts| == 1 then texts[0]
    else texts[0] + [COMMA] + Join(texts[1..])
  }

  function Field(m: Printed): Str { QuoteString(m.key) + [COLON] + m.text }

  function Fields(ms: seq<Printed>): seq<Str> { Map(ms, (m: Printed) => Field(m)) }

  /** canonicalJson; None is the thrown error. */
  function Print(v: Json): Option<Str> {
    match v
    case Null => Some(NULL)
    case Bool(b) => Some(if b then TRUE else FALSE)
    case Number(i) => if -MAX_SAFE_INTEGER <= i <= MAX_SAFE_INTEGER then Some(PrintInteger(i)) else None
    case NegativeZero => Some(PrintInteger(0))
    case Text(s) => Some(QuoteString(s))
    case Array(items) =>
      var texts := PrintItems(items);
      if texts.None? then None else Some([LBRACKET] + Join(texts.value) + [RBRACKET])
    case Object(members) =>
      var texts := PrintMembers(members);
      if texts.None? then None else Some([LBRACE] + Join(Fields(Sort(texts.value, PrintedOrder()))) + [RBRACE])
    case Hole => None
    case Other => None
  }

  function PrintItems(items: seq<Json>): (r: Option<seq<Str>>)
    ensures r.Some? ==> |r.value| == |items|
  {
    if items == [] then Some([])
    else
      var first := if items[0].Hole? then Some([]) else Print(items[0]);
      var rest := PrintItems(items[1..]);
      if first.None? || rest.None? then None else Some([first.value] + rest.value)
  }

  function PrintMembers(members: seq<Member>): (r: Option<seq<Printed>>)
    ensures r.Some? ==> |r.value| == |members|
  {
    if members == [] then Some([])
    else
      var first := Print(members[0].value);
      var rest := PrintMembers(members[1..]);
      if first.None? || rest.None? then None else Some([Printed(members[0].key, first.value)] + rest.value)
  }

  // -------------------------------------------------------------- what is printed

  /** The value a text stands for: keys in order, -0 as 0, and the array with one hole as the empty array. */
  function Canon(v: Json): Json {
    match v
    case NegativeZero => Number(0)
    case Array(items) => if items == [Hole] then Array([]) else Array(CanonItems(items))
    case Object(members) => Object(Sort(CanonMembers(members), MemberOrder()))
    case _ => v
  }

  function CanonItems(items: seq<Json>): (r: seq<Json>)
    ensures |r| == |items|
  {
    if items == [] then [] else [Canon(items[0])] + CanonItems(items[1..])
  }

  function CanonMembers(members: seq<Member>): (r: seq<Member>)
    ensures |r| == |members|
  {
    if members == [] then []
    else [Member(members[0].key, Canon(members[0].value))] + CanonMembers(members[1..])
  }

  // -------------------------------------------------------------------- reading

  predicate IsDigit(c: CodeUnit) { 48 <= c < 58 }

  function HexValue(c: CodeUnit): Option<int> {
    if 48 <= c < 58 then Some(c - 48) else if 97 <= c < 103 then Some(c - 87) else None
  }

  function ReadHex4(s: Str): (r: Option<CodeUnit>)
    requires |s| >= 4
  {
    var a, b, c, d := HexValue(s[0]), HexValue(s[1]), HexValue(s[2]), HexValue(s[3]);
    if a.Some? && b.Some? && c.Some? && d.Some?
    then Some(((a.value * 16 + b.value) * 16 + c.value) * 16 + d.value) else None
  }

  function LongEscape(c: CodeUnit): Option<CodeUnit> {
    if c == QUOTE || c == BACKSLASH then Some(c)
    else if c == 98 then Some(8) else if c == 116 then Some(9) else if c == 110 then Some(10)
    else if c == 102 then Some(12) else if c == 114 then Some(13) else None
  }

  /** The units up to the closing quote, and what follows it. */
  function ReadUnits(s: Str): (r: Option<(Str, Str)>)
    ensures r.Some? ==> |r.value.1| < |s|
  {
    if s == [] then None
    else if s[0] == QUOTE then Some(([], s[1..]))
    else if s[0] != BACKSLASH then Prepend(s[0], ReadUnits(s[1..]))
    else if |s| >= 2 && LongEscape(s[1]).Some? then Prepend(LongEscape(s[1]).value, ReadUnits(s[2..]))
    else if |s| >= 6 && s[1] == 117 && ReadHex4(s[2..6]).Some? then Prepend(ReadHex4(s[2..6]).value, ReadUnits(s[6..]))
    else None
  }

  function Prepend(c: CodeUnit, r: Option<(Str, Str)>): Option<(Str, Str)> {
    if r.None? then None else Some(([c] + r.value.0, r.value.1))
  }

  function DigitValue(c: CodeUnit): int { c as int - 48 }

  function ReadDigits(s: Str, acc: int): (r: (int, Str))
    ensures |r.1| <= |s|
  {
    if s == [] || !IsDigit(s[0]) then (acc, s) else ReadDigits(s[1..], acc * 10 + DigitValue(s[0]))
  }

  /** A reader for printed values. */
  function Parse(s: Str): (r: Option<(Json, Str)>)
    ensures r.Some? ==> |r.value.1| < |s|
    decreases |s|, 1
  {
    if s == [] then None
    else if NULL <= s then Some((Null, s[4..]))
    else if TRUE <= s then Some((Bool(true), s[4..]))
    else if FALSE <= s then Some((Bool(false), s[5..]))
    else if s[0] == QUOTE then
      var r := ReadUnits(s[1..]);
      if r.None? then None else Some((Text(r.value.0), r.value.1))
    else if IsDigit(s[0]) then
      var r := ReadDigits(s[1..], DigitValue(s[0]));
      Some((Number(r.0), r.1))
    else if s[0] == MINUS then
      var r := ReadDigits(s[1..], 0);
      Some((Number(-r.0), r.1))
    else if s[0] == LBRACKET then
      if |s| >= 2 && s[1] == RBRACKET then Some((Array([]), s[2..]))
      else
        var r := ParseItems(s[1..]);
        if r.None? then None else Some((Array(r.value.0), r.value.1))
    else if s[0] == LBRACE then
      if |s| >= 2 && s[1] == RBRACE then Some((Object([]), s[2..]))
      else
        var r := ParseMembers(s[1..]);
        if r.None? then None else Some((Object(r.value.0), r.value.1))
    else None
  }

  /** One array element: nothing before a comma or the end is a hole. */
  function ParseItem(s: Str): (r: Option<(Json, Str)>)
    ensures r.Some? ==> |r.value.1| <= |s|
    decreases |s|, 2
  {
    if s != [] && (s[0] == COMMA || s[0] == RBRACKET) then Some((Hole, s)) else Parse(s)
  }

  function ParseItems(s: Str): (r: Option<(seq<Json>, Str)>)
    ensures r.Some? ==> |r.value.1| < |s|
    decreases |s|, 3
  {
    var first := ParseItem(s);
    if first.None? || first.value.1 == [] then None
    else
      var next := first.value.1;
      if next[0] == RBRACKET then Some(([first.value.0], next[1..]))
      else if next[0] != COMMA then None
      else
        var rest := ParseItems(next[1..]);
        if rest.None? then None else Some(([first.value.0] + rest.value.0, rest.value.1))
  }

  function ParseMember(s: Str): (r: Option<(Member, Str)>)
    ensures r.Some? ==> |r.value.1| < |s|
    decreases |s|, 2
  {
    if s == [] || s[0] != QUOTE then None
    else
      var key := ReadUnits(s[1..]);
      if key.None? || key.value.1 == [] || key.value.1[0] != COLON then None
      else
        var value := Parse(key.value.1[1..]);
        if value.None? then None else Some((Member(key.value.0, value.value.0), value.value.1))
  }

  function ParseMembers(s: Str): (r: Option<(seq<Member>, Str)>)
    ensures r.Some? ==> |r.value.1| < |s|
    decreases |s|, 3
  {
    var first := ParseMember(s);
    if first.None? || first.value.1 == [] then None
    else
      var next := first.value.1;
      if next[0] == RBRACE then Some(([first.value.0], next[1..]))
      else if next[0] != COMMA then None
      else
        var rest := ParseMembers(next[1..]);
        if rest.None? then None else Some(([first.value.0] + rest.value.0, rest.value.1))
  }
}
