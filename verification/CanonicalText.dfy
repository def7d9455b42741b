/** The exact text canonicalJson prints, described without its printing functions: which escape every unit gets, how a
    number is written, and that arrays and objects hold nothing but punctuation and their parts, keys ascending. */
module CanonicalText {
  import opened Outcomes
  import opened Sequences
  import opened CanonicalJson
  import opened CanonicalJsonTheorems

  function Unit(c: char): CodeUnit
    requires c as int < 0x1_0000
  {
    c as int
  }

  function Concat(pieces: seq<Str>): Str {
    if pieces == [] then [] else pieces[0] + Concat(pieces[1..])
  }

  // ------------------------------------------------------------------ strings

  /** The unit is one half of a surrogate pair. */
  predicate Paired(s: Str, i: nat)
    requires i < |s|
  {
    || (0xD800 <= s[i] <= 0xDBFF && i + 1 < |s| && 0xDC00 <= s[i + 1] <= 0xDFFF)
    || (0xDC00 <= s[i] <= 0xDFFF && i > 0 && 0xD800 <= s[i - 1] <= 0xDBFF)
  }

  predicate Surrogate(c: CodeUnit) { 0xD800 <= c <= 0xDFFF }

  predicate LowerHex(c: CodeUnit) { Unit('0') <= c <= Unit('9') || Unit('a') <= c <= Unit('f') }

  function Nibble(c: CodeUnit): int { if c <= Unit('9') then c - Unit('0') else c - Unit('a') + 10 }

  /** Four lower-case hexadecimal digits of this value. */
  predicate HexOf(h: Str, c: CodeUnit) {
    && |h| == 4 && (forall i :: 0 <= i < 4 ==> LowerHex(h[i]))
    && Nibble(h[0]) * 0x1000 + Nibble(h[1]) * 0x100 + Nibble(h[2]) * 0x10 + Nibble(h[3]) == c
  }

  /** What stands for one unit of a string between its quotes. */
  predicate Stands(piece: Str, s: Str, i: nat)
    requires i < |s|
  {
    var c := s[i];
    if c == Unit('"') then piece == [Unit('\\'), Unit('"')]
    else if c == Unit('\\') then piece == [Unit('\\'), Unit('\\')]
    else if c == 8 then piece == [Unit('\\'), Unit('b')]
    else if c == 9 then piece == [Unit('\\'), Unit('t')]
    else if c == 10 then piece == [Unit('\\'), Unit('n')]
    else if c == 12 then piece == [Unit('\\'), Unit('f')]
    else if c == 13 then piece == [Unit('\\'), Unit('r')]
    else if c < 32 || (Surrogate(c) && !Paired(s, i)) then
      |piece| == 6 && piece[0] == Unit('\\') && piece[1] == Unit('u') && HexOf(piece[2..], c)
    else piece == [c]
  }

  ghost predicate Pieces(pieces: seq<Str>, s: Str) {
    |pieces| == |s| && forall i :: 0 <= i < |s| ==> Stands(pieces[i], s, i)
  }

  /** The string between quotes, each unit as itself or as its one escape. */
  ghost predicate Quoted(q: Str, s: Str) {
    exists pieces :: Pieces(pieces, s) && q == [Unit('"')] + Concat(pieces) + [Unit('"')]
  }

  lemma {:induction false} HexIs(c: CodeUnit)
    ensures HexOf(Hex4(c), c)
  {
    var a, b, d, e := c / 16 / 16 / 16, c / 16 / 16 % 16, c / 16 % 16, c % 16;
    assert c == ((a * 16 + b) * 16 + d) * 16 + e;
    assert Nibble(HexDigit(a)) == a && Nibble(HexDigit(b)) == b && Nibble(HexDigit(d)) == d && Nibble(HexDigit(e)) == e;
  }

  lemma {:induction false} UnitStands(s: Str, i: nat)
    requires i < |s| && !Paired(s, i)
    ensures Stands(QuoteUnit(s[i]), s, i)
  {
    HexIs(s[i]);
    assert ([BACKSLASH, 117] + Hex4(s[i]))[2..] == Hex4(s[i]);
  }

  /** Pieces of the rest are pieces of the whole when no pair is cut. */
  lemma {:induction false} LaterPieces(s: Str, n: nat, pieces: seq<Str>, front: seq<Str>)
    requires n <= |s| && |front| == n && Pieces(pieces, s[n..])
    requires 0 < n < |s| ==> !(0xD800 <= s[n - 1] <= 0xDBFF && 0xDC00 <= s[n] <= 0xDFFF)
    requires forall i :: 0 <= i < n ==> Stands(front[i], s, i)
    ensures Pieces(front + pieces, s)
  {
    var all, rest := front + pieces, s[n..];
    forall i | 0 <= i < |s|
      ensures Stands(all[i], s, i)
    {
      if i >= n {
        assert all[i] == pieces[i - n] && s[i] == rest[i - n];
        assert Stands(pieces[i - n], rest, i - n);
        assert Paired(s, i) <==> Paired(rest, i - n);
      }
    }
  }

  lemma {:induction false} ConcatFront(front: seq<Str>, pieces: seq<Str>)
    ensures Concat(front + pieces) == Concat(front) + Concat(pieces)
  {
    if front == [] {
      assert front + pieces == pieces;
    } else {
      ConcatFront(front[1..], pieces);
      assert (front + pieces)[0] == front[0] && (front + pieces)[1..] == front[1..] + pieces;
      Assoc(front[0], Concat(front[1..]), Concat(pieces));
    }
  }

  lemma {:induction false} UnitsHavePieces(s: Str) returns (pieces: seq<Str>)
    ensures Pieces(pieces, s) && QuoteUnits(s) == Concat(pieces)
  {
    if s == [] {
      pieces := [];
    } else if PairAhead(s) {
      var rest := UnitsHavePieces(s[2..]);
      var front: seq<Str> := [[s[0]], [s[1]]];
      LaterPieces(s, 2, rest, front);
      ConcatFront(front, rest);
      assert Concat(front) == [s[0], s[1]] by {
        assert |front[1..][1..]| == 0 && front[1..][0] == [s[1]];
      }
      pieces := front + rest;
    } else {
      var rest := UnitsHavePieces(s[1..]);
      var front: seq<Str> := [QuoteUnit(s[0])];
      UnitStands(s, 0);
      LaterPieces(s, 1, rest, front);
      ConcatFront(front, rest);
      assert Concat(front) == QuoteUnit(s[0]) by {
        assert front[1..] == [];
      }
      pieces := front + rest;
    }
  }

  /** Every string is printed as its pieces between quotes. */
  lemma {:induction false} StringText(s: Str)
    ensures Quoted(QuoteString(s), s)
  {
    var pieces := UnitsHavePieces(s);
  }

  /** There is one such text. */
  lemma {:induction false} QuotedIsUnique(q: Str, q': Str, s: Str)
    requires Quoted(q, s) && Quoted(q', s)
    ensures q == q'
  {
    var pieces :| Pieces(pieces, s) && q == [Unit('"')] + Concat(pieces) + [Unit('"')];
    var pieces' :| Pieces(pieces', s) && q' == [Unit('"')] + Concat(pieces') + [Unit('"')];
    forall i | 0 <= i < |s| ensures pieces[i] == pieces'[i] {
      PieceIsUnique(pieces[i], pieces'[i], s, i);
    }
    assert pieces == pieces';
  }

  lemma {:induction false} PieceIsUnique(piece: Str, piece': Str, s: Str, i: nat)
    requires i < |s| && Stands(piece, s, i) && Stands(piece', s, i)
    ensures piece == piece'
  {
    if |piece| == 6 && |piece'| == 6 && HexOf(piece[2..], s[i]) && HexOf(piece'[2..], s[i]) {
      HexIsUnique(piece[2..], piece'[2..], s[i]);
      assert piece == piece[..2] + piece[2..] && piece' == piece'[..2] + piece'[2..];
    }
  }

  lemma {:induction false} HexIsUnique(h: Str, h': Str, c: CodeUnit)
    requires HexOf(h, c) && HexOf(h', c)
    ensures h == h'
  {
    NibblesUnique(Nibble(h[0]), Nibble(h[1]), Nibble(h[2]), Nibble(h[3]),
                  Nibble(h'[0]), Nibble(h'[1]), Nibble(h'[2]), Nibble(h'[3]));
    assert h[0] == h'[0] && h[1] == h'[1] && h[2] == h'[2] && h[3] == h'[3];
  }

  lemma {:induction false} NibblesUnique(a: int, b: int, c: int, d: int, a': int, b': int, c': int, d': int)
    requires 0 <= a < 16 && 0 <= b < 16 && 0 <= c < 16 && 0 <= d < 16
    requires 0 <= a' < 16 && 0 <= b' < 16 && 0 <= c' < 16 && 0 <= d' < 16
    requires a * 0x1000 + b * 0x100 + c * 0x10 + d == a' * 0x1000 + b' * 0x100 + c' * 0x10 + d'
    ensures a == a' && b == b' && c == c' && d == d'
  {
  }

  /** No control unit, quote or backslash, and every surrogate in a pair. */
  predicate Ordinary(s: Str) {
    forall i :: 0 <= i < |s| ==>
      s[i] >= 32 && s[i] != Unit('"') && s[i] != Unit('\\') && (Surrogate(s[i]) ==> Paired(s, i))
  }

  /** Such a string is printed as it is. */
  lemma {:induction false} OrdinaryText(s: Str)
    requires Ordinary(s)
    ensures QuoteString(s) == [Unit('"')] + s + [Unit('"')]
  {
    var pieces := UnitsHavePieces(s);
    forall i | 0 <= i < |s| ensures pieces[i] == [s[i]] {
      assert Stands(pieces[i], s, i);
    }
    ConcatSingles(pieces, s);
  }

  lemma {:induction false} ConcatSingles(pieces: seq<Str>, s: Str)
    requires |pieces| == |s| && forall i :: 0 <= i < |s| ==> pieces[i] == [s[i]]
    ensures Concat(pieces) == s
  {
    if s != [] {
      ConcatSingles(pieces[1..], s[1..]);
      assert s == [s[0]] + s[1..];
    }
  }

  // ------------------------------------------------------------------ numbers

  /** Decimal digits of this value, without a leading zero. */
  predicate Decimal(t: Str, n: int) {
    && t != [] && (forall i :: 0 <= i < |t| ==> Unit('0') <= t[i] <= Unit('9'))
    && (|t| > 1 ==> t[0] != Unit('0')) && ValueOf(t, 0) == n
  }

  /** A minus sign for negative numbers only. */
  predicate Signed(t: Str, i: int) {
    if i < 0 then t != [] && t[0] == Unit('-') && Decimal(t[1..], -i) else Decimal(t, i)
  }

  lemma {:induction false} DigitsText(n: nat)
    ensures Decimal(Digits(n), n) && (n > 0 ==> Digits(n)[0] != Unit('0'))
  {
    DigitsValue(n);
    if n >= 10 {
      DigitsText(n / 10);
    }
  }

  lemma {:induction false} IntegerText(i: int)
    ensures Signed(PrintInteger(i), i)
  {
    if i < 0 {
      DigitsText(-i);
      assert PrintInteger(i)[1..] == Digits(-i);
    } else {
      DigitsText(i);
    }
  }

  // ------------------------------------------------------------------ containers

  function Prefixed(texts: seq<Str>): seq<Str> { Map(texts, (t: Str) => [Unit(',')] + t) }

  /** The texts with a comma before each but the first. */
  function Commas(texts: seq<Str>): Str {
    if texts == [] then [] else texts[0] + Concat(Prefixed(texts[1..]))
  }

  lemma {:induction false} JoinText(texts: seq<Str>)
    ensures Join(texts) == Commas(texts)
  {
    if |texts| == 1 {
      assert Prefixed(texts[1..]) == [];
    } else if |texts| > 1 {
      var rest := texts[1..];
      JoinText(rest);
      assert Prefixed(rest)[0] == [Unit(',')] + rest[0];
      assert Prefixed(rest)[1..] == Prefixed(rest[1..]);
      assert Join(texts) == texts[0] + [COMMA] + Join(rest);
      Assoc(texts[0], [COMMA], Join(rest));
      Assoc([COMMA], rest[0], Concat(Prefixed(rest[1..])));
    }
  }

  /** Code unit order: a prefix, or smaller where they first differ. */
  ghost predicate Precedes(a: Str, b: Str) {
    a <= b || exists k :: 0 <= k < |a| && k < |b| && a[..k] == b[..k] && a[k] < b[k]
  }

  lemma {:induction false} LexPrecedes(a: Str, b: Str)
    requires LexLe(a, b)
    ensures Precedes(a, b)
  {
    if a == [] {
    } else if a[0] == b[0] {
      LexPrecedes(a[1..], b[1..]);
      if a[1..] <= b[1..] {
        assert a == [a[0]] + a[1..] && b == [b[0]] + b[1..];
        assert a <= b;
      } else {
        var k :| 0 <= k < |a[1..]| && k < |b[1..]| && a[1..][..k] == b[1..][..k] && a[1..][k] < b[1..][k];
        assert a[..k + 1] == [a[0]] + a[1..][..k] && b[..k + 1] == [b[0]] + b[1..][..k];
      }
    } else {
      assert a[..0] == b[..0];
    }
  }

  ghost predicate Ascending(fields: seq<Printed>) {
    forall i, j :: 0 <= i < j < |fields| ==> Precedes(fields[i].key, fields[j].key)
  }

  ghost predicate IsField(text: Str, m: Printed) {
    exists q :: Quoted(q, m.key) && text == q + [Unit(':')] + m.text
  }

  ghost predicate AreFields(texts: seq<Str>, fields: seq<Printed>) {
    |texts| == |fields| && forall i :: 0 <= i < |fields| ==> IsField(texts[i], fields[i])
  }

  function Named(members: seq<Member>, texts: seq<Str>): seq<Printed>
    requires |texts| == |members|
  {
    seq(|members|, i requires 0 <= i < |members| => Printed(members[i].key, texts[i]))
  }

  /** The lines are the members' fields in ascending order of keys, each once, and the text is the lines in braces. */
  ghost predicate ObjectLaidOut(t: Str, members: seq<Member>, texts: seq<Str>, fields: seq<Printed>, lines: seq<Str>) {
    && |texts| == |members| && Permutation(fields, Named(members, texts)) && Ascending(fields)
    && AreFields(lines, fields) && t == [Unit('{')] + Commas(lines) + [Unit('}')]
  }

  /** The text spells the value: the canonical form, without reference to how it is printed. */
  ghost predicate Spells(t: Str, v: Json)
    decreases v
  {
    match v
    case Null => t == [Unit('n'), Unit('u'), Unit('l'), Unit('l')]
    case Bool(b) =>
      t == if b then [Unit('t'), Unit('r'), Unit('u'), Unit('e')]
           else [Unit('f'), Unit('a'), Unit('l'), Unit('s'), Unit('e')]
    case Number(i) => -0x1F_FFFF_FFFF_FFFF <= i <= 0x1F_FFFF_FFFF_FFFF && Signed(t, i)
    case NegativeZero => t == [Unit('0')]
    case Text(s) => Quoted(t, s)
    case Array(items) => exists texts: seq<Str> ::
      && |texts| == |items| && t == [Unit('[')] + Commas(texts) + [Unit(']')]
      && forall i :: 0 <= i < |items| ==> if items[i].Hole? then texts[i] == [] else Spells(texts[i], items[i])
    case Object(members) => exists texts: seq<Str>, fields: seq<Printed>, lines: seq<Str> ::
      ObjectLaidOut(t, members, texts, fields, lines) && forall i :: 0 <= i < |members| ==> Spells(texts[i], members[i].value)
    case _ => false
  }

  lemma {:induction false} ArraySpells(items: seq<Json>, texts: seq<Str>)
    requires |texts| == |items|
    requires forall i :: 0 <= i < |items| ==> if items[i].Hole? then texts[i] == [] else Spells(texts[i], items[i])
    ensures Spells([LBRACKET] + Join(texts) + [RBRACKET], Array(items))
  {
    JoinText(texts);
  }

  lemma {:induction false} FieldsText(fields: seq<Printed>)
    ensures AreFields(Fields(fields), fields)
  {
    forall i | 0 <= i < |fields|
      ensures IsField(Fields(fields)[i], fields[i])
    {
      StringText(fields[i].key);
    }
  }

  lemma {:induction false} SortedFields(printed: seq<Printed>)
    ensures Ascending(Sort(printed, PrintedOrder()))
  {
    var fields := Sort(printed, PrintedOrder());
    OrdersAreTotal();
    SortSorted(printed, PrintedOrder());
    forall i, j | 0 <= i < j < |fields| ensures Precedes(fields[i].key, fields[j].key) {
      assert PrintedOrder()(fields[i], fields[j]);
      LexPrecedes(fields[i].key, fields[j].key);
    }
  }

  lemma {:induction false} ObjectLines(members: seq<Member>, printed: seq<Printed>) returns (texts: seq<Str>)
    requires |printed| == |members| && forall i :: 0 <= i < |members| ==> printed[i].key == members[i].key
    ensures |texts| == |members| && forall i :: 0 <= i < |members| ==> texts[i] == printed[i].text
    ensures var fields := Sort(printed, PrintedOrder());
      ObjectLaidOut([LBRACE] + Join(Fields(fields)) + [RBRACE], members, texts, fields, Fields(fields))
  {
    texts := seq(|printed|, i requires 0 <= i < |printed| => printed[i].text);
    assert Named(members, texts) == printed;
    SortedFields(printed);
    FieldsText(Sort(printed, PrintedOrder()));
    JoinText(Fields(Sort(printed, PrintedOrder())));
  }

  lemma {:induction false} ObjectSpells(members: seq<Member>, printed: seq<Printed>)
    requires |printed| == |members|
    requires forall i :: 0 <= i < |members| ==>
      printed[i].key == members[i].key && Spells(printed[i].text, members[i].value)
    ensures Spells([LBRACE] + Join(Fields(Sort(printed, PrintedOrder()))) + [RBRACE], Object(members))
  {
    var texts := ObjectLines(members, printed);
  }

  /** Whatever canonicalJson prints spells its value. */
  lemma {:induction false} PrintsItsSpelling(v: Json)
    requires Print(v).Some?
    ensures Spells(Print(v).value, v)
    decreases v
  {
    match v {
      case Number(i) => IntegerText(i);
      case NegativeZero => assert PrintInteger(0) == [Unit('0')];
      case Text(s) => StringText(s);
      case Array(items) =>
        ItemsAt(items);
        var texts := PrintItems(items).value;
        forall i | 0 <= i < |items|
          ensures if items[i].Hole? then texts[i] == [] else Spells(texts[i], items[i])
        {
          if !items[i].Hole? { PrintsItsSpelling(items[i]); }
        }
        ArraySpells(items, texts);
      case Object(members) =>
        MembersAt(members);
        var printed := PrintMembers(members).value;
        forall i | 0 <= i < |members|
          ensures printed[i].key == members[i].key && Spells(printed[i].text, members[i].value)
        {
          PrintsItsSpelling(members[i].value);
        }
        ObjectSpells(members, printed);
      case _ =>
    }
  }

  // ------------------------------------------------------------ only one spelling

  lemma {:induction false} ValueGrows(ds: Str, acc: nat)
    requires AllDigits(ds)
    ensures ValueOf(ds, acc) >= acc
  {
    if ds != [] {
      ValueGrows(ds[1..], acc * 10 + DigitValue(ds[0]));
    }
  }

  /** Decimal digits without a leading zero are determined by their value. */
  lemma {:induction false} DecimalIsDigits(t: Str, n: nat)
    requires Decimal(t, n)
    ensures t == Digits(n)
  {
    var init, d := t[..|t| - 1], t[|t| - 1];
    assert t == init + [d];
    ValueAppend(init, d, 0);
    if init != [] {
      ValueGrows(init[1..], DigitValue(init[0]));
      assert init[0] == t[0];
      assert Decimal(init, n / 10) by { assert forall i :: 0 <= i < |init| ==> init[i] == t[i]; }
      DecimalIsDigits(init, n / 10);
    }
  }

  lemma {:induction false} SignedIsInteger(t: Str, i: int)
    requires Signed(t, i)
    ensures t == PrintInteger(i)
  {
    if i < 0 {
      DecimalIsDigits(t[1..], -i);
      assert t == [t[0]] + t[1..];
    } else {
      DecimalIsDigits(t, i);
    }
  }

  lemma {:induction false} PrecedesLex(a: Str, b: Str)
    requires Precedes(a, b)
    ensures LexLe(a, b)
  {
    if a != [] {
      if a <= b {
        assert a[1..] <= b[1..];
        PrecedesLex(a[1..], b[1..]);
      } else {
        var k :| 0 <= k < |a| && k < |b| && a[..k] == b[..k] && a[k] < b[k];
        if k > 0 {
          assert a[0] == a[..k][0] && b[0] == b[..k][0];
          assert a[1..][..k - 1] == a[..k][1..] && b[1..][..k - 1] == b[..k][1..];
          assert a[1..][k - 1] < b[1..][k - 1];
          PrecedesLex(a[1..], b[1..]);
        }
      }
    }
  }

  lemma {:induction false} FieldIsField(text: Str, m: Printed)
    requires IsField(text, m)
    ensures text == Field(m)
  {
    var q :| Quoted(q, m.key) && text == q + [Unit(':')] + m.text;
    StringText(m.key);
    QuotedIsUnique(q, QuoteString(m.key), m.key);
  }

  lemma {:induction false} TieFreePrinted(members: seq<Member>, texts: seq<Str>)
    requires |texts| == |members| && forall i, j :: 0 <= i < j < |members| ==> members[i].key != members[j].key
    ensures TieFree(Named(members, texts), PrintedOrder())
  {
    var named := Named(members, texts);
    forall x, y | x in named && y in named && PrintedOrder()(x, y) && PrintedOrder()(y, x)
      ensures x == y
    {
      LexTotal(x.key, y.key);
      var i, j :| 0 <= i < |named| && 0 <= j < |named| && named[i] == x && named[j] == y;
      assert members[i].key == members[j].key;
    }
  }

  /** With distinct keys, fields in ascending order are the sorted ones. */
  lemma {:induction false} AscendingIsSorted(members: seq<Member>, texts: seq<Str>, fields: seq<Printed>)
    requires |texts| == |members| && forall i, j :: 0 <= i < j < |members| ==> members[i].key != members[j].key
    requires Permutation(fields, Named(members, texts)) && Ascending(fields)
    ensures fields == Sort(Named(members, texts), PrintedOrder())
  {
    var named := Named(members, texts);
    TieFreePrinted(members, texts);
    OrdersAreTotal();
    SortSorted(named, PrintedOrder());
    forall i, j | 0 <= i < j < |fields| ensures PrintedOrder()(fields[i], fields[j]) {
      assert Precedes(fields[i].key, fields[j].key);
      PrecedesLex(fields[i].key, fields[j].key);
    }
    PermutationMembers(fields, named);
    SortedUnique(fields, Sort(named, PrintedOrder()), PrintedOrder());
  }

  lemma {:induction false} LaidOutIsPrinted(t: Str, members: seq<Member>, texts: seq<Str>, fields: seq<Printed>,
                                            lines: seq<Str>)
    requires ObjectLaidOut(t, members, texts, fields, lines)
    requires forall i, j :: 0 <= i < j < |members| ==> members[i].key != members[j].key
    ensures t == [LBRACE] + Join(Fields(Sort(Named(members, texts), PrintedOrder()))) + [RBRACE]
  {
    AscendingIsSorted(members, texts, fields);
    forall i | 0 <= i < |fields| ensures lines[i] == Fields(fields)[i] {
      FieldIsField(lines[i], fields[i]);
    }
    assert lines == Fields(fields);
    JoinText(lines);
  }

  lemma {:induction false} ItemsPrint(items: seq<Json>, texts: seq<Str>)
    requires |texts| == |items|
    requires forall i :: 0 <= i < |items| ==> if items[i].Hole? then texts[i] == [] else Print(items[i]) == Some(texts[i])
    ensures PrintItems(items) == Some(texts)
  {
    if items != [] {
      ItemsPrint(items[1..], texts[1..]);
      assert texts == [texts[0]] + texts[1..];
    }
  }

  lemma {:induction false} MembersPrint(members: seq<Member>, texts: seq<Str>)
    requires |texts| == |members| && forall i :: 0 <= i < |members| ==> Print(members[i].value) == Some(texts[i])
    ensures PrintMembers(members) == Some(Named(members, texts))
  {
    if members != [] {
      MembersPrint(members[1..], texts[1..]);
      assert Named(members, texts) == [Printed(members[0].key, texts[0])] + Named(members[1..], texts[1..]);
    }
  }

  /** A text that spells a value with distinct keys is what canonicalJson prints for it. */
  lemma {:induction false} SpellingIsPrinted(t: Str, v: Json)
    requires Spells(t, v) && DistinctKeys(v)
    ensures Print(v) == Some(t)
    decreases v
  {
    match v {
      case Number(i) => SignedIsInteger(t, i);
      case NegativeZero => assert PrintInteger(0) == [Unit('0')];
      case Text(s) =>
        StringText(s);
        QuotedIsUnique(t, QuoteString(s), s);
      case Array(items) =>
        var texts: seq<Str> :| |texts| == |items| && t == [Unit('[')] + Commas(texts) + [Unit(']')]
          && forall i :: 0 <= i < |items| ==> if items[i].Hole? then texts[i] == [] else Spells(texts[i], items[i]);
        forall i | 0 <= i < |items| && !items[i].Hole? ensures Print(items[i]) == Some(texts[i]) {
          SpellingIsPrinted(texts[i], items[i]);
        }
        ItemsPrint(items, texts);
        JoinText(texts);
      case Object(members) =>
        var texts: seq<Str>, fields, lines :| ObjectLaidOut(t, members, texts, fields, lines)
          && forall i :: 0 <= i < |members| ==> Spells(texts[i], members[i].value);
        forall i | 0 <= i < |members| ensures Print(members[i].value) == Some(texts[i]) {
          SpellingIsPrinted(texts[i], members[i].value);
        }
        MembersPrint(members, texts);
        LaidOutIsPrinted(t, members, texts, fields, lines);
      case _ =>
    }
  }

  /** For every value with distinct keys: a text is what canonicalJson returns if and only if it spells the value, and
      canonicalJson throws if and only if nothing does. */
  lemma {:induction false} PrintsExactly(v: Json, t: Str)
    requires DistinctKeys(v)
    ensures Print(v) == Some(t) <==> Spells(t, v)
  {
    if Print(v).Some? {
      PrintsItsSpelling(v);
    }
    if Spells(t, v) {
      SpellingIsPrinted(t, v);
    }
  }
}
