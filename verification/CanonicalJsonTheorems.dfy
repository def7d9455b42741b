/** canonicalJson is a canonical printer: what it prints can be read back, and two values print alike exactly
    when they stand for the same value. */
module CanonicalJsonTheorems {
  import opened Outcomes
  import opened Sequences
  import opened CanonicalJson

  // ------------------------------------------------------------------ strings

  lemma {:induction false} HexDigitRound(d: int)
    requires 0 <= d < 16
    ensures HexValue(HexDigit(d)) == Some(d)
  {
  }

  lemma {:induction false} HexRound(c: CodeUnit)
    ensures ReadHex4(Hex4(c)) == Some(c)
  {
    HexDigitRound(c / 16 / 16 / 16);
    HexDigitRound(c / 16 / 16 % 16);
    HexDigitRound(c / 16 % 16);
    HexDigitRound(c % 16);
  }

  lemma {:induction false} ReadQuoteUnit(c: CodeUnit, tail: Str)
    ensures ReadUnits(QuoteUnit(c) + tail) == Prepend(c, ReadUnits(tail))
  {
    var s := QuoteUnit(c) + tail;
    if ShortEscape(c) != 0 {
      assert s[2..] == tail;
      assert LongEscape(s[1]) == Some(c);
    } else if c < 32 || High(c) || Low(c) {
      HexRound(c);
      assert s[2..6] == Hex4(c) && s[6..] == tail;
    } else {
      assert s[1..] == tail;
    }
  }

  /** A surrogate pair is printed as it is. */
  lemma {:induction false} ReadPair(a: CodeUnit, b: CodeUnit, tail: Str)
    requires High(a) && Low(b)
    ensures ReadUnits([a, b] + tail) == Prepend(a, Prepend(b, ReadUnits(tail)))
  {
    var s := [a, b] + tail;
    assert s[1..] == [b] + tail && s[1..][1..] == tail;
  }

  lemma {:induction false} Assoc<T>(a: seq<T>, b: seq<T>, c: seq<T>)
    ensures a + b + c == a + (b + c)
  {
  }

  /** Section 7 of RFC 8259: escaping loses nothing, unpaired surrogates included. */
  lemma {:induction false} ReadQuoted(u: Str, t: Str)
    requires t != [] && t[0] == QUOTE
    ensures ReadUnits(QuoteUnits(u) + t) == Some((u, t[1..]))
  {
    if u == [] {
      assert QuoteUnits(u) + t == t;
    } else if PairAhead(u) {
      ReadQuoted(u[2..], t);
      ReadPair(u[0], u[1], QuoteUnits(u[2..]) + t);
      Assoc([u[0], u[1]], QuoteUnits(u[2..]), t);
      Assoc([u[0]], [u[1]], u[2..]);
      assert u == [u[0]] + [u[1]] + u[2..];
    } else {
      ReadQuoted(u[1..], t);
      ReadQuoteUnit(u[0], QuoteUnits(u[1..]) + t);
      Assoc(QuoteUnit(u[0]), QuoteUnits(u[1..]), t);
      assert u == [u[0]] + u[1..];
    }
  }

  // ------------------------------------------------------------------ numbers

  predicate AllDigits(ds: Str) { forall i :: 0 <= i < |ds| ==> IsDigit(ds[i]) }

  predicate Stops(rest: Str) { rest == [] || !IsDigit(rest[0]) }

  function ValueOf(ds: Str, acc: int): int {
    if ds == [] then acc else ValueOf(ds[1..], acc * 10 + DigitValue(ds[0]))
  }

  lemma {:induction false} ValueAppend(ds: Str, d: CodeUnit, acc: int)
    ensures ValueOf(ds + [d], acc) == ValueOf(ds, acc) * 10 + DigitValue(d)
  {
    if ds == [] {
      assert (ds + [d])[1..] == [];
    } else {
      assert (ds + [d])[1..] == ds[1..] + [d];
      ValueAppend(ds[1..], d, acc * 10 + DigitValue(ds[0]));
    }
  }

  lemma {:induction false} DigitsValue(n: nat)
    ensures AllDigits(Digits(n)) && Digits(n) != [] && ValueOf(Digits(n), 0) == n
  {
    if n < 10 {
      assert Digits(n)[1..] == [];
    } else {
      DigitsValue(n / 10);
      ValueAppend(Digits(n / 10), 48 + n % 10, 0);
    }
  }

  lemma {:induction false} ReadAllDigits(ds: Str, rest: Str, acc: int)
    requires AllDigits(ds) && Stops(rest)
    ensures ReadDigits(ds + rest, acc) == (ValueOf(ds, acc), rest)
  {
    if ds == [] {
      assert ds + rest == rest;
    } else {
      assert (ds + rest)[1..] == ds[1..] + rest;
      ReadAllDigits(ds[1..], rest, acc * 10 + DigitValue(ds[0]));
    }
  }

  lemma {:induction false} NotKeyword(s: Str)
    requires s != [] && s[0] != 110 && s[0] != 116 && s[0] != 102
    ensures !(NULL <= s) && !(TRUE <= s) && !(FALSE <= s)
  {
  }

  lemma {:induction false} ReadPositive(ds: Str, rest: Str)
    requires AllDigits(ds) && ds != [] && Stops(rest)
    ensures Parse(ds + rest) == Some((Number(ValueOf(ds, 0)), rest))
  {
    var s := ds + rest;
    NotKeyword(s);
    assert s[0] == ds[0] && s[1..] == ds[1..] + rest;
    ReadAllDigits(ds[1..], rest, DigitValue(ds[0]));
  }

  lemma {:induction false} ReadNegative(ds: Str, rest: Str)
    requires AllDigits(ds) && Stops(rest)
    ensures Parse([MINUS] + ds + rest) == Some((Number(-ValueOf(ds, 0)), rest))
  {
    var s := [MINUS] + ds + rest;
    NotKeyword(s);
    assert s[0] == MINUS && s[1..] == ds + rest;
    ReadAllDigits(ds, rest, 0);
  }

  lemma {:induction false} ReadInteger(i: int, rest: Str)
    requires Stops(rest)
    ensures Parse(PrintInteger(i) + rest) == Some((Number(i), rest))
  {
    if i < 0 {
      DigitsValue(-i);
      ReadNegative(Digits(-i), rest);
    } else {
      DigitsValue(i);
      ReadPositive(Digits(i), rest);
    }
  }

  // ------------------------------------------------------------- values, items, members

  /** `text` reads back as `v` in front of anything that does not go on with a digit. */
  ghost predicate Reads(text: Str, v: Json) {
    && text != [] && text[0] != COMMA && text[0] != RBRACKET && text[0] != RBRACE
    && forall rest: Str :: Stops(rest) ==> Parse(text + rest) == Some((v, rest))
  }

  ghost predicate ReadsItem(text: Str, v: Json) { if v == Hole then text == [] else Reads(text, v) }

  ghost predicate ReadsAll(texts: seq<Str>, vs: seq<Json>) {
    |texts| == |vs| && forall i :: 0 <= i < |texts| ==> ReadsItem(texts[i], vs[i])
  }

  lemma {:induction false} ItemReads(text: Str, v: Json, next: CodeUnit, rest: Str)
    requires ReadsItem(text, v) && (next == COMMA || next == RBRACKET)
    ensures ParseItem(text + [next] + rest) == Some((v, [next] + rest))
  {
    assert text + [next] + rest == text + ([next] + rest);
    assert Stops([next] + rest);
    if v == Hole && text == [] {
      assert text + [next] + rest == [next] + rest;
    }
  }

  lemma {:induction false} ItemsRead(texts: seq<Str>, vs: seq<Json>, rest: Str)
    requires ReadsAll(texts, vs) && texts != []
    ensures ParseItems(Join(texts) + [RBRACKET] + rest) == Some((vs, rest))
  {
    var s := Join(texts) + [RBRACKET] + rest;
    if |texts| == 1 {
      ItemReads(texts[0], vs[0], RBRACKET, rest);
      assert ([RBRACKET] + rest)[1..] == rest;
      assert vs == [vs[0]];
    } else {
      var tail := Join(texts[1..]) + [RBRACKET] + rest;
      assert s == texts[0] + [COMMA] + tail;
      ItemReads(texts[0], vs[0], COMMA, tail);
      assert ([COMMA] + tail)[1..] == tail;
      ItemsRead(texts[1..], vs[1..], rest);
      assert vs == [vs[0]] + vs[1..];
    }
  }

  /** A printed member and the member it reads back as. */
  datatype Entry = Entry(key: Str, text: Str, value: Json)

  function PrintedOf(): Entry -> Printed { (e: Entry) => Printed(e.key, e.text) }

  function MemberOf(): Entry -> Member { (e: Entry) => Member(e.key, e.value) }

  function EntryOrder(): (Entry, Entry) -> bool { (x: Entry, y: Entry) => LexLe(x.key, y.key) }

  ghost predicate EntriesRead(es: seq<Entry>) { forall i :: 0 <= i < |es| ==> Reads(es[i].text, es[i].value) }

  lemma {:induction false} MemberReads(key: Str, text: Str, v: Json, rest: Str)
    requires Parse(text + rest) == Some((v, rest))
    ensures ParseMember([QUOTE] + (QuoteUnits(key) + ([QUOTE] + ([COLON] + (text + rest))))) == Some((Member(key, v), rest))
  {
    var after := [COLON] + (text + rest);
    var s := [QUOTE] + (QuoteUnits(key) + ([QUOTE] + after));
    assert s[1..] == QuoteUnits(key) + ([QUOTE] + after);
    ReadQuoted(key, [QUOTE] + after);
    assert ([QUOTE] + after)[1..] == after && after[1..] == text + rest;
  }

  lemma {:induction false} FieldSplits(m: Printed, rest: Str)
    ensures Field(m) + rest == [QUOTE] + (QuoteUnits(m.key) + ([QUOTE] + ([COLON] + (m.text + rest))))
  {
  }

  lemma {:induction false} EntryReads(e: Entry, next: CodeUnit, rest: Str)
    requires Reads(e.text, e.value) && !IsDigit(next)
    ensures ParseMember(Field(PrintedOf()(e)) + [next] + rest) == Some((MemberOf()(e), [next] + rest))
  {
    Assoc(Field(PrintedOf()(e)), [next], rest);
    FieldSplits(PrintedOf()(e), [next] + rest);
    assert Stops([next] + rest);
    MemberReads(e.key, e.text, e.value, [next] + rest);
  }

  lemma {:induction false} EntriesReadBack(es: seq<Entry>, rest: Str)
    requires EntriesRead(es) && es != []
    ensures ParseMembers(Join(Fields(Map(es, PrintedOf()))) + [RBRACE] + rest) == Some((Map(es, MemberOf()), rest))
  {
    var fields := Fields(Map(es, PrintedOf()));
    var s := Join(fields) + [RBRACE] + rest;
    if |es| == 1 {
      EntryReads(es[0], RBRACE, rest);
      assert ([RBRACE] + rest)[1..] == rest;
      assert Map(es, MemberOf()) == [MemberOf()(es[0])];
    } else {
      assert fields[1..] == Fields(Map(es[1..], PrintedOf()));
      var tail := Join(fields[1..]) + [RBRACE] + rest;
      assert s == fields[0] + [COMMA] + tail;
      EntryReads(es[0], COMMA, tail);
      assert ([COMMA] + tail)[1..] == tail;
      EntriesReadBack(es[1..], rest);
      assert Map(es, MemberOf()) == [MemberOf()(es[0])] + Map(es[1..], MemberOf());
    }
  }

  // ------------------------------------------------------------------ sorting by key

  lemma {:induction false} MapCons<T, U>(x: T, s: seq<T>, f: T -> U)
    ensures Map([x] + s, f) == [f(x)] + Map(s, f)
  {
  }

  lemma {:induction false} InsertMap<T(!new), U>(x: T, s: seq<T>, le: (T, T) -> bool, f: T -> U, le': (U, U) -> bool)
    requires forall a, b :: le(a, b) <==> le'(f(a), f(b))
    ensures Map(Insert(x, s, le), f) == Insert(f(x), Map(s, f), le')
  {
    if s != [] {
      assert s == [s[0]] + s[1..];
      MapCons(s[0], s[1..], f);
      MapCons(x, s, f);
      InsertMap(x, s[1..], le, f, le');
      MapCons(s[0], Insert(x, s[1..], le), f);
    }
  }

  /** Sorting by key does not look at the rest. */
  lemma {:induction false} SortMap<T(!new), U>(s: seq<T>, le: (T, T) -> bool, f: T -> U, le': (U, U) -> bool)
    requires forall a, b :: le(a, b) <==> le'(f(a), f(b))
    ensures Map(Sort(s, le), f) == Sort(Map(s, f), le')
  {
    if s != [] {
      SortMap(s[1..], le, f, le');
      assert s == [s[0]] + s[1..];
      MapCons(s[0], s[1..], f);
      InsertMap(s[0], Sort(s[1..], le), le, f, le');
    }
  }

  lemma {:induction false} SortEntries(es: seq<Entry>)
    ensures Map(Sort(es, EntryOrder()), PrintedOf()) == Sort(Map(es, PrintedOf()), PrintedOrder())
    ensures Map(Sort(es, EntryOrder()), MemberOf()) == Sort(Map(es, MemberOf()), MemberOrder())
  {
    SortMap(es, EntryOrder(), PrintedOf(), PrintedOrder());
    SortMap(es, EntryOrder(), MemberOf(), MemberOrder());
  }

  // ---------------------------------------------------------------------- reading back

  function EntriesOf(members: seq<Member>, texts: seq<Printed>): seq<Entry>
    requires |members| == |texts|
  {
    seq(|members|, i requires 0 <= i < |members| => Entry(members[i].key, texts[i].text, Canon(members[i].value)))
  }

  lemma {:induction false} MembersAt(members: seq<Member>)
    requires PrintMembers(members).Some?
    ensures var ts := PrintMembers(members).value;
      forall i :: 0 <= i < |members| ==>
        ts[i].key == members[i].key && Print(members[i].value) == Some(ts[i].text)
        && CanonMembers(members)[i] == Member(members[i].key, Canon(members[i].value))
  {
    if members != [] {
      MembersAt(members[1..]);
    }
  }

  lemma {:induction false} ItemsAt(items: seq<Json>)
    requires PrintItems(items).Some?
    ensures var ts := PrintItems(items).value;
      forall i :: 0 <= i < |items| ==>
        (if items[i].Hole? then ts[i] == [] else Print(items[i]) == Some(ts[i])) && CanonItems(items)[i] == Canon(items[i])
  {
    if items != [] {
      ItemsAt(items[1..]);
    }
  }

  lemma {:induction false} JoinStart(texts: seq<Str>)
    requires texts != [] && (texts[0] != [] || |texts| > 1)
    ensures Join(texts) != [] && Join(texts)[0] == if texts[0] != [] then texts[0][0] else COMMA
  {
  }

  lemma {:induction false} ReadBrackets(body: Str, vs: seq<Json>, rest: Str)
    requires body != [] && body[0] != RBRACKET && ParseItems(body + [RBRACKET] + rest) == Some((vs, rest))
    ensures Parse([LBRACKET] + body + [RBRACKET] + rest) == Some((Array(vs), rest))
  {
    var s := [LBRACKET] + body + [RBRACKET] + rest;
    NotKeyword(s);
    assert s[0] == LBRACKET && s[1] == body[0] && s[1..] == body + [RBRACKET] + rest;
  }

  lemma {:induction false} ReadEmptyArray(rest: Str)
    ensures Parse([LBRACKET] + [] + [RBRACKET] + rest) == Some((Array([]), rest))
  {
    var s := [LBRACKET] + [] + [RBRACKET] + rest;
    NotKeyword(s);
    assert s[2..] == rest;
  }

  lemma {:induction false} ReadArray(texts: seq<Str>, vs: seq<Json>)
    requires ReadsAll(texts, vs)
    ensures Reads([LBRACKET] + Join(texts) + [RBRACKET], if vs == [Hole] then Array([]) else Array(vs))
  {
    var text := [LBRACKET] + Join(texts) + [RBRACKET];
    var v := if vs == [Hole] then Array([]) else Array(vs);
    forall rest: Str | Stops(rest)
      ensures Parse(text + rest) == Some((v, rest))
    {
      if vs == [] || (vs == [Hole] && texts[0] == []) {
        ReadEmptyArray(rest);
      } else {
        assert ReadsItem(texts[0], vs[0]);
        assert |vs| == 1 ==> vs == [vs[0]];
        JoinStart(texts);
        ItemsRead(texts, vs, rest);
        ReadBrackets(Join(texts), vs, rest);
      }
    }
  }

  lemma {:induction false} EntriesSplit(members: seq<Member>, texts: seq<Printed>)
    requires PrintMembers(members) == Some(texts)
    ensures Map(EntriesOf(members, texts), PrintedOf()) == texts
    ensures Map(EntriesOf(members, texts), MemberOf()) == CanonMembers(members)
    ensures forall i :: 0 <= i < |texts| ==> Print(members[i].value) == Some(texts[i].text)
  {
    MembersAt(members);
  }

  lemma {:induction false} ReadObject(members: seq<Member>, texts: seq<Printed>)
    requires PrintMembers(members) == Some(texts) && EntriesRead(EntriesOf(members, texts))
    ensures Reads([LBRACE] + Join(Fields(Sort(texts, PrintedOrder()))) + [RBRACE], Canon(Object(members)))
  {
    var es := EntriesOf(members, texts);
    EntriesSplit(members, texts);
    SortEntries(es);
    var sorted := Sort(es, EntryOrder());
    forall i | 0 <= i < |sorted|
      ensures Reads(sorted[i].text, sorted[i].value)
    {
      assert sorted[i] in multiset(es);
    }
    ReadSorted(sorted, Canon(Object(members)));
  }

  lemma {:induction false} ReadBraces(body: Str, ms: seq<Member>, rest: Str)
    requires body != [] && body[0] != RBRACE && ParseMembers(body + [RBRACE] + rest) == Some((ms, rest))
    ensures Parse([LBRACE] + body + [RBRACE] + rest) == Some((Object(ms), rest))
  {
    var s := [LBRACE] + body + [RBRACE] + rest;
    NotKeyword(s);
    assert s[0] == LBRACE && s[1] == body[0] && s[1..] == body + [RBRACE] + rest;
  }

  lemma {:induction false} ReadEmptyObject(rest: Str)
    ensures Parse([LBRACE] + [] + [RBRACE] + rest) == Some((Object([]), rest))
  {
    var s := [LBRACE] + [] + [RBRACE] + rest;
    NotKeyword(s);
    assert s[2..] == rest;
  }

  lemma {:induction false} ReadSorted(es: seq<Entry>, v: Json)
    requires EntriesRead(es) && v == Object(Map(es, MemberOf()))
    ensures Reads([LBRACE] + Join(Fields(Map(es, PrintedOf()))) + [RBRACE], v)
  {
    var fields := Fields(Map(es, PrintedOf()));
    forall rest: Str | Stops(rest)
      ensures Parse([LBRACE] + Join(fields) + [RBRACE] + rest) == Some((v, rest))
    {
      if es == [] {
        ReadEmptyObject(rest);
      } else {
        JoinStart(fields);
        EntriesReadBack(es, rest);
        ReadBraces(Join(fields), Map(es, MemberOf()), rest);
      }
    }
  }

  lemma {:induction false} ReadNull(rest: Str)
    ensures Parse(NULL + rest) == Some((Null, rest))
  {
    var s := NULL + rest;
    assert s[..4] == NULL && s[4..] == rest;
  }

  lemma {:induction false} ReadTrue(rest: Str)
    ensures Parse(TRUE + rest) == Some((Bool(true), rest))
  {
    var s := TRUE + rest;
    assert s[..4] == TRUE && s[4..] == rest;
    assert s[0] != NULL[0];
  }

  lemma {:induction false} ReadFalse(rest: Str)
    ensures Parse(FALSE + rest) == Some((Bool(false), rest))
  {
    var s := FALSE + rest;
    assert s[..5] == FALSE && s[5..] == rest;
    assert s[0] != NULL[0] && s[0] != TRUE[0];
  }

  lemma {:induction false} ReadText(u: Str, rest: Str)
    ensures Parse(QuoteString(u) + rest) == Some((Text(u), rest))
  {
    var s := QuoteString(u) + rest;
    NotKeyword(s);
    Assoc(QuoteUnits(u), [QUOTE], rest);
    assert s[1..] == QuoteUnits(u) + ([QUOTE] + rest);
    ReadQuoted(u, [QUOTE] + rest);
    assert ([QUOTE] + rest)[1..] == rest;
  }

  lemma {:induction false} ReadScalar(v: Json)
    requires Print(v).Some? && !v.Array? && !v.Object?
    ensures Reads(Print(v).value, Canon(v))
  {
    var text := Print(v).value;
    if v.Number? || v.NegativeZero? {
      DigitsValue(if v.Number? then (if v.value < 0 then -v.value else v.value) else 0);
    }
    forall rest: Str | Stops(rest)
      ensures Parse(text + rest) == Some((Canon(v), rest))
    {
      match v {
        case Null => ReadNull(rest);
        case Bool(b) => if b { ReadTrue(rest); } else { ReadFalse(rest); }
        case Number(i) => ReadInteger(i, rest);
        case NegativeZero => ReadInteger(0, rest);
        case Text(u) => ReadText(u, rest);
      }
    }
  }

  lemma {:induction false} CanonHole(items: seq<Json>)
    ensures CanonItems(items) == [Hole] <==> items == [Hole]
  {
    if items != [] {
      assert CanonItems(items)[0] == Canon(items[0]);
      assert |items| == 1 ==> items == [items[0]];
    }
  }

  /** Round trip: every printed value reads back, as the value it stands for. */
  lemma {:induction false} PrintReads(v: Json)
    requires Print(v).Some?
    ensures Reads(Print(v).value, Canon(v))
    decreases v
  {
    match v {
      case Array(items) =>
        var texts := PrintItems(items).value;
        ItemsAt(items);
        forall i | 0 <= i < |items|
          ensures ReadsItem(texts[i], CanonItems(items)[i])
        {
          if !items[i].Hole? { PrintReads(items[i]); }
        }
        ReadArray(texts, CanonItems(items));
        CanonHole(items);
      case Object(members) =>
        var texts := PrintMembers(members).value;
        MembersAt(members);
        var es := EntriesOf(members, texts);
        forall i | 0 <= i < |es|
          ensures Reads(es[i].text, es[i].value)
        {
          PrintReads(members[i].value);
        }
        ReadObject(members, texts);
      case _ => ReadScalar(v);
    }
  }

  lemma {:induction false} RoundTrip(v: Json)
    requires Print(v).Some?
    ensures Parse(Print(v).value) == Some((Canon(v), []))
  {
    PrintReads(v);
    assert Print(v).value + [] == Print(v).value;
    assert Stops([]);
  }

  // ---------------------------------------------------------------- who prints alike

  lemma {:induction false} LexTotal(a: Str, b: Str)
    ensures LexLe(a, b) || LexLe(b, a)
    ensures LexLe(a, b) && LexLe(b, a) ==> a == b
  {
    if a != [] && b != [] {
      LexTotal(a[1..], b[1..]);
      assert a == [a[0]] + a[1..] && b == [b[0]] + b[1..];
    }
  }

  lemma {:induction false} LexTransitive(a: Str, b: Str, c: Str)
    requires LexLe(a, b) && LexLe(b, c)
    ensures LexLe(a, c)
  {
    if a != [] && a[0] == b[0] && b[0] == c[0] {
      LexTransitive(a[1..], b[1..], c[1..]);
    }
  }

  lemma {:induction false} OrdersAreTotal()
    ensures TotalPreorder(MemberOrder()) && TotalPreorder(PrintedOrder())
  {
    forall x, y: Member
      ensures MemberOrder()(x, y) || MemberOrder()(y, x)
    {
      LexTotal(x.key, y.key);
    }
    forall x, y, z: Member | MemberOrder()(x, y) && MemberOrder()(y, z)
      ensures MemberOrder()(x, z)
    {
      LexTransitive(x.key, y.key, z.key);
    }
    forall x, y: Printed
      ensures PrintedOrder()(x, y) || PrintedOrder()(y, x)
    {
      LexTotal(x.key, y.key);
    }
    forall x, y, z: Printed | PrintedOrder()(x, y) && PrintedOrder()(y, z)
      ensures PrintedOrder()(x, z)
    {
      LexTransitive(x.key, y.key, z.key);
    }
  }

  lemma {:induction false} SortedStays<T>(s: seq<T>, le: (T, T) -> bool)
    requires Sorted(s, le)
    ensures Sort(s, le) == s
  {
    if s != [] {
      SortedStays(s[1..], le);
      assert s == [s[0]] + s[1..];
    }
  }

  lemma {:induction false} CanonItemsPrint(items: seq<Json>)
    requires PrintItems(items).Some?
    requires forall i :: 0 <= i < |items| && Print(items[i]).Some? ==> Print(Canon(items[i])) == Print(items[i])
    ensures PrintItems(CanonItems(items)) == PrintItems(items)
  {
    if items != [] {
      CanonItemsPrint(items[1..]);
      assert Print(items[0]).Some? ==> Print(Canon(items[0])) == Print(items[0]);
      assert CanonItems(items)[1..] == CanonItems(items[1..]);
    }
  }

  lemma {:induction false} MapPrints(es: seq<Entry>)
    requires forall i :: 0 <= i < |es| ==> Print(es[i].value) == Some(es[i].text)
    ensures PrintMembers(Map(es, MemberOf())) == Some(Map(es, PrintedOf()))
  {
    if es != [] {
      MapPrints(es[1..]);
      assert Map(es, MemberOf())[1..] == Map(es[1..], MemberOf());
      assert Map(es, PrintedOf()) == [PrintedOf()(es[0])] + Map(es[1..], PrintedOf());
    }
  }

  lemma {:induction false} SortedTextsStay(texts: seq<Printed>)
    ensures Sort(Sort(texts, PrintedOrder()), PrintedOrder()) == Sort(texts, PrintedOrder())
  {
    OrdersAreTotal();
    SortSorted(texts, PrintedOrder());
    SortedStays(Sort(texts, PrintedOrder()), PrintedOrder());
  }

  /** The sorted members print as the sorted texts. */
  lemma {:induction false} SortedEntriesPrint(es: seq<Entry>)
    requires forall i :: 0 <= i < |es| ==> Print(es[i].value) == Some(es[i].text)
    ensures PrintMembers(Sort(Map(es, MemberOf()), MemberOrder())) == Some(Sort(Map(es, PrintedOf()), PrintedOrder()))
  {
    SortEntries(es);
    var sorted := Sort(es, EntryOrder());
    forall i | 0 <= i < |sorted|
      ensures Print(sorted[i].value) == Some(sorted[i].text)
    {
      assert sorted[i] in multiset(es);
      var j :| 0 <= j < |es| && es[j] == sorted[i];
    }
    MapPrints(sorted);
  }

  lemma {:induction false} CanonObjectPrints(members: seq<Member>)
    requires PrintMembers(members).Some?
    requires forall i :: 0 <= i < |members| ==> Print(Canon(members[i].value)) == Print(members[i].value)
    ensures Print(Canon(Object(members))) == Print(Object(members))
  {
    var texts := PrintMembers(members).value;
    MembersAt(members);
    EntriesSplit(members, texts);
    SortedEntriesPrint(EntriesOf(members, texts));
    SortedTextsStay(texts);
  }

  /** The canonical value prints as the value does. */
  lemma {:induction false} CanonPrints(v: Json)
    requires Print(v).Some?
    ensures Print(Canon(v)) == Print(v)
    decreases v
  {
    match v {
      case Array(items) =>
        ItemsAt(items);
        forall i | 0 <= i < |items| && Print(items[i]).Some?
          ensures Print(Canon(items[i])) == Print(items[i])
        {
          CanonPrints(items[i]);
        }
        CanonItemsPrint(items);
        if items == [Hole] {
          assert PrintItems(items[1..]) == Some([]);
          assert PrintItems(items).value == [[]];
        }
      case Object(members) =>
        MembersAt(members);
        forall i | 0 <= i < |members|
          ensures Print(Canon(members[i].value)) == Print(members[i].value)
        {
          CanonPrints(members[i].value);
        }
        CanonObjectPrints(members);
      case _ =>
    }
  }

  /** Two values print alike if and only if they are the same value up to key order, the sign of zero and the
      one-hole array. */
  lemma {:induction false} PrintsAlike(v: Json, w: Json)
    requires Print(v).Some? && Print(w).Some?
    ensures Print(v) == Print(w) <==> Canon(v) == Canon(w)
  {
    RoundTrip(v);
    RoundTrip(w);
    CanonPrints(v);
    CanonPrints(w);
  }

  /** A value without holes and without negative zero. JSON.parse builds no holes, but reads "-0" as negative zero. */
  predicate Plain(v: Json) {
    match v
    case NegativeZero => false
    case Array(items) => forall i :: 0 <= i < |items| ==> Plain(items[i])
    case Object(members) => forall i :: 0 <= i < |members| ==> Plain(members[i].value)
    case Hole => false
    case _ => true
  }

  lemma {:induction false} PlainArray(items: seq<Json>)
    requires Plain(Array(items))
    ensures items != [Hole]
  {
    assert items != [] ==> Plain(items[0]);
  }

  /** Equal up to the order of keys, at every depth. */
  ghost predicate Same(v: Json, w: Json)
    decreases v
  {
    match v
    case Array(items) =>
      && w.Array? && |w.items| == |items| && forall i :: 0 <= i < |items| ==> Same(items[i], w.items[i])
    case Object(members) =>
      && w.Object? && |w.members| == |members|
      && exists p: seq<Member> ::
           && Permutation(p, w.members)
           && |p| == |members| && forall i :: 0 <= i < |p| ==> p[i].key == members[i].key && Same(members[i].value, p[i].value)
    case _ => v == w
  }

  /** Keys are distinct, as in every JavaScript object. */
  predicate DistinctKeys(v: Json) {
    match v
    case Array(items) => forall i :: 0 <= i < |items| ==> DistinctKeys(items[i])
    case Object(members) =>
      && (forall i, j :: 0 <= i < j < |members| ==> members[i].key != members[j].key)
      && forall i :: 0 <= i < |members| ==> DistinctKeys(members[i].value)
    case _ => true
  }

  lemma {:induction false} CanonItemsAt(items: seq<Json>)
    ensures forall i :: 0 <= i < |items| ==> CanonItems(items)[i] == Canon(items[i])
  {
    if items != [] { CanonItemsAt(items[1..]); }
  }

  lemma {:induction false} CanonMembersAt(members: seq<Member>)
    ensures forall i :: 0 <= i < |members| ==> CanonMembers(members)[i] == Member(members[i].key, Canon(members[i].value))
  {
    if members != [] { CanonMembersAt(members[1..]); }
  }

  function CanonMember(): Member -> Member { (m: Member) => Member(m.key, Canon(m.value)) }

  lemma {:induction false} CanonMembersMap(members: seq<Member>)
    ensures CanonMembers(members) == Map(members, CanonMember())
  {
    CanonMembersAt(members);
  }

  lemma {:induction false} TieFreeKeys(members: seq<Member>)
    requires forall i, j :: 0 <= i < j < |members| ==> members[i].key != members[j].key
    ensures TieFree(CanonMembers(members), MemberOrder())
  {
    CanonMembersAt(members);
    var cs := CanonMembers(members);
    forall x, y | x in cs && y in cs && MemberOrder()(x, y) && MemberOrder()(y, x)
      ensures x == y
    {
      LexTotal(x.key, y.key);
      var i, j :| 0 <= i < |cs| && 0 <= j < |cs| && cs[i] == x && cs[j] == y;
      assert members[i].key == members[j].key;
    }
  }

  lemma {:induction false} SameObjects(members: seq<Member>, p: seq<Member>, others: seq<Member>)
    requires forall i, j :: 0 <= i < j < |members| ==> members[i].key != members[j].key
    requires Permutation(p, others) && |p| == |members|
    requires forall i :: 0 <= i < |p| ==> p[i].key == members[i].key && Canon(members[i].value) == Canon(p[i].value)
    ensures Canon(Object(members)) == Canon(Object(others))
  {
    SameCanonMembers(members, p);
    CanonMembersMap(p);
    CanonMembersMap(others);
    MapPermutation(p, others, CanonMember());
    TieFreeKeys(members);
    OrdersAreTotal();
    SortPermutation(CanonMembers(p), CanonMembers(others), MemberOrder());
  }

  lemma {:induction false} SameCanonMembers(members: seq<Member>, p: seq<Member>)
    requires |p| == |members|
    requires forall i :: 0 <= i < |p| ==> p[i].key == members[i].key && Canon(members[i].value) == Canon(p[i].value)
    ensures CanonMembers(members) == CanonMembers(p)
  {
    CanonMembersAt(members);
    CanonMembersAt(p);
  }

  /** Equal up to key order implies the same text. */
  lemma {:induction false} SameCanon(v: Json, w: Json)
    requires Same(v, w) && DistinctKeys(v) && Plain(v) && Plain(w)
    ensures Canon(v) == Canon(w)
    decreases v
  {
    match v {
      case Array(items) =>
        CanonItemsAt(items);
        CanonItemsAt(w.items);
        forall i | 0 <= i < |items|
          ensures Canon(items[i]) == Canon(w.items[i])
        {
          SameCanon(items[i], w.items[i]);
        }
        assert CanonItems(items) == CanonItems(w.items);
        PlainArray(items);
        PlainArray(w.items);
      case Object(members) =>
        var p: seq<Member> :|
          && Permutation(p, w.members)
          && |p| == |members| && forall i :: 0 <= i < |p| ==> p[i].key == members[i].key && Same(members[i].value, p[i].value);
        PermutationMembers(p, w.members);
        forall i | 0 <= i < |p|
          ensures Canon(members[i].value) == Canon(p[i].value)
        {
          assert p[i] in w.members;
          SameCanon(members[i].value, p[i].value);
        }
        SameObjects(members, p, w.members);
      case _ =>
    }
  }

  /** The canonical value is the same value, keys reordered. */
  lemma {:induction false} CanonSame(v: Json)
    requires Plain(v)
    ensures Same(v, Canon(v))
    decreases v
  {
    match v {
      case Array(items) =>
        CanonItemsAt(items);
        PlainArray(items);
        forall i | 0 <= i < |items|
          ensures Same(items[i], CanonItems(items)[i])
        {
          CanonSame(items[i]);
        }
      case Object(members) =>
        CanonMembersAt(members);
        var p := CanonMembers(members);
        forall i | 0 <= i < |p|
          ensures p[i].key == members[i].key && Same(members[i].value, p[i].value)
        {
          CanonSame(members[i].value);
        }
        assert Permutation(p, Sort(p, MemberOrder()));
        PermutationMembers(p, Sort(p, MemberOrder()));
      case _ =>
    }
  }

  /** For plain values with distinct keys: the same text if and only if the same canonical value, and the values
      equal up to key order all print alike. */
  lemma {:induction false} KeyOrderIrrelevant(v: Json, w: Json)
    requires Print(v).Some? && Print(w).Some? && Plain(v) && Plain(w) && DistinctKeys(v) && Same(v, w)
    ensures Print(v) == Print(w)
  {
    SameCanon(v, w);
    PrintsAlike(v, w);
  }

  /** Different plain values never print alike: a shared text means a shared value up to key order. */
  lemma {:induction false} TextDeterminesValue(v: Json, w: Json)
    requires Print(v).Some? && Plain(v) && Plain(w) && Print(w) == Print(v)
    ensures exists c :: Same(v, c) && Same(w, c)
  {
    PrintsAlike(v, w);
    CanonSame(v);
    CanonSame(w);
  }

  /** Outside plain values the printer is not injective: two values that share a text without being equal up to key order.
      That any two values with one text have one canonical value is PrintsAlike. */
  lemma {:induction false} PrinterCollisions()
    ensures Print(NegativeZero) == Print(Number(0))
    ensures Print(Array([Hole])) == Print(Array([])) && Print(Array([])).Some?
  {
    assert PrintItems([Hole][1..]) == Some([]);
    assert PrintItems([Hole]).value == [[]];
  }
}
