/**
 * The canonical encoder (packages/server/src/stable-json.ts): equal texts exactly for values
 * that are the same up to the order of object keys.
 */
module StableJson {
  import opened Common

  /** A UTF-16 code unit. */
  type Unit = u: int | 0 <= u < 65536
  type Text = seq<Unit>

  /**
   * A finite number is named by the text the language prints for it, which tells any two apart
   * except the two zeros. A date is its ISO text.
   */
  datatype Json =
    | Undefined
    | Null
    | Bool(b: bool)
    | Number(text: Text)
    | NegativeZero
    | NonFinite
    | String(units: Text)
    | Date(iso: Text)
    | InvalidDate
    | Array(items: seq<Json>)
    | Record(fields: seq<Field>)

  /** An own property, in insertion order. */
  datatype Field = Field(key: Text, value: Json)

  const QUOTE: Unit := 34
  const BACKSLASH: Unit := 92
  const COMMA: Unit := 44
  const COLON: Unit := 58
  const OPEN_BRACKET: Unit := 91
  const CLOSE_BRACKET: Unit := 93
  const OPEN_BRACE: Unit := 123
  const CLOSE_BRACE: Unit := 125
  const ZERO: Text := [48]
  const UNDEFINED: Text := [117, 110, 100, 101, 102, 105, 110, 101, 100]
  const NULL: Text := [110, 117, 108, 108]
  const TRUE: Text := [116, 114, 117, 101]
  const FALSE: Text := [102, 97, 108, 115, 101]
  const DATE: Text := [100, 97, 116, 101, 58]

  predicate NumberUnit(u: Unit) {
    48 <= u <= 57 || u == 43 || u == 45 || u == 46 || u == 101
  }

  predicate NumberText(text: Text) {
    && text != []
    && (text[0] == 45 || 48 <= text[0] <= 57)
    && forall i :: 0 <= i < |text| ==> NumberUnit(text[i])
  }

  /** Numbers have number texts, and an object's keys are distinct. */
  ghost predicate WellFormed(v: Json) {
    match v
    case Number(text) => NumberText(text)
    case Array(items) => forall i :: 0 <= i < |items| ==> WellFormed(items[i])
    case Record(fields) =>
      && (forall i :: 0 <= i < |fields| ==> WellFormed(fields[i].value))
      && (forall i, j :: 0 <= i < j < |fields| ==> fields[i].key != fields[j].key)
    case _ => true
  }

  // ---------------------------------------------------------------------------------------
  // Strings
  // ---------------------------------------------------------------------------------------

  predicate IsHigh(u: Unit) {
    0xD800 <= u < 0xDC00
  }

  predicate IsLow(u: Unit) {
    0xDC00 <= u < 0xE000
  }

  function HexDigit(n: int): Unit
    requires 0 <= n < 16
  {
    if n < 10 then 48 + n else 87 + n
  }

  function Hex(u: Unit): Text {
    [HexDigit(u / 16 / 16 / 16), HexDigit(u / 16 / 16 % 16), HexDigit(u / 16 % 16), HexDigit(u % 16)]
  }

  /** The letter of a two-unit escape, zero when there is none. */
  function ShortEscape(u: Unit): Unit {
    if u == QUOTE then QUOTE
    else if u == BACKSLASH then BACKSLASH
    else if u == 8 then 98
    else if u == 9 then 116
    else if u == 10 then 110
    else if u == 12 then 102
    else if u == 13 then 114
    else 0
  }

  /** One code unit that is not half of a surrogate pair. */
  function EscapeUnit(u: Unit): Text {
    if ShortEscape(u) != 0 then [BACKSLASH, ShortEscape(u)]
    else if u < 32 || IsHigh(u) || IsLow(u) then [BACKSLASH, 117] + Hex(u)
    else [u]
  }

  function Escape(s: Text): Text {
    if s == [] then []
    else if |s| >= 2 && IsHigh(s[0]) && IsLow(s[1]) then [s[0], s[1]] + Escape(s[2..])
    else EscapeUnit(s[0]) + Escape(s[1..])
  }

  /** `JSON.stringify` of a string. */
  function Quote(s: Text): Text {
    [QUOTE] + Escape(s) + [QUOTE]
  }

  // ---------------------------------------------------------------------------------------
  // The encoder
  // ---------------------------------------------------------------------------------------

  function Join(parts: seq<Text>): Text {
    if parts == [] then []
    else if |parts| == 1 then parts[0]
    else parts[0] + [COMMA] + Join(parts[1..])
  }

  datatype Entry = Entry(key: Text, text: Text)

  /** Code unit order, as the language sorts property names. */
  predicate KeyBefore(a: Text, b: Text) {
    if b == [] then false
    else if a == [] then true
    else a[0] < b[0] || (a[0] == b[0] && KeyBefore(a[1..], b[1..]))
  }

  function Place(e: Entry, sorted: seq<Entry>): seq<Entry> {
    if sorted == [] || KeyBefore(e.key, sorted[0].key) then [e] + sorted
    else [sorted[0]] + Place(e, sorted[1..])
  }

  function Sort(entries: seq<Entry>): seq<Entry> {
    if entries == [] then [] else Place(entries[0], Sort(entries[1..]))
  }

  function EntryTexts(entries: seq<Entry>): seq<Text> {
    seq(|entries|, i requires 0 <= i < |entries| => Quote(entries[i].key) + [COLON] + entries[i].text)
  }

  function StableJson(v: Json): Text {
    match v
    case Undefined => UNDEFINED
    case Null => NULL
    case NonFinite => NULL
    case Bool(b) => if b then TRUE else FALSE
    case Number(text) => text
    case NegativeZero => ZERO
    case String(units) => Quote(units)
    case Date(iso) => DATE + Quote(iso)
    case InvalidDate => DATE + NULL
    case Array(items) => [OPEN_BRACKET] + Join(ItemTexts(items)) + [CLOSE_BRACKET]
    case Record(fields) => [OPEN_BRACE] + Join(EntryTexts(Sort(Entries(fields)))) + [CLOSE_BRACE]
  }

  function ItemTexts(items: seq<Json>): seq<Text> {
    seq(|items|, i requires 0 <= i < |items| => StableJson(items[i]))
  }

  /** Each property's key with its encoded value. */
  function Entries(fields: seq<Field>): seq<Entry> {
    seq(|fields|, i requires 0 <= i < |fields| => Entry(fields[i].key, StableJson(fields[i].value)))
  }

  // ---------------------------------------------------------------------------------------
  // Sameness
  // ---------------------------------------------------------------------------------------

  predicate HasKey(fields: seq<Field>, key: Text) {
    exists i :: 0 <= i < |fields| && fields[i].key == key
  }

  /** Equal up to the order of object keys, with the two zeros one number and a non-finite number null. */
  ghost predicate Same(a: Json, b: Json) {
    match a
    case Undefined => b.Undefined?
    case Null => b.Null? || b.NonFinite?
    case NonFinite => b.Null? || b.NonFinite?
    case Bool(x) => b == Bool(x)
    case Number(text) => b == Number(text) || (text == ZERO && b.NegativeZero?)
    case NegativeZero => b.NegativeZero? || b == Number(ZERO)
    case String(units) => b == String(units)
    case Date(iso) => b == Date(iso)
    case InvalidDate => b.InvalidDate?
    case Array(items) =>
      && b.Array? && |b.items| == |items|
      && forall i :: 0 <= i < |items| ==> Same(items[i], b.items[i])
    case Record(fields) =>
      && b.Record?
      && (forall i :: 0 <= i < |fields| ==>
            exists j :: 0 <= j < |b.fields| && b.fields[j].key == fields[i].key && Same(fields[i].value, b.fields[j].value))
      && (forall j :: 0 <= j < |b.fields| ==> HasKey(fields, b.fields[j].key))
  }

  // ---------------------------------------------------------------------------------------
  // Where an encoded string ends
  // ---------------------------------------------------------------------------------------

  lemma HexDigitIsInjective(n: int, m: int)
    requires 0 <= n < 16 && 0 <= m < 16 && HexDigit(n) == HexDigit(m)
    ensures n == m
  {}

  lemma HexIsInjective(u: Unit, v: Unit)
    requires Hex(u) == Hex(v)
    ensures u == v
  {
    hide HexDigit;
    assert Hex(u)[0] == Hex(v)[0] && Hex(u)[1] == Hex(v)[1] && Hex(u)[2] == Hex(v)[2] && Hex(u)[3] == Hex(v)[3];
    HexDigitIsInjective(u / 16 / 16 / 16, v / 16 / 16 / 16);
    HexDigitIsInjective(u / 16 / 16 % 16, v / 16 / 16 % 16);
    HexDigitIsInjective(u / 16 % 16, v / 16 % 16);
    HexDigitIsInjective(u % 16, v % 16);
  }

  /** How many code units the first escape of `s` covers. */
  function FirstWidth(s: Text): (n: nat)
    requires s != []
    ensures 1 <= n <= |s|
  {
    if |s| >= 2 && IsHigh(s[0]) && IsLow(s[1]) then 2 else 1
  }

  function First(s: Text): Text
    requires s != []
  {
    if FirstWidth(s) == 2 then s[..2] else EscapeUnit(s[0])
  }

  lemma EscapeSplits(s: Text)
    requires s != []
    ensures Escape(s) == First(s) + Escape(s[FirstWidth(s)..])
    ensures First(s) != [] && First(s)[0] != QUOTE
  {}

  /** The first escapes of two strings that continue alike are the same. */
  lemma FirstIsDecodable(s: Text, t: Text, x: Text, y: Text)
    requires s != [] && t != [] && First(s) + x == First(t) + y
    ensures FirstWidth(s) == FirstWidth(t) && s[..FirstWidth(s)] == t[..FirstWidth(t)] && x == y
  {
    var whole := First(s) + x;
    assert whole[0] == First(s)[0] == First(t)[0];
    if FirstWidth(s) == 1 && FirstWidth(t) == 1 && First(s)[0] == BACKSLASH {
      assert whole[1] == First(s)[1] == First(t)[1];
      if First(s)[1] == 117 {
        assert whole[2..6] == Hex(s[0]) == Hex(t[0]);
        HexIsInjective(s[0], t[0]);
      }
    }
    assert First(s) == First(t);
    assert x == whole[|First(s)|..] == y;
  }

  lemma FirstOfQuoted(s: Text, x: Text)
    ensures var whole := Escape(s) + [QUOTE] + x;
            if s == [] then whole == [QUOTE] + x
            else whole[0] != QUOTE && whole == First(s) + (Escape(s[FirstWidth(s)..]) + [QUOTE] + x)
  {
    if s != [] { EscapeSplits(s); }
  }

  /** A quoted string ends where it seems to. */
  lemma {:induction false} QuotedIsDecodable(s: Text, t: Text, x: Text, y: Text)
    requires Escape(s) + [QUOTE] + x == Escape(t) + [QUOTE] + y
    ensures s == t && x == y
    decreases |s|
  {
    hide First, FirstWidth, Escape;
    FirstOfQuoted(s, x);
    FirstOfQuoted(t, y);
    if s == [] || t == [] {
      assert x == ([QUOTE] + x)[1..] && y == ([QUOTE] + y)[1..];
    } else {
      var n, m := FirstWidth(s), FirstWidth(t);
      FirstIsDecodable(s, t, Escape(s[n..]) + [QUOTE] + x, Escape(t[m..]) + [QUOTE] + y);
      QuotedIsDecodable(s[n..], t[m..], x, y);
      assert s == s[..n] + s[n..] && t == t[..m] + t[m..];
    }
  }

  lemma QuoteIsDecodable(s: Text, t: Text, x: Text, y: Text)
    requires Quote(s) + x == Quote(t) + y
    ensures s == t && x == y
  {
    assert Escape(s) + [QUOTE] + x == (Quote(s) + x)[1..];
    assert Escape(t) + [QUOTE] + y == (Quote(t) + y)[1..];
    QuotedIsDecodable(s, t, x, y);
  }

  // ---------------------------------------------------------------------------------------
  // Reading a string back
  // ---------------------------------------------------------------------------------------

  function HexValue(u: Unit): Option<nat> {
    if 48 <= u <= 57 then Some(u - 48)
    else if 97 <= u <= 102 then Some(u - 87)
    else if 65 <= u <= 70 then Some(u - 55)
    else None
  }

  /** The unit an escape letter stands for (RFC 8259, section 7). */
  function Escaped(letter: Unit): Option<Unit> {
    if letter == 34 then Some(34)
    else if letter == 92 then Some(92)
    else if letter == 47 then Some(47)
    else if letter == 98 then Some(8)
    else if letter == 102 then Some(12)
    else if letter == 110 then Some(10)
    else if letter == 114 then Some(13)
    else if letter == 116 then Some(9)
    else None
  }

  /** The first code unit of a JSON string's contents, and how much spells it. */
  function ReadUnit(t: Text): Option<(Unit, nat)> {
    if t == [] then None
    else if t[0] != BACKSLASH then if t[0] < 32 || t[0] == QUOTE then None else Some((t[0], 1))
    else if |t| >= 6 && t[1] == 117 then
      var a, b, c, d := HexValue(t[2]), HexValue(t[3]), HexValue(t[4]), HexValue(t[5]);
      if a.Some? && b.Some? && c.Some? && d.Some? && ((a.value * 16 + b.value) * 16 + c.value) * 16 + d.value < 65536
      then Some((((a.value * 16 + b.value) * 16 + c.value) * 16 + d.value, 6))
      else None
    else if |t| >= 2 && Escaped(t[1]).Some? then Some((Escaped(t[1]).value, 2))
    else None
  }

  function ReadUnits(t: Text): Option<Text> {
    if t == [] then Some([])
    else
      var first := ReadUnit(t);
      if first.None? || first.value.1 > |t| || first.value.1 == 0 then None
      else
        var rest := ReadUnits(t[first.value.1..]);
        if rest.None? then None else Some([first.value.0] + rest.value)
  }

  lemma HexReadsBack(u: Unit)
    ensures forall i :: 0 <= i < 4 ==> HexValue(Hex(u)[i]).Some?
    ensures var h := Hex(u);
            ((HexValue(h[0]).value * 16 + HexValue(h[1]).value) * 16 + HexValue(h[2]).value) * 16 + HexValue(h[3]).value == u
  {
    var h := Hex(u);
    assert HexValue(h[0]) == Some(u / 16 / 16 / 16) && HexValue(h[1]) == Some(u / 16 / 16 % 16);
    assert HexValue(h[2]) == Some(u / 16 % 16) && HexValue(h[3]) == Some(u % 16);
  }

  lemma UnitReadsBack(u: Unit, rest: Text)
    ensures ReadUnit(EscapeUnit(u) + rest) == Some((u, |EscapeUnit(u)|))
  {
    var t := EscapeUnit(u) + rest;
    HexReadsBack(u);
    if |EscapeUnit(u)| == 6 {
      assert t[2] == Hex(u)[0] && t[3] == Hex(u)[1] && t[4] == Hex(u)[2] && t[5] == Hex(u)[3];
    }
  }

  lemma ReadStep(t: Text, u: Unit, piece: Text, rest: Text)
    requires t == piece + rest && piece != [] && ReadUnit(t) == Some((u, |piece|))
    ensures ReadUnits(t) == if ReadUnits(rest).None? then None else Some([u] + ReadUnits(rest).value)
  {
    assert t[|piece|..] == rest;
  }

  /** What is between the quotes reads back, by the rules of JSON, as the string that was quoted. */
  lemma {:induction false} EscapeReadsBack(s: Text)
    ensures ReadUnits(Escape(s)) == Some(s)
  {
    if s != [] {
      var n := FirstWidth(s);
      var rest := Escape(s[n..]);
      EscapeReadsBack(s[n..]);
      EscapeSplits(s);
      if n == 2 {
        assert Escape(s) == [s[0]] + ([s[1]] + rest);
        ReadStep([s[1]] + rest, s[1], [s[1]], rest);
        ReadStep(Escape(s), s[0], [s[0]], [s[1]] + rest);
        assert [s[0]] + ([s[1]] + s[2..]) == s;
      } else {
        UnitReadsBack(s[0], rest);
        ReadStep(Escape(s), s[0], EscapeUnit(s[0]), rest);
        assert [s[0]] + s[1..] == s;
      }
    }
  }

  // ---------------------------------------------------------------------------------------
  // Where an encoded value ends
  // ---------------------------------------------------------------------------------------

  /** What can follow a value: nothing, or a delimiter. */
  predicate Ends(x: Text) {
    x == [] || x[0] == COMMA || x[0] == CLOSE_BRACKET || x[0] == CLOSE_BRACE
  }

  /** The first code unit tells the kinds apart. */
  datatype Shape = Word | Numeric | Quoted | Dated | Listed | Keyed

  function ShapeOf(v: Json): Shape {
    match v
    case Undefined => Word
    case Null => Word
    case NonFinite => Word
    case Bool(_) => Word
    case Number(_) => Numeric
    case NegativeZero => Numeric
    case String(_) => Quoted
    case Date(_) => Dated
    case InvalidDate => Dated
    case Array(_) => Listed
    case Record(_) => Keyed
  }

  function ShapeFrom(u: Unit): Shape {
    if u == 117 || u == 110 || u == 116 || u == 102 then Word
    else if NumberUnit(u) then Numeric
    else if u == QUOTE then Quoted
    else if u == 100 then Dated
    else if u == OPEN_BRACKET then Listed
    else Keyed
  }

  lemma FirstUnit(v: Json)
    requires WellFormed(v)
    ensures StableJson(v) != [] && ShapeOf(v) == ShapeFrom(StableJson(v)[0])
    ensures StableJson(v)[0] != CLOSE_BRACKET && StableJson(v)[0] != CLOSE_BRACE
  {}

  lemma {:induction false} NumberIsDecodable(s: Text, t: Text, x: Text, y: Text)
    requires s + x == t + y && Ends(x) && Ends(y)
    requires forall i :: 0 <= i < |s| ==> NumberUnit(s[i])
    requires forall i :: 0 <= i < |t| ==> NumberUnit(t[i])
    ensures s == t && x == y
  {
    var whole := s + x;
    assert s == whole[..|s|] && t == whole[..|t|] && x == whole[|s|..] && y == whole[|t|..];
  }

  lemma WordIsDecodable(a: Json, b: Json, x: Text, y: Text)
    requires ShapeOf(a) == Word && ShapeOf(b) == Word
    requires StableJson(a) + x == StableJson(b) + y
    ensures Same(a, b) && x == y
  {
    var whole := StableJson(a) + x;
    assert whole[0] == StableJson(a)[0] == StableJson(b)[0];
    assert x == whole[|StableJson(a)|..] && y == whole[|StableJson(b)|..];
  }

  lemma DateIsDecodable(a: Json, b: Json, x: Text, y: Text)
    requires ShapeOf(a) == Dated && ShapeOf(b) == Dated
    requires StableJson(a) + x == StableJson(b) + y
    ensures Same(a, b) && x == y
  {
    var restA := if a.InvalidDate? then NULL + x else Quote(a.iso) + x;
    var restB := if b.InvalidDate? then NULL + y else Quote(b.iso) + y;
    assert StableJson(a) + x == DATE + restA && StableJson(b) + y == DATE + restB;
    assert restA == (DATE + restA)[5..] == restB;
    assert restA[0] == if a.InvalidDate? then 110 else QUOTE;
    assert restB[0] == if b.InvalidDate? then 110 else QUOTE;
    if a.Date? {
      QuoteIsDecodable(a.iso, b.iso, x, y);
    } else {
      assert x == restA[4..] == y;
    }
  }

  // ---------------------------------------------------------------------------------------
  // Lists
  // ---------------------------------------------------------------------------------------

  /** The rest of a list after one of its parts. */
  function Tail(parts: seq<Text>): Text {
    if parts == [] then [] else [COMMA] + parts[0] + Tail(parts[1..])
  }

  lemma {:induction false} JoinIsTail(parts: seq<Text>)
    requires parts != []
    ensures Join(parts) == parts[0] + Tail(parts[1..])
  {
    if |parts| > 1 {
      JoinIsTail(parts[1..]);
      assert Join(parts) == parts[0] + [COMMA] + (parts[1] + Tail(parts[1..][1..]));
      assert Tail(parts[1..]) == [COMMA] + parts[1] + Tail(parts[1..][1..]);
    }
  }

  /** Two parts that, followed by what may follow them, cannot be mistaken for each other. */
  ghost predicate Separate(p: Text, q: Text) {
    forall x, y :: Ends(x) && Ends(y) && p + x == q + y ==> p == q
  }

  ghost predicate AllSeparate(ps: seq<Text>, qs: seq<Text>) {
    forall i, j :: 0 <= i < |ps| && 0 <= j < |qs| ==> Separate(ps[i], qs[j])
  }

  lemma {:induction false} TailsAgree(ps: seq<Text>, qs: seq<Text>, close: Unit, x: Text, y: Text)
    requires close == CLOSE_BRACKET || close == CLOSE_BRACE
    requires AllSeparate(ps, qs)
    requires Tail(ps) + [close] + x == Tail(qs) + [close] + y
    ensures ps == qs && x == y
  {
    var whole := Tail(ps) + [close] + x;
    assert ps == [] ==> whole[0] == close;
    assert qs == [] ==> whole[0] == close;
    if ps == [] || qs == [] {
      assert x == whole[1..] == y;
    } else {
      var restP, restQ := Tail(ps[1..]) + [close] + x, Tail(qs[1..]) + [close] + y;
      assert ps[0] + restP == whole[1..] == qs[0] + restQ;
      assert Separate(ps[0], qs[0]);
      assert restP == (ps[0] + restP)[|ps[0]|..] == restQ;
      TailsAgree(ps[1..], qs[1..], close, x, y);
    }
  }

  /** A closed list, read from its first part. */
  lemma ClosedJoin(ps: seq<Text>, close: Unit, x: Text)
    ensures var whole := Join(ps) + [close] + x;
            if ps == [] then whole == [close] + x else whole == ps[0] + (Tail(ps[1..]) + [close] + x)
    ensures (close == CLOSE_BRACKET || close == CLOSE_BRACE) && ps != [] ==> Ends(Tail(ps[1..]) + [close] + x)
  {
    if ps != [] { JoinIsTail(ps); }
  }

  lemma JoinsAgree(ps: seq<Text>, qs: seq<Text>, close: Unit, x: Text, y: Text)
    requires close == CLOSE_BRACKET || close == CLOSE_BRACE
    requires AllSeparate(ps, qs)
    requires forall i :: 0 <= i < |ps| ==> ps[i] != [] && ps[i][0] != close
    requires forall i :: 0 <= i < |qs| ==> qs[i] != [] && qs[i][0] != close
    requires Join(ps) + [close] + x == Join(qs) + [close] + y
    ensures ps == qs && x == y
  {
    hide Join, Tail, Ends, AllSeparate, Separate;
    ClosedJoin(ps, close, x);
    ClosedJoin(qs, close, y);
    var whole := Join(ps) + [close] + x;
    assert whole[0] == if ps == [] then close else ps[0][0];
    assert whole[0] == if qs == [] then close else qs[0][0];
    if ps == [] {
      assert x == whole[1..] == y;
    } else {
      FirstPartsAgree(ps, qs, close, x, y);
    }
  }

  lemma FirstPartsAgree(ps: seq<Text>, qs: seq<Text>, close: Unit, x: Text, y: Text)
    requires close == CLOSE_BRACKET || close == CLOSE_BRACE
    requires AllSeparate(ps, qs) && ps != [] && qs != []
    requires ps[0] + (Tail(ps[1..]) + [close] + x) == qs[0] + (Tail(qs[1..]) + [close] + y)
    ensures ps == qs && x == y
  {
    hide Tail, Ends;
    ClosedJoin(ps, close, x);
    ClosedJoin(qs, close, y);
    var restP, restQ := Tail(ps[1..]) + [close] + x, Tail(qs[1..]) + [close] + y;
    assert Separate(ps[0], qs[0]);
    assert restP == (ps[0] + restP)[|ps[0]|..] == restQ;
    TailsAgree(ps[1..], qs[1..], close, x, y);
  }

  // ---------------------------------------------------------------------------------------
  // Sorted entries
  // ---------------------------------------------------------------------------------------

  lemma {:induction false} KeyOrderIsStrict(a: Text, b: Text)
    ensures KeyBefore(a, b) ==> a != b && !KeyBefore(b, a)
    ensures a == b || KeyBefore(a, b) || KeyBefore(b, a)
  {
    if a != [] && b != [] {
      KeyOrderIsStrict(a[1..], b[1..]);
      assert a[0] == b[0] && a[1..] == b[1..] ==> a == b by {
        assert a == [a[0]] + a[1..] && b == [b[0]] + b[1..];
      }
    }
  }

  lemma {:induction false} KeyOrderIsTransitive(a: Text, b: Text, c: Text)
    requires KeyBefore(a, b) && KeyBefore(b, c)
    ensures KeyBefore(a, c)
  {
    if a != [] && b != [] && c != [] && a[0] == b[0] == c[0] {
      KeyOrderIsTransitive(a[1..], b[1..], c[1..]);
    }
  }

  ghost predicate DistinctKeys(entries: seq<Entry>) {
    forall i, j :: 0 <= i < j < |entries| ==> entries[i].key != entries[j].key
  }

  ghost predicate Ascending(entries: seq<Entry>) {
    forall i, j :: 0 <= i < j < |entries| ==> KeyBefore(entries[i].key, entries[j].key)
  }

  lemma {:induction false} PlaceKeeps(e: Entry, sorted: seq<Entry>)
    ensures forall f :: f in Place(e, sorted) <==> f == e || f in sorted
  {
    if sorted != [] && !KeyBefore(e.key, sorted[0].key) {
      PlaceKeeps(e, sorted[1..]);
      assert sorted == [sorted[0]] + sorted[1..];
    }
  }

  lemma {:induction false} PlaceAscends(e: Entry, sorted: seq<Entry>)
    requires Ascending(sorted) && forall i :: 0 <= i < |sorted| ==> sorted[i].key != e.key
    ensures Ascending(Place(e, sorted))
  {
    if sorted == [] {
    } else if KeyBefore(e.key, sorted[0].key) {
      forall i | 0 <= i < |sorted|
        ensures KeyBefore(e.key, sorted[i].key)
      {
        if i > 0 { KeyOrderIsTransitive(e.key, sorted[0].key, sorted[i].key); }
      }
    } else {
      KeyOrderIsStrict(e.key, sorted[0].key);
      var rest := Place(e, sorted[1..]);
      PlaceAscends(e, sorted[1..]);
      PlaceKeeps(e, sorted[1..]);
      forall i | 0 <= i < |rest|
        ensures KeyBefore(sorted[0].key, rest[i].key)
      {
        assert rest[i] in rest;
      }
    }
  }

  lemma {:induction false} SortKeeps(entries: seq<Entry>)
    ensures forall e :: e in Sort(entries) <==> e in entries
    ensures DistinctKeys(entries) ==> Ascending(Sort(entries))
  {
    if entries != [] {
      SortKeeps(entries[1..]);
      PlaceKeeps(entries[0], Sort(entries[1..]));
      assert entries == [entries[0]] + entries[1..];
      if DistinctKeys(entries) {
        var sorted := Sort(entries[1..]);
        forall i | 0 <= i < |sorted|
          ensures sorted[i].key != entries[0].key
        {
          assert sorted[i] in entries[1..];
        }
        PlaceAscends(entries[0], sorted);
      }
    }
  }

  lemma RestOfAscending(p: seq<Entry>)
    requires p != [] && Ascending(p)
    ensures forall e :: e in p[1..] <==> e in p && e != p[0]
    ensures p == [p[0]] + p[1..]
  {
    KeyOrderIsStrict(p[0].key, p[0].key);
    forall e
      ensures e in p[1..] <==> e in p && e != p[0]
    {
      if e in p[1..] {
        var i :| 0 < i < |p| && p[i] == e;
        assert KeyBefore(p[0].key, p[i].key);
      }
    }
  }

  lemma {:induction false} AscendingIsUnique(p: seq<Entry>, q: seq<Entry>)
    requires Ascending(p) && Ascending(q) && forall e :: e in p <==> e in q
    ensures p == q
  {
    if p != [] || q != [] {
      assert (p != [] ==> p[0] in q) && (q != [] ==> q[0] in p);
      KeyOrderIsStrict(p[0].key, q[0].key);
      assert p[0] == q[0];
      RestOfAscending(p);
      RestOfAscending(q);
      AscendingIsUnique(p[1..], q[1..]);
    }
  }

  // ---------------------------------------------------------------------------------------
  // Values
  // ---------------------------------------------------------------------------------------

  lemma EntriesAreDistinct(fields: seq<Field>)
    requires forall i, j :: 0 <= i < j < |fields| ==> fields[i].key != fields[j].key
    ensures DistinctKeys(Entries(fields)) && Ascending(Sort(Entries(fields)))
  {
    SortKeeps(Entries(fields));
  }

  lemma EntryTextsSeparate(a: Entry, b: Entry)
    requires Separate(a.text, b.text)
    ensures Separate(Quote(a.key) + [COLON] + a.text, Quote(b.key) + [COLON] + b.text)
  {
    var p, q := Quote(a.key) + [COLON] + a.text, Quote(b.key) + [COLON] + b.text;
    forall x, y | Ends(x) && Ends(y) && p + x == q + y
      ensures p == q
    {
      var afterA, afterB := [COLON] + a.text + x, [COLON] + b.text + y;
      assert Quote(a.key) + afterA == p + x && Quote(b.key) + afterB == q + y;
      QuoteIsDecodable(a.key, b.key, afterA, afterB);
      assert a.text + x == afterA[1..] == b.text + y;
    }
  }

  lemma ArraysAgree(a: seq<Json>, b: seq<Json>, x: Text, y: Text)
    requires WellFormed(Array(a)) && WellFormed(Array(b))
    requires AllSeparate(ItemTexts(a), ItemTexts(b))
    requires StableJson(Array(a)) + x == StableJson(Array(b)) + y
    ensures ItemTexts(a) == ItemTexts(b) && x == y
  {
    hide Join;
    forall i | 0 <= i < |a|
      ensures ItemTexts(a)[i] != [] && ItemTexts(a)[i][0] != CLOSE_BRACKET
    {
      FirstUnit(a[i]);
    }
    forall i | 0 <= i < |b|
      ensures ItemTexts(b)[i] != [] && ItemTexts(b)[i][0] != CLOSE_BRACKET
    {
      FirstUnit(b[i]);
    }
    Inside(OPEN_BRACKET, Join(ItemTexts(a)), CLOSE_BRACKET, x);
    Inside(OPEN_BRACKET, Join(ItemTexts(b)), CLOSE_BRACKET, y);
    JoinsAgree(ItemTexts(a), ItemTexts(b), CLOSE_BRACKET, x, y);
  }

  lemma Inside(open: Unit, inner: Text, close: Unit, x: Text)
    ensures ([open] + inner + [close] + x)[1..] == inner + [close] + x
  {}

  lemma RecordsAgree(a: seq<Field>, b: seq<Field>, x: Text, y: Text)
    requires AllSeparate(EntryTexts(Sort(Entries(a))), EntryTexts(Sort(Entries(b))))
    requires StableJson(Record(a)) + x == StableJson(Record(b)) + y
    ensures EntryTexts(Sort(Entries(a))) == EntryTexts(Sort(Entries(b))) && x == y
  {
    hide Join, Sort, Entries;
    var left, right := EntryTexts(Sort(Entries(a))), EntryTexts(Sort(Entries(b)));
    Inside(OPEN_BRACE, Join(left), CLOSE_BRACE, x);
    Inside(OPEN_BRACE, Join(right), CLOSE_BRACE, y);
    JoinsAgree(left, right, CLOSE_BRACE, x, y);
  }

  /** No encoded value is a proper beginning of another, up to the next delimiter. */
  lemma {:induction false} ValuesSeparate(a: Json, b: Json)
    requires WellFormed(a) && WellFormed(b)
    ensures Separate(StableJson(a), StableJson(b))
    decreases a
  {
    forall x, y | Ends(x) && Ends(y) && StableJson(a) + x == StableJson(b) + y
      ensures StableJson(a) == StableJson(b)
    {
      FirstUnit(a);
      FirstUnit(b);
      assert (StableJson(a) + x)[0] == StableJson(a)[0] == StableJson(b)[0];
      match ShapeOf(a)
      case Word => WordIsDecodable(a, b, x, y);
      case Numeric => NumberIsDecodable(StableJson(a), StableJson(b), x, y);
      case Quoted => QuoteIsDecodable(a.units, b.units, x, y);
      case Dated => DateIsDecodable(a, b, x, y);
      case Listed =>
        ItemsSeparate(a, b);
        ArraysAgree(a.items, b.items, x, y);
      case Keyed =>
        FieldsSeparate(a, b);
        RecordsAgree(a.fields, b.fields, x, y);
    }
  }

  lemma {:induction false} ItemsSeparate(a: Json, b: Json)
    requires WellFormed(a) && WellFormed(b) && a.Array? && b.Array?
    ensures AllSeparate(ItemTexts(a.items), ItemTexts(b.items))
    decreases a, 0
  {
    forall i, j | 0 <= i < |a.items| && 0 <= j < |b.items|
      ensures Separate(ItemTexts(a.items)[i], ItemTexts(b.items)[j])
    {
      ValuesSeparate(a.items[i], b.items[j]);
    }
  }

  lemma {:induction false} FieldsSeparate(a: Json, b: Json)
    requires WellFormed(a) && WellFormed(b) && a.Record? && b.Record?
    ensures AllSeparate(EntryTexts(Sort(Entries(a.fields))), EntryTexts(Sort(Entries(b.fields))))
    decreases a, 0
  {
    var left, right := Sort(Entries(a.fields)), Sort(Entries(b.fields));
    SortKeeps(Entries(a.fields));
    SortKeeps(Entries(b.fields));
    forall i, j | 0 <= i < |left| && 0 <= j < |right|
      ensures Separate(EntryTexts(left)[i], EntryTexts(right)[j])
    {
      assert left[i] in Entries(a.fields) && right[j] in Entries(b.fields);
      var k, l :| 0 <= k < |a.fields| && 0 <= l < |b.fields| && Entries(a.fields)[k] == left[i] && Entries(b.fields)[l] == right[j];
      ValuesSeparate(a.fields[k].value, b.fields[l].value);
      EntryTextsSeparate(left[i], right[j]);
    }
  }

  // ---------------------------------------------------------------------------------------
  // Equal texts
  // ---------------------------------------------------------------------------------------

  lemma EntriesFromTexts(a: seq<Entry>, b: seq<Entry>)
    requires EntryTexts(a) == EntryTexts(b)
    ensures a == b
  {
    assert |a| == |EntryTexts(a)| == |b|;
    forall i | 0 <= i < |a|
      ensures a[i] == b[i]
    {
      assert EntryTexts(a)[i] == Quote(a[i].key) + [COLON] + a[i].text == Quote(a[i].key) + ([COLON] + a[i].text);
      assert EntryTexts(b)[i] == Quote(b[i].key) + [COLON] + b[i].text == Quote(b[i].key) + ([COLON] + b[i].text);
      QuoteIsDecodable(a[i].key, b[i].key, [COLON] + a[i].text, [COLON] + b[i].text);
      assert ([COLON] + a[i].text)[1..] == a[i].text && ([COLON] + b[i].text)[1..] == b[i].text;
    }
  }

  lemma {:induction false} EqualTextsAreSame(a: Json, b: Json)
    requires WellFormed(a) && WellFormed(b) && StableJson(a) == StableJson(b)
    ensures Same(a, b)
    decreases a, 1
  {
    FirstUnit(a);
    FirstUnit(b);
    assert StableJson(a) + [] == StableJson(b) + [];
    match ShapeOf(a)
    case Word => WordIsDecodable(a, b, [], []);
    case Numeric =>
    case Quoted => QuoteIsDecodable(a.units, b.units, [], []);
    case Dated => DateIsDecodable(a, b, [], []);
    case Listed =>
      ItemsSeparate(a, b);
      ArraysAgree(a.items, b.items, [], []);
      assert |a.items| == |ItemTexts(a.items)| == |b.items|;
      forall i | 0 <= i < |a.items|
        ensures Same(a.items[i], b.items[i])
      {
        assert ItemTexts(a.items)[i] == ItemTexts(b.items)[i];
        EqualTextsAreSame(a.items[i], b.items[i]);
      }
    case Keyed => EqualRecordsAreSame(a, b);
  }

  lemma {:induction false} EqualRecordsAreSame(a: Json, b: Json)
    requires WellFormed(a) && WellFormed(b) && a.Record? && b.Record? && StableJson(a) == StableJson(b)
    ensures Same(a, b)
    decreases a, 0
  {
    var left, right := Entries(a.fields), Entries(b.fields);
    assert StableJson(a) + [] == StableJson(b) + [];
    FieldsSeparate(a, b);
    RecordsAgree(a.fields, b.fields, [], []);
    EntriesFromTexts(Sort(left), Sort(right));
    SortKeeps(left);
    SortKeeps(right);
    forall i | 0 <= i < |a.fields|
      ensures exists j :: 0 <= j < |b.fields| && b.fields[j].key == a.fields[i].key && Same(a.fields[i].value, b.fields[j].value)
    {
      assert left[i] in right;
      var j :| 0 <= j < |right| && right[j] == left[i];
      EqualTextsAreSame(a.fields[i].value, b.fields[j].value);
    }
    forall j | 0 <= j < |b.fields|
      ensures HasKey(a.fields, b.fields[j].key)
    {
      assert right[j] in left;
    }
  }

  lemma {:induction false} SameHasEqualText(a: Json, b: Json)
    requires WellFormed(a) && WellFormed(b) && Same(a, b)
    ensures StableJson(a) == StableJson(b)
    decreases a, 1
  {
    if a.Array? {
      SameArrays(a, b);
    } else if a.Record? {
      SameRecords(a, b);
    }
  }

  lemma {:induction false} SameArrays(a: Json, b: Json)
    requires WellFormed(a) && WellFormed(b) && a.Array? && Same(a, b)
    ensures StableJson(a) == StableJson(b)
    decreases a, 0
  {
    hide Join;
    forall i | 0 <= i < |a.items|
      ensures ItemTexts(a.items)[i] == ItemTexts(b.items)[i]
    {
      SameHasEqualText(a.items[i], b.items[i]);
    }
    assert ItemTexts(a.items) == ItemTexts(b.items);
  }

  lemma {:induction false} SameRecords(a: Json, b: Json)
    requires WellFormed(a) && WellFormed(b) && a.Record? && Same(a, b)
    ensures StableJson(a) == StableJson(b)
    decreases a, 0
  {
    hide Join, Sort;
    var left, right := Entries(a.fields), Entries(b.fields);
    forall i | 0 <= i < |a.fields|
      ensures left[i] in right
    {
      var j :| 0 <= j < |b.fields| && b.fields[j].key == a.fields[i].key && Same(a.fields[i].value, b.fields[j].value);
      SameHasEqualText(a.fields[i].value, b.fields[j].value);
      assert right[j] == left[i];
    }
    EntriesAreDistinct(a.fields);
    EntriesAreDistinct(b.fields);
    SameEntries(a.fields, b.fields, left, right);
    SortKeeps(left);
    SortKeeps(right);
    AscendingIsUnique(Sort(left), Sort(right));
  }

  /** With distinct keys, entries that are all found on the other side leave none over there. */
  lemma SameEntries(a: seq<Field>, b: seq<Field>, left: seq<Entry>, right: seq<Entry>)
    requires |left| == |a| && forall i :: 0 <= i < |a| ==> left[i].key == a[i].key
    requires |right| == |b| && forall j :: 0 <= j < |b| ==> right[j].key == b[j].key
    requires forall j :: 0 <= j < |b| ==> HasKey(a, b[j].key)
    requires DistinctKeys(right) && forall i :: 0 <= i < |left| ==> left[i] in right
    ensures forall e :: e in left <==> e in right
  {
    forall j | 0 <= j < |right|
      ensures right[j] in left
    {
      var i :| 0 <= i < |a| && a[i].key == b[j].key;
      var k :| 0 <= k < |right| && right[k] == left[i];
      assert k == j;
    }
  }

  /** Equal texts exactly for the same values. */
  lemma StableJsonIsCanonical(a: Json, b: Json)
    requires WellFormed(a) && WellFormed(b)
    ensures StableJson(a) == StableJson(b) <==> Same(a, b)
  {
    if StableJson(a) == StableJson(b) {
      EqualTextsAreSame(a, b);
    }
    if Same(a, b) {
      SameHasEqualText(a, b);
    }
  }

  // ---------------------------------------------------------------------------------------
  // Row targets and foreign-key tuples
  // ---------------------------------------------------------------------------------------

  ghost predicate Printable(t: Text) {
    forall i :: 0 <= i < |t| ==> t[i] >= 32
  }

  lemma {:induction false} EscapeIsPrintable(s: Text)
    ensures Printable(Escape(s))
  {
    if s != [] {
      EscapeSplits(s);
      EscapeIsPrintable(s[FirstWidth(s)..]);
    }
  }

  lemma {:induction false} JoinIsPrintable(parts: seq<Text>)
    requires forall i :: 0 <= i < |parts| ==> Printable(parts[i])
    ensures Printable(Join(parts))
  {
    if |parts| > 1 {
      JoinIsPrintable(parts[1..]);
    }
  }

  lemma QuoteIsPrintable(s: Text)
    ensures Printable(Quote(s))
  {
    EscapeIsPrintable(s);
  }

  /** An encoded value holds no control unit, so it can be set off by one. */
  lemma {:induction false} TextIsPrintable(v: Json)
    requires WellFormed(v)
    ensures Printable(StableJson(v))
    decreases v, 1
  {
    match v
    case String(units) => QuoteIsPrintable(units);
    case Date(iso) => QuoteIsPrintable(iso);
    case Array(_) => ArrayIsPrintable(v);
    case Record(_) => RecordIsPrintable(v);
    case _ =>
  }

  lemma {:induction false} ArrayIsPrintable(v: Json)
    requires WellFormed(v) && v.Array?
    ensures Printable(StableJson(v))
    decreases v, 0
  {
    hide Join;
    forall i | 0 <= i < |v.items|
      ensures Printable(ItemTexts(v.items)[i])
    {
      TextIsPrintable(v.items[i]);
    }
    JoinIsPrintable(ItemTexts(v.items));
  }

  lemma {:induction false} RecordIsPrintable(v: Json)
    requires WellFormed(v) && v.Record?
    ensures Printable(StableJson(v))
    decreases v, 0
  {
    hide Join, Sort, Quote;
    var entries := Entries(v.fields);
    SortKeeps(entries);
    forall i | 0 <= i < |Sort(entries)|
      ensures Printable(EntryTexts(Sort(entries))[i])
    {
      assert Sort(entries)[i] in entries;
      var k :| 0 <= k < |v.fields| && entries[k] == Sort(entries)[i];
      TextIsPrintable(v.fields[k].value);
      QuoteIsPrintable(v.fields[k].key);
    }
    JoinIsPrintable(EntryTexts(Sort(entries)));
  }

  /** `changeTarget`: table, tenant key and row key set off by the null unit. */
  function ChangeTarget(table: Text, tenant: Json, row: Json): Text {
    table + [0] + StableJson(tenant) + [0] + StableJson(row)
  }

  lemma CutAtNull(p: Text, q: Text, x: Text, y: Text)
    requires 0 !in p && 0 !in q && p + [0] + x == q + [0] + y
    ensures p == q && x == y
  {
    var whole := p + [0] + x;
    assert whole[|p|] == 0 && whole[|q|] == 0;
    assert forall i :: 0 <= i < |p| ==> whole[i] == p[i] != 0;
    assert forall i :: 0 <= i < |q| ==> whole[i] == q[i] != 0;
    assert p == whole[..|p|] && q == whole[..|q|] && x == whole[|p| + 1..] && y == whole[|q| + 1..];
  }

  lemma NoNull(v: Json)
    requires WellFormed(v)
    ensures 0 !in StableJson(v)
  {
    hide StableJson;
    TextIsPrintable(v);
  }

  lemma CutTarget(table: Text, tenant: Text, row: Text)
    ensures table + [0] + tenant + [0] + row == table + [0] + (tenant + [0] + row)
  {}

  lemma CutTwice(tableA: Text, tenantA: Text, rowA: Text, tableB: Text, tenantB: Text, rowB: Text)
    requires 0 !in tableA && 0 !in tableB && 0 !in tenantA && 0 !in tenantB
    requires tableA + [0] + tenantA + [0] + rowA == tableB + [0] + tenantB + [0] + rowB
    ensures tableA == tableB && tenantA == tenantB && rowA == rowB
  {
    CutTarget(tableA, tenantA, rowA);
    CutTarget(tableB, tenantB, rowB);
    CutAtNull(tableA, tableB, tenantA + [0] + rowA, tenantB + [0] + rowB);
    CutAtNull(tenantA, tenantB, rowA, rowB);
  }

  /** Two row targets are equal exactly when table, tenant and row are. */
  lemma TargetsNeverCollide(tableA: Text, tenantA: Json, rowA: Json, tableB: Text, tenantB: Json, rowB: Json)
    requires 0 !in tableA && 0 !in tableB
    requires WellFormed(tenantA) && WellFormed(rowA) && WellFormed(tenantB) && WellFormed(rowB)
    ensures ChangeTarget(tableA, tenantA, rowA) == ChangeTarget(tableB, tenantB, rowB)
       <==> tableA == tableB && Same(tenantA, tenantB) && Same(rowA, rowB)
  {
    hide StableJson, Same, WellFormed;
    StableJsonIsCanonical(tenantA, tenantB);
    StableJsonIsCanonical(rowA, rowB);
    if ChangeTarget(tableA, tenantA, rowA) == ChangeTarget(tableB, tenantB, rowB) {
      NoNull(tenantA);
      NoNull(tenantB);
      CutTwice(tableA, StableJson(tenantA), StableJson(rowA), tableB, StableJson(tenantB), StableJson(rowB));
    }
  }

  /** `foreignKeyTuple`: equal texts exactly for tuples that are the same, part by part. */
  lemma TuplesNeverCollide(a: seq<Json>, b: seq<Json>)
    requires WellFormed(Array(a)) && WellFormed(Array(b))
    ensures StableJson(Array(a)) == StableJson(Array(b)) <==> |a| == |b| && forall i :: 0 <= i < |a| ==> Same(a[i], b[i])
  {
    StableJsonIsCanonical(Array(a), Array(b));
  }

  /** An instant is never the same as the string that spells it. */
  lemma DateIsNotItsText(iso: Text)
    ensures StableJson(Date(iso)) != StableJson(String(iso))
  {
    StableJsonIsCanonical(Date(iso), String(iso));
  }
}
