/**
 * Canonical database identities (packages/db/src/identity-codec.ts): every spelling of one value
 * gets one text, and the text is its own canonical form.
 */
module IdentityCodec {
  import opened Common

  datatype Kind = Uuid | SmallInt | Integer | BigInt | Text | Unsupported

  datatype Value = Number(n: int) | String(s: string)

  datatype Identity = Identity(value: Value, text: string)

  datatype Error = InvalidIdentity | UnsupportedType

  // ---------------------------------------------------------------------------------------
  // UUIDs
  // ---------------------------------------------------------------------------------------

  predicate IsHex(c: char) {
    '0' <= c <= '9' || 'a' <= c <= 'f' || 'A' <= c <= 'F'
  }

  predicate AllHex(s: string) {
    forall i :: 0 <= i < |s| ==> IsHex(s[i])
  }

  function LowerChar(c: char): char {
    if 'A' <= c <= 'Z' then c - 'A' + 'a' else c
  }

  function Lower(s: string): string {
    seq(|s|, i requires 0 <= i < |s| => LowerChar(s[i]))
  }

  function Split(s: string): (groups: seq<string>)
    ensures groups != []
  {
    if s == "" then [""]
    else
      var rest := Split(s[1..]);
      if s[0] == '-' then [""] + rest else [[s[0]] + rest[0]] + rest[1..]
  }

  function Concat(groups: seq<string>): string {
    if groups == [] then "" else groups[0] + Concat(groups[1..])
  }

  predicate ValidGroup(g: string) {
    |g| > 0 && |g| % 4 == 0 && AllHex(g)
  }

  function Unwrapped(source: string): Option<string> {
    var opens, closes := source != "" && source[0] == '{', source != "" && source[|source| - 1] == '}';
    if opens != closes then None
    else if !opens then Some(source)
    else Some(if |source| < 2 then "" else source[1..|source| - 1])
  }

  /** The 32 digits a spelling stands for. */
  function UuidDigits(source: string): Option<string> {
    var unwrapped := Unwrapped(source);
    if unwrapped.None? then None
    else
      var groups := Split(unwrapped.value);
      if (forall i :: 0 <= i < |groups| ==> ValidGroup(groups[i])) && |Concat(groups)| == 32 then Some(Concat(groups)) else None
  }

  function Hyphenated(d: string): string
    requires |d| == 32
  {
    d[0..8] + "-" + d[8..12] + "-" + d[12..16] + "-" + d[16..20] + "-" + d[20..]
  }

  // ---------------------------------------------------------------------------------------
  // Integers
  // ---------------------------------------------------------------------------------------

  predicate IsBlank(c: char) {
    c == ' ' || (9 as char) <= c <= (13 as char)
  }

  predicate IsDigit(c: char) {
    '0' <= c <= '9'
  }

  function TrimLeft(s: string): string {
    if s != "" && IsBlank(s[0]) then TrimLeft(s[1..]) else s
  }

  function TrimRight(s: string): string {
    if s != "" && IsBlank(s[|s| - 1]) then TrimRight(s[..|s| - 1]) else s
  }

  function DigitValue(c: char): nat
    requires IsDigit(c)
  {
    c as int - '0' as int
  }

  function ParseDigits(s: string): Option<nat> {
    if s == "" then None
    else if !IsDigit(s[|s| - 1]) then None
    else if |s| == 1 then Some(DigitValue(s[0]))
    else
      var high := ParseDigits(s[..|s| - 1]);
      if high.None? then None else Some(high.value * 10 + DigitValue(s[|s| - 1]))
  }

  function ParseInteger(source: string): Option<int> {
    var s := TrimRight(TrimLeft(source));
    if s == "" then None
    else if s[0] == '-' || s[0] == '+' then
      var digits := ParseDigits(s[1..]);
      if digits.None? then None
      else
        var n: int := digits.value;
        Some(if s[0] == '-' then 0 - n else n)
    else
      match ParseDigits(s)
      case None => None
      case Some(n) => Some(n)
  }

  function DigitChar(d: nat): char
    requires d < 10
  {
    '0' + d as char
  }

  function PrintNat(n: nat): string {
    if n < 10 then [DigitChar(n)] else PrintNat(n / 10) + [DigitChar(n % 10)]
  }

  function PrintInteger(n: int): string {
    if n < 0 then "-" + PrintNat(-n) else PrintNat(n)
  }

  const MAX_SAFE_INTEGER: int := 9_007_199_254_740_991

  predicate InRange(kind: Kind, n: int) {
    match kind
    case SmallInt => -32_768 <= n <= 32_767
    case Integer => -2_147_483_648 <= n <= 2_147_483_647
    case BigInt => -9_223_372_036_854_775_808 <= n <= 9_223_372_036_854_775_807
    case _ => false
  }

  /** A safe integer is a number; a larger one keeps its text. */
  function IntegerIdentity(n: int): Identity {
    var text := PrintInteger(n);
    Identity(if -MAX_SAFE_INTEGER <= n <= MAX_SAFE_INTEGER then Number(n) else String(text), text)
  }

  // ---------------------------------------------------------------------------------------
  // The codec
  // ---------------------------------------------------------------------------------------

  /** `raw` is the value as a string; `None` for null and undefined. */
  function CanonicalizeIdentity(kind: Kind, raw: Option<string>): Result<Identity, Error> {
    if raw.None? then Err(InvalidIdentity)
    else
      match kind
      case Uuid =>
        var digits := UuidDigits(raw.value);
        if digits.None? then Err(InvalidIdentity)
        else var text := Lower(Hyphenated(digits.value)); Ok(Identity(String(text), text))
      case Text => Ok(Identity(String(raw.value), raw.value))
      case Unsupported => Err(UnsupportedType)
      case _ =>
        var n := ParseInteger(raw.value);
        if n.None? || !InRange(kind, n.value) then Err(InvalidIdentity) else Ok(IntegerIdentity(n.value))
  }

  /** A value as the string it is read back from. */
  function Printed(v: Value): string {
    match v
    case Number(n) => PrintInteger(n)
    case String(s) => s
  }

  /** What a spelling denotes: 32 digits, an integer, or the text itself. */
  datatype Denotation = Digits(d: string) | Whole(n: int) | Plain(s: string) | Nothing

  function Denotes(kind: Kind, source: string): Denotation {
    match kind
    case Uuid =>
      var digits := UuidDigits(source);
      if digits.None? then Nothing else Digits(Lower(digits.value))
    case Text => Plain(source)
    case Unsupported => Nothing
    case _ =>
      var n := ParseInteger(source);
      if n.Some? && InRange(kind, n.value) then Whole(n.value) else Nothing
  }

  // ---------------------------------------------------------------------------------------
  // Integers read back
  // ---------------------------------------------------------------------------------------

  lemma {:induction false} PrintedNatIsDigits(n: nat)
    ensures PrintNat(n) != "" && forall i :: 0 <= i < |PrintNat(n)| ==> IsDigit(PrintNat(n)[i])
  {
    if n >= 10 {
      PrintedNatIsDigits(n / 10);
    }
  }

  lemma {:induction false} NatReadsBack(n: nat)
    ensures ParseDigits(PrintNat(n)) == Some(n)
  {
    if n >= 10 {
      NatReadsBack(n / 10);
      PrintedNatIsDigits(n / 10);
      var s := PrintNat(n);
      assert s[..|s| - 1] == PrintNat(n / 10);
    }
  }

  lemma {:induction false} NoBlanks(s: string)
    requires s != "" && !IsBlank(s[0]) && !IsBlank(s[|s| - 1])
    ensures TrimRight(TrimLeft(s)) == s
  {}

  lemma IntegerReadsBack(n: int)
    ensures ParseInteger(PrintInteger(n)) == Some(n)
  {
    var m: nat := if n < 0 then -n else n;
    PrintedNatIsDigits(m);
    NatReadsBack(m);
    var s := PrintInteger(n);
    assert s[|s| - 1] == PrintNat(m)[|PrintNat(m)| - 1];
    NoBlanks(s);
    if n < 0 {
      assert s[1..] == PrintNat(m);
    }
  }

  // ---------------------------------------------------------------------------------------
  // UUIDs read back
  // ---------------------------------------------------------------------------------------

  lemma {:induction false} SplitOne(g: string)
    requires '-' !in g
    ensures Split(g) == [g]
  {
    if g != "" {
      SplitOne(g[1..]);
      assert [g[0]] + g[1..] == g;
      assert [g[1..]][1..] == [];
    }
  }

  lemma {:induction false} SplitAtHyphen(g: string, rest: string)
    requires '-' !in g
    ensures Split(g + "-" + rest) == [g] + Split(rest)
  {
    var s := g + "-" + rest;
    if g == "" {
      assert s[1..] == rest;
    } else {
      assert s[1..] == g[1..] + "-" + rest;
      SplitAtHyphen(g[1..], rest);
      assert [g[0]] + g[1..] == g;
      assert ([g[1..]] + Split(rest))[1..] == Split(rest);
    }
  }

  lemma HexHasNoHyphen(s: string)
    requires AllHex(s)
    ensures '-' !in s
  {}

  lemma HyphenatedSplits(d: string)
    requires |d| == 32 && AllHex(d)
    ensures Split(Hyphenated(d)) == [d[0..8], d[8..12], d[12..16], d[16..20], d[20..]]
  {
    HexHasNoHyphen(d);
    var e := d[20..];
    var c := d[16..20] + "-" + e;
    var b := d[12..16] + "-" + c;
    var a := d[8..12] + "-" + b;
    assert Hyphenated(d) == d[0..8] + "-" + a;
    SplitAtHyphen(d[0..8], a);
    SplitAtHyphen(d[8..12], b);
    SplitAtHyphen(d[12..16], c);
    SplitAtHyphen(d[16..20], e);
    SplitOne(e);
  }

  lemma ConcatFive(a: string, b: string, c: string, d: string, e: string)
    ensures Concat([a, b, c, d, e]) == a + b + c + d + e
  {
    assert [e][1..] == [] && Concat([e]) == e;
    assert [a, b, c, d, e][1..] == [b, c, d, e] && [b, c, d, e][1..] == [c, d, e] && [c, d, e][1..] == [d, e] && [d, e][1..] == [e];
    assert Concat([d, e]) == d + e;
    assert Concat([c, d, e]) == c + (d + e) == c + d + e;
    assert Concat([b, c, d, e]) == b + (c + d + e) == b + c + d + e;
  }

  lemma UuidReadsBack(d: string)
    requires |d| == 32 && AllHex(d)
    ensures UuidDigits(Hyphenated(d)) == Some(d)
  {
    HyphenatedSplits(d);
    var groups := [d[0..8], d[8..12], d[12..16], d[16..20], d[20..]];
    ConcatFive(d[0..8], d[8..12], d[12..16], d[16..20], d[20..]);
    assert d[0..8] + d[8..12] + d[12..16] + d[16..20] + d[20..] == d;
    var text := Hyphenated(d);
    assert text[0] == d[0] && text[|text| - 1] == d[31];
    assert forall i :: 0 <= i < |groups| ==> ValidGroup(groups[i]);
  }

  lemma {:induction false} ConcatIsHex(groups: seq<string>)
    requires forall i :: 0 <= i < |groups| ==> ValidGroup(groups[i])
    ensures AllHex(Concat(groups))
  {
    if groups != [] {
      ConcatIsHex(groups[1..]);
    }
  }

  lemma LowerDigits(d: string)
    requires |d| == 32 && AllHex(d)
    ensures Lower(Hyphenated(d)) == Hyphenated(Lower(d)) && AllHex(Lower(d)) && Lower(Lower(d)) == Lower(d)
  {
    assert |Hyphenated(d)| == |Hyphenated(Lower(d))|;
  }

  lemma DigitsAreHex(source: string)
    requires UuidDigits(source).Some?
    ensures |UuidDigits(source).value| == 32 && AllHex(UuidDigits(source).value)
  {
    ConcatIsHex(Split(Unwrapped(source).value));
  }

  // ---------------------------------------------------------------------------------------
  // Canonical forms
  // ---------------------------------------------------------------------------------------

  lemma CanonicalUuid(source: string)
    requires UuidDigits(source).Some?
    ensures var text := Lower(Hyphenated(UuidDigits(source).value));
            UuidDigits(text) == Some(Lower(UuidDigits(source).value)) && Lower(Hyphenated(Lower(UuidDigits(source).value))) == text
  {
    var d := UuidDigits(source).value;
    DigitsAreHex(source);
    LowerDigits(d);
    UuidReadsBack(Lower(d));
    LowerDigits(Lower(d));
  }

  /** Reading back either the text or the value gives the identity again. */
  lemma CanonicalizationIsIdempotent(kind: Kind, raw: Option<string>)
    requires CanonicalizeIdentity(kind, raw).Ok?
    ensures var id := CanonicalizeIdentity(kind, raw).value;
            && CanonicalizeIdentity(kind, Some(id.text)) == Ok(id)
            && CanonicalizeIdentity(kind, Some(Printed(id.value))) == Ok(id)
  {
    hide UuidDigits, ParseInteger, PrintInteger, Lower, Hyphenated;
    if kind == Uuid {
      CanonicalUuid(raw.value);
    } else if kind != Text {
      IntegerReadsBack(ParseInteger(raw.value).value);
    }
  }

  /** A spelling is accepted exactly when it denotes something. */
  lemma AcceptedIffDenotes(kind: Kind, source: string)
    ensures CanonicalizeIdentity(kind, Some(source)).Ok? <==> Denotes(kind, source) != Nothing
  {
    hide UuidDigits, ParseInteger, PrintInteger, Lower, Hyphenated;
    if kind == Uuid && UuidDigits(source).Some? {
      DigitsAreHex(source);
    }
  }

  /** Two spellings share an identity exactly when they denote the same value. */
  lemma SameIdentityIffSameDenotation(kind: Kind, a: string, b: string)
    requires CanonicalizeIdentity(kind, Some(a)).Ok? && CanonicalizeIdentity(kind, Some(b)).Ok?
    ensures CanonicalizeIdentity(kind, Some(a)) == CanonicalizeIdentity(kind, Some(b)) <==> Denotes(kind, a) == Denotes(kind, b)
    ensures CanonicalizeIdentity(kind, Some(a)) == CanonicalizeIdentity(kind, Some(b))
       <==> CanonicalizeIdentity(kind, Some(a)).value.text == CanonicalizeIdentity(kind, Some(b)).value.text
  {
    hide UuidDigits, ParseInteger, PrintInteger, Lower, Hyphenated;
    if kind == Uuid {
      CanonicalUuid(a);
      CanonicalUuid(b);
    } else if kind != Text {
      IntegerReadsBack(ParseInteger(a).value);
      IntegerReadsBack(ParseInteger(b).value);
    }
  }

  predicate IsLowerHex(c: char) {
    '0' <= c <= '9' || 'a' <= c <= 'f'
  }

  lemma HyphenatedForm(d: string)
    requires |d| == 32 && forall i :: 0 <= i < 32 ==> IsLowerHex(d[i])
    ensures |Hyphenated(d)| == 36
    ensures forall i :: 0 <= i < 36 ==> if i in {8, 13, 18, 23} then Hyphenated(d)[i] == '-' else IsLowerHex(Hyphenated(d)[i])
  {
    hide IsLowerHex;
    var t := Hyphenated(d);
    assert forall i :: 0 <= i < 8 ==> t[i] == d[i];
    assert forall i :: 9 <= i < 13 ==> t[i] == d[i - 1];
    assert forall i :: 14 <= i < 18 ==> t[i] == d[i - 2];
    assert forall i :: 19 <= i < 23 ==> t[i] == d[i - 3];
    assert forall i :: 24 <= i < 36 ==> t[i] == d[i - 4];
  }

  /** An accepted uuid is printed as 8-4-4-4-12 lower-case digits. */
  lemma UuidForm(source: string)
    requires CanonicalizeIdentity(Uuid, Some(source)).Ok?
    ensures var text := CanonicalizeIdentity(Uuid, Some(source)).value.text;
            |text| == 36 && forall i :: 0 <= i < 36 ==> if i in {8, 13, 18, 23} then text[i] == '-' else IsLowerHex(text[i])
  {
    var d := UuidDigits(source).value;
    DigitsAreHex(source);
    LowerDigits(d);
    assert forall i :: 0 <= i < 32 ==> IsLowerHex(Lower(d)[i]);
    hide UuidDigits, Lower, Hyphenated, IsLowerHex;
    HyphenatedForm(Lower(d));
  }

  function Power(base: nat, n: nat): nat {
    if n == 0 then 1 else base * Power(base, n - 1)
  }

  lemma PowerSplits(a: nat, b: nat)
    ensures Power(2, a + b) == Power(2, a) * Power(2, b)
  {
    if a > 0 {
      PowerSplits(a - 1, b);
      assert Power(2, a + b) == 2 * (Power(2, a - 1) * Power(2, b));
    }
  }

  function Bits(kind: Kind): nat {
    match kind
    case SmallInt => 16
    case Integer => 32
    case BigInt => 64
    case _ => 0
  }

  /** Each integer type holds the two's-complement range of its width. */
  lemma RangesAreWords(kind: Kind, n: int)
    requires kind == SmallInt || kind == Integer || kind == BigInt
    ensures InRange(kind, n) <==> -(Power(2, Bits(kind) - 1) as int) <= n < Power(2, Bits(kind) - 1)
  {
    assert Power(2, 7) == 128 && Power(2, 8) == 256;
    PowerSplits(7, 8);
    assert Power(2, 15) == 32_768;
    PowerSplits(8, 8);
    PowerSplits(15, 16);
    assert Power(2, 31) == 2_147_483_648;
    PowerSplits(16, 16);
    PowerSplits(31, 32);
    assert Power(2, 63) == 9_223_372_036_854_775_808;
  }
}
