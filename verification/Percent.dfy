/**
  encodeURIComponent and decodeURIComponent on UTF-16 code units: section 15.1.3 of
  ECMA-262 edition 5.1, over the UTF-8 of section 3 of RFC 3629.
 */
module Percent {
  import opened Wrappers

  type Unit = n: nat | n < 0x10000

  type Text = seq<Unit>

  type Octet = n: nat | n < 0x100

  const PERCENT: Unit := 0x25

  predicate IsAlphanumeric(c: Unit) {
    0x30 <= c <= 0x39 || 0x41 <= c <= 0x5A || 0x61 <= c <= 0x7A
  }

  /** Letters, digits and - _ . ! ~ * ' ( ) stand for themselves. */
  predicate IsUnescaped(c: Unit) {
    IsAlphanumeric(c) || c in [0x2D, 0x5F, 0x2E, 0x21, 0x7E, 0x2A, 0x27, 0x28, 0x29]
  }

  predicate IsHigh(c: Unit) { 0xD800 <= c <= 0xDBFF }

  predicate IsLow(c: Unit) { 0xDC00 <= c <= 0xDFFF }

  /** Every surrogate is half of a pair. */
  predicate WellFormed(s: Text) {
    && (forall i :: 0 <= i < |s| && IsHigh(s[i]) ==> i + 1 < |s| && IsLow(s[i + 1]))
    && (forall i :: 0 <= i < |s| && IsLow(s[i]) ==> i > 0 && IsHigh(s[i - 1]))
  }

  type Scalar = v: nat | v < 0xD800 || 0xE000 <= v < 0x110000

  /** The first code point and how many units it takes; None for a lone surrogate. */
  function TakeScalar(s: Text): Option<(Scalar, nat)>
    requires s != []
  {
    if IsLow(s[0]) then None
    else if !IsHigh(s[0]) then Some((s[0], 1))
    else if |s| == 1 || !IsLow(s[1]) then None
    else
      var high: int, low: int := s[0], s[1];
      Some(((high - 0xD800) * 0x400 + (low - 0xDC00) + 0x10000, 2))
  }

  function Units(v: Scalar): Text {
    if v < 0x10000 then [v] else [0xD800 + (v - 0x10000) / 0x400, 0xDC00 + (v - 0x10000) % 0x400]
  }

  function Utf8(v: Scalar): seq<Octet> {
    if v < 0x80 then [v]
    else if v < 0x800 then [0xC0 + v / 0x40, 0x80 + v % 0x40]
    else if v < 0x10000 then [0xE0 + v / 0x1000, 0x80 + v / 0x40 % 0x40, 0x80 + v % 0x40]
    else [0xF0 + v / 0x40000, 0x80 + v / 0x1000 % 0x40, 0x80 + v / 0x40 % 0x40, 0x80 + v % 0x40]
  }

  function HexDigit(n: nat): Unit
    requires n < 16
  {
    if n < 10 then 0x30 + n else 0x41 + (n - 10)
  }

  function HexValue(c: Unit): Option<nat> {
    if 0x30 <= c <= 0x39 then Some(c - 0x30)
    else if 0x41 <= c <= 0x46 then Some(c - 0x41 + 10)
    else if 0x61 <= c <= 0x66 then Some(c - 0x61 + 10)
    else None
  }

  function Escape(b: Octet): Text {
    [PERCENT, HexDigit(b / 16), HexDigit(b % 16)]
  }

  function EscapeAll(bs: seq<Octet>): Text {
    if bs == [] then [] else Escape(bs[0]) + EscapeAll(bs[1..])
  }

  /** None is the URIError. */
  function Encode(s: Text): Option<Text>
    decreases |s|
  {
    if s == [] then Some([])
    else if IsUnescaped(s[0]) then
      match Encode(s[1..]) case None => None case Some(rest) => Some([s[0]] + rest)
    else
      match TakeScalar(s)
      case None => None
      case Some((v, n)) =>
        match Encode(s[n..]) case None => None case Some(rest) => Some(EscapeAll(Utf8(v)) + rest)
  }

  function TakeEscape(s: Text): Option<Octet> {
    if |s| < 3 || s[0] != PERCENT || HexValue(s[1]).None? || HexValue(s[2]).None? then None
    else HexBound(s[1]); HexBound(s[2]); Some(HexValue(s[1]).value * 16 + HexValue(s[2]).value)
  }

  lemma HexBound(c: Unit)
    ensures HexValue(c).Some? ==> HexValue(c).value < 16
  {
  }

  /** The next `n` escapes, all continuation octets. */
  function TakeContinuations(s: Text, n: nat): Option<seq<Octet>> {
    if n == 0 then Some([])
    else
      match TakeEscape(s)
      case None => None
      case Some(b) =>
        if b < 0x80 || b >= 0xC0 then None
        else match TakeContinuations(s[3..], n - 1) case None => None case Some(bs) => Some([b] + bs)
  }

  /** How many octets a lead octet announces; 0 for one that cannot lead. */
  function Announced(b: Octet): nat {
    if b < 0x80 then 1 else if b < 0xC0 then 0 else if b < 0xE0 then 2 else if b < 0xF0 then 3 else if b < 0xF8 then 4 else 0
  }

  /** The code point of a complete octet group; overlong forms, surrogates and values past 10FFFF are invalid. */
  function FromUtf8(b: Octet, cs: seq<Octet>): Option<Scalar>
    requires Announced(b) == |cs| + 1 && forall k :: 0 <= k < |cs| ==> 0x80 <= cs[k] < 0xC0
  {
    var bits: seq<int> := seq(|cs|, k requires 0 <= k < |cs| => cs[k] - 0x80);
    var v: int :=
      if |cs| == 0 then b
      else if |cs| == 1 then (b - 0xC0) * 0x40 + bits[0]
      else if |cs| == 2 then ((b - 0xE0) * 0x40 + bits[0]) * 0x40 + bits[1]
      else (((b - 0xF0) * 0x40 + bits[0]) * 0x40 + bits[1]) * 0x40 + bits[2];
    var least := if |cs| == 0 then 0 else if |cs| == 1 then 0x80 else if |cs| == 2 then 0x800 else 0x10000;
    if v < least || 0xD800 <= v < 0xE000 || v >= 0x110000 then None else Some(v)
  }

  lemma {:induction false} ContinuationsInRange(s: Text, n: nat)
    ensures TakeContinuations(s, n).Some? ==>
      var cs := TakeContinuations(s, n).value;
      |cs| == n && |s| >= 3 * n && forall k :: 0 <= k < |cs| ==> 0x80 <= cs[k] < 0xC0
  {
    if n > 0 && TakeContinuations(s, n).Some? {
      ContinuationsInRange(s[3..], n - 1);
    }
  }

  /** None is the URIError. */
  function Decode(s: Text): Option<Text>
    decreases |s|
  {
    if s == [] then Some([])
    else if s[0] != PERCENT then
      match Decode(s[1..]) case None => None case Some(rest) => Some([s[0]] + rest)
    else
      match TakeEscape(s)
      case None => None
      case Some(b) =>
        if Announced(b) == 0 then None
        else
          match TakeContinuations(s[3..], Announced(b) - 1)
          case None => None
          case Some(cs) =>
            ContinuationsInRange(s[3..], Announced(b) - 1);
            match FromUtf8(b, cs)
            case None => None
            case Some(v) =>
              match Decode(s[3 * Announced(b)..]) case None => None case Some(rest) => Some(Units(v) + rest)
  }

  lemma InRow(row: string, first: nat, c: Unit)
    requires forall k :: 0 <= k < |row| ==> row[k] as int == first + k
    ensures (exists ch :: ch in row && ch as int == c) <==> first <= c < first + |row|
  {
    if first <= c < first + |row| {
      assert row[c - first] in row;
    }
  }

  /** The unit is one of these characters. */
  ghost predicate Among(c: Unit, chars: string) {
    exists ch :: ch in chars && ch as int == c
  }

  /** The characters that are not escaped, spelled out. */
  lemma UnescapedSet(c: Unit)
    ensures IsUnescaped(c) <==>
      || Among(c, "ABCDEFGHIJKLMNOPQRSTUVWXYZ") || Among(c, "abcdefghijklmnopqrstuvwxyz") || Among(c, "0123456789")
      || Among(c, "-_.!~*'()")
  {
    InRow("ABCDEFGHIJKLMNOPQRSTUVWXYZ", 0x41, c);
    InRow("abcdefghijklmnopqrstuvwxyz", 0x61, c);
    InRow("0123456789", 0x30, c);
    Marks(c);
  }

  lemma Marks(c: Unit)
    ensures Among(c, "-_.!~*'()") <==> c in [0x2D, 0x5F, 0x2E, 0x21, 0x7E, 0x2A, 0x27, 0x28, 0x29]
  {
    var marks := "-_.!~*'()";
    assert marks == ['-', '_', '.', '!', '~', '*', '\'', '(', ')'];
    if c in [0x2D, 0x5F, 0x2E, 0x21, 0x7E, 0x2A, 0x27, 0x28, 0x29] {
      assert (c as char) in marks;
    }
  }

  /** Escapes use capital hexadecimal digits, the high one first. */
  lemma EscapeDigits(b: Octet)
    ensures var digits := "0123456789ABCDEF";
      Escape(b) == ['%' as int, digits[b / 16] as int, digits[b % 16] as int]
  {
  }

  // ---------- round trips ----------

  lemma EscapeTaken(b: Octet, rest: Text)
    ensures TakeEscape(Escape(b) + rest) == Some(b) && (Escape(b) + rest)[3..] == rest
  {
  }

  lemma {:induction false} ContinuationsTaken(cs: seq<Octet>, rest: Text)
    requires forall k :: 0 <= k < |cs| ==> 0x80 <= cs[k] < 0xC0
    ensures TakeContinuations(EscapeAll(cs) + rest, |cs|) == Some(cs)
    ensures |EscapeAll(cs)| == 3 * |cs| && (EscapeAll(cs) + rest)[3 * |cs|..] == rest
  {
    if cs != [] {
      var more := EscapeAll(cs[1..]) + rest;
      assert EscapeAll(cs) + rest == Escape(cs[0]) + more;
      EscapeTaken(cs[0], more);
      ContinuationsTaken(cs[1..], rest);
      assert (EscapeAll(cs) + rest)[3..] == more;
      assert [cs[0]] + cs[1..] == cs;
    }
  }

  /** The octets of a code point are a lead octet and its continuations, and give the code point back. */
  lemma Utf8RoundTrip(v: Scalar)
    ensures var bs := Utf8(v);
      && Announced(bs[0]) == |bs|
      && (forall k :: 1 <= k < |bs| ==> 0x80 <= bs[k] < 0xC0)
      && FromUtf8(bs[0], bs[1..]) == Some(v)
  {
    assert v == v / 0x40 * 0x40 + v % 0x40;
    assert v / 0x40 == v / 0x40 / 0x40 * 0x40 + v / 0x40 % 0x40;
    assert v / 0x40 / 0x40 == v / 0x1000;
    assert v / 0x1000 == v / 0x1000 / 0x40 * 0x40 + v / 0x1000 % 0x40;
    assert v / 0x1000 / 0x40 == v / 0x40000;
  }

  lemma DecodeGroup(b: Octet, cs: seq<Octet>, v: Scalar, rest: Text)
    requires Announced(b) == |cs| + 1 && forall k :: 0 <= k < |cs| ==> 0x80 <= cs[k] < 0xC0
    requires FromUtf8(b, cs) == Some(v)
    ensures Decode(Escape(b) + (EscapeAll(cs) + rest)) ==
            match Decode(rest) case None => None case Some(r) => Some(Units(v) + r)
  {
    var tail := EscapeAll(cs) + rest;
    var s := Escape(b) + tail;
    EscapeTaken(b, tail);
    ContinuationsTaken(cs, rest);
    assert s[3 * Announced(b)..] == tail[3 * |cs|..] == rest;
  }

  lemma DecodeEscaped(v: Scalar, rest: Text)
    ensures Decode(EscapeAll(Utf8(v)) + rest) ==
            match Decode(rest) case None => None case Some(r) => Some(Units(v) + r)
  {
    var bs := Utf8(v);
    Utf8RoundTrip(v);
    DecodeGroup(bs[0], bs[1..], v, rest);
    assert EscapeAll(bs) + rest == Escape(bs[0]) + (EscapeAll(bs[1..]) + rest);
  }

  lemma UnitsOfScalar(s: Text)
    requires s != [] && TakeScalar(s).Some?
    ensures var (v, n) := TakeScalar(s).value; 0 < n <= |s| && Units(v) == s[..n]
  {
  }

  /** Text without a percent sign decodes to itself. */
  lemma {:induction false} DecodePlain(s: Text)
    requires PERCENT !in s
    ensures Decode(s) == Some(s)
  {
    if s != [] {
      DecodePlain(s[1..]);
      assert s == [s[0]] + s[1..];
    }
  }

  /** What is encoded decodes to itself. */
  lemma {:induction false} EncodeRoundTrip(s: Text)
    requires Encode(s).Some?
    ensures Decode(Encode(s).value) == Some(s)
    decreases |s|
  {
    if s != [] {
      if IsUnescaped(s[0]) {
        EncodeRoundTrip(s[1..]);
        assert [s[0]] + Encode(s[1..]).value == Encode(s).value;
        assert Encode(s).value[1..] == Encode(s[1..]).value;
        assert s == [s[0]] + s[1..];
      } else {
        var (v, n) := TakeScalar(s).value;
        UnitsOfScalar(s);
        EncodeRoundTrip(s[n..]);
        DecodeEscaped(v, Encode(s[n..]).value);
        assert s == s[..n] + s[n..];
      }
    }
  }

  /** Unescaped characters are kept; any other code point is written as the escapes of its octets; one after the other. */
  lemma EncodeNext(s: Text)
    requires s != [] && Encode(s).Some?
    ensures IsUnescaped(s[0]) ==> Encode(s[1..]).Some? && Encode(s).value == [s[0]] + Encode(s[1..]).value
    ensures !IsUnescaped(s[0]) ==> exists v: Scalar ::
      && Units(v) <= s && Encode(s[|Units(v)|..]).Some?
      && Encode(s).value == EscapeAll(Utf8(v)) + Encode(s[|Units(v)|..]).value
  {
    if !IsUnescaped(s[0]) {
      var (v, n) := TakeScalar(s).value;
      UnitsOfScalar(s);
      assert |Units(v)| == n;
    }
  }

  /** Encoding succeeds on exactly the texts without lone surrogates. */
  lemma {:induction false} EncodeDefined(s: Text)
    ensures Encode(s).Some? <==> WellFormed(s)
    decreases |s|
  {
    if s != [] {
      if IsUnescaped(s[0]) || TakeScalar(s).Some? {
        var n := if IsUnescaped(s[0]) then 1 else TakeScalar(s).value.1;
        EncodeDefined(s[n..]);
        WellFormedTail(s, n);
      }
    } else {
      assert WellFormed(s);
    }
  }

  lemma WellFormedTail(s: Text, n: nat)
    requires s != [] && TakeScalar(s).Some? && n == TakeScalar(s).value.1
    ensures WellFormed(s) <==> WellFormed(s[n..])
  {
    var u := s[n..];
    assert forall i :: 0 <= i < |u| ==> u[i] == s[n + i];
    if WellFormed(u) {
      forall i | 0 <= i < |s| && IsHigh(s[i])
        ensures i + 1 < |s| && IsLow(s[i + 1])
      {
        if i >= n { assert IsHigh(u[i - n]); }
      }
      forall i | 0 <= i < |s| && IsLow(s[i])
        ensures i > 0 && IsHigh(s[i - 1])
      {
        if i >= n { assert IsLow(u[i - n]); }
      }
    }
    if WellFormed(s) {
      forall i | 0 <= i < |u| && IsHigh(u[i])
        ensures i + 1 < |u| && IsLow(u[i + 1])
      {
        assert IsHigh(s[n + i]);
      }
      forall i | 0 <= i < |u| && IsLow(u[i])
        ensures i > 0 && IsHigh(u[i - 1])
      {
        assert IsLow(s[n + i]) && IsHigh(s[n + i - 1]);
      }
    }
  }

  /** Different keys have different encodings. */
  lemma EncodeInjective(a: Text, b: Text)
    requires Encode(a).Some? && Encode(a) == Encode(b)
    ensures a == b
  {
    EncodeRoundTrip(a);
    EncodeRoundTrip(b);
  }

  /** Encoded text is made of unescaped characters and percent signs only. */
  predicate IsPlain(s: Text) {
    forall c :: c in s ==> IsUnescaped(c) || c == PERCENT
  }

  lemma {:induction false} EscapeAllPlain(bs: seq<Octet>)
    ensures IsPlain(EscapeAll(bs))
  {
    if bs != [] {
      EscapeAllPlain(bs[1..]);
      assert IsPlain(Escape(bs[0]));
    }
  }

  lemma {:induction false} EncodePlain(s: Text)
    requires Encode(s).Some?
    ensures IsPlain(Encode(s).value)
    ensures s != [] ==> Encode(s).value != []
    decreases |s|
  {
    if s != [] {
      if IsUnescaped(s[0]) {
        EncodePlain(s[1..]);
      } else {
        var (v, n) := TakeScalar(s).value;
        UnitsOfScalar(s);
        EncodePlain(s[n..]);
        EscapeAllPlain(Utf8(v));
      }
    }
  }
}
