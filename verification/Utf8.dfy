/** UTF-8 (RFC 3629) and the two orders of names: by code points and by encoded bytes. */
module Utf8 {
  import opened ByteStrings
  import opened Options

  /** A Unicode scalar value: what a name without lone surrogates is made of. */
  type CodePoint = c: int | 0 <= c < 0xD800 || 0xE000 <= c < 0x110000

  function EncodeChar(c: CodePoint): (s: seq<byte>)
    ensures 1 <= |s| <= 4
  {
    if c < 0x80 then [c]
    else if c < 0x800 then [0xC0 + c / 64, 0x80 + c % 64]
    else if c < 0x10000 then [0xE0 + c / 4096, 0x80 + c / 64 % 64, 0x80 + c % 64]
    else [0xF0 + c / 262144, 0x80 + c / 4096 % 64, 0x80 + c / 64 % 64, 0x80 + c % 64]
  }

  /** `name.encode("utf-8")`. */
  function Encode(name: seq<CodePoint>): (s: seq<byte>)
  {
    if name == [] then [] else EncodeChar(name[0]) + Encode(name[1..])
  }

  predicate Continuation(b: byte)
  {
    0x80 <= b < 0xC0
  }

  datatype Decoded = Decoded(codePoint: CodePoint, size: nat)

  /** The first character of `s`; overlong forms, surrogates and stray bytes are errors. */
  function DecodeChar(s: seq<byte>): (r: Option<Decoded>)
    ensures r.Some? ==> 1 <= r.value.size <= |s|
  {
    if s == [] then None
    else
      var lead: int := s[0];
      if lead < 0x80 then Some(Decoded(lead, 1))
      else if 0xC0 <= lead < 0xE0 && |s| >= 2 && Continuation(s[1]) then
        var c := (lead - 0xC0) * 64 + (s[1] - 0x80);
        if c >= 0x80 then Some(Decoded(c, 2)) else None
      else if 0xE0 <= lead < 0xF0 && |s| >= 3 && Continuation(s[1]) && Continuation(s[2]) then
        var second: int, third: int := s[1] - 0x80, s[2] - 0x80;
        var c := (lead - 0xE0) * 4096 + second * 64 + third;
        if c >= 0x800 && !(0xD800 <= c < 0xE000) then Some(Decoded(c, 3)) else None
      else if 0xF0 <= lead < 0xF8 && |s| >= 4 && Continuation(s[1]) && Continuation(s[2]) && Continuation(s[3]) then
        var second: int, third: int, fourth: int := s[1] - 0x80, s[2] - 0x80, s[3] - 0x80;
        var c := (lead - 0xF0) * 262144 + second * 4096 + third * 64 + fourth;
        if 0x10000 <= c < 0x110000 then Some(Decoded(c, 4)) else None
      else None
  }

  /** `s.decode("utf-8")`. */
  function Decode(s: seq<byte>): (r: Option<seq<CodePoint>>)
    decreases |s|
  {
    if s == [] then Some([])
    else
      match DecodeChar(s)
      case None => None
      case Some(Decoded(c, size)) =>
        match Decode(s[size..])
        case None => None
        case Some(rest) => Some([c] + rest)
  }

  lemma Digits(c: nat)
    ensures c == c / 64 * 64 + c % 64
    ensures c / 64 == c / 4096 * 64 + c / 64 % 64
    ensures c / 4096 == c / 262144 * 64 + c / 4096 % 64
  {
  }

  lemma ShortRoundTrip(c: CodePoint, rest: seq<byte>)
    requires c < 0x800
    ensures DecodeChar(EncodeChar(c) + rest) == Some(Decoded(c, |EncodeChar(c)|))
  {
    Digits(c);
    var s := EncodeChar(c) + rest;
    assert forall i :: 0 <= i < |EncodeChar(c)| ==> s[i] == EncodeChar(c)[i];
  }

  lemma LongRoundTrip(c: CodePoint, rest: seq<byte>)
    requires c >= 0x800
    ensures DecodeChar(EncodeChar(c) + rest) == Some(Decoded(c, |EncodeChar(c)|))
  {
    Digits(c);
    var s := EncodeChar(c) + rest;
    assert forall i :: 0 <= i < |EncodeChar(c)| ==> s[i] == EncodeChar(c)[i];
  }

  lemma CharRoundTrip(c: CodePoint, rest: seq<byte>)
    ensures DecodeChar(EncodeChar(c) + rest) == Some(Decoded(c, |EncodeChar(c)|))
  {
    hide EncodeChar, DecodeChar;
    if c < 0x800 {
      ShortRoundTrip(c, rest);
    } else {
      LongRoundTrip(c, rest);
    }
  }

  lemma {:induction false} RoundTrip(name: seq<CodePoint>)
    ensures Decode(Encode(name)) == Some(name)
  {
    hide EncodeChar, DecodeChar;
    if name != [] {
      var first, rest := EncodeChar(name[0]), Encode(name[1..]);
      CharRoundTrip(name[0], rest);
      assert (first + rest)[|first|..] == rest;
      RoundTrip(name[1..]);
      assert [name[0]] + name[1..] == name;
    }
  }

  // Order

  /** Lexicographic order, as Python compares strings and bytes. */
  predicate Less(a: seq<int>, b: seq<int>)
  {
    b != [] && (a == [] || a[0] < b[0] || (a[0] == b[0] && Less(a[1..], b[1..])))
  }

  lemma {:induction false} LessIrreflexive(a: seq<int>)
    ensures !Less(a, a)
  {
    if a != [] {
      LessIrreflexive(a[1..]);
    }
  }

  lemma {:induction false} LessTransitive(a: seq<int>, b: seq<int>, c: seq<int>)
    requires Less(a, b) && Less(b, c)
    ensures Less(a, c)
  {
    if a != [] && a[0] == b[0] == c[0] {
      LessTransitive(a[1..], b[1..], c[1..]);
    }
  }

  lemma {:induction false} LessTotal(a: seq<int>, b: seq<int>)
    requires a != b
    ensures Less(a, b) || Less(b, a)
  {
    if a != [] && b != [] && a[0] == b[0] {
      assert a == [a[0]] + a[1..] && b == [b[0]] + b[1..];
      LessTotal(a[1..], b[1..]);
    }
  }

  lemma {:induction false} CommonPrefix(p: seq<int>, a: seq<int>, b: seq<int>)
    ensures Less(p + a, p + b) <==> Less(a, b)
  {
    if p == [] {
      assert p + a == a && p + b == b;
    } else {
      assert (p + a)[1..] == p[1..] + a && (p + b)[1..] == p[1..] + b;
      CommonPrefix(p[1..], a, b);
    }
  }

  /** The first difference decides, whatever follows. */
  lemma FirstDifference(a: seq<int>, b: seq<int>, k: nat)
    requires k < |a| && k < |b| && a[..k] == b[..k] && a[k] < b[k]
    ensures Less(a, b) && !Less(b, a)
  {
    assert a == a[..k] + a[k..] && b == b[..k] + b[k..];
    CommonPrefix(a[..k], a[k..], b[k..]);
    CommonPrefix(a[..k], b[k..], a[k..]);
  }

  /** Of two numbers the smaller has the smaller digit where their base 64 digits first differ. */
  lemma DigitOrder(c: nat, d: nat)
    requires c < d
    ensures c / 64 < d / 64 || (c / 64 == d / 64 && c % 64 < d % 64)
    ensures c / 4096 < d / 4096 || (c / 4096 == d / 4096 && c / 64 % 64 < d / 64 % 64)
            || (c / 4096 == d / 4096 && c / 64 % 64 == d / 64 % 64 && c % 64 < d % 64)
    ensures c / 262144 < d / 262144 || (c / 262144 == d / 262144 && c / 4096 % 64 < d / 4096 % 64)
            || (c / 262144 == d / 262144 && c / 4096 % 64 == d / 4096 % 64
                && (c / 64 % 64 < d / 64 % 64 || (c / 64 % 64 == d / 64 % 64 && c % 64 < d % 64)))
  {
    Digits(c);
    Digits(d);
  }

  lemma SameSizeOrder(c: CodePoint, d: CodePoint) returns (k: nat)
    requires c < d && |EncodeChar(c)| == |EncodeChar(d)|
    ensures k < |EncodeChar(c)|
    ensures EncodeChar(c)[..k] == EncodeChar(d)[..k] && EncodeChar(c)[k] < EncodeChar(d)[k]
  {
    DigitOrder(c, d);
    var a, b := EncodeChar(c), EncodeChar(d);
    k := if a[0] != b[0] then 0 else if a[1] != b[1] then 1 else if a[2] != b[2] then 2 else 3;
  }

  /** A smaller code point is encoded by bytes that are smaller where they first differ. */
  lemma CharOrder(c: CodePoint, d: CodePoint) returns (k: nat)
    requires c < d
    ensures k < |EncodeChar(c)| && k < |EncodeChar(d)|
    ensures EncodeChar(c)[..k] == EncodeChar(d)[..k] && EncodeChar(c)[k] < EncodeChar(d)[k]
  {
    if |EncodeChar(c)| == |EncodeChar(d)| {
      k := SameSizeOrder(c, d);
    } else {
      k := 0;
    }
  }

  lemma FirstCharDecides(c: CodePoint, d: CodePoint, x: seq<byte>, y: seq<byte>)
    requires c < d
    ensures Less(EncodeChar(c) + x, EncodeChar(d) + y) && !Less(EncodeChar(d) + y, EncodeChar(c) + x)
  {
    hide EncodeChar;
    var k := CharOrder(c, d);
    var a, b := EncodeChar(c) + x, EncodeChar(d) + y;
    assert a[..k] == EncodeChar(c)[..k] && b[..k] == EncodeChar(d)[..k];
    FirstDifference(a, b, k);
  }

  /** Section 1 of RFC 3629: the byte order of UTF-8 strings is the code point order of the names. */
  lemma {:induction false} OrderPreserved(a: seq<CodePoint>, b: seq<CodePoint>)
    ensures Less(Encode(a), Encode(b)) <==> Less(a, b)
  {
    hide EncodeChar;
    if a != [] && b != [] {
      if a[0] == b[0] {
        CommonPrefix(EncodeChar(a[0]), Encode(a[1..]), Encode(b[1..]));
        OrderPreserved(a[1..], b[1..]);
      } else if a[0] < b[0] {
        FirstCharDecides(a[0], b[0], Encode(a[1..]), Encode(b[1..]));
      } else {
        FirstCharDecides(b[0], a[0], Encode(b[1..]), Encode(a[1..]));
      }
    }
  }
}
