/** The protocol buffers wire format, as far as the model needs it: Base 128 varints and
    length-delimited fields (Protocol Buffers documentation, "Encoding"). */
module ProtoWire {
  import opened ByteStrings
  import opened Options

  function Varint(n: nat): (s: seq<byte>)
    ensures s != []
    decreases n
  {
    if n < 128 then [n] else [128 + n % 128] + Varint(n / 128)
  }

  datatype Read<+T> = Read(value: T, rest: seq<byte>)

  /** Takes a varint off the front of `s`. */
  function ReadVarint(s: seq<byte>): (r: Option<Read<nat>>)
    ensures r.Some? ==> |r.value.rest| < |s|
  {
    if s == [] then None
    else if s[0] < 128 then Some(Read(s[0], s[1..]))
    else
      match ReadVarint(s[1..])
      case None => None
      case Some(Read(high, rest)) => Some(Read(s[0] - 128 + 128 * high, rest))
  }

  lemma {:induction false} VarintRoundTrip(n: nat, rest: seq<byte>)
    ensures ReadVarint(Varint(n) + rest) == Some(Read(n, rest))
    decreases n
  {
    var s := Varint(n) + rest;
    if n < 128 {
      assert s[1..] == rest;
    } else {
      assert s[1..] == Varint(n / 128) + rest;
      VarintRoundTrip(n / 128, rest);
    }
  }

  /** Larger numbers never take fewer bytes. */
  lemma {:induction false} VarintMonotone(m: nat, n: nat)
    requires m <= n
    ensures |Varint(m)| <= |Varint(n)|
    decreases n
  {
    if m >= 128 {
      VarintMonotone(m / 128, n / 128);
    }
  }

  /** A non-negative int32 takes at most five bytes. */
  lemma VarintOfInt32(n: nat)
    requires n < 0x8000_0000
    ensures 1 <= |Varint(n)| <= 5
  {
    VarintMonotone(n, 0x7fff_ffff);
    assert |Varint(0x7fff_ffff)| == 5;
  }

  const VARINT := 0
  const FIXED64 := 1
  const LENGTH_DELIMITED := 2
  const FIXED32 := 5

  function Tag(field: nat, wireType: nat): seq<byte>
  {
    Varint(field * 8 + wireType)
  }

  function VarintField(field: nat, n: nat): seq<byte>
  {
    Tag(field, VARINT) + Varint(n)
  }

  /** A string, bytes or embedded message field. */
  function BytesField(field: nat, payload: seq<byte>): seq<byte>
  {
    Tag(field, LENGTH_DELIMITED) + Varint(|payload|) + payload
  }

  /** A field off the wire; the fixed-size ones only matter for being skipped. */
  datatype Field = Number(field: nat, n: nat) | Payload(field: nat, payload: seq<byte>) | Fixed(field: nat)

  /** Takes a field off the front of `s`. Field number 0 and the group wire types are errors. */
  function ReadField(s: seq<byte>): (r: Option<Read<Field>>)
    ensures r.Some? ==> |r.value.rest| < |s|
  {
    match ReadVarint(s)
    case None => None
    case Some(Read(tag, body)) =>
      var field, wireType := tag / 8, tag % 8;
      if field == 0 then None
      else if wireType == VARINT then
        match ReadVarint(body) {
          case None => None
          case Some(Read(n, rest)) => Some(Read(Number(field, n), rest))
        }
      else if wireType == LENGTH_DELIMITED then
        match ReadVarint(body) {
          case None => None
          case Some(Read(size, rest)) =>
            if size <= |rest| then Some(Read(Payload(field, rest[..size]), rest[size..])) else None
        }
      else if wireType == FIXED64 && |body| >= 8 then Some(Read(Fixed(field), body[8..]))
      else if wireType == FIXED32 && |body| >= 4 then Some(Read(Fixed(field), body[4..]))
      else None
  }

  lemma ReadVarintField(field: nat, n: nat, rest: seq<byte>)
    requires field > 0
    ensures ReadField(VarintField(field, n) + rest) == Some(Read(Number(field, n), rest))
  {
    hide Varint, ReadVarint;
    assert VarintField(field, n) + rest == Tag(field, VARINT) + (Varint(n) + rest);
    VarintRoundTrip(field * 8 + VARINT, Varint(n) + rest);
    VarintRoundTrip(n, rest);
  }

  lemma ReadBytesField(field: nat, payload: seq<byte>, rest: seq<byte>)
    requires field > 0
    ensures ReadField(BytesField(field, payload) + rest) == Some(Read(Payload(field, payload), rest))
  {
    hide Varint, ReadVarint;
    assert BytesField(field, payload) + rest == Tag(field, LENGTH_DELIMITED) + (Varint(|payload|) + (payload + rest));
    VarintRoundTrip(field * 8 + LENGTH_DELIMITED, Varint(|payload|) + (payload + rest));
    VarintRoundTrip(|payload|, payload + rest);
    assert (payload + rest)[..|payload|] == payload && (payload + rest)[|payload|..] == rest;
  }

  lemma FieldNotEmpty(field: nat, n: nat, payload: seq<byte>)
    ensures VarintField(field, n) != [] && BytesField(field, payload) != []
  {
  }
}
