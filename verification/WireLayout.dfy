/** The bytes themselves: what is on the wire and in a directory's content, byte by byte, written out without the
    functions that produce or read it (Protocol Buffers documentation, "Encoding"; RFC 3629, section 3; and
    magicicadaprotocol/request.py, `SIZE_FMT`). */
module WireLayout {
  import opened ByteStrings
  import opened Options
  import opened ProtoWire
  import opened Utf8
  import opened DirContent
  import F = FrameCodec
  import Q = QueryPacking

  // Frames

  function PlaceValue(s: seq<byte>): int
    requires |s| == 4
  {
    var a: int, b: int, c: int, d: int := s[0], s[1], s[2], s[3];
    a * 16777216 + b * 65536 + c * 256 + d
  }

  /** The header has its most significant byte first. */
  lemma HeaderPlaces(n: nat, s: seq<byte>)
    requires n < 0x1_0000_0000 && |s| == 4
    ensures |F.Pack(n)| == 4 && PlaceValue(F.Pack(n)) == n
    ensures F.Unpack(s) == PlaceValue(s)
  {
    F.UnpackPack(n);
  }

  /** `struct.pack("!I", 66051)`. */
  lemma HeaderExample()
    ensures F.Pack(66051) == [0, 1, 2, 3]
  {
  }

  // Varints

  /** The low seven bits of each byte, the least significant group first. */
  function Groups(s: seq<byte>): nat
  {
    if s == [] then 0 else s[0] % 128 + 128 * Groups(s[1..])
  }

  lemma GroupsFirst(b: byte, rest: seq<byte>)
    ensures Groups([b] + rest) == b % 128 + 128 * Groups(rest)
  {
    assert ([b] + rest)[1..] == rest;
  }

  /** Every byte but the last has its top bit set, the groups make up the number, and there is none too many. */
  lemma {:induction false} VarintLayout(n: nat)
    ensures var s := Varint(n);
            && s != [] && s[|s| - 1] < 128 && (forall i :: 0 <= i < |s| - 1 ==> s[i] >= 128)
            && Groups(s) == n && (|s| > 1 ==> s[|s| - 1] != 0)
    decreases n
  {
    if n < 128 {
      assert [n][1..] == [];
    } else {
      VarintLayout(n / 128);
      var rest := Varint(n / 128);
      assert Varint(n) == [128 + n % 128] + rest;
      GroupsFirst(128 + n % 128, rest);
      hide Varint, Groups;
    }
  }

  lemma VarintExample()
    ensures Varint(1) == [1] && Varint(300) == [0xAC, 0x02]
  {
  }

  // UTF-8

  function Bits(b: byte, mark: int): int
  {
    b - mark
  }

  predicate Trailing(s: seq<byte>)
  {
    forall i :: 1 <= i < |s| ==> 0x80 <= s[i] <= 0xBF
  }

  /** The table of RFC 3629: the lead byte's range tells the length, every other byte carries six bits. */
  lemma CharLayout(c: CodePoint)
    ensures var s := EncodeChar(c);
            if c < 0x80 then s == [c]
            else if c < 0x800 then
              && |s| == 2 && 0xC2 <= s[0] <= 0xDF && Trailing(s)
              && c == Bits(s[0], 0xC0) * 64 + Bits(s[1], 0x80)
            else if c < 0x10000 then
              && |s| == 3 && 0xE0 <= s[0] <= 0xEF && Trailing(s)
              && c == Bits(s[0], 0xE0) * 4096 + Bits(s[1], 0x80) * 64 + Bits(s[2], 0x80)
            else
              && |s| == 4 && 0xF0 <= s[0] <= 0xF4 && Trailing(s)
              && c == Bits(s[0], 0xF0) * 262144 + Bits(s[1], 0x80) * 4096 + Bits(s[2], 0x80) * 64 + Bits(s[3], 0x80)
  {
    Digits(c);
  }

  /** U+00E9, U+20AC and U+10348. */
  lemma CharExamples()
    ensures EncodeChar(0xE9) == [0xC3, 0xA9] && EncodeChar(0x20AC) == [0xE2, 0x82, 0xAC]
    ensures EncodeChar(0x10348) == [0xF0, 0x90, 0x8D, 0x88]
  {
  }

  // Directory content

  /** A field of a `DirectoryEntry`. */
  datatype Piece = NameIs(name: seq<CodePoint>) | NodeIs(node: seq<CodePoint>) | TypeIs(nodeType: NodeType)

  /** Its bytes: field 1 and field 2 with a length in front, field 3 a number. */
  function PieceBytes(p: Piece): (s: seq<byte>)
  {
    match p
    case NameIs(name) => [0x0A] + Varint(|Encode(name)|) + Encode(name)
    case NodeIs(node) => [0x12] + Varint(|Encode(node)|) + Encode(node)
    case TypeIs(t) => [0x18] + [t as byte]
  }

  function Laid(pieces: seq<Piece>): seq<byte>
  {
    if pieces == [] then [] else PieceBytes(pieces[0]) + Laid(pieces[1..])
  }

  /** An entry of a `DirectoryContent`, which is field 1 again. */
  function EntryBytes(pieces: seq<Piece>): seq<byte>
  {
    [0x0A] + Varint(|Laid(pieces)|) + Laid(pieces)
  }

  function Contents(entries: seq<seq<Piece>>): seq<byte>
  {
    if entries == [] then [] else EntryBytes(entries[0]) + Contents(entries[1..])
  }

  function LastName(pieces: seq<Piece>, default: seq<CodePoint>): seq<CodePoint>
  {
    if pieces == [] then default
    else LastName(pieces[1..], if pieces[0].NameIs? then pieces[0].name else default)
  }

  function LastNode(pieces: seq<Piece>, default: seq<CodePoint>): seq<CodePoint>
  {
    if pieces == [] then default
    else LastNode(pieces[1..], if pieces[0].NodeIs? then pieces[0].node else default)
  }

  function LastType(pieces: seq<Piece>, default: NodeType): NodeType
  {
    if pieces == [] then default
    else LastType(pieces[1..], if pieces[0].TypeIs? then pieces[0].nodeType else default)
  }

  lemma TagBytes()
    ensures Tag(1, LENGTH_DELIMITED) == [0x0A] && Tag(2, LENGTH_DELIMITED) == [0x12] && Tag(3, VARINT) == [0x18]
    ensures Tag(3, LENGTH_DELIMITED) == [0x1A] && Tag(7, LENGTH_DELIMITED) == [0x3A]
    ensures Tag(1, VARINT) == [0x08] && Tag(2, VARINT) == [0x10]
  {
  }

  lemma PieceFields(p: Piece)
    ensures PieceBytes(p)
            == match p
               case NameIs(name) => BytesField(1, Encode(name))
               case NodeIs(node) => BytesField(2, Encode(node))
               case TypeIs(t) => VarintField(3, t)
  {
    TagBytes();
    hide Encode, Tag;
  }

  /** One field off the front. */
  lemma PieceParsed(p: Piece, rest: seq<byte>, sofar: Parsed)
    ensures ParseEntry(PieceBytes(p) + rest, sofar)
            == ParseEntry(rest, match p
                                case NameIs(name) => sofar.(name := name)
                                case NodeIs(node) => sofar.(node := node)
                                case TypeIs(t) => sofar.(nodeType := t))
  {
    PieceFields(p);
    hide PieceBytes, ReadField, Encode, Decode, BytesField, VarintField;
    match p
    case NameIs(name) =>
      ReadBytesField(1, Encode(name), rest);
      FieldNotEmpty(1, 0, Encode(name));
      RoundTrip(name);
    case NodeIs(node) =>
      ReadBytesField(2, Encode(node), rest);
      FieldNotEmpty(2, 0, Encode(node));
      RoundTrip(node);
    case TypeIs(t) =>
      ReadVarintField(3, t, rest);
      FieldNotEmpty(3, t, []);
  }

  /** The fields of an entry in any order and any number: the last of each counts, and what is absent is empty, or a
      directory. */
  lemma {:induction false} AnyFields(pieces: seq<Piece>, name: seq<CodePoint>, node: seq<CodePoint>, t: NodeType)
    ensures ParseEntry(Laid(pieces), Parsed(name, node, t))
            == Some(Parsed(LastName(pieces, name), LastNode(pieces, node), LastType(pieces, t)))
    decreases |pieces|
  {
    hide PieceBytes, ReadField;
    if pieces != [] {
      var p := pieces[0];
      PieceParsed(p, Laid(pieces[1..]), Parsed(name, node, t));
      AnyFields(pieces[1..], if p.NameIs? then p.name else name, if p.NodeIs? then p.node else node,
                if p.TypeIs? then p.nodeType else t);
    }
  }

  function Meant(pieces: seq<Piece>): DirEntry
  {
    Named(LastName(pieces, []), LastType(pieces, 0), LastNode(pieces, []))
  }

  function AllMeant(entries: seq<seq<Piece>>): (meant: seq<DirEntry>)
    ensures |meant| == |entries|
  {
    if entries == [] then [] else [Meant(entries[0])] + AllMeant(entries[1..])
  }

  /** What `parse_dir_content` makes of any such bytes. */
  lemma {:induction false} ParsesContents(entries: seq<seq<Piece>>)
    ensures ParseDirContent(Contents(entries)) == Some(AllMeant(entries))
    decreases |entries|
  {
    if entries != [] {
      var body, rest := Laid(entries[0]), Contents(entries[1..]);
      TagBytes();
      assert EntryBytes(entries[0]) == BytesField(1, body);
      hide BytesField, Laid, ParseEntry, ReadField, Tag, Encode, LastName, LastNode, LastType;
      ReadBytesField(1, body, rest);
      FieldNotEmpty(1, 0, body);
      AnyFields(entries[0], [], [], 0);
      ParsesContents(entries[1..]);
    }
  }

  lemma LaidThree(a: Piece, b: Piece, c: Piece)
    ensures Laid([a, b, c]) == PieceBytes(a) + PieceBytes(b) + PieceBytes(c)
  {
    hide PieceBytes;
    assert [a, b, c][1..] == [b, c] && [b, c][1..] == [c] && [c][1..] == [];
    assert Laid([c]) == PieceBytes(c) + Laid([]);
    assert Laid([b, c]) == PieceBytes(b) + Laid([c]);
  }

  function Pieces(x: DirEntry): seq<Piece>
  {
    [NameIs(x.name), NodeIs(x.uuid), TypeIs(x.nodeType)]
  }

  /** What `yield_presorted_dir_content` writes for an entry: name, node and type, in this order. */
  lemma EntryLayout(x: DirEntry)
    ensures EncodeOne(x) == EntryBytes(Pieces(x))
  {
    LaidThree(NameIs(x.name), NodeIs(x.uuid), TypeIs(x.nodeType));
    PieceFields(NameIs(x.name));
    PieceFields(NodeIs(x.uuid));
    PieceFields(TypeIs(x.nodeType));
    TagBytes();
    hide PieceBytes, Laid, Tag, Encode;
  }

  function AllPieces(entries: seq<DirEntry>): (pieces: seq<seq<Piece>>)
  {
    if entries == [] then [] else [Pieces(entries[0])] + AllPieces(entries[1..])
  }

  /** And for a directory, whatever its entries. */
  lemma {:induction false} ContentLayout(entries: seq<DirEntry>)
    ensures EncodeAll(entries) == Contents(AllPieces(entries))
  {
    hide EncodeOne, EntryBytes;
    if entries != [] {
      EntryLayout(entries[0]);
      ContentLayout(entries[1..]);
    }
  }

  /** Written out for entries of fewer than 128 bytes: every length is one byte. */
  lemma SmallEntry(x: DirEntry)
    requires |Encode(x.name)| + |Encode(x.uuid)| < 122
    ensures var name, node := Encode(x.name), Encode(x.uuid);
            EncodeOne(x) == [0x0A, |name| + |node| + 6] + [0x0A, |name|] + name + [0x12, |node|] + node
                            + [0x18] + [x.nodeType as byte]
  {
    EntryLayout(x);
    LaidThree(NameIs(x.name), NodeIs(x.uuid), TypeIs(x.nodeType));
    hide Encode, Laid;
  }

  lemma OneLetter(c: CodePoint)
    requires c < 128
    ensures Encode([c]) == [c]
  {
    var none: seq<CodePoint> := [];
    assert [c][1..] == none;
    assert Encode([c]) == EncodeChar(c) + Encode(none);
  }

  /** The entry "a", a file with the node "u". */
  lemma EntryExample()
    ensures EncodeOne(Named([97], 1, [117])) == [0x0A, 0x08, 0x0A, 0x01, 0x61, 0x12, 0x01, 0x75, 0x18, 0x01]
  {
    OneLetter(97);
    OneLetter(117);
    SmallEntry(Named([97], 1, [117]));
    hide Encode;
  }

  // Queries

  function ItemBody(x: Q.Item): seq<byte>
  {
    [0x0A] + Varint(|x.share|) + x.share + [0x12] + Varint(|x.node|) + x.node + [0x1A] + Varint(|x.hash|) + x.hash
  }

  function ItemsBytes(items: seq<Q.Item>): seq<byte>
  {
    if items == [] then []
    else [0x3A] + Varint(|ItemBody(items[0])|) + ItemBody(items[0]) + ItemsBytes(items[1..])
  }

  lemma ItemLayout(x: Q.Item)
    ensures Q.EncodeItem(x) == ItemBody(x)
  {
    TagBytes();
    hide Tag, Varint;
    assert BytesField(1, x.share) == [0x0A] + Varint(|x.share|) + x.share;
    assert BytesField(2, x.node) == [0x12] + Varint(|x.node|) + x.node;
    assert BytesField(3, x.hash) == [0x1A] + Varint(|x.hash|) + x.hash;
  }

  lemma {:induction false} ItemsLayout(items: seq<Q.Item>)
    ensures Q.EncodeItems(items) == ItemsBytes(items)
  {
    hide Q.EncodeItem, ItemBody, Tag, Varint;
    if items != [] {
      TagBytes();
      ItemLayout(items[0]);
      ItemsLayout(items[1..]);
    }
  }

  /** A QUERY message: its id, the type 15, and the items, each with share, node and hash. */
  lemma QueryLayout(id: nat, items: seq<Q.Item>)
    ensures Q.EncodeQuery(id, items) == [0x08] + Varint(id) + [0x10, 0x0F] + ItemsBytes(items)
  {
    TagBytes();
    ItemsLayout(items);
    assert Varint(15) == [15];
    hide Tag, ItemsBytes, Q.EncodeItems;
  }
}
