/** Directory content: `write_dir_content` sorts the entries and writes them as concatenated protocol buffers
    objects, `parse_dir_content` reads them back as one (magicicadaprotocol/dircontent.py). */
module DirContent {
  import opened ByteStrings
  import opened Options
  import opened ProtoWire
  import opened Utf8

  /** The values of `NodeType` in dircontent.proto: DIRECTORY, FILE and SYMLINK; the first is the default. */
  type NodeType = t: nat | t <= 2
  const DIRECTORY: NodeType := 0

  datatype DirEntry = DirEntry(name: seq<CodePoint>, utf8Name: seq<byte>, nodeType: NodeType, uuid: seq<CodePoint>)

  /** An entry constructed from its name. */
  function Named(name: seq<CodePoint>, nodeType: NodeType, uuid: seq<CodePoint>): DirEntry
  {
    DirEntry(name, Encode(name), nodeType, uuid)
  }

  ghost predicate WellFormed(entries: seq<DirEntry>)
  {
    forall i :: 0 <= i < |entries| ==> entries[i].utf8Name == Encode(entries[i].name)
  }

  // sorted(entries, key=utf8_name)

  /** `x` in front of the first entry whose key is not smaller: equal keys keep their order. */
  function Insert(x: DirEntry, entries: seq<DirEntry>): (r: seq<DirEntry>)
    ensures multiset(r) == multiset{x} + multiset(entries) && |r| == 1 + |entries|
  {
    if entries == [] || !Less(entries[0].utf8Name, x.utf8Name) then
      assert multiset([x] + entries) == multiset{x} + multiset(entries);
      [x] + entries
    else
      assert entries == [entries[0]] + entries[1..];
      [entries[0]] + Insert(x, entries[1..])
  }

  function Sorted(entries: seq<DirEntry>): (r: seq<DirEntry>)
    ensures multiset(r) == multiset(entries) && |r| == |entries|
  {
    if entries == [] then []
    else
      assert entries == [entries[0]] + entries[1..];
      Insert(entries[0], Sorted(entries[1..]))
  }

  ghost predicate Ordered(entries: seq<DirEntry>)
  {
    forall i, j :: 0 <= i < j < |entries| ==> !Less(entries[j].utf8Name, entries[i].utf8Name)
  }

  /** The entries with one key, in order. */
  function WithKey(entries: seq<DirEntry>, key: seq<byte>): (r: seq<DirEntry>)
  {
    if entries == [] then []
    else (if entries[0].utf8Name == key then [entries[0]] else []) + WithKey(entries[1..], key)
  }

  lemma NotLessTransitive(a: seq<int>, b: seq<int>, c: seq<int>)
    requires !Less(b, a) && !Less(c, b)
    ensures !Less(c, a)
  {
    if Less(c, a) {
      if b == c {
        assert false;
      }
      LessTotal(b, c);
      LessTransitive(b, c, a);
    }
  }

  lemma LessAsymmetric(a: seq<int>, b: seq<int>)
    requires Less(a, b)
    ensures !Less(b, a)
  {
    if Less(b, a) {
      LessTransitive(a, b, a);
      LessIrreflexive(a);
    }
  }

  lemma {:induction false} InsertOrdered(x: DirEntry, entries: seq<DirEntry>)
    requires Ordered(entries)
    ensures Ordered(Insert(x, entries))
  {
    hide Less;
    var r := Insert(x, entries);
    if entries != [] {
      if Less(entries[0].utf8Name, x.utf8Name) {
        var tail := Insert(x, entries[1..]);
        InsertOrdered(x, entries[1..]);
        LessAsymmetric(entries[0].utf8Name, x.utf8Name);
        forall j | 0 <= j < |tail| ensures !Less(tail[j].utf8Name, entries[0].utf8Name) {
          assert tail[j] in multiset(tail);
          if tail[j] != x {
            assert tail[j] in entries[1..];
          }
        }
      } else {
        forall j | 0 <= j < |entries| ensures !Less(entries[j].utf8Name, x.utf8Name) {
          if j > 0 {
            NotLessTransitive(x.utf8Name, entries[0].utf8Name, entries[j].utf8Name);
          }
        }
      }
    }
  }

  lemma WithKeyCons(x: DirEntry, entries: seq<DirEntry>, key: seq<byte>)
    ensures WithKey([x] + entries, key) == (if x.utf8Name == key then [x] else []) + WithKey(entries, key)
  {
    assert ([x] + entries)[1..] == entries;
  }

  lemma {:induction false} InsertStable(x: DirEntry, entries: seq<DirEntry>, key: seq<byte>)
    ensures WithKey(Insert(x, entries), key) == WithKey([x] + entries, key)
  {
    if entries != [] && Less(entries[0].utf8Name, x.utf8Name) {
      var head, tail := entries[0], entries[1..];
      InsertStable(x, tail, key);
      LessIrreflexive(x.utf8Name);
      assert Insert(x, entries) == [head] + Insert(x, tail);
      assert entries == [head] + tail;
      hide Less, Insert, WithKey;
      WithKeyCons(head, Insert(x, tail), key);
      WithKeyCons(x, tail, key);
      WithKeyCons(x, entries, key);
      WithKeyCons(head, tail, key);
    }
  }

  /** `Sorted` is a stable sort by the encoded names. */
  lemma {:induction false} SortedIsStable(entries: seq<DirEntry>)
    ensures Ordered(Sorted(entries))
    ensures forall key :: WithKey(Sorted(entries), key) == WithKey(entries, key)
  {
    if entries != [] {
      var tail := Sorted(entries[1..]);
      SortedIsStable(entries[1..]);
      InsertOrdered(entries[0], tail);
      forall key ensures WithKey(Sorted(entries), key) == WithKey(entries, key) {
        InsertStable(entries[0], tail, key);
        assert ([entries[0]] + tail)[1..] == tail;
      }
    }
  }

  lemma {:induction false} WithKeyMember(entries: seq<DirEntry>, x: DirEntry)
    ensures x in WithKey(entries, x.utf8Name) <==> x in entries
  {
    if entries != [] {
      WithKeyMember(entries[1..], x);
    }
  }

  lemma LeastFirst(a: seq<DirEntry>, b: seq<DirEntry>)
    requires a != [] && Ordered(b)
    requires forall key :: WithKey(a, key) == WithKey(b, key)
    ensures b != [] && !Less(a[0].utf8Name, b[0].utf8Name)
  {
    hide Less;
    WithKeyMember(a, a[0]);
    WithKeyMember(b, a[0]);
    assert a[0] in b;
    var i :| 0 <= i < |b| && b[i] == a[0];
    if i == 0 {
      LessIrreflexive(a[0].utf8Name);
    }
  }

  /** There is only one stable sort: two ordered lists that agree on every key are the same list. */
  lemma {:induction false} StableSortUnique(a: seq<DirEntry>, b: seq<DirEntry>)
    requires Ordered(a) && Ordered(b)
    requires forall key :: WithKey(a, key) == WithKey(b, key)
    ensures a == b
    decreases |a|
  {
    hide Less;
    if a == [] {
      if b != [] {
        LeastFirst(b, a);
      }
    } else {
      LeastFirst(a, b);
      LeastFirst(b, a);
      if a[0].utf8Name != b[0].utf8Name {
        LessTotal(a[0].utf8Name, b[0].utf8Name);
      }
      var key := a[0].utf8Name;
      assert WithKey(a, key)[0] == a[0] && WithKey(b, key)[0] == b[0];
      forall k ensures WithKey(a[1..], k) == WithKey(b[1..], k) {
        var n := if k == key then 1 else 0;
        assert WithKey(a, k)[n..] == WithKey(a[1..], k);
        assert WithKey(b, k)[n..] == WithKey(b[1..], k);
      }
      StableSortUnique(a[1..], b[1..]);
    }
  }

  /** In terms of names: the order is the code point order. */
  lemma SortedByName(entries: seq<DirEntry>)
    requires WellFormed(entries)
    ensures WellFormed(Sorted(entries))
    ensures forall i, j :: 0 <= i < j < |entries| ==> !Less(Sorted(entries)[j].name, Sorted(entries)[i].name)
  {
    hide Less, Encode;
    var s := Sorted(entries);
    SortedIsStable(entries);
    forall i | 0 <= i < |s| ensures s[i].utf8Name == Encode(s[i].name) {
      assert s[i] in multiset(s);
      assert s[i] in entries;
    }
    forall i, j | 0 <= i < j < |entries| ensures !Less(s[j].name, s[i].name) {
      OrderPreserved(s[j].name, s[i].name);
    }
  }

  // Writing

  function EncodeEntry(x: DirEntry): seq<byte>
  {
    BytesField(1, Encode(x.name)) + BytesField(2, Encode(x.uuid)) + VarintField(3, x.nodeType)
  }

  /** A serialized `DirectoryContent` with one entry. */
  function EncodeOne(x: DirEntry): seq<byte>
  {
    BytesField(1, EncodeEntry(x))
  }

  function EncodeAll(entries: seq<DirEntry>): (s: seq<byte>)
  {
    if entries == [] then [] else EncodeOne(entries[0]) + EncodeAll(entries[1..])
  }

  lemma {:induction false} EncodeAllSnoc(entries: seq<DirEntry>, x: DirEntry)
    ensures EncodeAll(entries + [x]) == EncodeAll(entries) + EncodeOne(x)
  {
    hide EncodeOne;
    if entries == [] {
      assert entries + [x] == [x];
      var none: seq<DirEntry> := [];
      assert [x][1..] == none;
      assert EncodeAll([x]) == EncodeOne(x) + EncodeAll(none);
    } else {
      assert (entries + [x])[1..] == entries[1..] + [x];
      EncodeAllSnoc(entries[1..], x);
    }
  }

  /** The one protocol buffers entry that the generator reuses for every chunk. */
  class PbEntry {
    var name: seq<CodePoint>
    var node: seq<CodePoint>
    var nodeType: NodeType

    constructor ()
    {
      name, node, nodeType := [], [], DIRECTORY;
    }

    /** `SerializeToString` of the content object that holds this entry. */
    function SerializeContent(): seq<byte>
      reads this
    {
      BytesField(1, BytesField(1, Encode(name)) + BytesField(2, Encode(node)) + VarintField(3, nodeType))
    }
  }

  lemma EmptyChunks()
    ensures Concat<byte>([]) == [] && EncodeAll([]) == []
  {
  }

  /** `yield_presorted_dir_content`. */
  method YieldPresorted(sortedEntries: seq<DirEntry>) returns (chunks: seq<seq<byte>>)
    ensures Concat(chunks) == EncodeAll(sortedEntries)
    ensures |chunks| == |sortedEntries|
  {
    hide EncodeAll, Concat;
    EmptyChunks();
    var pbEntry := new PbEntry();
    chunks := [];
    for i := 0 to |sortedEntries|
      invariant Concat(chunks) == EncodeAll(sortedEntries[..i])
      invariant |chunks| == i
    {
      var entry := sortedEntries[i];
      pbEntry.name := entry.name;
      pbEntry.nodeType := entry.nodeType;
      pbEntry.node := entry.uuid;
      assert pbEntry.SerializeContent() == EncodeOne(entry);
      assert sortedEntries[..i + 1] == sortedEntries[..i] + [entry];
      EncodeAllSnoc(sortedEntries[..i], entry);
      ConcatSnoc(chunks, EncodeOne(entry));
      chunks := chunks + [pbEntry.SerializeContent()];
    }
    assert sortedEntries[..|sortedEntries|] == sortedEntries;
  }

  /** `write_dir_content`; `stream` is what has been written to the stream. */
  method WriteDirContent(entries: seq<DirEntry>, stream: seq<byte>) returns (written: seq<byte>)
    ensures written == stream + EncodeAll(Sorted(entries))
  {
    hide EncodeAll, Sorted, Concat;
    var chunks := YieldPresorted(Sorted(entries));
    EmptyChunks();
    written := stream;
    for i := 0 to |chunks|
      invariant written == stream + Concat(chunks[..i])
    {
      assert chunks[..i + 1] == chunks[..i] + [chunks[i]];
      ConcatSnoc(chunks[..i], chunks[i]);
      assert stream + (Concat(chunks[..i]) + chunks[i]) == stream + Concat(chunks[..i]) + chunks[i];
      written := written + chunks[i];
    }
    assert chunks[..|chunks|] == chunks;
  }

  // Parsing

  /** A parsed `DirectoryEntry`: fields in any order, the last one wins, absent ones have the default. */
  datatype Parsed = Parsed(name: seq<CodePoint>, node: seq<CodePoint>, nodeType: NodeType)

  const EMPTY_ENTRY := Parsed([], [], DIRECTORY)

  function ParseEntry(s: seq<byte>, sofar: Parsed): (r: Option<Parsed>)
    decreases |s|
  {
    if s == [] then Some(sofar)
    else
      match ReadField(s)
      case None => None
      case Some(Read(f, rest)) =>
        if f.Payload? && (f.field == 1 || f.field == 2) then
          var text := Decode(f.payload);
          if text.None? then None
          else if f.field == 1 then ParseEntry(rest, sofar.(name := text.value))
          else ParseEntry(rest, sofar.(node := text.value))
        else if f.Number? && f.field == 3 && f.n <= 2 then ParseEntry(rest, sofar.(nodeType := f.n))
        else ParseEntry(rest, sofar)
  }

  /** `DirectoryContent.ParseFromString` and the entries that `parse_dir_content` makes of it. */
  function ParseDirContent(s: seq<byte>): (r: Option<seq<DirEntry>>)
    decreases |s|
  {
    if s == [] then Some([])
    else
      match ReadField(s)
      case None => None
      case Some(Read(f, rest)) =>
        var entries := ParseDirContent(rest);
        if f.Payload? && f.field == 1 then
          var x := ParseEntry(f.payload, EMPTY_ENTRY);
          if x.None? || entries.None? then None
          else Some([Named(x.value.name, x.value.nodeType, x.value.node)] + entries.value)
        else entries
  }

  lemma EntryRoundTrip(x: DirEntry)
    ensures ParseEntry(EncodeEntry(x), EMPTY_ENTRY) == Some(Parsed(x.name, x.uuid, x.nodeType))
  {
    hide ReadField, Encode, Decode, BytesField, VarintField;
    var s3 := VarintField(3, x.nodeType);
    var s2 := BytesField(2, Encode(x.uuid)) + s3;
    var s1 := BytesField(1, Encode(x.name)) + s2;
    assert EncodeEntry(x) == s1;
    FieldNotEmpty(1, 0, Encode(x.name));
    FieldNotEmpty(2, 0, Encode(x.uuid));
    FieldNotEmpty(3, x.nodeType, []);
    ReadBytesField(1, Encode(x.name), s2);
    ReadBytesField(2, Encode(x.uuid), s3);
    ReadVarintField(3, x.nodeType, []);
    assert s3 + [] == s3;
    RoundTrip(x.name);
    RoundTrip(x.uuid);
    var p1 := EMPTY_ENTRY.(name := x.name);
    var p2 := p1.(node := x.uuid);
    assert ParseEntry(s1, EMPTY_ENTRY) == ParseEntry(s2, p1);
    assert ParseEntry(s2, p1) == ParseEntry(s3, p2);
    assert ParseEntry(s3, p2) == ParseEntry([], p2.(nodeType := x.nodeType));
  }

  lemma {:induction false} ParseAll(entries: seq<DirEntry>)
    requires WellFormed(entries)
    ensures ParseDirContent(EncodeAll(entries)) == Some(entries)
  {
    hide ReadField, EncodeEntry, ParseEntry, Encode, BytesField;
    if entries != [] {
      var x, rest := entries[0], EncodeAll(entries[1..]);
      ReadBytesField(1, EncodeEntry(x), rest);
      FieldNotEmpty(1, 0, EncodeEntry(x));
      EntryRoundTrip(x);
      ParseAll(entries[1..]);
      assert entries == [x] + entries[1..];
      assert Named(x.name, x.nodeType, x.uuid) == x;
    }
  }

  /** Directory round trip: parsing what was written gives the entries, stably sorted by name. */
  lemma DirectoryRoundTrip(entries: seq<DirEntry>)
    requires WellFormed(entries)
    ensures ParseDirContent(EncodeAll(Sorted(entries))) == Some(Sorted(entries))
  {
    SortedByName(entries);
    ParseAll(Sorted(entries));
  }

  // Canonical form

  /** No two different entries have the same name. */
  ghost predicate NamesTell(entries: seq<DirEntry>)
  {
    forall x, y :: x in entries && y in entries && x.utf8Name == y.utf8Name ==> x == y
  }

  lemma {:induction false} WithKeyNone(entries: seq<DirEntry>, key: seq<byte>)
    requires forall y :: y in entries ==> y.utf8Name != key
    ensures WithKey(entries, key) == []
  {
    if entries != [] {
      WithKeyNone(entries[1..], key);
    }
  }

  lemma {:induction false} WithKeyCount(entries: seq<DirEntry>, x: DirEntry)
    requires NamesTell(entries) && x in entries
    ensures WithKey(entries, x.utf8Name) == seq(multiset(entries)[x], i => x)
    decreases |entries|
  {
    var y, rest := entries[0], entries[1..];
    assert entries == [y] + rest;
    assert multiset(entries) == multiset{y} + multiset(rest);
    if x in rest {
      WithKeyCount(rest, x);
    } else {
      WithKeyNone(rest, x.utf8Name);
    }
  }

  lemma SameWithKey(a: seq<DirEntry>, b: seq<DirEntry>, key: seq<byte>)
    requires multiset(a) == multiset(b) && NamesTell(a)
    ensures WithKey(a, key) == WithKey(b, key)
  {
    assert forall x :: x in b <==> x in multiset(b);
    assert forall x :: x in a <==> x in multiset(a);
    if x :| x in a && x.utf8Name == key {
      WithKeyCount(a, x);
      WithKeyCount(b, x);
    } else {
      WithKeyNone(a, key);
      WithKeyNone(b, key);
    }
  }

  /** If names tell the entries apart, the bytes written do not depend on the order they were given in. */
  lemma CanonicalForm(a: seq<DirEntry>, b: seq<DirEntry>)
    requires multiset(a) == multiset(b) && NamesTell(a)
    ensures EncodeAll(Sorted(a)) == EncodeAll(Sorted(b))
  {
    hide Less;
    SortedIsStable(a);
    SortedIsStable(b);
    assert forall x :: x in b <==> x in multiset(b);
    assert forall x :: x in a <==> x in multiset(a);
    forall key ensures WithKey(Sorted(a), key) == WithKey(Sorted(b), key) {
      SameWithKey(a, b, key);
    }
    StableSortUnique(Sorted(a), Sorted(b));
  }

  /** And only then: two different entries of one name are written in the order they were given in. */
  lemma OrderShows(x: DirEntry, y: DirEntry, rest: seq<DirEntry>)
    requires x != y && x.utf8Name == y.utf8Name && WellFormed([x, y] + rest)
    ensures multiset([x, y] + rest) == multiset([y, x] + rest)
    ensures EncodeAll(Sorted([x, y] + rest)) != EncodeAll(Sorted([y, x] + rest))
  {
    hide Less, Encode, EncodeAll, ParseDirContent, Sorted;
    var a, b := [x, y] + rest, [y, x] + rest;
    assert multiset([x, y]) == multiset([y, x]);
    assert multiset(a) == multiset([x, y]) + multiset(rest);
    assert multiset(b) == multiset([y, x]) + multiset(rest);
    forall i | 0 <= i < |b| ensures b[i].utf8Name == Encode(b[i].name) {
      assert b[i] == if i == 0 then a[1] else if i == 1 then a[0] else a[i];
    }
    SortedIsStable(a);
    SortedIsStable(b);
    assert WithKey(a, x.utf8Name)[0] == x;
    assert WithKey(b, x.utf8Name)[0] == y;
    DirectoryRoundTrip(a);
    DirectoryRoundTrip(b);
  }
}
