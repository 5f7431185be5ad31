/** How `MultiQuery` splits a list of items over QUERY messages (magicicadaprotocol/client.py, `Query` and
    `MultiQuery`), with the real size of each message. */
module QueryPacking {
  import opened ByteStrings
  import opened Options
  import opened ProtoWire
  import F = FrameCodec

  const MAX_MESSAGE_SIZE := F.MAX_MESSAGE_SIZE

  /** The value of `Message.QUERY` in protocol.proto. */
  const QUERY := 15

  /** An item to ask about; the strings are given by their UTF-8 bytes. */
  datatype Item = Item(share: seq<byte>, node: seq<byte>, hash: seq<byte>)

  function EncodeItem(x: Item): seq<byte>
  {
    BytesField(1, x.share) + BytesField(2, x.node) + BytesField(3, x.hash)
  }

  function EncodeItems(items: seq<Item>): seq<byte>
  {
    if items == [] then [] else BytesField(7, EncodeItem(items[0])) + EncodeItems(items[1..])
  }

  /** The serialized QUERY message with request id `id`. */
  function EncodeQuery(id: nat, items: seq<Item>): seq<byte>
  {
    VarintField(1, id) + VarintField(2, QUERY) + EncodeItems(items)
  }

  /** `query_message.ByteSize()` while the id is still 0. */
  function ByteSize(items: seq<Item>): nat
  {
    |EncodeQuery(0, items)|
  }

  predicate FitsAlone(x: Item)
  {
    ByteSize([x]) <= MAX_MESSAGE_SIZE
  }

  // Sizes

  lemma {:induction false} EncodeItemsAppend(a: seq<Item>, b: seq<Item>)
    ensures EncodeItems(a + b) == EncodeItems(a) + EncodeItems(b)
  {
    if a == [] {
      assert a + b == b;
    } else {
      assert (a + b)[1..] == a[1..] + b;
      EncodeItemsAppend(a[1..], b);
    }
  }

  /** The size with the real id differs only by the id's own bytes. */
  lemma RealSize(id: nat, items: seq<Item>)
    ensures |EncodeQuery(id, items)| == ByteSize(items) + |Varint(id)| - 1
  {
  }

  lemma SizeOfPart(items: seq<Item>, i: nat, j: nat)
    requires i <= j <= |items|
    ensures ByteSize(items[i..j]) <= ByteSize(items)
  {
    assert items == items[..i] + (items[i..j] + items[j..]);
    EncodeItemsAppend(items[..i], items[i..j] + items[j..]);
    EncodeItemsAppend(items[i..j], items[j..]);
  }

  lemma PrefixSize(items: seq<Item>, i: nat, j: nat)
    requires i <= j <= |items|
    ensures ByteSize(items[..i]) <= ByteSize(items[..j])
  {
    SizeOfPart(items[..j], 0, i);
    assert items[..j][0..i] == items[..i];
  }

  lemma PartFits(items: seq<Item>, i: nat)
    requires ByteSize(items) <= MAX_MESSAGE_SIZE && i < |items|
    ensures FitsAlone(items[i])
  {
    SizeOfPart(items, i, i + 1);
    assert items[i..i + 1] == [items[i]];
  }

  // The greedy split

  /** How many items, given that the first `k` fit, go into the next query. */
  function FitCount(items: seq<Item>, k: nat): (n: nat)
    requires k <= |items|
    ensures k <= n <= |items|
    ensures ByteSize(items[..k]) <= MAX_MESSAGE_SIZE ==> ByteSize(items[..n]) <= MAX_MESSAGE_SIZE
    ensures n < |items| ==> ByteSize(items[..n + 1]) > MAX_MESSAGE_SIZE
    decreases |items| - k
  {
    if k == |items| || ByteSize(items[..k + 1]) > MAX_MESSAGE_SIZE then k else FitCount(items, k + 1)
  }

  /** What one query takes. */
  function Taken(items: seq<Item>): (n: nat)
    ensures n <= |items| && ByteSize(items[..n]) <= MAX_MESSAGE_SIZE
    ensures n < |items| ==> ByteSize(items[..n + 1]) > MAX_MESSAGE_SIZE
  {
    assert items[..0] == [];
    FitCount(items, 0)
  }

  /** Nothing that fits reaches further. */
  lemma TakenIsMost(items: seq<Item>, k: nat)
    requires k <= |items| && ByteSize(items[..k]) <= MAX_MESSAGE_SIZE
    ensures k <= Taken(items)
  {
    hide ByteSize;
    if Taken(items) < k {
      PrefixSize(items, Taken(items) + 1, k);
    }
  }

  lemma TakesSome(items: seq<Item>)
    requires items != [] && FitsAlone(items[0])
    ensures Taken(items) > 0
  {
    assert items[..1] == [items[0]];
    TakenIsMost(items, 1);
  }

  ghost predicate AllFit(items: seq<Item>)
  {
    forall i :: 0 <= i < |items| ==> FitsAlone(items[i])
  }

  /** The item lists of the queries. */
  function Greedy(items: seq<Item>): (queries: seq<seq<Item>>)
    requires AllFit(items)
    decreases |items|
  {
    var n := Taken(items);
    if n == |items| then [items]
    else
      TakesSome(items);
      [items[..n]] + Greedy(items[n..])
  }

  lemma StartsAtTaken(items: seq<Item>)
    ensures FitCount(items, 0) == Taken(items)
  {
  }

  // The loops of the source

  /** A `Query` request under construction; `items` is what its message holds. */
  class Query {
    var items: seq<Item>
    var overflow: Option<Item>

    constructor ()
      ensures items == [] && overflow == None
    {
      items := [];
      overflow := None;
    }

    /** The loop of the constructor over the iterator `source`; `rest` is what the iterator still holds.
        The overflowing item has been taken from the iterator but is not in the message. */
    method Fill(source: seq<Item>) returns (rest: seq<Item>)
      requires items == [] && overflow == None
      modifies this
      ensures items == source[..Taken(source)]
      ensures overflow == if Taken(source) < |source| then Some(source[Taken(source)]) else None
      ensures rest == if Taken(source) < |source| then source[Taken(source) + 1..] else []
    {
      hide ByteSize, Taken;
      var itemsThatFit: seq<Item> := [];
      StartsAtTaken(source);
      var k := 0;
      assert source[..0] == [];
      while k < |source|
        invariant 0 <= k <= |source|
        invariant items == itemsThatFit == source[..k]
        invariant overflow == None
        invariant FitCount(source, k) == Taken(source)
      {
        var item := source[k];
        items := items + [item];
        assert items == source[..k + 1];
        if ByteSize(items) > MAX_MESSAGE_SIZE {
          overflow := Some(item);
          break;
        }
        itemsThatFit := itemsThatFit + [item];
        k := k + 1;
      }
      if overflow != None {
        items := itemsThatFit;
        rest := source[k + 1..];
      } else {
        rest := [];
        assert source[..k] == source;
      }
    }
  }

  /** The first query, and the rest of the list still fits. */
  lemma GreedyTakes(items: seq<Item>)
    requires AllFit(items)
    ensures var n := Taken(items);
            if n == |items| then Greedy(items) == [items]
            else n > 0 && AllFit(items[n..]) && Greedy(items) == [items[..n]] + Greedy(items[n..])
  {
    hide ByteSize;
    if Taken(items) < |items| {
      TakesSome(items);
    }
  }

  lemma Regroup(front: seq<seq<Item>>, one: seq<Item>, back: seq<seq<Item>>)
    ensures front + ([one] + back) == front + [one] + back
  {
  }

  /** The constructor of `MultiQuery`. */
  method MultiQuery(source: seq<Item>) returns (queries: seq<seq<Item>>)
    requires AllFit(source)
    ensures queries == Greedy(source)
  {
    hide ByteSize, Greedy, AllFit;
    var items := source;
    queries := [];
    while true
      invariant AllFit(items)
      invariant queries + Greedy(items) == Greedy(source)
      decreases |items|
    {
      ghost var before, n := items, Taken(items);
      var q := new Query();
      var rest := q.Fill(items);
      queries := queries + [q.items];
      GreedyTakes(before);
      if q.overflow != None {
        items := [q.overflow.value] + rest;
        assert items == before[n..];
        Regroup(queries[..|queries| - 1], before[..n], Greedy(items));
      } else {
        assert before[..n] == before;
        break;
      }
    }
  }

  // The partition

  lemma {:induction false} GreedyIsPartition(items: seq<Item>)
    requires AllFit(items)
    ensures Concat(Greedy(items)) == items
    ensures forall i :: 0 <= i < |Greedy(items)| ==> ByteSize(Greedy(items)[i]) <= MAX_MESSAGE_SIZE
    decreases |items|
  {
    hide ByteSize;
    var n := Taken(items);
    if n == |items| {
      assert items[..n] == items;
      assert [items][1..] == [];
      assert Concat([items]) == items + Concat([]);
    } else {
      TakesSome(items);
      GreedyIsPartition(items[n..]);
      var tail := Greedy(items[n..]);
      assert ([items[..n]] + tail)[1..] == tail;
      assert items == items[..n] + items[n..];
    }
  }

  lemma GreedyNonEmpty(items: seq<Item>)
    requires AllFit(items)
    ensures Greedy(items) != [] && (items != [] ==> Greedy(items)[0] != [])
  {
    if items != [] {
      TakesSome(items);
    }
  }

  lemma GreedyFirst(items: seq<Item>)
    requires AllFit(items) && items != []
    ensures Greedy(items)[0] != [] && Greedy(items)[0][0] == items[0]
  {
    TakesSome(items);
  }

  /** Every query but the last would be too big with the next item added. */
  lemma {:induction false} GreedyIsTight(items: seq<Item>, i: nat)
    requires AllFit(items) && i < |Greedy(items)| - 1
    ensures Greedy(items)[i + 1] != []
    ensures ByteSize(Greedy(items)[i] + [Greedy(items)[i + 1][0]]) > MAX_MESSAGE_SIZE
    decreases |items|
  {
    hide ByteSize;
    var n := Taken(items);
    var tail := items[n..];
    TakesSome(items);
    GreedyNonEmpty(tail);
    if i == 0 {
      GreedyFirst(tail);
      assert items[..n] + [items[n]] == items[..n + 1];
    } else {
      GreedyIsTight(tail, i - 1);
    }
  }

  // Optimality

  ghost predicate FittingGroups(groups: seq<seq<Item>>)
  {
    forall i :: 0 <= i < |groups| ==> ByteSize(groups[i]) <= MAX_MESSAGE_SIZE
  }

  /** The greedy split never falls behind: from any point of the list it needs no more queries than
      there are groups left. */
  lemma {:induction false} GreedyStaysAhead(groups: seq<seq<Item>>, d: nat)
    requires FittingGroups(groups) && d < |Concat(groups)|
    requires AllFit(Concat(groups)[d..])
    ensures |Greedy(Concat(groups)[d..])| <= |groups|
    decreases |groups|
  {
    hide ByteSize;
    var g, rest := groups[0], groups[1..];
    var s := Concat(groups)[d..];
    if d >= |g| {
      assert s == Concat(rest)[d - |g|..];
      GreedyStaysAhead(rest, d - |g|);
    } else {
      var k := Taken(s);
      assert s[..|g| - d] == g[d..];
      SizeOfPart(g, d, |g|);
      assert g[d..|g|] == g[d..];
      TakenIsMost(s, |g| - d);
      if k < |s| {
        assert s[k..] == Concat(rest)[d + k - |g|..];
        assert forall i :: 0 <= i < |s[k..]| ==> s[k..][i] == s[k + i];
        GreedyStaysAhead(rest, d + k - |g|);
      }
    }
  }

  lemma {:induction false} FittingGroupsFit(groups: seq<seq<Item>>)
    requires FittingGroups(groups)
    ensures AllFit(Concat(groups))
  {
    if groups != [] {
      FittingGroupsFit(groups[1..]);
      forall i | 0 <= i < |groups[0]| ensures FitsAlone(groups[0][i]) {
        PartFits(groups[0], i);
      }
    }
  }

  /** Greedy packing is optimal: no split of the items into consecutive groups that fit has fewer groups. */
  lemma GreedyIsOptimal(items: seq<Item>, groups: seq<seq<Item>>)
    requires items != [] && Concat(groups) == items && FittingGroups(groups)
    ensures AllFit(items)
    ensures |Greedy(items)| <= |groups|
  {
    FittingGroupsFit(groups);
    assert Concat(groups)[0..] == items;
    GreedyStaysAhead(groups, 0);
  }

  // When it terminates

  /** The result of the constructor's loop if it ends within `n` rounds, for any items at all. */
  function Rounds(items: seq<Item>, n: nat): Option<seq<seq<Item>>>
  {
    if n == 0 then None
    else
      var k := Taken(items);
      if k == |items| then Some([items])
      else
        match Rounds(items[k..], n - 1)
        case None => None
        case Some(queries) => Some([items[..k]] + queries)
  }

  lemma {:induction false} OversizedNeverEnds(items: seq<Item>, i: nat, n: nat)
    requires i < |items| && !FitsAlone(items[i])
    ensures Rounds(items, n) == None
    decreases n
  {
    hide ByteSize;
    if n > 0 {
      var k := Taken(items);
      if i < k {
        PartFits(items[..k], i);
      }
      OversizedNeverEnds(items[k..], i - k, n - 1);
    }
  }

  lemma {:induction false} RoundsMonotone(items: seq<Item>, m: nat, n: nat)
    requires m <= n && Rounds(items, m).Some?
    ensures Rounds(items, n) == Rounds(items, m)
    decreases m
  {
    hide ByteSize;
    var k := Taken(items);
    if k < |items| {
      RoundsMonotone(items[k..], m - 1, n - 1);
    }
  }

  lemma {:induction false} FittingEnds(items: seq<Item>)
    requires AllFit(items)
    ensures Rounds(items, |items| + 1) == Some(Greedy(items))
    decreases |items|
  {
    hide ByteSize;
    var k := Taken(items);
    if k < |items| {
      TakesSome(items);
      FittingEnds(items[k..]);
      RoundsMonotone(items[k..], |items[k..]| + 1, |items|);
    }
  }

  /** `MultiQuery` ends exactly on the lists in which every item fits alone; one oversized item
      makes it build empty queries for ever. */
  lemma EndsIff(items: seq<Item>)
    ensures (exists n :: Rounds(items, n).Some?) <==> AllFit(items)
  {
    if AllFit(items) {
      FittingEnds(items);
    } else {
      var i :| 0 <= i < |items| && !FitsAlone(items[i]);
      forall n ensures Rounds(items, n).None? {
        OversizedNeverEnds(items, i, n);
      }
    }
  }

  lemma JustTooBig(x: Item)
    requires |x.share| == 65521 && x.node == [] && x.hash == []
    ensures ByteSize([x]) == MAX_MESSAGE_SIZE + 1
  {
    assert |Varint(65521)| == 3 && |Varint(65529)| == 3;
    assert |EncodeItem(x)| == 65529;
    assert [x][1..] == [];
    assert EncodeItems([x]) == BytesField(7, EncodeItem(x)) + EncodeItems([]);
  }

  /** An item one byte too big: the loop never ends. */
  lemma OversizedExample()
    ensures var x := Item(seq(65521, i => 97), [], []);
            !FitsAlone(x) && forall n :: Rounds([x], n) == None
  {
    var x := Item(seq(65521, i => 97), [], []);
    JustTooBig(x);
    EndsIff([x]);
    hide *;
  }

  // On the wire

  /** The message as it is sent, under its real id, is up to four bytes longer than the size the split
      went by. */
  lemma SentSize(id: nat, items: seq<Item>)
    requires id < 0x8000_0000 && ByteSize(items) <= MAX_MESSAGE_SIZE
    ensures |EncodeQuery(id, items)| <= MAX_MESSAGE_SIZE + 4
  {
    RealSize(id, items);
    VarintOfInt32(id);
  }

  /** So the peer's decoder takes a query that was built to fit exactly when there was room left for
      the bytes of the real id; otherwise the peer drops the connection. */
  lemma PeerAcceptsIff(id: nat, items: seq<Item>)
    requires id < 0x8000_0000 && ByteSize(items) <= MAX_MESSAGE_SIZE
    ensures F.Packable([EncodeQuery(id, items)])
    ensures !F.DecodeStream(F.Frames([EncodeQuery(id, items)])).tooBig
            <==> ByteSize(items) + |Varint(id)| - 1 <= MAX_MESSAGE_SIZE
  {
    var m := EncodeQuery(id, items);
    SentSize(id, items);
    RealSize(id, items);
    hide EncodeQuery, F.DecodeStream;
    var none: seq<seq<byte>> := [];
    assert [m][1..] == none;
    assert F.Frames([m]) == F.Pack(|m|) + m + F.Frames([]);
    if |m| <= MAX_MESSAGE_SIZE {
      F.RoundTrip([m]);
    } else {
      F.OversizedStops([], |m|, m);
      assert F.Frames([]) + (F.Pack(|m|) + m) == F.Frames([m]);
    }
  }

  lemma FullSize(x: Item)
    requires |x.share| == 65520 && x.node == [] && x.hash == []
    ensures ByteSize([x]) == MAX_MESSAGE_SIZE
  {
    assert |Varint(65520)| == 3 && |Varint(65528)| == 3;
    assert |EncodeItem(x)| == 65528;
    assert [x][1..] == [];
    assert EncodeItems([x]) == BytesField(7, EncodeItem(x)) + EncodeItems([]);
  }

  /** An item of exactly the maximal size that fits: `MultiQuery` accepts it, and the peer refuses it
      under any id from 128 on. */
  lemma FullQueryRefused(id: nat)
    requires 128 <= id < 0x8000_0000
    ensures var x := Item(seq(65520, i => 97), [], []);
            && FitsAlone(x) && AllFit([x]) && Greedy([x]) == [[x]]
            && F.Packable([EncodeQuery(id, [x])])
            && F.DecodeStream(F.Frames([EncodeQuery(id, [x])])).tooBig
  {
    var x := Item(seq(65520, i => 97), [], []);
    FullSize(x);
    VarintMonotone(128, id);
    assert |Varint(128)| == 2;
    PeerAcceptsIff(id, [x]);
    assert [x][..1] == [x];
    TakenIsMost([x], 1);
  }
}
