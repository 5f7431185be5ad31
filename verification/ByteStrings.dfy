/** Byte strings and the few facts about concatenation that every other module needs. */
module ByteStrings {

  type byte = b: int | 0 <= b < 256

  /** `b"".join(parts)`. */
  function Concat<T>(parts: seq<seq<T>>): (s: seq<T>)
  {
    if parts == [] then [] else parts[0] + Concat(parts[1..])
  }

  lemma {:induction false} ConcatAppend<T>(front: seq<seq<T>>, back: seq<seq<T>>)
    ensures Concat(front + back) == Concat(front) + Concat(back)
  {
    if front == [] {
      assert front + back == back;
    } else {
      assert (front + back)[1..] == front[1..] + back;
      ConcatAppend(front[1..], back);
    }
  }

  lemma ConcatSnoc<T>(parts: seq<seq<T>>, last: seq<T>)
    ensures Concat(parts + [last]) == Concat(parts) + last
  {
    ConcatAppend(parts, [last]);
    assert Concat([last]) == last + Concat<T>([]);
  }

  /** Where the first CR LF pair of `s` starts, or -1: what `bytes.index` and `bytes.split` look for. */
  function FirstCrlf(s: seq<byte>): (k: int)
    ensures -1 <= k <= |s| - 2 || (k == -1 && |s| < 2)
    ensures k >= 0 ==> s[k] == 13 && s[k + 1] == 10
    ensures forall i :: 0 <= i < |s| - 1 && (k < 0 || i < k) ==> !(s[i] == 13 && s[i + 1] == 10)
  {
    if |s| < 2 then -1
    else if s[0] == 13 && s[1] == 10 then 0
    else
      var k := FirstCrlf(s[1..]);
      assert forall i :: 1 <= i < |s| - 1 ==> s[i] == s[1..][i - 1] && s[i + 1] == s[1..][i];
      if k < 0 then -1 else k + 1
  }

  const CRLF: seq<byte> := [13, 10]

  ghost predicate CrlfAt(s: seq<byte>, k: int)
  {
    0 <= k < |s| - 1 && s[k] == 13 && s[k + 1] == 10
  }

  lemma FirstCrlfIs(s: seq<byte>, k: nat)
    requires CrlfAt(s, k)
    requires forall i :: 0 <= i < k ==> !CrlfAt(s, i)
    ensures FirstCrlf(s) == k
  {
    var f := FirstCrlf(s);
    assert f < 0 || CrlfAt(s, f);
  }
}
