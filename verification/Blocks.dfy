/** L2 blocks and ordered lists of them. */
module Blocks {
  import opened Addresses
  import opened Wrappers

  /** `anchorId` is what decoding the input as an anchor call yields; decoding can fail. */
  datatype Tx = Tx(content: nat, anchorId: Option<nat>)

  datatype Header = Header(number: nat, timestamp: nat, beneficiary: Address)

  datatype Block = Block(header: Header, txs: seq<Tx>)

  type Keep = Block -> bool

  /** The blocks that satisfy `keep`, in their order: what `Vec::retain` leaves. */
  function Retained(blocks: seq<Block>, keep: Keep): (r: seq<Block>)
    ensures forall b {:trigger b in r} :: b in r <==> b in blocks && keep(b)
    ensures |r| <= |blocks|
  {
    if |blocks| == 0 then []
    else
      var front := Retained(blocks[..|blocks| - 1], keep);
      var last := blocks[|blocks| - 1];
      assert blocks == blocks[..|blocks| - 1] + [last];
      if keep(last) then front + [last] else front
  }

  /** Block numbers strictly increase. */
  ghost predicate Ordered(blocks: seq<Block>) {
    forall i, j | 0 <= i < j < |blocks| :: blocks[i].header.number < blocks[j].header.number
  }

  ghost predicate DistinctNumbers(blocks: seq<Block>) {
    forall i, j | 0 <= i < j < |blocks| :: blocks[i].header.number != blocks[j].header.number
  }

  /** Every number lies above the watermark, if there is one. */
  ghost predicate Above(blocks: seq<Block>, watermark: Option<nat>) {
    watermark.Some? ==> forall b | b in blocks :: b.header.number > watermark.value
  }

  // The retention rules the code uses.

  function NumberBelow(n: nat): Keep { (b: Block) => b.header.number < n }

  function NumberAtMost(n: nat): Keep { (b: Block) => b.header.number <= n }

  function NumberAbove(n: nat): Keep { (b: Block) => b.header.number > n }

  /** The part of a list below a number, and the part above it. */
  function Below(blocks: seq<Block>, n: nat): (r: seq<Block>)
    ensures forall b {:trigger b in r} :: b in r <==> b in blocks && b.header.number < n
  {
    Retained(blocks, NumberBelow(n))
  }

  function Beyond(blocks: seq<Block>, n: nat): (r: seq<Block>)
    ensures forall b {:trigger b in r} :: b in r <==> b in blocks && b.header.number > n
  {
    Retained(blocks, NumberAbove(n))
  }

  /** The last block of an ordered list has the largest number, and occurs nowhere else. */
  lemma OrderedLast(s: seq<Block>)
    requires Ordered(s) && |s| > 0
    ensures Ordered(s[..|s| - 1]) && s == s[..|s| - 1] + [s[|s| - 1]] && s[|s| - 1] in s
    ensures forall b :: b in s[..|s| - 1] <==> b in s && b.header.number < s[|s| - 1].header.number
    ensures forall b | b in s && b.header.number >= s[|s| - 1].header.number :: b == s[|s| - 1]
  {
  }

  /** An ordered list is determined by its members. */
  lemma {:induction false} OrderedUnique(s: seq<Block>, t: seq<Block>)
    requires Ordered(s) && Ordered(t)
    requires forall b :: b in s <==> b in t
    ensures s == t
  {
    assert |s| > 0 ==> s[0] in t;
    assert |t| > 0 ==> t[0] in s;
    if |s| > 0 {
      OrderedLast(s);
      OrderedLast(t);
      assert s[|s| - 1] == t[|t| - 1];
      OrderedUnique(s[..|s| - 1], t[..|t| - 1]);
    }
  }

  lemma OrderedConcat(s: seq<Block>, t: seq<Block>)
    requires Ordered(s) && Ordered(t)
    requires forall b, c | b in s && c in t :: b.header.number < c.header.number
    ensures Ordered(s + t)
    ensures forall b :: b in s + t <==> b in s || b in t
  {
  }

  lemma {:induction false} RetainedOrdered(blocks: seq<Block>, keep: Keep)
    requires Ordered(blocks)
    ensures Ordered(Retained(blocks, keep))
  {
    if |blocks| > 0 {
      var front, last := blocks[..|blocks| - 1], blocks[|blocks| - 1];
      RetainedOrdered(front, keep);
      OrderedLast(blocks);
      OrderedConcat(Retained(front, keep), [last]);
    }
  }

  /** Keeping everything changes nothing. */
  lemma {:induction false} RetainedAll(blocks: seq<Block>, keep: Keep)
    requires forall b | b in blocks :: keep(b)
    ensures Retained(blocks, keep) == blocks
  {
    if |blocks| > 0 {
      RetainedAll(blocks[..|blocks| - 1], keep);
      assert blocks == blocks[..|blocks| - 1] + [blocks[|blocks| - 1]];
    }
  }

  /** Keeping nothing leaves nothing. */
  lemma {:induction false} RetainedNone(blocks: seq<Block>, keep: Keep)
    requires forall b | b in blocks :: !keep(b)
    ensures Retained(blocks, keep) == []
  {
    if |blocks| > 0 {
      RetainedNone(blocks[..|blocks| - 1], keep);
      assert blocks == blocks[..|blocks| - 1] + [blocks[|blocks| - 1]];
    }
  }

  lemma {:induction false} RetainedConcat(s: seq<Block>, t: seq<Block>, keep: Keep)
    ensures Retained(s + t, keep) == Retained(s, keep) + Retained(t, keep)
  {
    if |t| == 0 {
      assert s + t == s;
    } else {
      RetainedConcat(s, t[..|t| - 1], keep);
      assert (s + t)[..|s + t| - 1] == s + t[..|t| - 1];
    }
  }

  /** Two rounds of pruning are one. */
  lemma {:induction false} RetainedTwice(blocks: seq<Block>, first: Keep, second: Keep)
    ensures Retained(Retained(blocks, first), second) == Retained(blocks, (b: Block) => first(b) && second(b))
  {
    if |blocks| > 0 {
      var front, last := blocks[..|blocks| - 1], blocks[|blocks| - 1];
      RetainedTwice(front, first, second);
      if first(last) {
        assert Retained(blocks, first)[..|Retained(front, first)|] == Retained(front, first);
      }
    }
  }
}
