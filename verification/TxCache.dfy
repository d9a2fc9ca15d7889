/** The cache of unconfirmed L2 blocks: a vector searched, replaced into, pushed to, sorted, pruned
    and cleared in place. */
module Cache {
  import opened Blocks

  /** The index of the first block with the given number, or the length. */
  function FirstIndex(blocks: seq<Block>, number: nat): (i: nat)
    ensures i <= |blocks|
    ensures i < |blocks| ==> blocks[i].header.number == number
    ensures forall j | 0 <= j < i :: blocks[j].header.number != number
  {
    if |blocks| == 0 || blocks[0].header.number == number then 0 else 1 + FirstIndex(blocks[1..], number)
  }

  /** Puts `x` behind every block whose number is not larger. */
  function InsertByNumber(blocks: seq<Block>, x: Block): (r: seq<Block>)
    ensures |r| == |blocks| + 1
    ensures forall b {:trigger b in r} :: b in r <==> b in blocks || b == x
  {
    if |blocks| == 0 then [x]
    else
      var last := blocks[|blocks| - 1];
      assert blocks == blocks[..|blocks| - 1] + [last];
      if last.header.number <= x.header.number then blocks + [x]
      else InsertByNumber(blocks[..|blocks| - 1], x) + [last]
  }

  /** The stable sort by block number. */
  function SortByNumber(blocks: seq<Block>): (r: seq<Block>)
    ensures |r| == |blocks|
    ensures forall b {:trigger b in r} :: b in r <==> b in blocks
  {
    if |blocks| == 0 then []
    else
      assert blocks == blocks[..|blocks| - 1] + [blocks[|blocks| - 1]];
      InsertByNumber(SortByNumber(blocks[..|blocks| - 1]), blocks[|blocks| - 1])
  }

  /** The cache contents after a block was added: replace or push, then sort. */
  function Added(blocks: seq<Block>, block: Block): seq<Block> {
    var i := FirstIndex(blocks, block.header.number);
    SortByNumber(if i < |blocks| then blocks[i := block] else blocks + [block])
  }

  class TxCache {
    var unconfirmed: seq<Block>

    constructor (blocks: seq<Block>)
      ensures unconfirmed == blocks
    {
      unconfirmed := blocks;
    }

    method AddBlock(block: Block)
      modifies this
      ensures unconfirmed == Added(old(unconfirmed), block)
    {
      var i := 0;
      while i < |unconfirmed| && unconfirmed[i].header.number != block.header.number
        invariant 0 <= i <= |unconfirmed|
        invariant forall j | 0 <= j < i :: unconfirmed[j].header.number != block.header.number
      {
        i := i + 1;
      }
      if i < |unconfirmed| {
        unconfirmed := unconfirmed[i := block];
      } else {
        unconfirmed := unconfirmed + [block];
      }
      unconfirmed := SortByNumber(unconfirmed);
    }

    method Retain(keep: Keep)
      modifies this
      ensures unconfirmed == Retained(old(unconfirmed), keep)
    {
      var kept := [];
      for i := 0 to |unconfirmed|
        invariant unconfirmed == old(unconfirmed)
        invariant kept == Retained(unconfirmed[..i], keep)
      {
        assert unconfirmed[..i + 1][..i] == unconfirmed[..i];
        if keep(unconfirmed[i]) {
          kept := kept + [unconfirmed[i]];
        }
      }
      assert unconfirmed[..|unconfirmed|] == unconfirmed;
      unconfirmed := kept;
    }

    method Clear()
      modifies this
      ensures unconfirmed == []
    {
      unconfirmed := [];
    }
  }

  // ---- the vector refines a map from numbers to blocks ---------------------------------------

  ghost function AsMap(blocks: seq<Block>): (m: map<nat, Block>)
    requires DistinctNumbers(blocks)
    ensures forall b :: b in blocks <==> b.header.number in m && m[b.header.number] == b
  {
    map i | 0 <= i < |blocks| :: blocks[i].header.number := blocks[i]
  }

  lemma {:induction false} InsertKeepsOrder(blocks: seq<Block>, x: Block)
    requires Ordered(blocks) && forall b | b in blocks :: b.header.number != x.header.number
    ensures Ordered(InsertByNumber(blocks, x))
  {
    if |blocks| > 0 {
      var front, last := blocks[..|blocks| - 1], blocks[|blocks| - 1];
      OrderedLast(blocks);
      if last.header.number > x.header.number {
        InsertKeepsOrder(front, x);
        OrderedConcat(InsertByNumber(front, x), [last]);
      } else {
        OrderedConcat(blocks, [x]);
      }
    }
  }

  lemma {:induction false} SortOrders(blocks: seq<Block>)
    requires DistinctNumbers(blocks)
    ensures Ordered(SortByNumber(blocks))
  {
    if |blocks| > 0 {
      SortOrders(blocks[..|blocks| - 1]);
      InsertKeepsOrder(SortByNumber(blocks[..|blocks| - 1]), blocks[|blocks| - 1]);
    }
  }

  /** Numbers do not decrease. */
  ghost predicate Sorted(blocks: seq<Block>) {
    forall i, j | 0 <= i < j < |blocks| :: blocks[i].header.number <= blocks[j].header.number
  }

  function HasNumber(n: nat): Keep { (b: Block) => b.header.number == n }

  lemma {:induction false} InsertSorts(blocks: seq<Block>, x: Block)
    requires Sorted(blocks)
    ensures Sorted(InsertByNumber(blocks, x))
  {
    if |blocks| > 0 && blocks[|blocks| - 1].header.number > x.header.number {
      var front, last := blocks[..|blocks| - 1], blocks[|blocks| - 1];
      InsertSorts(front, x);
      assert forall b | b in InsertByNumber(front, x) :: b.header.number <= last.header.number;
    }
  }

  lemma {:induction false} InsertStable(blocks: seq<Block>, x: Block, n: nat)
    ensures Retained(InsertByNumber(blocks, x), HasNumber(n)) == Retained(blocks + [x], HasNumber(n))
  {
    hide Retained, Sorted;
    if |blocks| == 0 {
      assert blocks + [x] == [x];
    } else if blocks[|blocks| - 1].header.number > x.header.number {
      var front, last, keep := blocks[..|blocks| - 1], blocks[|blocks| - 1], HasNumber(n);
      InsertStable(front, x, n);
      RetainedConcat(InsertByNumber(front, x), [last], keep);
      RetainedConcat(front, [x], keep);
      RetainedConcat(front, [last], keep);
      RetainedConcat(blocks, [x], keep);
      assert blocks == front + [last];
      SingleRetained(x, keep);
      SingleRetained(last, keep);
    }
  }

  lemma SingleRetained(b: Block, keep: Keep)
    ensures Retained([b], keep) == if keep(b) then [b] else []
  {
    assert [b][..0] == [];
  }

  /** The sort is stable, on any list: numbers do not decrease afterwards, and the blocks of one number
      keep their order. */
  lemma {:induction false} SortStable(blocks: seq<Block>, n: nat)
    ensures Sorted(SortByNumber(blocks))
    ensures Retained(SortByNumber(blocks), HasNumber(n)) == Retained(blocks, HasNumber(n))
  {
    hide Retained, Sorted, InsertByNumber;
    if |blocks| > 0 {
      var front, last := blocks[..|blocks| - 1], blocks[|blocks| - 1];
      SortStable(front, n);
      InsertSorts(SortByNumber(front), last);
      InsertStable(SortByNumber(front), last, n);
      RetainedConcat(SortByNumber(front), [last], HasNumber(n));
      RetainedConcat(front, [last], HasNumber(n));
      assert blocks == front + [last];
    } else {
      assert SortByNumber(blocks) == blocks == [];
      NoneSorted();
    }
  }

  lemma NoneSorted()
    ensures Sorted([])
  {
  }

  /** Adding replaces the block of that number, if there is one, and leaves an ordered list. */
  lemma AddedMembers(blocks: seq<Block>, block: Block)
    requires DistinctNumbers(blocks)
    ensures Ordered(Added(blocks, block))
    ensures forall b :: b in Added(blocks, block) <==>
              b == block || (b in blocks && b.header.number != block.header.number)
  {
    var i := FirstIndex(blocks, block.header.number);
    var updated := if i < |blocks| then blocks[i := block] else blocks + [block];
    SortOrders(updated);
    forall b
      ensures b in updated <==> b == block || (b in blocks && b.header.number != block.header.number)
    {
      if b in blocks && b.header.number != block.header.number {
        var j :| 0 <= j < |blocks| && blocks[j] == b;
        assert updated[j] == b;
      }
      assert updated[i] == block;
    }
  }

  /** `add_block` is map update. */
  lemma AddedIsMapUpdate(blocks: seq<Block>, block: Block)
    requires DistinctNumbers(blocks)
    ensures Ordered(Added(blocks, block))
    ensures AsMap(Added(blocks, block)) == AsMap(blocks)[block.header.number := block]
  {
    hide Added;
    AddedMembers(blocks, block);
    SameMap(AsMap(Added(blocks, block)), AsMap(blocks)[block.header.number := block], Added(blocks, block));
  }

  /** A map that holds every listed block under its number, and nothing else, is the list's map. */
  lemma SameMap(m: map<nat, Block>, m': map<nat, Block>, blocks: seq<Block>)
    requires DistinctNumbers(blocks) && m == AsMap(blocks)
    requires forall n | n in m' :: m'[n].header.number == n && m'[n] in blocks
    requires forall b | b in blocks :: b.header.number in m' && m'[b.header.number] == b
    ensures m == m'
  {
  }

  ghost function Filtered(m: map<nat, Block>, keep: Keep): (r: map<nat, Block>)
    ensures forall n :: n in r <==> n in m && keep(m[n])
    ensures forall n | n in r :: r[n] == m[n]
  {
    map n | n in m && keep(m[n]) :: m[n]
  }

  lemma {:induction false} RetainedDistinct(blocks: seq<Block>, keep: Keep)
    requires DistinctNumbers(blocks)
    ensures DistinctNumbers(Retained(blocks, keep))
  {
    if |blocks| > 0 {
      var front, last := blocks[..|blocks| - 1], blocks[|blocks| - 1];
      RetainedDistinct(front, keep);
      forall b | b in Retained(front, keep)
        ensures b.header.number != last.header.number
      {
        assert b in front;
      }
    }
  }

  /** `retain` is map filter. */
  lemma RetainedIsMapFilter(blocks: seq<Block>, keep: Keep)
    requires DistinctNumbers(blocks)
    ensures DistinctNumbers(Retained(blocks, keep))
    ensures AsMap(Retained(blocks, keep)) == Filtered(AsMap(blocks), keep)
  {
    hide Retained;
    RetainedDistinct(blocks, keep);
    var m := AsMap(blocks);
    forall n | n in Filtered(m, keep)
      ensures m[n].header.number == n && m[n] in blocks
    {
      var i :| 0 <= i < |blocks| && blocks[i].header.number == n;
      assert m[n] == blocks[i];
    }
    SameMap(AsMap(Retained(blocks, keep)), Filtered(m, keep), Retained(blocks, keep));
  }

  /** `blocks` lists the values of the map in the order of their keys: no other ordered list has this map. */
  lemma MapDeterminesCache(s: seq<Block>, t: seq<Block>)
    requires Ordered(s) && Ordered(t) && AsMap(s) == AsMap(t)
    ensures s == t
  {
    OrderedUnique(s, t);
  }

  /** On an ordered cache, adding is a splice. */
  lemma AddedSplices(blocks: seq<Block>, block: Block)
    requires Ordered(blocks)
    ensures Added(blocks, block) == Below(blocks, block.header.number) + [block] + Beyond(blocks, block.header.number)
  {
    hide Added, Retained;
    var n := block.header.number;
    AddedMembers(blocks, block);
    RetainedOrdered(blocks, NumberBelow(n));
    RetainedOrdered(blocks, NumberAbove(n));
    OrderedConcat(Below(blocks, n), [block]);
    OrderedConcat(Below(blocks, n) + [block], Beyond(blocks, n));
    OrderedUnique(Added(blocks, block), Below(blocks, n) + [block] + Beyond(blocks, n));
  }
}
