/**
 * The channel's queue: a chain of 32-slot blocks in which emptied blocks are put back
 * behind the tail, to be written again.
 */
module BlockQueues {
  import opened Base

  const BLOCK_CAP := 32

  class Block<T> {
    var next: Block?<T>
    const values: array<Option<T>>
    var begin: nat
    var end: nat
    /** Set when the block's memory is given back. */
    ghost var freed: bool

    constructor ()
      ensures next == null && begin == end == 0 && !freed
      ensures fresh(values) && values.Length == BLOCK_CAP
      ensures forall j :: 0 <= j < BLOCK_CAP ==> values[j] == None
    {
      next := null;
      values := new Option<T>[BLOCK_CAP](_ => None);
      begin, end := 0, 0;
      freed := false;
    }

    predicate CanWrite()
      reads this
    {
      end < BLOCK_CAP
    }

    predicate IsEmpty()
      reads this
    {
      end == begin
    }

    method Reset()
      modifies this`next, this`begin, this`end
      ensures next == null && begin == end == 0
    {
      next := null;
      begin, end := 0, 0;
    }
  }

  /** The slot arrays of a chain of blocks. */
  ghost function Buffers<T>(chain: seq<Block<T>>): seq<array<Option<T>>> {
    seq(|chain|, i requires 0 <= i < |chain| => chain[i].values)
  }

  class Queue<T> {
    var head: Block<T>
    var tail: Block<T>
    var len: nat
    /** The blocks from the head on; the first `used + 1` are in use, the rest are free. */
    ghost var chain: seq<Block<T>>
    ghost var used: nat
    /** Every block allocated and not given back, and their slot arrays. */
    ghost var blocks: set<Block<T>>
    ghost var buffers: set<array<Option<T>>>
    ghost var contents: seq<T>
    /** The most blocks that were ever in use at once, and the most elements. */
    ghost var peakUsed: nat
    ghost var peakLen: nat

    /** Every block ever allocated, each once, linked in order. */
    ghost predicate Linked()
      reads this`chain, this`blocks, this`buffers, blocks`next, blocks`freed
    {
      && Distinct(chain) && Distinct(Buffers(chain))
      && Enumerates(chain, blocks)
      && (forall i {:trigger chain[i].values} :: 0 <= i < |chain| ==>
            chain[i].values in buffers && chain[i].values.Length == BLOCK_CAP)
      && (forall i {:trigger chain[i].freed} :: 0 <= i < |chain| ==> !chain[i].freed)
      && (forall i {:trigger chain[i].next} :: 0 <= i < |chain| ==>
            chain[i].next == if i + 1 < |chain| then chain[i + 1] else null)
    }

    /**
     * The cursors: full blocks up to the tail, which has room; reset blocks behind it.
     * With `midway`, head and tail may have just run out and not yet moved on.
     */
    ghost predicate Shaped(midway: bool)
      requires Linked()
      reads this`head, this`tail, this`len, this`chain, this`used, this`contents, this`blocks,
        this`buffers, blocks`begin, blocks`end, blocks`next, blocks`freed
    {
      && used < |chain|
      && head == chain[0] && tail == chain[used]
      && (forall i {:trigger chain[i].end} :: 0 <= i < |chain| ==>
            if i < used then chain[i].end == BLOCK_CAP
            else if i == used then chain[i].end < BLOCK_CAP || (midway && chain[i].end == BLOCK_CAP)
            else chain[i].end == 0)
      && (forall i {:trigger chain[i].begin} :: 0 < i < |chain| ==> chain[i].begin == 0)
      && (chain[0].begin < BLOCK_CAP || (midway && chain[0].begin == BLOCK_CAP))
      && chain[0].begin <= chain[0].end
      && len == |contents| == BLOCK_CAP * used + chain[used].end - chain[0].begin
    }

    /** What slot `j` of block `i` must hold: the element due there, or nothing. */
    ghost function Due(i: nat, j: nat): Option<T>
      requires i < |chain| && chain[0] in blocks && chain[i] in blocks
      reads this`chain, this`contents, this`blocks, blocks`begin, blocks`end
    {
      var p := BLOCK_CAP * i + j - chain[0].begin;
      if chain[i].begin <= j < chain[i].end && 0 <= p < |contents| then Some(contents[p]) else None
    }

    /** The slots are initialised exactly between the cursors of their block. */
    ghost predicate Filled()
      requires Linked()
      reads this`chain, this`blocks, this`buffers, this`contents,
        blocks`begin, blocks`end, blocks`next, blocks`freed, buffers
    {
      forall i, j {:trigger chain[i].values[j]} :: 0 <= i < |chain| && 0 <= j < chain[i].values.Length ==>
        chain[i].values[j] == Due(i, j)
    }

    /** No block was allocated beyond what the largest number of elements made necessary. */
    ghost predicate Bounded()
      reads this`chain, this`used, this`peakUsed, this`peakLen, this`len
    {
      && used + 1 <= |chain| == peakUsed
      && len <= peakLen
      && BLOCK_CAP * (peakUsed - 1) <= peakLen + BLOCK_CAP - 1
    }

    ghost predicate Valid()
      reads this`head, this`tail, this`len, this`chain, this`used, this`contents, this`blocks, this`buffers,
        this`peakUsed, this`peakLen, blocks`begin, blocks`end, blocks`next, blocks`freed, buffers
    {
      Linked() && Shaped(false) && Filled() && Bounded()
    }

    constructor ()
      ensures Valid() && contents == [] && peakLen == 0 && peakUsed == 1
      ensures fresh(blocks) && fresh(buffers)
    {
      var block := new Block<T>();
      head, tail, len := block, block, 0;
      chain, used, contents := [block], 0, [];
      blocks, buffers := {block}, {block.values};
      peakUsed, peakLen := 1, 0;
    }

    function Len(): (n: nat)
      requires Valid()
      reads this`head, this`tail, this`len, this`chain, this`used, this`contents, this`blocks, this`buffers,
        this`peakUsed, this`peakLen, blocks`begin, blocks`end, blocks`next, blocks`freed, buffers
      ensures n == |contents|
    {
      len
    }

    predicate IsEmpty()
      requires Valid()
      reads this`head, this`tail, this`len, this`chain, this`used, this`contents, this`blocks, this`buffers,
        this`peakUsed, this`peakLen, blocks`begin, blocks`end, blocks`next, blocks`freed, buffers
      ensures IsEmpty() <==> contents == []
    {
      len == 0
    }

    lemma EndBlocks()
      requires Linked() && Shaped(true)
      ensures head in blocks && tail in blocks && head.values in buffers && tail.values in buffers
    {
      assert chain[0].values in buffers && chain[used].values in buffers;
    }

    /** The write itself: one slot of the tail, which had room for it. */
    method WriteSlot(value: T)
      requires Linked() && Shaped(false) && Filled()
      modifies this`contents, tail`end, tail.values
      ensures Linked() && Filled()
      ensures contents == old(contents) + [value] && tail.end == old(tail.end) + 1
    {
      hide Distinct;
      OthersDiffer(chain, used);
      OthersDiffer(Buffers(chain), used);
      assert forall i {:trigger chain[i].values} :: 0 <= i < |chain| ==> chain[i].values == Buffers(chain)[i];
      var offset := tail.end;
      tail.end := tail.end + 1;
      tail.values[offset] := Some(value);
      contents := contents + [value];
    }

    method WriteTail(value: T)
      requires Linked() && Shaped(false) && Filled()
      modifies this`len, this`contents, this`peakLen, tail`end, tail.values
      ensures Linked() && Shaped(true) && Filled()
      ensures contents == old(contents) + [value] && peakLen == Max(old(peakLen), |contents|)
      ensures chain[0].begin < BLOCK_CAP && chain[used].end == old(chain[used].end) + 1
    {
      hide Linked, Filled;
      EndBlocks();
      Others(used);
      WriteSlot(value);
      len := len + 1;
      peakLen := Max(peakLen, len);
    }

    /** The read itself: one slot of the head, which was initialised. */
    method ReadSlot() returns (value: T)
      requires Linked() && Shaped(false) && Filled() && contents != []
      modifies this`contents, head`begin, head.values
      ensures Linked() && Filled()
      ensures value == old(contents)[0] && contents == old(contents)[1..] && head.begin == old(head.begin) + 1
    {
      hide Distinct;
      OthersDiffer(chain, 0);
      OthersDiffer(Buffers(chain), 0);
      assert forall i {:trigger chain[i].values} :: 0 <= i < |chain| ==> chain[i].values == Buffers(chain)[i];
      assert !head.IsEmpty();
      var offset := head.begin;
      head.begin := head.begin + 1;
      assert head.values[offset] == Some(contents[0]);
      value := head.values[offset].value;
      head.values[offset] := None;
      contents := contents[1..];
    }

    method ReadHead() returns (value: T)
      requires Linked() && Shaped(false) && Filled() && contents != []
      modifies this`len, this`contents, head`begin, head.values
      ensures Linked() && Shaped(true) && Filled()
      ensures value == old(contents)[0] && contents == old(contents)[1..]
      ensures chain[used].end < BLOCK_CAP && chain[0].begin == old(chain[0].begin) + 1
    {
      hide Linked, Filled;
      EndBlocks();
      Others(0);
      value := ReadSlot();
      len := len - 1;
    }

    /** A new block behind the last one. */
    method Extend() returns (block: Block<T>)
      requires Linked() && Shaped(true) && Filled() && used + 1 == |chain|
      modifies this`chain, this`blocks, this`buffers, tail`next
      ensures Linked() && Shaped(true) && Filled()
      ensures chain == old(chain) + [block] && fresh(block)
      ensures blocks == old(blocks) + {block} && buffers == old(buffers) + {block.values} && fresh(block.values)
    {
      block := new Block<T>();
      Attach(block);
    }

    method Attach(block: Block<T>)
      requires Linked() && Shaped(true) && Filled() && used + 1 == |chain|
      requires block !in chain && block.values !in Buffers(chain) && block.next == null && !block.freed
      requires block.begin == block.end == 0 && block.values.Length == BLOCK_CAP
      requires forall j :: 0 <= j < BLOCK_CAP ==> block.values[j] == None
      modifies this`chain, this`blocks, this`buffers, tail`next
      ensures Linked() && Shaped(true) && Filled()
      ensures chain == old(chain) + [block] && blocks == old(blocks) + {block}
      ensures buffers == old(buffers) + {block.values}
    {
      hide Distinct;
      Appended(chain, block);
      EnumeratesPush(chain, blocks, block);
      OthersDiffer(chain, used);
      tail.next := block;
      chain := chain + [block];
      blocks, buffers := blocks + {block}, buffers + {block.values};
    }

    /** The tail moves on to the block behind it. */
    method MoveTail(ptr: Block<T>)
      requires Linked() && Shaped(true) && Filled() && used + 1 < |chain| && ptr == chain[used + 1]
      requires chain[used].end == BLOCK_CAP && chain[0].begin < BLOCK_CAP
      modifies this`tail, this`used, this`peakUsed
      ensures Linked() && Shaped(false) && Filled()
      ensures used == old(used) + 1 && peakUsed == Max(old(peakUsed), used + 1)
    {
      hide Linked, Due;
      tail := ptr;
      used := used + 1;
      peakUsed := Max(peakUsed, used + 1);
    }

    lemma Behind()
      requires Linked() && used < |chain| && tail == chain[used]
      ensures tail.next == if used + 1 < |chain| then chain[used + 1] else null
    {
    }

    /** Behind a full tail stands a free block, or a new one is allocated. */
    method AdvanceTail()
      requires Linked() && Shaped(true) && Filled()
      requires chain[used].end == BLOCK_CAP && chain[0].begin < BLOCK_CAP
      modifies this`tail, this`chain, this`blocks, this`buffers, this`used, this`peakUsed, tail`next
      ensures Linked() && Shaped(false) && Filled()
      ensures used == old(used) + 1 && peakUsed == Max(old(peakUsed), used + 1)
      ensures |chain| == Max(|old(chain)|, used + 1)
      ensures old(blocks) <= blocks && fresh(blocks - old(blocks)) && fresh(buffers - old(buffers))
    {
      hide Linked, Filled;
      Behind();
      if tail.next != null {
        MoveTail(tail.next);
      } else {
        var ptr := Extend();
        MoveTail(ptr);
      }
    }

    /** `push`: the value goes to the end of the queue. */
    method PushUnchecked(value: T)
      requires Valid()
      modifies this, blocks, buffers
      ensures Valid()
      ensures contents == old(contents) + [value]
      ensures peakLen == Max(old(peakLen), |contents|) && peakUsed == Max(old(peakUsed), used + 1)
      ensures old(blocks) <= blocks && fresh(blocks - old(blocks)) && fresh(buffers - old(buffers))
    {
      hide Linked, Filled;
      EndBlocks();
      WriteTail(value);
      if !tail.CanWrite() {
        AdvanceTail();
      }
    }

    /** An emptied head is reset and spliced in right behind the tail. */
    method Recycle()
      requires Linked() && Shaped(true) && Filled()
      requires chain[0].begin == BLOCK_CAP && chain[used].end < BLOCK_CAP
      modifies this`head, this`chain, this`used, head`next, head`begin, head`end, tail`next
      ensures Linked() && Shaped(false) && Filled()
      ensures used == old(used) - 1 && chain == Recycled(old(chain), old(used))
    {
      hide Distinct, Linked;
      Others(0);
      MoveHeadBehindTail();
    }

    lemma Others(k: nat)
      requires Linked() && k < |chain|
      ensures forall i :: 0 <= i < |chain| && i != k ==> chain[i] != chain[k]
    {
      OthersDiffer(chain, k);
    }

    /** The pointer surgery of `Recycle`. */
    method MoveHeadBehindTail()
      requires Linked() && Shaped(true) && 0 < used
      modifies this`head, this`chain, this`used, head`next, head`begin, head`end, tail`next
      ensures Linked() && used == old(used) - 1 && chain == Recycled(old(chain), old(used))
      ensures head == chain[0] && old(head).begin == old(head).end == 0
    {
      hide Distinct;
      RecycledApart(chain, used);
      EnumeratesRecycled(chain, blocks, used);
      OthersDiffer(chain, 0);
      OthersDiffer(chain, used);
      var blk := head;
      head := blk.next;
      var freeBlocks := tail.next;
      blk.Reset();
      blk.next := freeBlocks;
      tail.next := blk;
      chain := Recycled(chain, used);
      used := used - 1;
    }

    /** `pop`: the value that has been in the queue longest. */
    method PopUnchecked() returns (value: T)
      requires Valid() && contents != []
      modifies this, blocks, buffers
      ensures Valid()
      ensures value == old(contents)[0] && contents == old(contents)[1..]
      ensures peakLen == old(peakLen) && peakUsed == old(peakUsed)
      ensures blocks == old(blocks) && buffers == old(buffers)
    {
      hide Linked, Filled;
      EndBlocks();
      value := ReadHead();
      if head.begin == BLOCK_CAP {
        Recycle();
      }
    }

    /** There are never more blocks than were in use at the fullest moment, and one more than that needed. */
    lemma MemoryBound()
      requires Valid()
      ensures |blocks| == peakUsed <= (peakLen + 31) / 32 + 1
    {
      EnumeratesCounts(chain, blocks);
    }

    /** Gives back every block there is, each exactly once. */
    method FreeBlocks()
      requires Valid() && contents == []
      modifies blocks`freed
      ensures forall b | b in blocks :: b.freed
    {
      hide Filled, Distinct;
      var cur: Block?<T> := head;
      ghost var i := 0;
      while cur != null
        invariant 0 <= i <= |chain|
        invariant cur == if i < |chain| then chain[i] else null
        invariant forall k :: 0 <= k < |chain| ==> (chain[k].freed <==> k < i)
        invariant forall k {:trigger chain[k].next} :: 0 <= k < |chain| ==>
          chain[k].next == if k + 1 < |chain| then chain[k + 1] else null
        decreases |chain| - i
      {
        OthersDiffer(chain, i);
        var block := cur;
        assert !block.freed;
        cur := block.next;
        block.freed := true;
        i := i + 1;
      }
      assert forall b | b in blocks :: Occurs(chain, b);
    }
  }

  function Max(a: nat, b: nat): nat {
    if a < b then b else a
  }

  lemma RecycledApart<T>(chain: seq<Block<T>>, k: nat)
    requires Distinct(chain) && Distinct(Buffers(chain)) && k < |chain|
    ensures Distinct(Recycled(chain, k)) && Distinct(Buffers(Recycled(chain, k)))
  {
    DistinctRecycled(chain, k);
    DistinctRecycled(Buffers(chain), k);
    assert Buffers(Recycled(chain, k)) == Recycled(Buffers(chain), k);
  }

  lemma Appended<T>(chain: seq<Block<T>>, block: Block<T>)
    requires Distinct(chain) && Distinct(Buffers(chain))
    requires block !in chain && block.values !in Buffers(chain)
    ensures Distinct(chain + [block]) && Distinct(Buffers(chain + [block]))
  {
    DistinctPush(chain, block);
    DistinctPush(Buffers(chain), block.values);
    assert Buffers(chain + [block]) == Buffers(chain) + [block.values];
  }
}
