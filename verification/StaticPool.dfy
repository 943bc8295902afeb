/** The fixed-block allocator as one thread sees it: a static two-dimensional array whose
    free blocks are threaded through their own first words, and the addresses it hands out. */
module StaticPool {
  import opened Arithmetic
  import opened BlockStack
  import PoolProtocol

  const POOL_ALIGN := 16
  const WORD := 8

  // ---- Geometry ----

  function Address(base: nat, blockSize: nat, b: nat): nat {
    base + b * blockSize
  }

  predicate PowerOfTwoUpToAlign(a: nat) {
    a == 1 || a == 2 || a == 4 || a == 8 || a == POOL_ALIGN
  }

  lemma MultipleOfAlign(b: nat, k: nat)
    ensures (b * (16 * k)) % 16 == 0
  {
    assert b * (16 * k) == 16 * (b * k);
  }

  lemma DivisorsOfAlign(x: nat, a: nat)
    requires x % 16 == 0 && PowerOfTwoUpToAlign(a)
    ensures x % a == 0
  {
    var q := x / 16;
    assert x == 16 * q;
    RemainderIs(8 * q, 2, 0);
    RemainderIs(4 * q, 4, 0);
    RemainderIs(2 * q, 8, 0);
  }

  /** Every block meets the pool's alignment exactly when the block size is a multiple of
      it, as soon as there is a second block. */
  lemma AlignedBlocks(base: nat, blockSize: nat, count: nat)
    requires base % POOL_ALIGN == 0 && count >= 2
    ensures (forall b: nat :: b < count ==> Address(base, blockSize, b) % POOL_ALIGN == 0)
            <==> blockSize % POOL_ALIGN == 0
  {
    assert Address(base, blockSize, 1) == base + blockSize;
    AlignedSum(base, blockSize);
    if blockSize % POOL_ALIGN == 0 {
      forall b: nat | b < count
        ensures Address(base, blockSize, b) % POOL_ALIGN == 0
      {
        AddressMeetsAlignment(base, blockSize, b, POOL_ALIGN);
      }
    }
  }

  lemma AddressMeetsAlignment(base: nat, blockSize: nat, b: nat, a: nat)
    requires base % POOL_ALIGN == 0 && blockSize % POOL_ALIGN == 0 && PowerOfTwoUpToAlign(a)
    ensures Address(base, blockSize, b) % a == 0
  {
    var k := blockSize / POOL_ALIGN;
    assert blockSize == 16 * k;
    MultipleOfAlign(b, k);
    AlignedSum(base, b * blockSize);
    DivisorsOfAlign(base + b * blockSize, a);
  }

  lemma AddressInPool(base: nat, blockSize: nat, count: nat, b: nat, len: nat)
    requires b < count && len <= blockSize
    ensures base <= Address(base, blockSize, b)
    ensures Address(base, blockSize, b) + len <= Address(base, blockSize, count)
  {
    Scale(b + 1, count, blockSize);
    assert (b + 1) * blockSize == b * blockSize + blockSize;
  }

  /** Allocations of any accepted lengths in different blocks share no byte. */
  lemma BlocksAreDisjoint(base: nat, blockSize: nat, b: nat, c: nat, lenB: nat, lenC: nat)
    requires b != c && lenB <= blockSize && lenC <= blockSize
    ensures Address(base, blockSize, b) + lenB <= Address(base, blockSize, c)
            || Address(base, blockSize, c) + lenC <= Address(base, blockSize, b)
  {
    if b < c {
      AddressInPool(base, blockSize, c, b, lenB);
    } else {
      AddressInPool(base, blockSize, b, c, lenC);
    }
  }

  // ---- The allocator ----

  class Pool {
    const base: nat
    const blockSize: nat
    const blockCount: nat
    const words: array2<int>
    var head: int
    ghost var free: seq<int>
    ghost var owned: set<int>

    /** The storage has the shape its declaration gives it; says nothing of its contents. */
    ghost predicate Shaped()
    {
      && base % POOL_ALIGN == 0
      && words.Length0 == blockCount
      && words.Length1 == blockSize / WORD >= 1
    }

    ghost function FirstWords(): (r: seq<int>)
      requires Shaped()
      reads words
      ensures |r| == blockCount
    {
      seq(blockCount, i requires 0 <= i < words.Length0 && words.Length1 > 0 reads words => words[i, 0])
    }

    ghost predicate Valid()
      reads this, words
    {
      && Shaped()
      && NoDup(free)
      && head == First(free)
      && Linked(FirstWords(), free)
      && (forall b :: b in owned ==> 0 <= b < blockCount)
      && (forall b :: 0 <= b < blockCount ==> (b in free <==> b !in owned))
    }

    /** The static storage of a program that has not called Reset yet: nothing is free. */
    constructor (base: nat, blockSize: nat, blockCount: nat)
      requires base % POOL_ALIGN == 0 && blockSize >= WORD
      ensures Shaped() && head == NULL
      ensures this.base == base && this.blockSize == blockSize && this.blockCount == blockCount
      ensures fresh(words)
    {
      this.base, this.blockSize, this.blockCount := base, blockSize, blockCount;
      words := new int[blockCount, blockSize / WORD]((_, _) => 0);
      head := NULL;
      free, owned := [], {};
    }

    /** Everything becomes free, whatever went before; the pool is then exactly in the
        state in which the concurrent runs of PoolProtocol start. */
    method Reset()
      requires Shaped()
      modifies this, words
      ensures Valid() && free == ResetList(blockCount) && owned == {}
      ensures var init := PoolProtocol.Init(PoolProtocol.Config(blockCount, 0, blockSize, POOL_ALIGN));
              head == init.head && FirstWords() == init.next
      ensures forall b, k :: 0 <= b < blockCount && 0 < k < words.Length1 ==> words[b, k] == old(words[b, k])
    {
      head := NULL;
      var i := 0;
      while i < blockCount
        invariant 0 <= i <= blockCount
        invariant head == i - 1
        invariant forall b :: 0 <= b < i ==> words[b, 0] == b - 1
        invariant forall b, k :: 0 <= b < blockCount && 0 < k < words.Length1 ==> words[b, k] == old(words[b, k])
      {
        words[i, 0] := head;
        head := i;
        i := i + 1;
      }
      free, owned := ResetList(blockCount), {};
      ghost var c := PoolProtocol.Config(blockCount, 0, blockSize, POOL_ALIGN);
      PoolProtocol.InitInv(c);
      assert FirstWords() == PoolProtocol.Init(c).next;
    }

    /** Pops the stack when the request is legal, and hands out a block that nobody owns,
        inside the pool, at an address that meets the alignment asked for. */
    method Alloc(len: nat, alignment: nat) returns (p: int)
      requires Valid()
      modifies this`head, this`free, this`owned
      ensures Valid()
      ensures len > blockSize || alignment > POOL_ALIGN ==>
                p == NULL && head == old(head) && free == old(free) && owned == old(owned)
      ensures len <= blockSize && alignment <= POOL_ALIGN ==>
                && Legal(old(free), AllocReturns(0, p))
                && free == After(old(free), AllocReturns(0, p))
                && owned == if p == NULL then old(owned) else old(owned) + {p}
      ensures p == NULL && len <= blockSize && alignment <= POOL_ALIGN <==>
                len <= blockSize && alignment <= POOL_ALIGN && |old(owned)| == blockCount
      ensures p != NULL ==>
                && 0 <= p < blockCount && p !in old(owned)
                && base <= Address(base, blockSize, p)
                && Address(base, blockSize, p) + len <= Address(base, blockSize, blockCount)
      ensures p != NULL && blockSize % POOL_ALIGN == 0 && PowerOfTwoUpToAlign(alignment) ==>
                Address(base, blockSize, p) % alignment == 0
    {
      if len > blockSize || alignment > POOL_ALIGN {
        return NULL;
      }
      OwnedCount();
      var node := head;
      if node != NULL {
        assert free[0] in free;
        LinkedTail(FirstWords(), free);
        TailMembers(free);
        head := words[node, 0];
        free, owned := free[1..], owned + {node};
        AddressInPool(base, blockSize, blockCount, node, len);
        if blockSize % POOL_ALIGN == 0 && PowerOfTwoUpToAlign(alignment) {
          AddressMeetsAlignment(base, blockSize, node, alignment);
        }
      }
      p := node;
    }

    lemma OwnedCount()
      requires Valid()
      ensures |owned| == blockCount <==> free == []
    {
      var all := PoolProtocol.Blocks(blockCount);
      assert owned <= all;
      if free == [] {
        assert owned == all;
      } else {
        assert free[0] in free;
        assert owned <= all - {free[0]};
        Subset(owned, all - {free[0]});
      }
    }

    /** A block given back is the next one handed out. */
    method Free(p: int)
      requires Valid() && (p == NULL || p in owned)
      modifies this`head, this`free, this`owned, words
      ensures Valid()
      ensures p == NULL ==> free == old(free) && owned == old(owned)
      ensures p != NULL ==> free == After(old(free), FreeReturns(0, p)) && owned == old(owned) - {p}
      ensures forall b, k :: 0 <= b < blockCount && 0 <= k < words.Length1 && (b != p || k != 0) ==>
                words[b, k] == old(words[b, k])
    {
      if p == NULL {
        return;
      }
      ghost var was := FirstWords();
      words[p, 0] := head;
      head := p;
      assert FirstWords() == was[p := First(free)];
      LinkedFrame(was, free, p, First(free));
      LinkedCons(FirstWords(), p, free);
      free, owned := [p] + free, owned - {p};
    }

    /** Whatever an owner writes into its block, the pool stays as it was. */
    method OwnerWrite(p: int, k: nat, w: int)
      requires Valid() && p in owned && k < blockSize / WORD
      modifies words
      ensures Valid() && words[p, k] == w
      ensures forall b, j :: 0 <= b < blockCount && 0 <= j < words.Length1 && (b != p || j != k) ==>
                words[b, j] == old(words[b, j])
    {
      ghost var was := FirstWords();
      words[p, k] := w;
      assert FirstWords() == if k == 0 then was[p := w] else was;
      LinkedFrame(was, free, p, w);
    }

    /** Growing or shrinking in place is a question of the block size alone. */
    function Resize(newLen: nat): bool {
      newLen <= blockSize
    }

    /** A resize that succeeds stays inside the block, and so clear of every other live
        allocation; one that fails would reach into the next block. */
    lemma ResizeStaysInBlock(p: nat, newLen: nat, q: nat, lenQ: nat)
      requires Valid() && p in owned && q in owned && q != p && lenQ <= blockSize
      ensures Resize(newLen) <==> Address(base, blockSize, p) + newLen <= Address(base, blockSize, p + 1)
      ensures Resize(newLen) ==>
                Address(base, blockSize, p) + newLen <= Address(base, blockSize, q)
                || Address(base, blockSize, q) + lenQ <= Address(base, blockSize, p)
    {
      assert (p + 1) * blockSize == p * blockSize + blockSize;
      if Resize(newLen) {
        BlocksAreDisjoint(base, blockSize, p, q, newLen, lenQ);
      }
    }
  }

  lemma Subset(x: set<int>, y: set<int>)
    requires x <= y
    ensures |x| <= |y|
  {
    assert y == x + (y - x);
  }
}
