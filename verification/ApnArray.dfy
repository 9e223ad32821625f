/** The growable array of src/library/apn_array.c. */
module ApnArray {
  function Pow2(k: nat): nat {
    if k == 0 then 1 else 2 * Pow2(k - 1)
  }

  class Array<T(0)> {
    var items: array<T>
    var count: nat
    var allocatedSize: nat

    ghost var initial: nat
    ghost var doublings: nat
    /** Items copied by all reallocations so far. */
    ghost var moved: nat

    ghost predicate Valid()
      reads this
    {
      && items.Length == allocatedSize
      && count <= allocatedSize
      && allocatedSize == initial * Pow2(doublings)
      && moved + initial == allocatedSize
      && (doublings > 0 ==> allocatedSize < 2 * count)
    }

    ghost function Contents(): (s: seq<T>)
      reads this, items
      requires Valid()
      ensures |s| == count
    {
      items[..count]
    }

    /** `apn_array_init` */
    constructor (minSize: nat)
      requires minSize < 0xFFFF_FFFE
      ensures Valid() && fresh(items) && Contents() == []
      ensures initial == allocatedSize == minSize && moved == 0
    {
      items := new T[minSize];
      count, allocatedSize := 0, minSize;
      initial, doublings, moved := minSize, 0, 0;
    }

    /** `apn_array_count` */
    method Count() returns (n: nat)
      requires Valid()
      ensures n == |Contents()|
    {
      n := count;
    }

    /** `apn_array_item_at_index` */
    method ItemAtIndex(index: nat) returns (item: T)
      requires Valid() && index < |Contents()|
      ensures item == Contents()[index]
    {
      item := items[index];
    }

    /** `apn_array_insert`.  It fails when the doubled size, a 32-bit number, is zero: an array that
        started without room, or one of 2^31 items.  The old block is then given back, so a failed
        array must not be used again. */
    method Insert(item: T) returns (ok: bool)
      requires Valid() && count + 1 < 0xFFFF_FFFF
      requires count == allocatedSize ==> allocatedSize <= 0x8000_0000
      modifies this, items
      ensures ok <==> old(count < allocatedSize || allocatedSize !in {0, 0x8000_0000})
      ensures ok ==>
                && Valid() && (items == old(items) || fresh(items))
                && Contents() == old(Contents()) + [item]
                && initial == old(initial)
                && allocatedSize == old(if count == allocatedSize then 2 * allocatedSize else allocatedSize)
      ensures !ok ==> items.Length == 0 && count == old(count) && allocatedSize == old(allocatedSize)
    {
      if count == allocatedSize {
        ok := Grow();
        if !ok {
          return;
        }
      }
      items[count] := item;
      count := count + 1;
      ok := true;
    }

    /** The reallocation: a block of twice the size receives the items, or the block is freed. */
    method Grow() returns (ok: bool)
      requires Valid() && count == allocatedSize <= 0x8000_0000
      modifies this
      ensures ok <==> old(allocatedSize) !in {0, 0x8000_0000}
      ensures fresh(items) && count == old(count)
      ensures ok ==>
                && items.Length == allocatedSize == 2 * old(allocatedSize) && initial == old(initial)
                && items[..count] == old(items[..count])
                && allocatedSize == initial * Pow2(doublings) && moved + initial == allocatedSize
      ensures !ok ==> items.Length == 0 && allocatedSize == old(allocatedSize)
    {
      var size := allocatedSize * 2 % 0x1_0000_0000;
      if size == 0 {
        items := new T[0];
        return false;
      }
      var newItems := new T[size];
      var k := 0;
      while k < count
        invariant k <= count
        invariant newItems[..k] == items[..k]
        modifies newItems
      {
        newItems[k] := items[k];
        k := k + 1;
      }
      Doubled(initial, doublings);
      items, allocatedSize := newItems, size;
      doublings, moved := doublings + 1, moved + count;
      return true;
    }

    /** Growing is cheap on the whole: fewer items are moved than twice the number inserted. */
    lemma AmortizedMoves()
      requires Valid()
      ensures count > 0 ==> moved < 2 * count
      ensures count <= initial ==> moved == 0
    {
      if doublings == 0 {
        assert Pow2(0) == 1;
      } else if count <= initial {
        PowGrows(doublings);
        Scaled(initial, Pow2(doublings));
      }
    }
  }

  lemma Doubled(a: nat, k: nat)
    ensures a * Pow2(k + 1) == 2 * (a * Pow2(k))
  {
  }

  lemma {:induction false} PowGrows(k: nat)
    requires k > 0
    ensures Pow2(k) >= 2
  {
    if k > 1 { PowGrows(k - 1); }
  }

  lemma Scaled(a: nat, p: nat)
    requires p >= 2
    ensures a * p >= 2 * a
  {
  }
}
