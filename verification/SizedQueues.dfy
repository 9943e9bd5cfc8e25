/** A FIFO queue that also gives up its newest item and keeps the byte total of what it holds. */
module SizedQueues {
  import opened JobTypes

  function SizeOf<T>(entries: seq<(T, nat)>): nat {
    if entries == [] then 0 else SizeOf(entries[..|entries| - 1]) + entries[|entries| - 1].1
  }

  function ItemsOf<T>(entries: seq<(T, nat)>): (items: seq<T>)
    ensures |items| == |entries|
    ensures forall i :: 0 <= i < |entries| ==> items[i] == entries[i].0
  {
    seq(|entries|, i requires 0 <= i < |entries| => entries[i].0)
  }

  lemma {:induction false} SizeOfFirst<T>(entries: seq<(T, nat)>)
    requires entries != []
    ensures SizeOf(entries) == entries[0].1 + SizeOf(entries[1..])
  {
    var n := |entries|;
    if n > 1 {
      SizeOfFirst(entries[..n - 1]);
      assert entries[..n - 1][1..] == entries[1..][..n - 2];
    }
  }

  class SizedQueue<T> {
    var entries: seq<(T, nat)>
    var sizeBytes: int

    /** The running total is the byte sum of the items present. */
    ghost predicate Valid()
      reads this
    {
      sizeBytes == SizeOf(entries)
    }

    function Items(): seq<T>
      reads this
    {
      ItemsOf(entries)
    }

    constructor ()
      ensures Valid() && Items() == [] && fresh(this)
    {
      entries, sizeBytes := [], 0;
    }

    method Put(item: T, size: nat)
      requires Valid()
      modifies this
      ensures Valid() && Items() == old(Items()) + [item] && sizeBytes == old(sizeBytes) + size
    {
      entries := entries + [(item, size)];
      sizeBytes := sizeBytes + size;
      assert entries[..|entries| - 1] == old(entries);
    }

    method Get() returns (item: Option<T>)
      requires Valid()
      modifies this
      ensures Valid()
      ensures old(Items()) == [] ==> item.None? && Items() == []
      ensures old(Items()) != [] ==> item == Some(old(Items())[0]) && Items() == old(Items())[1..]
    {
      if entries == [] {
        return None;
      }
      SizeOfFirst(entries);
      item := Some(entries[0].0);
      sizeBytes := sizeBytes - entries[0].1;
      entries := entries[1..];
    }

    method GetLast() returns (item: Option<T>)
      requires Valid()
      modifies this
      ensures Valid()
      ensures old(Items()) == [] ==> item.None? && Items() == []
      ensures old(Items()) != [] ==>
                item == Some(old(Items())[|old(Items())| - 1]) && Items() == old(Items())[..|old(Items())| - 1]
    {
      if entries == [] {
        return None;
      }
      var n := |entries| - 1;
      item := Some(entries[n].0);
      sizeBytes := sizeBytes - entries[n].1;
      entries := entries[..n];
    }
  }
}
