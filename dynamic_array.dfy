/**
 * src/DynamicArray.h: a growable array over a heap buffer. `count` elements
 * are in use out of `allocatedCount` allocated; the buffer is a Dafny array
 * whose length is the allocated count.
 */
module DynamicArrays {

  class DynamicArray<T(0)> {
    var count: nat
    var allocatedCount: nat
    var data: array<T>

    ghost predicate Valid()
      reads this
    {
      count <= allocatedCount && allocatedCount == data.Length
    }

    /** The elements in use, first to last. */
    ghost function Contents(): seq<T>
      reads this, data
      requires Valid()
    {
      data[..count]
    }

    /** A zero-initialised DynamicArray: nothing in use, nothing allocated. */
    constructor ()
      ensures Valid() && fresh(data)
      ensures count == 0 && allocatedCount == 0 && Contents() == []
    {
      count := 0;
      allocatedCount := 0;
      data := new T[0];
    }

    /** size() */
    function Size(): (n: nat)
      reads this
      requires Valid()
      ensures n == |Contents()|
    {
      count
    }

    /**
     * push_back: append, first growing the buffer to (allocatedCount + 1) * 2
     * when it is full; growing keeps every element already held (realloc).
     */
    method PushBack(element: T)
      requires Valid()
      modifies this, data
      ensures Valid()
      ensures Contents() == old(Contents()) + [element]
      ensures count == old(count) + 1
      ensures old(count) + 1 > old(allocatedCount) ==>
        allocatedCount == (old(allocatedCount) + 1) * 2 && allocatedCount > old(count) && fresh(data)
      ensures old(count) + 1 <= old(allocatedCount) ==>
        allocatedCount == old(allocatedCount) && data == old(data)
    {
      if count + 1 > allocatedCount {
        allocatedCount := (allocatedCount + 1) * 2;
        var grown := new T[allocatedCount];
        forall i | 0 <= i < data.Length {
          grown[i] := data[i];
        }
        data := grown;
      }
      data[count] := element;
      count := count + 1;
    }

    /** pop_back: drop the last element and return it. */
    method PopBack() returns (element: T)
      requires Valid() && count > 0
      modifies this`count
      ensures Valid()
      ensures element == old(Contents())[old(count) - 1]
      ensures Contents() == old(Contents())[..old(count) - 1]
      ensures allocatedCount == old(allocatedCount)
    {
      count := count - 1;
      element := data[count];
    }

    /**
     * remove: shift the elements after `index` one place left and drop the
     * last. An `index` at or past the end shifts nothing, so the last
     * element is the one dropped.
     */
    method Remove(index: nat)
      requires Valid() && count > 0
      modifies this`count, data
      ensures Valid()
      ensures count == old(count) - 1 && allocatedCount == old(allocatedCount)
      ensures index < old(count) ==> Contents() == old(Contents())[..index] + old(Contents())[index + 1..]
      ensures index >= old(count) ==> Contents() == old(Contents())[..old(count) - 1]
    {
      ghost var before := data[..count];
      var i := index;
      while i + 1 < count
        invariant Valid() && count == |before|
        invariant index <= i
        invariant index < count ==> i < count
        invariant index >= count ==> i == index
        invariant forall k :: index <= k < i ==> data[k] == before[k + 1]
        invariant forall k :: 0 <= k < count && !(index <= k < i) ==> data[k] == before[k]
        decreases count - i
      {
        data[i] := data[i + 1];
        i := i + 1;
      }
      count := count - 1;
      if index < old(count) {
        assert Contents() == before[..index] + before[index + 1..];
      } else {
        assert Contents() == before[..count];
      }
    }

    /** deepCopy: a fresh buffer of the same capacity holding the same elements. */
    method DeepCopy() returns (result: DynamicArray<T>)
      requires Valid()
      ensures fresh(result) && fresh(result.data) && result.Valid()
      ensures result.count == count && result.allocatedCount == allocatedCount
      ensures result.Contents() == Contents()
    {
      var buffer := new T[allocatedCount];
      for i := 0 to count
        invariant buffer[..i] == data[..i]
      {
        buffer[i] := data[i];
      }
      result := new DynamicArray();
      result.count, result.allocatedCount, result.data := count, allocatedCount, buffer;
    }

    /** clear: nothing in use; the buffer stays allocated. */
    method Clear()
      requires Valid()
      modifies this`count
      ensures Valid() && Contents() == []
      ensures count == 0 && allocatedCount == old(allocatedCount)
    {
      count := 0;
    }

    /** freeMemory: release the buffer; nothing in use, nothing allocated. */
    method FreeMemory()
      modifies this
      ensures Valid() && Contents() == []
      ensures count == 0 && allocatedCount == 0
    {
      data := new T[0];
      count, allocatedCount := 0, 0;
    }

    /** last() */
    function Last(): (element: T)
      reads this, data
      requires Valid() && count > 0
      ensures element == Contents()[|Contents()| - 1]
    {
      data[count - 1]
    }

    /** operator[] */
    function At(index: nat): (element: T)
      reads this, data
      requires Valid() && index < count
      ensures element == Contents()[index]
    {
      data[index]
    }
  }
}
