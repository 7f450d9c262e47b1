/** `mvVector<T>` of sJsonParser.h: a growable array with explicit `size`,
    `capacity` and `data` fields. `data` is null until the first allocation
    and after `clear`; element copies into a reallocated buffer are explicit
    loops here. */
module MvVectors {

  /** `_grow_capacity`: half as much again as the current capacity (8 when
      there is none yet), but never less than the size asked for. */
  function GrowCapacity(capacity: int, sz: int): (r: int)
    ensures r >= sz
    ensures capacity == 0 ==> r >= 8
    ensures capacity != 0 ==> r >= capacity + capacity / 2
    ensures r == sz || r == (if capacity == 0 then 8 else capacity + capacity / 2)
  {
    var newCapacity := if capacity != 0 then capacity + capacity / 2 else 8;
    if newCapacity > sz then newCapacity else sz
  }

  /** A `push_back` on a full vector asks for `_grow_capacity(size * 2)`:
      the capacity becomes 8 from nothing, and doubles otherwise. */
  lemma PushBackGrowth(capacity: nat)
    ensures GrowCapacity(capacity, capacity * 2) == if capacity == 0 then 8 else 2 * capacity
  {
    if capacity != 0 {
      assert capacity + capacity / 2 <= capacity * 2;
    }
  }

  class MvVector<T(0)> {
    var size: int
    var capacity: int
    var data: array?<T>

    /** The fields agree: `data` is allocated exactly when there is capacity,
        its length is the capacity, and the size fits in it. */
    ghost predicate Valid()
      reads this
    {
      && 0 <= size <= capacity
      && (data == null <==> capacity == 0)
      && (data != null ==> data.Length == capacity)
    }

    /** The live elements, `data[0 .. size)`. */
    ghost function Elements(): seq<T>
      reads this, data
      requires Valid()
    {
      if data == null then [] else data[..size]
    }

    constructor ()
      ensures Valid() && size == 0 && capacity == 0 && data == null
      ensures Elements() == []
    {
      size, capacity, data := 0, 0, null;
    }

    /** `empty()`. */
    method Empty() returns (b: bool)
      requires Valid()
      ensures b <==> Elements() == []
    {
      b := size == 0;
    }

    /** `operator[](int i)`, read access. */
    method At(i: int) returns (x: T)
      requires Valid()
      requires 0 <= i < size
      ensures i < |Elements()| && x == Elements()[i]
    {
      x := data[i];
    }

    /** `back()`. */
    method Back() returns (x: T)
      requires Valid()
      requires size > 0
      ensures Elements() != [] && x == Elements()[|Elements()| - 1]
    {
      x := data[size - 1];
    }

    /** `_grow_capacity(sz)` on this vector's capacity. */
    function GrowCapacityOf(sz: int): (r: int)
      reads this
      requires Valid()
      ensures r >= sz && r >= capacity
    {
      GrowCapacity(capacity, sz)
    }

    /** `reserve(n)`: nothing happens unless `n` exceeds the capacity; then a
        fresh buffer of exactly `n` slots receives the first `size` elements. */
    method Reserve(newCapacity: int)
      requires Valid()
      modifies this
      ensures Valid()
      ensures size == old(size)
      ensures newCapacity <= old(capacity) ==> capacity == old(capacity) && data == old(data)
      ensures newCapacity > old(capacity) ==> capacity == newCapacity && fresh(data)
      ensures Elements() == old(Elements())
    {
      if newCapacity <= capacity {
        return;
      }
      var newData := new T[newCapacity];
      var oldData, n := data, size;
      if oldData != null {
        var k := 0;
        while k < n
          invariant 0 <= k <= n
          invariant newData[..k] == oldData[..k]
          modifies newData
        {
          newData[k] := oldData[k];
          k := k + 1;
        }
      }
      data := newData;
      capacity := newCapacity;
    }

    /** `resize(n)`: grows the capacity by `_grow_capacity(n)` when `n` does
        not fit, then sets the size. Elements below both sizes are kept. */
    method Resize(newSize: int)
      requires Valid()
      requires 0 <= newSize
      modifies this
      ensures Valid()
      ensures size == newSize && capacity >= newSize
      ensures newSize <= old(capacity) ==> capacity == old(capacity) && data == old(data)
      ensures newSize > old(capacity) ==> capacity == GrowCapacity(old(capacity), newSize) && fresh(data)
      ensures newSize <= old(size) ==> Elements() == old(Elements())[..newSize]
      ensures newSize > old(size) ==> Elements()[..old(size)] == old(Elements())
    {
      if newSize > capacity {
        Reserve(GrowCapacityOf(newSize));
      }
      size := newSize;
    }

    /** `push_back(v)`: a full vector grows to `_grow_capacity(2 * size)`
        first; then `v` becomes the new last element. */
    method PushBack(v: T)
      requires Valid()
      modifies this, data
      ensures Valid()
      ensures Elements() == old(Elements()) + [v]
      ensures old(size) == old(capacity) ==> capacity == (if old(capacity) == 0 then 8 else 2 * old(capacity))
      ensures old(size) != old(capacity) ==> capacity == old(capacity) && data == old(data)
    {
      if size == capacity {
        PushBackGrowth(capacity);
        Reserve(GrowCapacityOf(size * 2));
      }
      data[size] := v;
      size := size + 1;
    }

    /** `pop_back()`. */
    method PopBack()
      requires Valid()
      requires size > 0
      modifies this
      ensures Valid()
      ensures capacity == old(capacity) && data == old(data)
      ensures old(Elements()) != [] && Elements() == old(Elements())[..|old(Elements())| - 1]
    {
      size := size - 1;
    }

    /** `clear()`: releases the buffer when there is one; a vector that never
        allocated is left exactly as it is. */
    method Clear()
      requires Valid()
      modifies this
      ensures Valid()
      ensures old(data) != null ==> size == 0 && capacity == 0 && data == null
      ensures old(data) == null ==> size == old(size) && capacity == old(capacity) && data == null
      ensures Elements() == []
    {
      if data != null {
        size, capacity := 0, 0;
        data := null;
      }
    }

    /** `swap(rhs)`: exchanges size, capacity and buffer. */
    method Swap(rhs: MvVector<T>)
      requires Valid() && rhs.Valid()
      modifies this, rhs
      ensures Valid() && rhs.Valid()
      ensures size == old(rhs.size) && capacity == old(rhs.capacity) && data == old(rhs.data)
      ensures rhs.size == old(size) && rhs.capacity == old(capacity) && rhs.data == old(data)
    {
      var rhsSize := rhs.size;
      rhs.size := size;
      size := rhsSize;
      var rhsCap := rhs.capacity;
      rhs.capacity := capacity;
      capacity := rhsCap;
      var rhsData := rhs.data;
      rhs.data := data;
      data := rhsData;
    }

    /** `operator=(src)`: `clear()`, `resize(src.size)`, then a copy of the
        elements. Assigning a vector to itself clears it first, so it ends
        up empty. */
    method Assign(src: MvVector<T>)
      requires Valid() && src.Valid()
      modifies this
      ensures Valid()
      ensures src != this ==> size == old(src.size) && Elements() == old(src.Elements())
      ensures src == this ==> Elements() == []
    {
      Clear();
      Resize(src.size);
      if size > 0 {
        var k := 0;
        while k < size
          invariant 0 <= k <= size
          invariant Valid() && data != null && data != src.data && fresh(data)
          invariant src != this ==> src.size == size
          invariant data[..k] == src.data[..k]
        {
          data[k] := src.data[k];
          k := k + 1;
        }
      }
    }
  }
}
