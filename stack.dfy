/** `mvStack` of mvImporter.cpp: the stack of object or member indices
    that drives the tree builder. It keeps its items in a `std::vector<int>`
    `data` with the count `currentIndex`; `push` grows `data` to 2048 slots
    on first use and doubles it when the pushed VALUE equals the number of
    slots. */
module JsonStack {

  /** Slots `push` allocates on first use. */
  const INITIAL_SLOTS: nat := 2048

  /** The abstract stack: the items bottom to top and the number of slots
      of `data`. */
  datatype StackState = StackState(items: seq<int>, slots: nat)

  const EmptyStack := StackState([], 0)

  /** Number of slots after `push(value)`: 2048 when there were none, then
      twice `value` when `value` equals the slot count. */
  function SlotsAfterPush(slots: nat, value: int): (r: nat)
    ensures slots <= r && (slots == 0 ==> INITIAL_SLOTS <= r)
    ensures slots == 0 && value != INITIAL_SLOTS ==> r == INITIAL_SLOTS
    ensures slots != 0 && value != slots ==> r == slots
    ensures value == (if slots == 0 then INITIAL_SLOTS else slots) ==> r == 2 * value
  {
    var n := if slots == 0 then INITIAL_SLOTS else slots;
    if value == n then value * 2 else n
  }

  /** `push(value)` writes `data[currentIndex]`: the count must be below
      the slot count after the growth step. Because the growth step looks
      at the value and not at the count, a full stack is not always
      grown. */
  predicate CanPush(st: StackState, value: int) {
    |st.items| < SlotsAfterPush(st.slots, value)
  }

  function Pushed(st: StackState, value: int): (r: StackState)
    requires CanPush(st, value)
    ensures r.items == st.items + [value] && r.slots >= st.slots
  {
    StackState(st.items + [value], SlotsAfterPush(st.slots, value))
  }

  /** `pop` writes `data[currentIndex]`, the free slot above the top, so
      the stack must be non-empty and not full. */
  predicate CanPop(st: StackState) {
    0 < |st.items| < st.slots
  }

  function Popped(st: StackState): (r: StackState)
    requires CanPop(st)
    ensures |r.items| == |st.items| - 1 && r.slots == st.slots
    ensures st.items == r.items + [st.items[|st.items| - 1]]
  {
    StackState(st.items[..|st.items| - 1], st.slots)
  }

  /** `data.resize(n)` for a larger `n`: new slots hold 0. */
  function Resized(data: seq<int>, n: nat): (r: seq<int>)
    requires |data| <= n
    ensures |r| == n && r[..|data|] == data
  {
    data + seq(n - |data|, _ => 0)
  }

  function TopOf(st: StackState): int
    requires st.items != []
  {
    st.items[|st.items| - 1]
  }

  // ---------------------------------------------------------------------
  // Properties of the abstract stack
  // ---------------------------------------------------------------------

  /** `top` after `push(v)` is `v`. */
  lemma PushThenTop(st: StackState, v: int)
    requires CanPush(st, v)
    ensures Pushed(st, v).items != [] && TopOf(Pushed(st, v)) == v
  {
  }

  /** Popping what was just pushed restores the items; the slots may have
      grown. */
  lemma PushThenPop(st: StackState, v: int)
    requires CanPush(st, v) && CanPop(Pushed(st, v))
    ensures Popped(Pushed(st, v)).items == st.items
  {
  }

  /** The first push always succeeds and gives 2048 slots unless the value
      pushed is 2048 itself. */
  lemma FirstPush(v: int)
    ensures CanPush(EmptyStack, v)
    ensures Pushed(EmptyStack, v) == StackState([v], if v == INITIAL_SLOTS then 2 * INITIAL_SLOTS else INITIAL_SLOTS)
  {
  }

  /** The growth rule compares the value with the slot count, so a stack
      that has filled its 2048 slots is not grown by a push of any other
      value and `data[2048]` would be written out of range. */
  lemma FullStackNotGrown(st: StackState, v: int)
    requires |st.items| == st.slots == INITIAL_SLOTS && v != INITIAL_SLOTS
    ensures !CanPush(st, v)
  {
  }

  /** A push below the slot count never changes the slot count unless the
      value equals it. */
  lemma PushKeepsSlots(st: StackState, v: int)
    requires st.slots > 0 && v != st.slots && CanPush(st, v)
    ensures Pushed(st, v).slots == st.slots
  {
  }

  // ---------------------------------------------------------------------
  // The object
  // ---------------------------------------------------------------------

  /** `struct mvStack`. */
  class MvStack {
    var currentIndex: int
    var data: seq<int>

    ghost predicate Valid()
      reads this
    {
      0 <= currentIndex <= |data|
    }

    ghost function State(): StackState
      reads this
      requires Valid()
    {
      StackState(data[..currentIndex], |data|)
    }

    constructor()
      ensures Valid() && State() == EmptyStack
    {
      currentIndex := 0;
      data := [];
    }

    /** `push(value)`. */
    method Push(value: int)
      requires Valid() && CanPush(State(), value)
      modifies this
      ensures Valid() && State() == Pushed(old(State()), value)
      ensures data == Resized(old(data), SlotsAfterPush(|old(data)|, value))[old(currentIndex) := value]
    {
      if data == [] {
        data := seq(INITIAL_SLOTS, _ => 0);
      }
      if value == |data| {
        data := data + seq(value * 2 - |data|, _ => 0);
      }
      data := data[currentIndex := value];
      currentIndex := currentIndex + 1;
      assert data[..currentIndex] == old(data[..currentIndex]) + [value];
    }

    /** `pop()`: the free slot above the top is set to -1. */
    method Pop()
      requires Valid() && CanPop(State())
      modifies this
      ensures Valid() && State() == Popped(old(State()))
      ensures data == old(data)[old(currentIndex) := -1]
    {
      data := data[currentIndex := -1];
      currentIndex := currentIndex - 1;
      assert data[..currentIndex] == old(data)[..currentIndex];
    }

    /** `top()`. */
    method Top() returns (v: int)
      requires Valid() && State().items != []
      ensures v == TopOf(State())
    {
      v := data[currentIndex - 1];
    }

    /** `empty()`. */
    method Empty() returns (b: bool)
      requires Valid()
      ensures b <==> State().items == []
    {
      b := currentIndex == 0;
    }
  }
}
