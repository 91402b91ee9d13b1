/**
 * `com.xuggle.ferry.AtomicInteger`: a Java proxy for a native integer cell.
 * The proxy keeps the native address and an ownership flag; the counter
 * operations forward to the native cell at that address, which is modelled
 * here as a sequential cell in the native heap with Java `int` wrap-around.
 */
module Ferry {
  import opened JavaTypes
  import opened Handles
  import opened Native

  class AtomicInteger {
    /** The native address; 0 once the proxy has been deleted. */
    var swigCPtr: Int64
    /** Whether this proxy owns the native object and must destroy it. */
    var swigCMemOwn: bool

    /** The proxy's fields as a protocol handle. */
    function State(): Handle
      reads this
    {
      Handle(swigCPtr, swigCMemOwn)
    }

    /** The protected constructor every other one delegates to: wraps an address as given. */
    constructor Wrap(cPtr: Int64, cMemoryOwn: bool)
      ensures swigCPtr == cPtr && swigCMemOwn == cMemoryOwn
    {
      swigCPtr := cPtr;
      swigCMemOwn := cMemoryOwn;
    }

    /**
     * `new AtomicInteger()`: the native factory returned nativePtr, a new cell
     * holding 0, and the proxy owns it. A nonzero address is a fresh one,
     * not the address of a live cell.
     */
    constructor (heap: NativeHeap, nativePtr: Int64)
      requires nativePtr != 0 ==> nativePtr !in heap.cells
      modifies heap`cells
      ensures swigCPtr == nativePtr && swigCMemOwn
      ensures heap.cells == if nativePtr != 0 then old(heap.cells)[nativePtr := 0] else old(heap.cells)
    {
      swigCPtr := nativePtr;
      swigCMemOwn := true;
      if nativePtr != 0 {
        heap.cells := heap.cells[nativePtr := 0];
      }
    }

    /** `new AtomicInteger(arg0)`: as above, with the cell holding arg0. */
    constructor WithValue(heap: NativeHeap, nativePtr: Int64, arg0: Int32)
      requires nativePtr != 0 ==> nativePtr !in heap.cells
      modifies heap`cells
      ensures swigCPtr == nativePtr && swigCMemOwn
      ensures heap.cells == if nativePtr != 0 then old(heap.cells)[nativePtr := arg0] else old(heap.cells)
    {
      swigCPtr := nativePtr;
      swigCMemOwn := true;
      if nativePtr != 0 {
        heap.cells := heap.cells[nativePtr := arg0];
      }
    }

    /** `getCPtr(obj)`: 0 for null, otherwise whatever `getMyCPtr` does, failure included. */
    static function GetCPtr(obj: AtomicInteger?): (r: Result<Int64>)
      reads obj
      ensures obj == null ==> r == Ok(0)
      ensures obj != null ==> r == obj.GetMyCPtr()
      ensures r == Ok(0) <==> obj == null
    {
      if obj == null then Ok(0) else obj.GetMyCPtr()
    }

    /** `getMyCPtr`: raises IllegalStateException exactly on a detached proxy, never yields 0. */
    function GetMyCPtr(): (r: Result<Int64>)
      reads this
      ensures r.Threw? <==> swigCPtr == 0
      ensures r.Threw? ==> r.exception == IllegalStateException
      ensures r.Ok? ==> r.value == swigCPtr && r.value != 0
    {
      if swigCPtr == 0 then Threw(IllegalStateException) else Ok(swigCPtr)
    }

    /**
     * `equals`: true exactly for another AtomicInteger proxy with the same
     * address; ownership plays no part, so two detached proxies are equal.
     */
    function Equals(obj: object?): (r: bool)
      reads this, obj
      ensures r <==> obj is AtomicInteger && (obj as AtomicInteger).swigCPtr == swigCPtr
    {
      obj is AtomicInteger && (obj as AtomicInteger).swigCPtr == swigCPtr
    }

    /** `hashCode`: the low 32 bits of the address. */
    function HashCode(): (r: Int32)
      reads this
      ensures SameLow32(swigCPtr as int, r as int)
      ensures InInt32Range(swigCPtr as int) ==> r as int == swigCPtr as int
    {
      ToInt32(swigCPtr as int)
    }

    /**
     * `delete`: always detaches; calls the native destructor, and drops
     * ownership, only for a live owning proxy.
     */
    method Delete(heap: NativeHeap)
      modifies this, heap`cells, heap`events
      ensures State() == FerryDelete(old(State())).after
      ensures FerryDelete(old(State())).destroyed ==>
        && heap.events == old(heap.events) + [Destroy(old(swigCPtr))]
        && heap.cells == old(heap.cells) - {old(swigCPtr)}
      ensures !FerryDelete(old(State())).destroyed ==>
        heap.events == old(heap.events) && heap.cells == old(heap.cells)
    {
      if swigCPtr != 0 && swigCMemOwn {
        swigCMemOwn := false;
        heap.events := heap.events + [Destroy(swigCPtr)];
        heap.cells := heap.cells - {swigCPtr};
      }
      swigCPtr := 0;
    }

    // -------------------------------------------------------------------------
    // Counter operations. Each passes swigCPtr to native code unchecked, so the
    // native cell must be live; the cell behaves as a sequential Java `int`.

    /** `get`: the current value. */
    method Get(heap: NativeHeap) returns (r: Int32)
      requires swigCPtr in heap.cells
      ensures r == heap.cells[swigCPtr]
    {
      r := heap.cells[swigCPtr];
    }

    /** `set`: the value becomes arg0. */
    method Set(heap: NativeHeap, arg0: Int32)
      requires swigCPtr in heap.cells
      modifies heap`cells
      ensures heap.cells == old(heap.cells)[swigCPtr := arg0]
    {
      heap.cells := heap.cells[swigCPtr := arg0];
    }

    /** `getAndSet`: the value becomes arg0; the old value is returned. */
    method GetAndSet(heap: NativeHeap, arg0: Int32) returns (r: Int32)
      requires swigCPtr in heap.cells
      modifies heap`cells
      ensures r == old(heap.cells[swigCPtr])
      ensures heap.cells == old(heap.cells)[swigCPtr := arg0]
    {
      r := heap.cells[swigCPtr];
      heap.cells := heap.cells[swigCPtr := arg0];
    }

    /** `getAndAdd`: the value grows by arg0, wrapping around; the old value is returned. */
    method GetAndAdd(heap: NativeHeap, arg0: Int32) returns (r: Int32)
      requires swigCPtr in heap.cells
      modifies heap`cells
      ensures r == old(heap.cells[swigCPtr])
      ensures heap.cells == old(heap.cells)[swigCPtr := ToInt32(r as int + arg0 as int)]
    {
      r := heap.cells[swigCPtr];
      heap.cells := heap.cells[swigCPtr := ToInt32(r as int + arg0 as int)];
    }

    /** `addAndGet`: the value grows by arg0, wrapping around; the new value is returned. */
    method AddAndGet(heap: NativeHeap, arg0: Int32) returns (r: Int32)
      requires swigCPtr in heap.cells
      modifies heap`cells
      ensures r == ToInt32(old(heap.cells[swigCPtr]) as int + arg0 as int)
      ensures heap.cells == old(heap.cells)[swigCPtr := r]
    {
      r := ToInt32(heap.cells[swigCPtr] as int + arg0 as int);
      heap.cells := heap.cells[swigCPtr := r];
    }

    /** `getAndIncrement`: `getAndAdd(1)`. */
    method GetAndIncrement(heap: NativeHeap) returns (r: Int32)
      requires swigCPtr in heap.cells
      modifies heap`cells
      ensures r == old(heap.cells[swigCPtr])
      ensures heap.cells == old(heap.cells)[swigCPtr := ToInt32(r as int + 1)]
    {
      r := GetAndAdd(heap, 1);
    }

    /** `getAndDecrement`: `getAndAdd(-1)`. */
    method GetAndDecrement(heap: NativeHeap) returns (r: Int32)
      requires swigCPtr in heap.cells
      modifies heap`cells
      ensures r == old(heap.cells[swigCPtr])
      ensures heap.cells == old(heap.cells)[swigCPtr := ToInt32(r as int - 1)]
    {
      r := GetAndAdd(heap, -1);
    }

    /** `incrementAndGet`: `addAndGet(1)`. */
    method IncrementAndGet(heap: NativeHeap) returns (r: Int32)
      requires swigCPtr in heap.cells
      modifies heap`cells
      ensures r == ToInt32(old(heap.cells[swigCPtr]) as int + 1)
      ensures heap.cells == old(heap.cells)[swigCPtr := r]
    {
      r := AddAndGet(heap, 1);
    }

    /** `decrementAndGet`: `addAndGet(-1)`. */
    method DecrementAndGet(heap: NativeHeap) returns (r: Int32)
      requires swigCPtr in heap.cells
      modifies heap`cells
      ensures r == ToInt32(old(heap.cells[swigCPtr]) as int - 1)
      ensures heap.cells == old(heap.cells)[swigCPtr := r]
    {
      r := AddAndGet(heap, -1);
    }

    /**
     * `compareAndSet`: succeeds exactly when the current value equals
     * expected, and then the value becomes update; otherwise nothing changes.
     */
    method CompareAndSet(heap: NativeHeap, expected: Int32, update: Int32) returns (ok: bool)
      requires swigCPtr in heap.cells
      modifies heap`cells
      ensures ok <==> old(heap.cells[swigCPtr]) == expected
      ensures heap.cells == if ok then old(heap.cells)[swigCPtr := update] else old(heap.cells)
    {
      ok := heap.cells[swigCPtr] == expected;
      if ok {
        heap.cells := heap.cells[swigCPtr := update];
      }
    }
  }

  /** Two proxies that are `equals` have the same `hashCode`. */
  lemma EqualCountersHashAlike(a: AtomicInteger, b: AtomicInteger)
    requires a.Equals(b)
    ensures a.HashCode() == b.HashCode()
  {
  }

  /** Equality ignores ownership: any two detached proxies are equal. */
  lemma DetachedCountersAreEqual(a: AtomicInteger, b: AtomicInteger)
    requires a.swigCPtr == 0 && b.swigCPtr == 0
    ensures a.Equals(b) && b.Equals(a)
  {
  }

  /** The sum of a run of deltas. */
  function Sum(ds: seq<Int32>): int
  {
    if ds == [] then 0 else Sum(ds[..|ds| - 1]) + ds[|ds| - 1] as int
  }

  /**
   * The counter value after `addAndGet(d)` for each d of ds in turn, starting
   * from v: the wrapped total of v and all the deltas.
   */
  function AddAll(v: Int32, ds: seq<Int32>): (r: Int32)
    ensures r == ToInt32(v as int + Sum(ds))
  {
    if ds == [] then v
    else
      var init, d := ds[..|ds| - 1], ds[|ds| - 1];
      ToInt32AddLeft(v as int + Sum(init), d as int);
      ToInt32(AddAll(v, init) as int + d as int)
  }

  /** Net-balanced additions, however they wrap on the way, leave the counter where it started. */
  lemma BalancedAddsRestore(v: Int32, ds: seq<Int32>)
    requires Sum(ds) == 0
    ensures AddAll(v, ds) == v
  {
  }

  /**
   * A freshly constructed counter deleted twice calls the native destructor
   * exactly once and its cell is gone. Handles.FerryDestroyAtMostOnce states
   * the same for any number of deletes.
   */
  method ConstructThenDeleteTwice(heap: NativeHeap, nativePtr: Int64)
    requires nativePtr != 0 && nativePtr !in heap.cells
    modifies heap`cells, heap`events
    ensures heap.events == old(heap.events) + [Destroy(nativePtr)]
    ensures nativePtr !in heap.cells
  {
    var c := new AtomicInteger(heap, nativePtr);
    c.Delete(heap);
    c.Delete(heap);
  }
}
