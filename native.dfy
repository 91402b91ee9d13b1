/**
 * The native side of the bridge, which the Java proxies never see directly:
 * the live counter cells behind `AtomicInteger` proxies, and, as ghost state,
 * the reference counts and frame records behind `IVideoPicture` proxies and a
 * log of the native lifetime calls the proxies issue.
 */
module Native {
  import opened JavaTypes

  /** A native lifetime call issued from the Java side. */
  datatype Event =
    | Destroy(ptr: Int64)   // the C++ destructor of a non-reference-counted object
    | Acquire(ptr: Int64)   // one more reference to a reference-counted object
    | Release(ptr: Int64)   // one reference given back

  /**
   * What a native video picture remembers: the pixel format and geometry it
   * was constructed with (-1 for a width or height to be guessed at decoding),
   * whether it is complete, and its timestamp in microseconds once one is set.
   */
  datatype FrameRecord = FrameRecord(format: Int32, width: Int32, height: Int32, complete: bool, pts: Option<Int64>)

  /** The reference count of the object at p; an address never handed out counts 0. */
  function CountAt(counts: map<Int64, int>, p: Int64): int {
    if p in counts then counts[p] else 0
  }

  /** The counts after a native factory created the object at p with its one reference. */
  function Created(counts: map<Int64, int>, p: Int64): (r: map<Int64, int>)
    ensures CountAt(r, p) == 1
    ensures forall q :: q != p ==> CountAt(r, q) == CountAt(counts, q)
  {
    counts[p := 1]
  }

  /** The counts after `acquire` took one more reference to the object at p. */
  function Acquired(counts: map<Int64, int>, p: Int64): (r: map<Int64, int>)
    ensures CountAt(r, p) == CountAt(counts, p) + 1
    ensures forall q :: q != p ==> CountAt(r, q) == CountAt(counts, q)
  {
    counts[p := CountAt(counts, p) + 1]
  }

  /** The counts after one reference to the object at p was given back. */
  function Released(counts: map<Int64, int>, p: Int64): (r: map<Int64, int>)
    ensures CountAt(r, p) == CountAt(counts, p) - 1
    ensures forall q :: q != p ==> CountAt(r, q) == CountAt(counts, q)
  {
    counts[p := CountAt(counts, p) - 1]
  }

  class NativeHeap {
    /** The value of every live native AtomicInteger, by address. */
    var cells: map<Int64, Int32>
    /** Reference counts of the reference-counted objects, by address. */
    ghost var counts: map<Int64, int>
    /** The record of every native video picture, by address. */
    ghost var frames: map<Int64, FrameRecord>
    /** Every lifetime call issued so far, oldest first. */
    ghost var events: seq<Event>

    constructor ()
      ensures cells == map[] && counts == map[] && frames == map[] && events == []
    {
      cells := map[];
      counts := map[];
      frames := map[];
      events := [];
    }
  }
}
