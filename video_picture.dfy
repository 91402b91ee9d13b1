/**
 * `com.xuggle.xuggler.IVideoPicture`: the Java proxy for a reference-counted
 * native video picture. The proxy follows the same handle protocol as every
 * generated proxy, hands out extra references with `copyReference`, refuses
 * to destroy an owning live proxy in `delete`, and maps a failed native
 * factory to null in `make`.
 *
 * The inherited `acquire()` and `super.delete()` belong to base classes
 * that are not part of this model; they appear as their effect on the native
 * reference counts and event log. The frame accessors are native; only the
 * documented contract of `setComplete` is kept, over an abstract record.
 */
module Xuggler {
  import opened JavaTypes
  import opened Handles
  import opened Native

  class IVideoPicture {
    /** The native address; 0 once the proxy has been deleted. */
    var swigCPtr: Int64
    /** Whether this proxy was created as the owner (inherited from the base proxy). */
    var swigCMemOwn: bool

    /** The proxy's fields as a protocol handle. */
    function State(): Handle
      reads this
    {
      Handle(swigCPtr, swigCMemOwn)
    }

    /** The protected constructor: wraps an address as given. */
    constructor (cPtr: Int64, cMemoryOwn: bool)
      ensures swigCPtr == cPtr && swigCMemOwn == cMemoryOwn
    {
      swigCPtr := cPtr;
      swigCMemOwn := cMemoryOwn;
    }

    /** `getCPtr(obj)`: 0 for null, otherwise whatever `getMyCPtr` does, failure included. */
    static function GetCPtr(obj: IVideoPicture?): (r: Result<Int64>)
      reads obj
      ensures obj == null ==> r == Ok(0)
      ensures obj != null ==> r == obj.GetMyCPtr()
      ensures r == Ok(0) <==> obj == null
    {
      if obj == null then Ok(0) else obj.GetMyCPtr()
    }

    /** `getMyCPtr`: raises IllegalStateException exactly on a detached proxy, never yields 0. */
    function GetMyCPtr(): (r: Result<Int64>)
      reads this
      ensures r.Threw? <==> swigCPtr == 0
      ensures r.Threw? ==> r.exception == IllegalStateException
      ensures r.Ok? ==> r.value == swigCPtr && r.value != 0
    {
      if swigCPtr == 0 then Threw(IllegalStateException) else Ok(swigCPtr)
    }

    /**
     * `equals`: true exactly for another IVideoPicture proxy with the same
     * address; ownership plays no part.
     */
    function Equals(obj: object?): (r: bool)
      reads this, obj
      ensures r <==> obj is IVideoPicture && (obj as IVideoPicture).swigCPtr == swigCPtr
    {
      obj is IVideoPicture && (obj as IVideoPicture).swigCPtr == swigCPtr
    }

    /** `hashCode`: the low 32 bits of the address. */
    function HashCode(): (r: Int32)
      reads this
      ensures SameLow32(swigCPtr as int, r as int)
      ensures InInt32Range(swigCPtr as int) ==> r as int == swigCPtr as int
    {
      ToInt32(swigCPtr as int)
    }

    /**
     * `copyReference`: null, with no native call, for a detached proxy;
     * otherwise a new non-owning proxy to the same object, which `acquire`s
     * one more reference. This proxy is left as it was.
     */
    method CopyReference(heap: NativeHeap) returns (r: IVideoPicture?)
      modifies heap`counts, heap`events
      ensures r == null <==> swigCPtr == 0
      ensures r == null ==> heap.counts == old(heap.counts) && heap.events == old(heap.events)
      ensures r != null ==>
        && fresh(r)
        && Some(r.State()) == CopyReferenceOf(State())
        && r.Equals(this) && this.Equals(r) && r.HashCode() == HashCode()
        && heap.counts == Acquired(old(heap.counts), swigCPtr)
        && heap.events == old(heap.events) + [Event.Acquire(swigCPtr)]
    {
      if swigCPtr == 0 {
        r := null;
      } else {
        r := new IVideoPicture(swigCPtr, false);
        r.Acquire(heap);
      }
    }

    /** The inherited `acquire()`: one more reference to the object at this proxy's address. */
    method Acquire(heap: NativeHeap)
      modifies heap`counts, heap`events
      ensures heap.counts == Acquired(old(heap.counts), swigCPtr)
      ensures heap.events == old(heap.events) + [Event.Acquire(swigCPtr)]
    {
      heap.counts := Acquired(heap.counts, swigCPtr);
      heap.events := heap.events + [Event.Acquire(swigCPtr)];
    }

    /**
     * `delete`: a live owning proxy drops ownership and raises
     * UnsupportedOperationException, keeping its pointer and calling nothing
     * further. Every other proxy is detached and the inherited delete runs,
     * giving back this proxy's reference if the pointer was still set.
     */
    method Delete(heap: NativeHeap) returns (outcome: Outcome)
      modifies this, heap`counts, heap`events
      ensures var d := PictureDelete(old(State()));
        && State() == d.after
        && outcome == d.outcome
        && (d.released ==>
              && heap.counts == Released(old(heap.counts), old(swigCPtr))
              && heap.events == old(heap.events) + [Release(old(swigCPtr))])
        && (!d.released ==> heap.counts == old(heap.counts) && heap.events == old(heap.events))
    {
      if swigCPtr != 0 && swigCMemOwn {
        swigCMemOwn := false;
        return Thrown(UnsupportedOperationException);
      }
      var held := swigCPtr;
      swigCPtr := 0;
      SuperDelete(heap, held);
      outcome := Normal;
    }

    /**
     * The inherited `delete()`. The base proxy keeps its own copy of the
     * address, which it clears on its first delete: it gives back the
     * reference once, for the address this proxy held on entry to `delete`.
     */
    static method SuperDelete(heap: NativeHeap, held: Int64)
      modifies heap`counts, heap`events
      ensures held != 0 ==>
        && heap.counts == Released(old(heap.counts), held)
        && heap.events == old(heap.events) + [Release(held)]
      ensures held == 0 ==> heap.counts == old(heap.counts) && heap.events == old(heap.events)
    {
      if held != 0 {
        heap.counts := Released(heap.counts, held);
        heap.events := heap.events + [Release(held)];
      }
    }

    /**
     * `setComplete`: format, width and height must be those the picture was
     * constructed with; the picture is then marked complete (or not) with the
     * given timestamp, and its construction values are unchanged.
     */
    method SetComplete(heap: NativeHeap, aIsComplete: bool, format: Int32, width: Int32, height: Int32, pts: Int64)
      requires swigCPtr in heap.frames
      requires SetCompleteAdmits(heap.frames[swigCPtr], format, width, height)
      modifies heap`frames
      ensures heap.frames == old(heap.frames)[swigCPtr := Completed(old(heap.frames[swigCPtr]), aIsComplete, pts)]
    {
      heap.frames := heap.frames[swigCPtr := Completed(heap.frames[swigCPtr], aIsComplete, pts)];
    }

    /**
     * `make(format, width, height)`: the native factory returned nativeResult.
     * Zero becomes null; anything else a new non-owning proxy to a fresh
     * native picture holding one reference and remembering its construction
     * values, not yet complete. A nonzero result is a fresh address: no
     * reference and no record exist for it yet.
     */
    static method Make(heap: NativeHeap, format: Int32, width: Int32, height: Int32, nativeResult: Int64)
      returns (r: IVideoPicture?)
      requires nativeResult != 0 ==> CountAt(heap.counts, nativeResult) == 0 && nativeResult !in heap.frames
      modifies heap`counts, heap`frames
      ensures r == null <==> nativeResult == 0
      ensures r != null ==> fresh(r) && Some(r.State()) == WrapNative(nativeResult)
      ensures r == null ==> heap.counts == old(heap.counts) && heap.frames == old(heap.frames)
      ensures r != null ==>
        && heap.counts == Created(old(heap.counts), nativeResult)
        && heap.frames == old(heap.frames)[nativeResult := FrameRecord(format, width, height, false, None)]
    {
      if nativeResult == 0 {
        r := null;
      } else {
        r := new IVideoPicture(nativeResult, false);
        heap.counts := Created(heap.counts, nativeResult);
        heap.frames := heap.frames[nativeResult := FrameRecord(format, width, height, false, None)];
      }
    }

    /**
     * `make(srcFrame)`: the source's address is taken with `getCPtr` first,
     * so a detached source raises IllegalStateException before any native
     * call. Otherwise the native factory returned nativeResult: zero becomes
     * null, anything else a new non-owning proxy to a fresh picture holding
     * one reference and a copy, by value, of the source's record. A nonzero
     * result is a fresh address: no reference and no record exist for it yet.
     */
    static method MakeCopy(heap: NativeHeap, srcFrame: IVideoPicture?, nativeResult: Int64)
      returns (r: Result<IVideoPicture?>)
      requires nativeResult != 0 ==> CountAt(heap.counts, nativeResult) == 0 && nativeResult !in heap.frames
      modifies heap`counts, heap`frames
      ensures r.Threw? <==> GetCPtr(srcFrame).Threw?
      ensures r.Threw? ==> r.exception == IllegalStateException
      ensures r.Ok? ==> (r.value == null <==> nativeResult == 0)
      ensures r.Ok? && r.value != null ==> fresh(r.value) && Some(r.value.State()) == WrapNative(nativeResult)
      ensures r.Threw? || nativeResult == 0 ==> heap.counts == old(heap.counts) && heap.frames == old(heap.frames)
      ensures r.Ok? && nativeResult != 0 ==>
        && heap.counts == Created(old(heap.counts), nativeResult)
        && heap.frames == CopiedFrames(old(heap.frames), GetCPtr(srcFrame).value, nativeResult)
    {
      var src := GetCPtr(srcFrame);
      if src.Threw? {
        return Threw(src.exception);
      }
      if nativeResult == 0 {
        r := Ok(null);
      } else {
        var p := new IVideoPicture(nativeResult, false);
        heap.counts := Created(heap.counts, nativeResult);
        heap.frames := CopiedFrames(heap.frames, src.value, nativeResult);
        r := Ok(p);
      }
    }
  }

  /** The documented precondition of `setComplete`: the construction values are repeated exactly. */
  predicate SetCompleteAdmits(f: FrameRecord, format: Int32, width: Int32, height: Int32) {
    f.format == format && f.width == width && f.height == height
  }

  /** The record after `setComplete(aIsComplete, ..., pts)`. */
  function Completed(f: FrameRecord, aIsComplete: bool, pts: Int64): (g: FrameRecord)
    ensures g.complete == aIsComplete && g.pts == Some(pts)
    ensures g.format == f.format && g.width == f.width && g.height == f.height
  {
    f.(complete := aIsComplete, pts := Some(pts))
  }

  /**
   * The construction values survive `setComplete`, so a picture that admitted
   * one call admits the same call again, and repeating it changes nothing.
   */
  lemma SetCompleteRepeatable(f: FrameRecord, aIsComplete: bool, format: Int32, width: Int32, height: Int32, pts: Int64)
    requires SetCompleteAdmits(f, format, width, height)
    ensures SetCompleteAdmits(Completed(f, aIsComplete, pts), format, width, height)
    ensures Completed(Completed(f, aIsComplete, pts), aIsComplete, pts) == Completed(f, aIsComplete, pts)
  {
  }

  /** The native records after `make(srcFrame)` built a picture at dst from the one at src. */
  function CopiedFrames(frames: map<Int64, FrameRecord>, src: Int64, dst: Int64): (r: map<Int64, FrameRecord>)
    ensures src in frames ==> dst in r && r[dst] == frames[src]
    ensures forall p :: p in frames && p != dst ==> p in r && r[p] == frames[p]
  {
    if src in frames then frames[dst := frames[src]] else frames
  }

  /** Two proxies that are `equals` have the same `hashCode`. */
  lemma EqualPicturesHashAlike(a: IVideoPicture, b: IVideoPicture)
    requires a.Equals(b)
    ensures a.HashCode() == b.HashCode()
  {
  }

  /**
   * `copyReference` followed by `delete` on the copy leaves the reference
   * count where it was, the original proxy untouched, and the copy detached.
   */
  method CopyThenDeleteCopy(heap: NativeHeap, pic: IVideoPicture)
    requires pic.swigCPtr != 0
    modifies heap`counts, heap`events
    ensures CountAt(heap.counts, pic.swigCPtr) == CountAt(old(heap.counts), pic.swigCPtr)
    ensures heap.events == old(heap.events) + [Event.Acquire(pic.swigCPtr), Event.Release(pic.swigCPtr)]
  {
    var copy := pic.CopyReference(heap);
    var outcome := copy.Delete(heap);
    assert outcome == Normal;
  }
}
