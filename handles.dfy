/**
 * The handle protocol every generated proxy follows, as pure steps over the
 * two fields a proxy carries. The proxy classes specify their state-changing
 * methods by these steps, and the lemmas here say what any sequence of steps
 * can and cannot do.
 */
module Handles {
  import opened JavaTypes

  /**
   * The two fields of a proxy: `swigCPtr`, the native address (0 once the
   * proxy is detached), and `swigCMemOwn`, whether this proxy was created as
   * the owner of the native object.
   */
  datatype Handle = Handle(ptr: Int64, own: bool) {
    predicate Detached() {
      ptr == 0
    }
  }

  // ---------------------------------------------------------------------------
  // AtomicInteger.delete

  /** One call of `AtomicInteger.delete`: the fields afterwards, and whether the native destructor was called. */
  datatype FerryDeletion = FerryDeletion(after: Handle, destroyed: bool)

  function FerryDelete(h: Handle): (d: FerryDeletion)
    ensures d.after.Detached()
    ensures d.destroyed <==> !h.Detached() && h.own
    ensures d.destroyed ==> !d.after.own
    ensures !d.destroyed ==> d.after.own == h.own
  {
    if h.ptr != 0 && h.own then FerryDeletion(Handle(0, false), true)
    else FerryDeletion(Handle(0, h.own), false)
  }

  /** A second delete destroys nothing and changes no field. */
  lemma FerryDeleteIdempotent(h: Handle)
    ensures var d := FerryDelete(h); FerryDelete(d.after) == FerryDeletion(d.after, false)
  {
  }

  /** The fields after n successive deletes, and how many native destructor calls they issued. */
  datatype FerryTally = FerryTally(last: Handle, destroys: nat)

  function FerryDeleteTimes(h: Handle, n: nat): (t: FerryTally)
    ensures n > 0 ==> t.last.Detached()
    ensures t.destroys <= n
    decreases n
  {
    if n == 0 then FerryTally(h, 0)
    else
      var d := FerryDelete(h);
      var rest := FerryDeleteTimes(d.after, n - 1);
      FerryTally(rest.last, rest.destroys + if d.destroyed then 1 else 0)
  }

  /** Deleting a detached proxy any number of times does nothing at all. */
  lemma {:induction false} FerryDeleteDetached(h: Handle, n: nat)
    requires h.Detached()
    ensures FerryDeleteTimes(h, n) == FerryTally(h, 0)
  {
    if n > 0 {
      FerryDeleteDetached(FerryDelete(h).after, n - 1);
    }
  }

  /**
   * Any non-empty run of deletes detaches the proxy and calls the native
   * destructor exactly once if the proxy was live and owning, never otherwise.
   */
  lemma {:induction false} FerryDestroyAtMostOnce(h: Handle, n: nat)
    ensures FerryDeleteTimes(h, n).destroys == if n > 0 && !h.Detached() && h.own then 1 else 0
    ensures n > 0 ==> FerryDeleteTimes(h, n).last.Detached()
  {
    if n > 0 {
      FerryDeleteDetached(FerryDelete(h).after, n - 1);
    }
  }

  // ---------------------------------------------------------------------------
  // IVideoPicture.delete

  /**
   * One call of `IVideoPicture.delete`: the fields afterwards, whether it
   * raised, and whether the inherited delete gave back the reference this
   * proxy held.
   */
  datatype PictureDeletion = PictureDeletion(after: Handle, outcome: Outcome, released: bool)

  /**
   * A live owning proxy refuses: ownership is dropped, the exception is raised
   * and the pointer is kept. Otherwise the pointer is cleared and the inherited
   * delete releases the reference if the pointer was still set.
   */
  function PictureDelete(h: Handle): (d: PictureDeletion)
    ensures d.outcome.Thrown? <==> !h.Detached() && h.own
    ensures d.outcome.Thrown? ==> d.outcome.exception == UnsupportedOperationException
    ensures d.outcome.Thrown? ==> d.after == Handle(h.ptr, false) && !d.released
    ensures d.outcome.Normal? ==> d.after == Handle(0, h.own) && (d.released <==> !h.Detached())
  {
    if h.ptr != 0 && h.own then PictureDeletion(Handle(h.ptr, false), Thrown(UnsupportedOperationException), false)
    else PictureDeletion(Handle(0, h.own), Normal, h.ptr != 0)
  }

  /**
   * The fields after n successive deletes, how many of them raised and how
   * many released a reference. No delete does both; one delete detaches a
   * non-owning proxy, and two deletes detach any proxy.
   */
  datatype PictureTally = PictureTally(last: Handle, throws: nat, releases: nat)

  function PictureDeleteTimes(h: Handle, n: nat): (t: PictureTally)
    ensures n >= 1 && !h.own ==> t.last.Detached()
    ensures n >= 2 ==> t.last.Detached()
    ensures t.throws + t.releases <= n
    decreases n
  {
    if n == 0 then PictureTally(h, 0, 0)
    else
      var d := PictureDelete(h);
      var rest := PictureDeleteTimes(d.after, n - 1);
      PictureTally(rest.last, rest.throws + (if d.outcome.Thrown? then 1 else 0),
                   rest.releases + (if d.released then 1 else 0))
  }

  /** Deleting a detached picture any number of times raises nothing and releases nothing. */
  lemma {:induction false} PictureDeleteDetached(h: Handle, n: nat)
    requires h.Detached()
    ensures PictureDeleteTimes(h, n) == PictureTally(h, 0, 0)
  {
    if n > 0 {
      PictureDeleteDetached(PictureDelete(h).after, n - 1);
    }
  }

  /**
   * A non-owning picture, such as every proxy `make` and `copyReference`
   * return, is never refused: its first delete detaches it and releases its
   * reference if it was live, and later deletes do nothing.
   */
  lemma {:induction false} PictureDeleteNonOwning(h: Handle, n: nat)
    requires !h.own
    ensures QuietTally(PictureDeleteTimes(h, n), h, n)
  {
    if n > 0 {
      PictureDeleteDetached(PictureDelete(h).after, n - 1);
    }
  }

  /** n deletes of h raised nothing, released once if h was live, and left h detached. */
  ghost predicate QuietTally(t: PictureTally, h: Handle, n: nat) {
    && t.throws == 0
    && t.releases == (if n > 0 && !h.Detached() then 1 else 0)
    && (n > 0 ==> t.last.Detached())
  }

  /**
   * A delete retried after the refusal detaches normally: any run of two or
   * more deletes detaches the proxy, raises at most once (only for a live
   * owning proxy) and releases the reference exactly once if it was live.
   */
  lemma {:induction false} PictureDeleteRetried(h: Handle, n: nat)
    requires n >= 2
    ensures PictureDeleteTimes(h, n).last.Detached()
    ensures PictureDeleteTimes(h, n).throws == if !h.Detached() && h.own then 1 else 0
    ensures PictureDeleteTimes(h, n).releases == if !h.Detached() then 1 else 0
  {
    var d := PictureDelete(h);
    if d.outcome.Thrown? {
      PictureDeleteNonOwning(d.after, n - 1);
    } else {
      PictureDeleteDetached(d.after, n - 1);
    }
  }

  // ---------------------------------------------------------------------------
  // IVideoPicture.copyReference and the make factories

  /** `copyReference`: null for a detached proxy, otherwise a non-owning proxy to the same address. */
  function CopyReferenceOf(h: Handle): (r: Option<Handle>)
    ensures r.None? <==> h.Detached()
    ensures r.Some? ==> r.value.ptr == h.ptr && !r.value.own
  {
    if h.ptr == 0 then None else Some(Handle(h.ptr, false))
  }

  /** The null mapping in both `make` factories: a zero native result is null, anything else a non-owning proxy. */
  function WrapNative(cPtr: Int64): (r: Option<Handle>)
    ensures r.None? <==> cPtr == 0
    ensures r.Some? ==> r.value.ptr == cPtr && !r.value.own
  {
    if cPtr == 0 then None else Some(Handle(cPtr, false))
  }
}
