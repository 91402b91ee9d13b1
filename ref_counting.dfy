/**
 * The reference-counting discipline of `IVideoPicture` proxies, seen over all
 * of them at once. Every live proxy holds exactly one native reference:
 * `make` creates an object with one reference and one proxy, `copyReference`
 * adds a proxy and a reference together, and `delete` gives a reference back
 * exactly when it detaches a live proxy. So the native count of an object
 * always equals the number of proxies that still name it: it never goes
 * negative, and it reaches zero exactly when the last proxy lets go.
 */
module RefCounting {
  import opened JavaTypes
  import opened Handles
  import Native

  /** Every picture proxy in existence (by creation order) and the native reference counts. */
  datatype World = World(proxies: seq<Handle>, counts: map<Int64, int>)

  function Count(w: World, p: Int64): int {
    Native.CountAt(w.counts, p)
  }

  /** How many of the proxies still name the object at p. */
  function Holders(proxies: seq<Handle>, p: Int64): nat
  {
    if proxies == [] then 0
    else Holders(proxies[..|proxies| - 1], p) + (if proxies[|proxies| - 1].ptr == p then 1 else 0)
  }

  /** Every native object's count is the number of proxies naming it. */
  ghost predicate Balanced(w: World) {
    forall p: Int64 :: p != 0 ==> Count(w, p) == Holders(w.proxies, p)
  }

  /**
   * `make`: the native factory returned cPtr. A zero result changes nothing;
   * otherwise a non-owning proxy is added and the new object counts one
   * reference, every other count staying as it was.
   */
  function Make(w: World, cPtr: Int64): (r: World)
    ensures cPtr == 0 ==> r == w
    ensures cPtr != 0 ==> r.proxies == w.proxies + [Handle(cPtr, false)]
    ensures cPtr != 0 ==> Count(r, cPtr) == 1
    ensures cPtr != 0 ==> forall q :: q != cPtr ==> Count(r, q) == Count(w, q)
  {
    match WrapNative(cPtr)
    case None => w
    case Some(h) => World(w.proxies + [h], Native.Created(w.counts, cPtr))
  }

  /**
   * `copyReference` on proxy i: nothing changes if proxy i is detached;
   * otherwise a non-owning proxy to the same address is added and that
   * object counts one reference more, every other count staying as it was.
   */
  function CopyReference(w: World, i: nat): (r: World)
    requires i < |w.proxies|
    ensures w.proxies[i].Detached() ==> r == w
    ensures !w.proxies[i].Detached() ==> r.proxies == w.proxies + [Handle(w.proxies[i].ptr, false)]
    ensures forall q :: Count(r, q) == Count(w, q) + if q == w.proxies[i].ptr && q != 0 then 1 else 0
  {
    match CopyReferenceOf(w.proxies[i])
    case None => w
    case Some(h) => World(w.proxies + [h], Native.Acquired(w.counts, h.ptr))
  }

  /**
   * `delete` on proxy i: only proxy i changes, as the protocol says, and the
   * count of its object drops by one exactly when proxy i was live and not
   * owning; an owning live proxy is refused and keeps its reference.
   */
  function Delete(w: World, i: nat): (r: World)
    requires i < |w.proxies|
    ensures |r.proxies| == |w.proxies|
    ensures r.proxies[i] == PictureDelete(w.proxies[i]).after
    ensures forall j :: 0 <= j < |w.proxies| && j != i ==> r.proxies[j] == w.proxies[j]
    ensures forall q :: Count(r, q) == Count(w, q) - (if q == w.proxies[i].ptr && q != 0 && !w.proxies[i].own then 1 else 0)
  {
    var h := w.proxies[i];
    var d := PictureDelete(h);
    World(w.proxies[i := d.after], if d.released then Native.Released(w.counts, h.ptr) else w.counts)
  }

  lemma {:induction false} HoldersAppend(proxies: seq<Handle>, h: Handle, p: Int64)
    ensures Holders(proxies + [h], p) == Holders(proxies, p) + if h.ptr == p then 1 else 0
  {
    assert (proxies + [h])[..|proxies|] == proxies;
  }

  /** Replacing one proxy changes the holders of p by what the old and new proxy contribute. */
  lemma {:induction false} HoldersUpdate(proxies: seq<Handle>, i: nat, h: Handle, p: Int64)
    requires i < |proxies|
    ensures Holders(proxies[i := h], p)
         == Holders(proxies, p) - (if proxies[i].ptr == p then 1 else 0) + (if h.ptr == p then 1 else 0)
  {
    var n := |proxies|;
    var updated := proxies[i := h];
    if i == n - 1 {
      assert updated[..n - 1] == proxies[..n - 1];
    } else {
      assert updated[..n - 1] == proxies[..n - 1][i := h];
      HoldersUpdate(proxies[..n - 1], i, h, p);
    }
  }

  /** No proxy names p exactly when p has no holders. */
  lemma {:induction false} NoHolders(proxies: seq<Handle>, p: Int64)
    ensures Holders(proxies, p) == 0 <==> forall j :: 0 <= j < |proxies| ==> proxies[j].ptr != p
  {
    if proxies != [] {
      var n := |proxies|;
      NoHolders(proxies[..n - 1], p);
      assert forall j :: 0 <= j < n - 1 ==> proxies[..n - 1][j] == proxies[j];
    }
  }

  /** The empty world, before any proxy exists, is balanced. */
  lemma EmptyBalanced()
    ensures Balanced(World([], map[]))
  {
  }

  /** `make` keeps the balance, given that the native factory never returns an address a proxy still names. */
  lemma MakeKeepsBalance(w: World, cPtr: Int64)
    requires Balanced(w)
    requires cPtr != 0 ==> Holders(w.proxies, cPtr) == 0
    ensures Balanced(Make(w, cPtr))
  {
    if cPtr != 0 {
      forall p: Int64 | p != 0
        ensures Count(Make(w, cPtr), p) == Holders(Make(w, cPtr).proxies, p)
      {
        HoldersAppend(w.proxies, Handle(cPtr, false), p);
      }
    }
  }

  /** `copyReference` keeps the balance. */
  lemma CopyReferenceKeepsBalance(w: World, i: nat)
    requires Balanced(w)
    requires i < |w.proxies|
    ensures Balanced(CopyReference(w, i))
  {
    var h := w.proxies[i];
    if h.ptr != 0 {
      forall p: Int64 | p != 0
        ensures Count(CopyReference(w, i), p) == Holders(CopyReference(w, i).proxies, p)
      {
        HoldersAppend(w.proxies, Handle(h.ptr, false), p);
      }
    }
  }

  /** `delete` keeps the balance, whether it detaches, raises, or does nothing. */
  lemma DeleteKeepsBalance(w: World, i: nat)
    requires Balanced(w)
    requires i < |w.proxies|
    ensures Balanced(Delete(w, i))
  {
    var h := w.proxies[i];
    var d := PictureDelete(h);
    forall p: Int64 | p != 0
      ensures Count(Delete(w, i), p) == Holders(Delete(w, i).proxies, p)
    {
      HoldersUpdate(w.proxies, i, d.after, p);
    }
  }

  /**
   * In a balanced world no count is negative, and an object's count is zero
   * exactly when no proxy names it any more.
   */
  lemma BalancedCounts(w: World, p: Int64)
    requires Balanced(w)
    requires p != 0
    ensures Count(w, p) >= 0
    ensures Count(w, p) == 0 <==> forall j :: 0 <= j < |w.proxies| ==> w.proxies[j].ptr != p
  {
    NoHolders(w.proxies, p);
  }

  /**
   * `copyReference` on a live proxy followed by `delete` of the copy restores
   * every count, leaves the earlier proxies as they were, and leaves the copy
   * detached.
   */
  lemma CopyThenDeleteRestores(w: World, i: nat)
    requires i < |w.proxies|
    requires !w.proxies[i].Detached()
    ensures var after := Delete(CopyReference(w, i), |w.proxies|);
      && (forall p :: Count(after, p) == Count(w, p))
      && after.proxies[..|w.proxies|] == w.proxies
      && |after.proxies| == |w.proxies| + 1
      && after.proxies[|w.proxies|].Detached()
  {
    var w1 := CopyReference(w, i);
    var after := Delete(w1, |w.proxies|);
    assert after.proxies[..|w.proxies|] == w.proxies;
  }
}
