# Xuggle proxy handles, modelled in Dafny

Xuggle lets Java code use native (C++) objects through proxy objects that SWIG
generates. A proxy holds two fields: `swigCPtr`, the native address (0 once
the proxy is detached), and `swigCMemOwn`, whether the proxy owns the native
object. This project models the Java side of that handle protocol for two
generated classes:

- `com.xuggle.ferry.AtomicInteger` is a proxy for a native integer cell. Its
  `delete` calls the C++ destructor for an owning live proxy.
- `com.xuggle.xuggler.IVideoPicture` is a proxy for a reference-counted native
  video picture. `copyReference` hands out further references. `delete`
  refuses an owning live proxy and otherwise gives the proxy's reference back.
  The two `make` factories turn a zero native result into `null`.

Modules:

- `JavaTypes` (java_types.dfy) holds Java `int` and `long`, the narrowing cast
  `(int)`, `null` as `Option`, and exceptions as `Result` and `Outcome`.
- `Native` (native.dfy) is the native heap the proxies talk to. It holds the
  counter cells, plus ghost state: reference counts, frame records and a log
  of lifetime calls (`Destroy`, `Acquire`, `Release`).
- `Handles` (handles.dfy) gives the protocol as pure steps over
  `Handle(ptr, own)`: one `delete` of each class, `copyReference`, and the
  `make` null mapping. Its lemmas cover any number of repeated deletes.
- `Ferry` (atomic_integer.dfy) holds the `AtomicInteger` class. Its counter
  operations act on a sequential Java `int` cell that wraps around.
- `Xuggler` (video_picture.dfy) holds the `IVideoPicture` class and the
  abstract frame record that `setComplete` works on.
- `RefCounting` (ref_counting.dfy) looks at all picture proxies together. It
  proves that the native count of an object always equals the number of
  proxies that still name it.

Every native call is treated as a foreign call. A native factory's result
(the address it returned) is a parameter of the constructor or `make` that
calls it. Its effect on the native heap is stated as ghost state: a new
counter cell, or a picture with one reference and its construction record.
The counter operations pass `swigCPtr` to native code without any check, so
they require a live native cell. Beyond that, what native code does with a
dead address is not modelled. A native factory is taken to return a fresh
address: one that names no live counter cell, no counted picture and no
frame record.

The model follows the code on four points where a reader might expect
otherwise:

- `copyReference` returns a non-owning proxy (`new IVideoPicture(swigCPtr, false)`),
  not an owning one.
- `AtomicInteger.delete` clears `swigCMemOwn` only when it calls the native
  destructor.
- The forwarding accessors pass `swigCPtr` straight to native code. There is
  no Java-side "already released" check, so none is specified for them.
- Both `make` factories return non-owning proxies.

## Model

| member | source | states |
|---|---|---|
| JavaTypes.ToInt32 | trunk/java/xuggle-xuggler/generated/java/com/xuggle/ferry/AtomicInteger.java:107-109 | the `(int)` cast yields a Java `int` that agrees with its argument in the low 32 bits and leaves values already in `int` range unchanged |
| JavaTypes.ToInt32Unique | trunk/java/xuggle-xuggler/generated/java/com/xuggle/ferry/AtomicInteger.java:107-109 | the cast is the only `int` that agrees with its argument in the low 32 bits |
| JavaTypes.ToInt32NotInjective | trunk/java/xuggle-xuggler/generated/java/com/xuggle/xuggler/IVideoPicture.java:104-106 | two addresses 2^32 apart get the same hash code, so distinct native objects can collide |
| JavaTypes.ToInt32AddLeft | trunk/java/xuggle-xuggler/generated/java/com/xuggle/ferry/AtomicInteger.java:158-172 | wrapping a running total after each addition gives the same result as wrapping once at the end |
| Handles.FerryDelete | trunk/java/xuggle-xuggler/generated/java/com/xuggle/ferry/AtomicInteger.java:122-128 | `delete` always detaches; it calls the destructor exactly when the proxy was live and owning, and only then drops ownership |
| Handles.FerryDeleteIdempotent | trunk/java/xuggle-xuggler/generated/java/com/xuggle/ferry/AtomicInteger.java:122-128 | a second `delete` calls no destructor and changes no field |
| Handles.FerryDeleteDetached | trunk/java/xuggle-xuggler/generated/java/com/xuggle/ferry/AtomicInteger.java:122-128 | any number of deletes of a detached proxy do nothing |
| Handles.FerryDeleteTimes | trunk/java/xuggle-xuggler/generated/java/com/xuggle/ferry/AtomicInteger.java:122-128 | any non-empty run of deletes leaves the proxy detached, and n deletes call the destructor at most n times |
| Handles.FerryDestroyAtMostOnce | trunk/java/xuggle-xuggler/generated/java/com/xuggle/ferry/AtomicInteger.java:122-128 | any non-empty run of deletes detaches the proxy and calls the destructor exactly once if it was live and owning, never otherwise |
| Handles.PictureDelete | trunk/java/xuggle-xuggler/generated/java/com/xuggle/xuggler/IVideoPicture.java:111-118 | it raises UnsupportedOperationException exactly for a live owning proxy, then drops ownership, keeps the pointer and releases nothing; otherwise it detaches and releases exactly when the pointer was set |
| Handles.PictureDeleteTimes | trunk/java/xuggle-xuggler/generated/java/com/xuggle/xuggler/IVideoPicture.java:111-118 | one delete detaches a non-owning picture, two deletes detach any picture, and no delete both raises and releases |
| Handles.PictureDeleteDetached | trunk/java/xuggle-xuggler/generated/java/com/xuggle/xuggler/IVideoPicture.java:111-118 | any number of deletes of a detached picture raise nothing and release nothing |
| Handles.PictureDeleteNonOwning | trunk/java/xuggle-xuggler/generated/java/com/xuggle/xuggler/IVideoPicture.java:111-118 | repeated deletes of a non-owning picture never raise; they detach it and release its reference exactly once if it was live |
| Handles.PictureDeleteRetried | trunk/java/xuggle-xuggler/generated/java/com/xuggle/xuggler/IVideoPicture.java:111-118 | a delete retried after the refusal detaches normally: two or more deletes raise at most once, detach, and release exactly once if the picture was live |
| Handles.CopyReferenceOf | trunk/java/xuggle-xuggler/generated/java/com/xuggle/xuggler/IVideoPicture.java:73-82 | null exactly for a detached proxy; otherwise a non-owning handle to the same address |
| Handles.WrapNative | trunk/java/xuggle-xuggler/generated/java/com/xuggle/xuggler/IVideoPicture.java:292-305 | a `make` factory returns null exactly when the native result is 0, and otherwise a non-owning proxy to that address |
| Ferry.AtomicInteger.Wrap | trunk/java/xuggle-xuggler/generated/java/com/xuggle/ferry/AtomicInteger.java:57-60 | the protected constructor stores the address and the ownership flag as given |
| Ferry.AtomicInteger.constructor | trunk/java/xuggle-xuggler/generated/java/com/xuggle/ferry/AtomicInteger.java:130-132 | `new AtomicInteger()` makes an owning proxy to a new native cell holding 0 |
| Ferry.AtomicInteger.WithValue | trunk/java/xuggle-xuggler/generated/java/com/xuggle/ferry/AtomicInteger.java:134-136 | `new AtomicInteger(v)` makes an owning proxy to a new native cell holding v |
| Ferry.AtomicInteger.GetCPtr | trunk/java/xuggle-xuggler/generated/java/com/xuggle/ferry/AtomicInteger.java:70-73 | 0 for null, otherwise the result of `getMyCPtr` (its failure included); 0 is returned for null only |
| Ferry.AtomicInteger.GetMyCPtr | trunk/java/xuggle-xuggler/generated/java/com/xuggle/ferry/AtomicInteger.java:82-85 | raises IllegalStateException exactly when `swigCPtr == 0`; otherwise returns `swigCPtr`, which is never 0 |
| Ferry.AtomicInteger.Equals | trunk/java/xuggle-xuggler/generated/java/com/xuggle/ferry/AtomicInteger.java:95-100 | true exactly for an AtomicInteger with the same address; ownership plays no part |
| Ferry.AtomicInteger.HashCode | trunk/java/xuggle-xuggler/generated/java/com/xuggle/ferry/AtomicInteger.java:107-109 | the hash is the low 32 bits of the address |
| Ferry.AtomicInteger.Delete | trunk/java/xuggle-xuggler/generated/java/com/xuggle/ferry/AtomicInteger.java:122-128 | the fields change as `FerryDelete` says; a destructor call is logged and the cell removed exactly when it destroys |
| Ferry.AtomicInteger.Get | trunk/java/xuggle-xuggler/generated/java/com/xuggle/ferry/AtomicInteger.java:138-140 | returns the value of the native cell |
| Ferry.AtomicInteger.Set | trunk/java/xuggle-xuggler/generated/java/com/xuggle/ferry/AtomicInteger.java:142-144 | the cell holds the new value and no other cell changes |
| Ferry.AtomicInteger.GetAndSet | trunk/java/xuggle-xuggler/generated/java/com/xuggle/ferry/AtomicInteger.java:146-148 | returns the old value and stores the new one |
| Ferry.AtomicInteger.GetAndIncrement | trunk/java/xuggle-xuggler/generated/java/com/xuggle/ferry/AtomicInteger.java:150-152 | returns the old value; the cell grows by 1 with `int` wrap-around |
| Ferry.AtomicInteger.GetAndDecrement | trunk/java/xuggle-xuggler/generated/java/com/xuggle/ferry/AtomicInteger.java:154-156 | returns the old value; the cell shrinks by 1 with `int` wrap-around |
| Ferry.AtomicInteger.GetAndAdd | trunk/java/xuggle-xuggler/generated/java/com/xuggle/ferry/AtomicInteger.java:158-160 | returns the old value; the cell grows by the delta with `int` wrap-around |
| Ferry.AtomicInteger.IncrementAndGet | trunk/java/xuggle-xuggler/generated/java/com/xuggle/ferry/AtomicInteger.java:162-164 | the cell grows by 1 with wrap-around and the new value is returned |
| Ferry.AtomicInteger.DecrementAndGet | trunk/java/xuggle-xuggler/generated/java/com/xuggle/ferry/AtomicInteger.java:166-168 | the cell shrinks by 1 with wrap-around and the new value is returned |
| Ferry.AtomicInteger.AddAndGet | trunk/java/xuggle-xuggler/generated/java/com/xuggle/ferry/AtomicInteger.java:170-172 | the cell grows by the delta with wrap-around and the new value is returned |
| Ferry.AtomicInteger.CompareAndSet | trunk/java/xuggle-xuggler/generated/java/com/xuggle/ferry/AtomicInteger.java:174-183 | returns true exactly when the current value equals `expected`, and then the value becomes `update`; otherwise the cell is unchanged |
| Ferry.EqualCountersHashAlike | trunk/java/xuggle-xuggler/generated/java/com/xuggle/ferry/AtomicInteger.java:95-109 | counters that are `equals` have equal hash codes |
| Ferry.DetachedCountersAreEqual | trunk/java/xuggle-xuggler/generated/java/com/xuggle/ferry/AtomicInteger.java:95-100 | two detached counters are `equals` in both directions, whatever their ownership |
| Ferry.AddAll | trunk/java/xuggle-xuggler/generated/java/com/xuggle/ferry/AtomicInteger.java:170-172 | a run of `addAndGet` calls leaves the wrapped sum of start value and all deltas |
| Ferry.BalancedAddsRestore | trunk/java/xuggle-xuggler/generated/java/com/xuggle/ferry/AtomicInteger.java:162-172 | additions whose deltas sum to 0 leave the counter at its start value, however they wrap on the way |
| Ferry.ConstructThenDeleteTwice | trunk/java/xuggle-xuggler/generated/java/com/xuggle/ferry/AtomicInteger.java:122-136 | a freshly constructed counter deleted twice calls the native destructor exactly once and its cell is gone |
| Native.Created | trunk/java/xuggle-xuggler/generated/java/com/xuggle/xuggler/IVideoPicture.java:267-305 | a native factory's new object counts one reference; every other count is unchanged |
| Native.Acquired | trunk/java/xuggle-xuggler/generated/java/com/xuggle/xuggler/IVideoPicture.java:79 | `acquire` raises the count of its object by one and leaves every other count unchanged |
| Native.Released | trunk/java/xuggle-xuggler/generated/java/com/xuggle/xuggler/IVideoPicture.java:117 | giving a reference back lowers the count of its object by one and leaves every other count unchanged |
| Xuggler.IVideoPicture.constructor | trunk/java/xuggle-xuggler/generated/java/com/xuggle/xuggler/IVideoPicture.java:35-38 | the protected constructor stores the address and the ownership flag as given |
| Xuggler.IVideoPicture.GetCPtr | trunk/java/xuggle-xuggler/generated/java/com/xuggle/xuggler/IVideoPicture.java:48-51 | 0 for null, otherwise the result of `getMyCPtr` (its failure included); 0 is returned for null only |
| Xuggler.IVideoPicture.GetMyCPtr | trunk/java/xuggle-xuggler/generated/java/com/xuggle/xuggler/IVideoPicture.java:60-63 | raises IllegalStateException exactly when `swigCPtr == 0`; otherwise returns `swigCPtr`, which is never 0 |
| Xuggler.IVideoPicture.Equals | trunk/java/xuggle-xuggler/generated/java/com/xuggle/xuggler/IVideoPicture.java:92-97 | true exactly for an IVideoPicture with the same address; ownership plays no part |
| Xuggler.IVideoPicture.HashCode | trunk/java/xuggle-xuggler/generated/java/com/xuggle/xuggler/IVideoPicture.java:104-106 | the hash is the low 32 bits of the address |
| Xuggler.IVideoPicture.CopyReference | trunk/java/xuggle-xuggler/generated/java/com/xuggle/xuggler/IVideoPicture.java:73-82 | on a detached proxy: null, with counts and log unchanged; otherwise a fresh non-owning proxy to the same address, `equals` to the original and with the same hash, whose count rises by exactly one (one `Acquire` logged); the original is untouched |
| Xuggler.IVideoPicture.Acquire | trunk/java/xuggle-xuggler/generated/java/com/xuggle/xuggler/IVideoPicture.java:79 | `acquire` adds one reference to the object at the proxy's address and logs it |
| Xuggler.IVideoPicture.Delete | trunk/java/xuggle-xuggler/generated/java/com/xuggle/xuggler/IVideoPicture.java:111-118 | the fields and outcome are as `PictureDelete` says; when a reference is released the count drops by one and a `Release` is logged, otherwise counts and log are unchanged |
| Xuggler.IVideoPicture.SuperDelete | trunk/java/xuggle-xuggler/generated/java/com/xuggle/xuggler/IVideoPicture.java:117 | the inherited delete gives back one reference for a nonzero address and does nothing for 0 |
| Xuggler.IVideoPicture.SetComplete | trunk/java/xuggle-xuggler/generated/java/com/xuggle/xuggler/IVideoPicture.java:231-252 | requires the format, width and height the picture was made with; marks it complete or not with the given timestamp and changes nothing else |
| Xuggler.IVideoPicture.Make | trunk/java/xuggle-xuggler/generated/java/com/xuggle/xuggler/IVideoPicture.java:267-295 | null exactly when the native result is 0; otherwise a fresh non-owning proxy to a picture with one reference that remembers its format and geometry and is not yet complete |
| Xuggler.IVideoPicture.MakeCopy | trunk/java/xuggle-xuggler/generated/java/com/xuggle/xuggler/IVideoPicture.java:297-305 | raises IllegalStateException exactly for a detached source, before any native call; otherwise null exactly when the native result is 0, and else a fresh non-owning proxy to a picture with one reference and a copy of the source's record |
| Xuggler.Completed | trunk/java/xuggle-xuggler/generated/java/com/xuggle/xuggler/IVideoPicture.java:231-252 | after `setComplete` the flag and timestamp are the given ones, and format and geometry are unchanged |
| Xuggler.SetCompleteRepeatable | trunk/java/xuggle-xuggler/generated/java/com/xuggle/xuggler/IVideoPicture.java:236-244 | a picture that admitted `setComplete` admits the same call again, and repeating it changes nothing |
| Xuggler.CopiedFrames | trunk/java/xuggle-xuggler/generated/java/com/xuggle/xuggler/IVideoPicture.java:297-305 | the new picture's record equals the source's, and every other record is unchanged |
| Xuggler.EqualPicturesHashAlike | trunk/java/xuggle-xuggler/generated/java/com/xuggle/xuggler/IVideoPicture.java:92-106 | pictures that are `equals` have equal hash codes |
| Xuggler.CopyThenDeleteCopy | trunk/java/xuggle-xuggler/generated/java/com/xuggle/xuggler/IVideoPicture.java:73-118 | `copyReference` then `delete` on the copy leaves the count where it was; exactly one `Acquire` and one `Release` are logged |
| RefCounting.Make | trunk/java/xuggle-xuggler/generated/java/com/xuggle/xuggler/IVideoPicture.java:267-305 | a zero native result changes nothing; otherwise one non-owning proxy to the result is added, its object counts one reference, and no other count changes |
| RefCounting.CopyReference | trunk/java/xuggle-xuggler/generated/java/com/xuggle/xuggler/IVideoPicture.java:73-82 | a detached proxy changes nothing; otherwise one non-owning proxy to the same address is added and only that object's count rises, by one |
| RefCounting.Delete | trunk/java/xuggle-xuggler/generated/java/com/xuggle/xuggler/IVideoPicture.java:111-118 | only the deleted proxy changes, as `PictureDelete` says; its object's count drops by one exactly when the proxy was live and not owning, and no other count changes |
| RefCounting.EmptyBalanced | trunk/java/xuggle-xuggler/generated/java/com/xuggle/xuggler/IVideoPicture.java:73-118 | before any proxy exists, counts and proxies agree |
| RefCounting.MakeKeepsBalance | trunk/java/xuggle-xuggler/generated/java/com/xuggle/xuggler/IVideoPicture.java:292-305 | `make` keeps each object's count equal to the number of proxies naming it, provided the native factory returns an address no proxy names |
| RefCounting.CopyReferenceKeepsBalance | trunk/java/xuggle-xuggler/generated/java/com/xuggle/xuggler/IVideoPicture.java:73-82 | `copyReference` keeps each count equal to the number of proxies naming the object |
| RefCounting.DeleteKeepsBalance | trunk/java/xuggle-xuggler/generated/java/com/xuggle/xuggler/IVideoPicture.java:111-118 | `delete` keeps each count equal to the number of proxies naming the object, whether it detaches, raises or does nothing |
| RefCounting.BalancedCounts | trunk/java/xuggle-xuggler/generated/java/com/xuggle/xuggler/IVideoPicture.java:73-118 | when counts and proxies agree, no count is negative, and a count is 0 exactly when no proxy names the object |
| RefCounting.CopyThenDeleteRestores | trunk/java/xuggle-xuggler/generated/java/com/xuggle/xuggler/IVideoPicture.java:73-118 | `copyReference` on a live proxy, then `delete` on the copy, restores every count and leaves the earlier proxies unchanged and the copy detached |

## Left out

- `finalize` (AtomicInteger.java:114-117) runs at a time the garbage collector chooses. It only calls `delete`, whose repeated calls are covered above.
- `isAtomic`, `synchronized` and `volatile` concern the environment and concurrency. The counter is modelled as a sequential cell.
- The `SWIGIVideoPictureUpcast` pointer adjustment in the IVideoPicture constructor is foreign pointer arithmetic. The base proxy's copy of the address is taken to be the address itself.
- `acquire()` and `super.delete()` belong to RefCounted and IMediaData, which are not part of this model. They appear only as ghost reference-count and log effects. For `super.delete()`, the base proxy gives back its reference once, for the address the picture proxy held on entry.
- The forwarding picture operations have their behaviour in native code that is not part of this model: `isKeyFrame`, `setKeyFrame`, `isComplete`, `getSize`, `getWidth`, `getHeight`, `getPixelType`, `getPts`, `setPts`, `getQuality`, `setQuality`, `getDataLineSize` and `copy`. So do lazy buffer allocation, pixel copying and geometry checks.
- `noop` and the unused finalizer field exist only to silence compiler warnings.
- A `null` pixel format passed to `make` or `setComplete` would raise NullPointerException at `format.swigValue()`. This is not modelled: a pixel format is its numeric value here.
- Xuggler.IVideoPicture.SetComplete: a call whose format, width or height differ from the construction values is excluded by its requires. The documentation only demands a match, and what native code does on a mismatch is not modelled.
- Ferry.AtomicInteger.Get and the other counter operations require a live native cell at `swigCPtr`. The Java code passes the address unchecked, and native behaviour on a dead or zero address is not modelled.
- Xuggler.IVideoPicture.MakeCopy: when the native copy succeeds, the new record is the source's record only if the source's record is known to the model.
