/** getLastIds: the next free image and annotation ids are read off the current maxima. */
module IdReconciler {
  import opened Records

  datatype LastIds = LastIds(lastImageId: int, lastAnnotationId: int)

  /**
   The key of the first record of `findOne().sort({ id: -1 })`, or 0 when the
   collection is empty. The maximum is taken as it is, negative or not.
   */
  function MaxKeyOrZero<T>(s: seq<T>, key: T -> int): (r: int)
    ensures |s| == 0 ==> r == 0
    ensures forall i :: 0 <= i < |s| ==> key(s[i]) <= r
    ensures |s| > 0 ==> exists i :: 0 <= i < |s| && key(s[i]) == r
    decreases |s|
  {
    if |s| == 0 then 0
    else if |s| == 1 then key(s[0])
    else
      var m := MaxKeyOrZero(s[..|s| - 1], key);
      assert forall i :: 0 <= i < |s| - 1 ==> s[..|s| - 1][i] == s[i];
      if key(s[|s| - 1]) > m then key(s[|s| - 1]) else m
  }

  function GetLastIds(store: Dataset): (r: LastIds)
    ensures |store.images| == 0 ==> r.lastImageId == 0
    ensures |store.images| > 0 ==> exists i :: 0 <= i < |store.images| && store.images[i].id == r.lastImageId
    ensures forall i :: 0 <= i < |store.images| ==> store.images[i].id <= r.lastImageId
    ensures |store.annotations| == 0 ==> r.lastAnnotationId == 0
    ensures |store.annotations| > 0 ==>
      exists i :: 0 <= i < |store.annotations| && store.annotations[i].id == r.lastAnnotationId
    ensures forall i :: 0 <= i < |store.annotations| ==> store.annotations[i].id <= r.lastAnnotationId
  {
    LastIds(MaxKeyOrZero(store.images, ImageId), MaxKeyOrZero(store.annotations, AnnotationId))
  }
}
