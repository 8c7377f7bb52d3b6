/** Worked uploads: the documented merge example, a first load, and a bootstrap that repeats ids. */
module Scenarios {
  import opened Optional
  import opened Records
  import opened Keyed
  import opened Upload

  function Ann(id: int, imageId: int): Annotation
  {
    Annotation(id, Some(imageId), 1, [], 0.0, [], map[])
  }

  function ExampleStore(): Dataset
  {
    Dataset([Category(1, "cat", "animal")], [Image(5, "a.jpg", "")], [Ann(12, 5)])
  }

  function ExamplePayload(): Dataset
  {
    Dataset([], [Image(1, "x.jpg", ""), Image(2, "y.jpg", "")], [Ann(1, 1), Ann(2, 2)])
  }

  /**
   A store whose largest image id is 5 and largest annotation id is 12 receives
   images 1, 2 and annotations 1, 2 on images 1, 2: the new images get 6, 7, the
   new annotations 13, 14, pointing at 6 and 7.
   */
  lemma MergeExample()
    ensures UploadData(ExampleStore(), Parsed(ExamplePayload()), {}) == Outcome(
      Dataset(ExampleStore().categories,
              ExampleStore().images + [Image(6, "x.jpg", ""), Image(7, "y.jpg", "")],
              ExampleStore().annotations + [Ann(13, 6), Ann(14, 7)]),
      Added(MergeMessage))
  {
    MergeAppendsAll(ExampleStore(), ExamplePayload());
    ExampleRenumbered();
  }

  lemma ExampleRenumbered()
    ensures Renumber.Merge(IdReconciler.GetLastIds(ExampleStore()), ExamplePayload()) ==
      Renumber.Renumbered([Image(6, "x.jpg", ""), Image(7, "y.jpg", "")], [Ann(13, 6), Ann(14, 7)])
  {
    ExampleLastIds();
    ExampleImages();
    ExampleAnnotations();
  }

  lemma ExampleLastIds()
    ensures IdReconciler.GetLastIds(ExampleStore()) == IdReconciler.LastIds(5, 12)
  {
  }

  lemma ExampleImages()
    ensures Renumber.RenumberImages(ExamplePayload().images, 5) == [Image(6, "x.jpg", ""), Image(7, "y.jpg", "")]
  {
    var images := Renumber.RenumberImages(ExamplePayload().images, 5);
    assert images[0] == Image(6, "x.jpg", "") && images[1] == Image(7, "y.jpg", "");
  }

  lemma ExampleMapping()
    ensures var mapping := Renumber.IdMapping(ExamplePayload().images, 5);
      1 in mapping && 2 in mapping && mapping[1] == 6 && mapping[2] == 7
  {
    var images := ExamplePayload().images;
    assert IsLastWithKey(images, ImageId, 0) && IsLastWithKey(images, ImageId, 1);
  }

  lemma ExampleAnnotations()
    ensures Renumber.RenumberAnnotations(ExamplePayload().annotations, 12, Renumber.IdMapping(ExamplePayload().images, 5))
      == [Ann(13, 6), Ann(14, 7)]
  {
    var mapping := Renumber.IdMapping(ExamplePayload().images, 5);
    ExampleMapping();
    var annotations := Renumber.RenumberAnnotations(ExamplePayload().annotations, 12, mapping);
    assert annotations[0] == Ann(13, 6) && annotations[1] == Ann(14, 7);
  }

  /** An empty store takes the first upload as it is, ids included. */
  lemma FirstLoadExample()
    ensures var payload := Dataset([], [Image(1, "x.jpg", "")], [Ann(1, 1)]);
      UploadData(Dataset([], [], []), Parsed(payload), {}) == Outcome(payload, Added(BootstrapMessage))
  {
  }

  /**
   The bootstrap path runs whenever one collection is empty, so a store that
   has categories and annotations but no images takes the upload verbatim, and
   an uploaded annotation id can repeat one already stored.
   */
  lemma BootstrapCanRepeatIds()
    ensures var store := Dataset([Category(1, "cat", "animal")], [], [Ann(1, 7)]);
      var r := UploadData(store, Parsed(Dataset([], [Image(1, "x.jpg", "")], [Ann(1, 1)])), {});
      !UniqueKeys(r.store.annotations, AnnotationId)
  {
    var store := Dataset([Category(1, "cat", "animal")], [], [Ann(1, 7)]);
    var r := UploadData(store, Parsed(Dataset([], [Image(1, "x.jpg", "")], [Ann(1, 1)])), {});
    assert r.store.annotations == [Ann(1, 7), Ann(1, 1)];
    assert AnnotationId(r.store.annotations[0]) == AnnotationId(r.store.annotations[1]);
  }
}
