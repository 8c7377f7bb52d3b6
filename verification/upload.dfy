/**
 `POST /data/update`: the parsed upload is either inserted as it is (bootstrap
 path, when one of the three core collections of the store is empty) or
 renumbered and appended in batches (merge path).
 */
module Upload {
  import opened Optional
  import opened Records
  import opened Keyed
  import opened Subsequences
  import opened IdReconciler
  import opened Renumber
  import opened BatchWriter

  datatype Collection = Categories | Images | Annotations

  /** The batch-th insertMany call on target within one request; the bootstrap path makes call 0 only. */
  datatype InsertCall = InsertCall(target: Collection, batch: nat)

  /** What the handler finds in the multipart field jsonFile. */
  datatype UploadedFile = NoFile | Unparsable | Parsed(payload: Dataset)

  /** HTTP 200 with a message, 400 with a message, or 500 carrying the thrown error's text. */
  datatype Response = Added(message: string) | BadRequest(message: string) | ServerError

  datatype Outcome = Outcome(store: Dataset, response: Response)

  const NoFileMessage := "No file uploaded"
  const BootstrapMessage := "Data added successfully as collections were empty."
  const MergeMessage := "Data successfully added with document size checks in place."

  /** Some core collection of the store has no document. */
  predicate IsBootstrap(store: Dataset)
  {
    !(|store.categories| > 0) || !(|store.images| > 0) || !(|store.annotations| > 0)
  }

  function FailingBatches(faults: set<InsertCall>, target: Collection): set<nat>
  {
    set call | call in faults && call.target == target :: call.batch
  }

  /** Three awaited insertMany calls in a row; the first that throws ends the request with a 500. */
  function Bootstrap(store: Dataset, payload: Dataset, faults: set<InsertCall>): Outcome
  {
    if InsertCall(Categories, 0) in faults then Outcome(store, ServerError)
    else
      var withCategories := store.(categories := store.categories + payload.categories);
      if InsertCall(Images, 0) in faults then Outcome(withCategories, ServerError)
      else
        var withImages := withCategories.(images := store.images + payload.images);
        if InsertCall(Annotations, 0) in faults then Outcome(withImages, ServerError)
        else Outcome(withImages.(annotations := store.annotations + payload.annotations), Added(BootstrapMessage))
  }

  /** Renumber, then updateInBatches for images and for annotations; batch failures are swallowed. */
  function MergeInto(store: Dataset, payload: Dataset, faults: set<InsertCall>): Outcome
  {
    var merged := Merge(GetLastIds(store), payload);
    Outcome(
      store.(images := store.images + Inserted(merged.images, FailingBatches(faults, Images)),
             annotations := store.annotations + Inserted(merged.annotations, FailingBatches(faults, Annotations))),
      Added(MergeMessage))
  }

  /** The whole handler. faults names the insertMany calls that throw. */
  function UploadData(store: Dataset, file: UploadedFile, faults: set<InsertCall>): (r: Outcome)
    ensures file.NoFile? ==> r == Outcome(store, BadRequest(NoFileMessage))
    ensures file.Unparsable? ==> r == Outcome(store, ServerError)
    ensures store.categories <= r.store.categories
    ensures store.images <= r.store.images
    ensures store.annotations <= r.store.annotations
    ensures file.Parsed? && !IsBootstrap(store) ==>
      r.response == Added(MergeMessage) && r.store.categories == store.categories
  {
    match file
    case NoFile => Outcome(store, BadRequest(NoFileMessage))
    case Unparsable => Outcome(store, ServerError)
    case Parsed(payload) =>
      if IsBootstrap(store) then Bootstrap(store, payload, faults) else MergeInto(store, payload, faults)
  }

  /** Bootstrap path without failures: the upload is stored exactly as it came, ids included. */
  lemma BootstrapVerbatim(store: Dataset, payload: Dataset)
    requires IsBootstrap(store)
    ensures UploadData(store, Parsed(payload), {}) == Outcome(
      Dataset(store.categories + payload.categories, store.images + payload.images,
              store.annotations + payload.annotations),
      Added(BootstrapMessage))
  {
  }

  /**
   Bootstrap path with failures: each collection gains the whole uploaded part
   exactly when its insert and the earlier ones went through, and the request
   succeeds exactly when all three did.
   */
  lemma BootstrapStopsAtFirstFailure(store: Dataset, payload: Dataset, faults: set<InsertCall>)
    requires IsBootstrap(store)
    ensures var r := UploadData(store, Parsed(payload), faults);
      var c, i, a := InsertCall(Categories, 0) !in faults, InsertCall(Images, 0) !in faults,
                     InsertCall(Annotations, 0) !in faults;
      && (r.response.Added? <==> c && i && a)
      && (!r.response.Added? ==> r.response == ServerError)
      && r.store.categories == store.categories + (if c then payload.categories else [])
      && r.store.images == store.images + (if c && i then payload.images else [])
      && r.store.annotations == store.annotations + (if c && i && a then payload.annotations else [])
  {
  }

  /** Merge path: the categories stay, each other collection gains what updateInBatches stored. */
  lemma MergeShape(store: Dataset, payload: Dataset, faults: set<InsertCall>)
    requires !IsBootstrap(store)
    ensures var r := UploadData(store, Parsed(payload), faults);
      var merged := Merge(GetLastIds(store), payload);
      && r.response == Added(MergeMessage)
      && r.store.categories == store.categories
      && r.store.images == store.images + Inserted(merged.images, FailingBatches(faults, Images))
      && r.store.annotations == store.annotations + Inserted(merged.annotations, FailingBatches(faults, Annotations))
  {
    assert UploadData(store, Parsed(payload), faults) == MergeInto(store, payload, faults);
  }

  /** Merge path without failures: the renumbered upload is appended in full. */
  lemma MergeAppendsAll(store: Dataset, payload: Dataset)
    requires !IsBootstrap(store)
    ensures var merged := Merge(GetLastIds(store), payload);
      UploadData(store, Parsed(payload), {}) == Outcome(
        Dataset(store.categories, store.images + merged.images, store.annotations + merged.annotations),
        Added(MergeMessage))
  {
    var merged := Merge(GetLastIds(store), payload);
    assert FailingBatches({}, Images) == {} && FailingBatches({}, Annotations) == {};
    MergeShape(store, payload, {});
    InsertedWithoutFailures(merged.images, {});
    InsertedWithoutFailures(merged.annotations, {});
  }

  /** The records a merge appends are renumbered upload records, in upload order, whatever fails. */
  lemma MergeAppendsSubseq(store: Dataset, payload: Dataset, faults: set<InsertCall>)
    requires !IsBootstrap(store)
    ensures var r := UploadData(store, Parsed(payload), faults);
      var merged := Merge(GetLastIds(store), payload);
      && IsSubseq(r.store.images[|store.images|..], merged.images)
      && IsSubseq(r.store.annotations[|store.annotations|..], merged.annotations)
  {
    var merged := Merge(GetLastIds(store), payload);
    var r := UploadData(store, Parsed(payload), faults);
    MergeShape(store, payload, faults);
    InsertedIsSubseq(merged.images, FailingBatches(faults, Images));
    InsertedIsSubseq(merged.annotations, FailingBatches(faults, Annotations));
    assert r.store.images[|store.images|..] == Inserted(merged.images, FailingBatches(faults, Images));
    assert r.store.annotations[|store.annotations|..] == Inserted(merged.annotations, FailingBatches(faults, Annotations));
  }

  /** Every record from position |before| on has a larger key than every record before it. */
  ghost predicate AboveEarlier<T>(after: seq<T>, before: nat, key: T -> int)
  {
    forall i, j :: 0 <= i < before <= j < |after| ==> key(after[i]) < key(after[j])
  }

  /**
   A merge never reuses an id: every appended id is above every id already
   stored, and a store whose ids were unique keeps them unique, whichever
   batches fail.
   */
  lemma MergeKeepsIdsUnique(store: Dataset, payload: Dataset, faults: set<InsertCall>)
    requires !IsBootstrap(store)
    requires UniqueKeys(store.images, ImageId) && UniqueKeys(store.annotations, AnnotationId)
    ensures var r := UploadData(store, Parsed(payload), faults);
      && UniqueKeys(r.store.images, ImageId)
      && UniqueKeys(r.store.annotations, AnnotationId)
      && AboveEarlier(r.store.images, |store.images|, ImageId)
      && AboveEarlier(r.store.annotations, |store.annotations|, AnnotationId)
  {
    MergeKeepsImageIdsUnique(store, payload, faults);
    MergeKeepsAnnotationIdsUnique(store, payload, faults);
  }

  lemma MergeKeepsImageIdsUnique(store: Dataset, payload: Dataset, faults: set<InsertCall>)
    requires !IsBootstrap(store)
    requires UniqueKeys(store.images, ImageId)
    ensures var r := UploadData(store, Parsed(payload), faults);
      UniqueKeys(r.store.images, ImageId) && AboveEarlier(r.store.images, |store.images|, ImageId)
  {
    MergeShape(store, payload, faults);
    var last := GetLastIds(store);
    MergeImageIds(last, payload);
    AppendInsertedKeepsUnique(store.images, Merge(last, payload).images, FailingBatches(faults, Images),
      ImageId, last.lastImageId);
  }

  lemma MergeKeepsAnnotationIdsUnique(store: Dataset, payload: Dataset, faults: set<InsertCall>)
    requires !IsBootstrap(store)
    requires UniqueKeys(store.annotations, AnnotationId)
    ensures var r := UploadData(store, Parsed(payload), faults);
      UniqueKeys(r.store.annotations, AnnotationId) && AboveEarlier(r.store.annotations, |store.annotations|, AnnotationId)
  {
    MergeShape(store, payload, faults);
    var last := GetLastIds(store);
    MergeAnnotationIds(last, payload);
    AppendInsertedKeepsUnique(store.annotations, Merge(last, payload).annotations,
      FailingBatches(faults, Annotations), AnnotationId, last.lastAnnotationId);
  }

  /** Appending what updateInBatches stores of fresh, increasing records keeps keys unique. */
  lemma AppendInsertedKeepsUnique<T>(kept: seq<T>, source: seq<T>, failing: set<nat>, key: T -> int, bound: int)
    requires UniqueKeys(kept, key)
    requires forall i :: 0 <= i < |kept| ==> key(kept[i]) <= bound
    requires IncreasingKeys(source, key)
    requires forall i :: 0 <= i < |source| ==> key(source[i]) > bound
    ensures UniqueKeys(kept + Inserted(source, failing), key)
    ensures AboveEarlier(kept + Inserted(source, failing), |kept|, key)
  {
    InsertedIsSubseq(source, failing);
    AppendFreshKeepsUnique(kept, Inserted(source, failing), source, key, bound);
  }

  lemma AppendFreshKeepsUnique<T>(kept: seq<T>, added: seq<T>, source: seq<T>, key: T -> int, bound: int)
    requires UniqueKeys(kept, key)
    requires forall i :: 0 <= i < |kept| ==> key(kept[i]) <= bound
    requires IsSubseq(added, source) && IncreasingKeys(source, key)
    requires forall i :: 0 <= i < |source| ==> key(source[i]) > bound
    ensures UniqueKeys(kept + added, key)
    ensures AboveEarlier(kept + added, |kept|, key)
  {
    SubseqIncreasing(added, source, key);
    SubseqMembers(added, source);
    var all := kept + added;
    forall j | |kept| <= j < |all|
      ensures key(all[j]) > bound
    {
      assert all[j] == added[j - |kept|];
      assert added[j - |kept|] in source;
    }
    forall i, j | 0 <= i < j < |all|
      ensures key(all[i]) != key(all[j])
    {
      if j < |kept| {
        assert all[i] == kept[i] && all[j] == kept[j];
      } else if i < |kept| {
        assert all[i] == kept[i];
      } else {
        assert all[i] == added[i - |kept|] && all[j] == added[j - |kept|];
      }
    }
    forall i, j | 0 <= i < |kept| <= j < |all|
      ensures key(all[i]) < key(all[j])
    {
      assert all[i] == kept[i];
    }
  }

  /**
   When no image batch fails, every image reference a merge stores points to an
   image that the same merge stored.
   */
  lemma MergeKeepsReferences(store: Dataset, payload: Dataset, faults: set<InsertCall>)
    requires !IsBootstrap(store)
    requires forall b :: InsertCall(Images, b) !in faults
    ensures var r := UploadData(store, Parsed(payload), faults);
      forall i :: |store.annotations| <= i < |r.store.annotations| && r.store.annotations[i].image_id.Some? ==>
        exists j :: |store.images| <= j < |r.store.images| && r.store.images[j].id == r.store.annotations[i].image_id.value
  {
    var r := UploadData(store, Parsed(payload), faults);
    var last := GetLastIds(store);
    var merged := Merge(last, payload);
    assert FailingBatches(faults, Images) == {};
    MergeShape(store, payload, faults);
    InsertedWithoutFailures(merged.images, {});
    assert r.store.images == store.images + merged.images;
    MergeAppendsSubseq(store, payload, faults);
    var added := r.store.annotations[|store.annotations|..];
    SubseqMembers(added, merged.annotations);
    MergeReferencesResolve(last, payload);
    forall i | |store.annotations| <= i < |r.store.annotations| && r.store.annotations[i].image_id.Some?
      ensures exists j :: |store.images| <= j < |r.store.images| && r.store.images[j].id == r.store.annotations[i].image_id.value
    {
      var a := r.store.annotations[i];
      assert a == added[i - |store.annotations|];
      assert a in merged.annotations;
      var p :| 0 <= p < |merged.annotations| && merged.annotations[p] == a;
      var q :| 0 <= q < |merged.images| && merged.images[q].id == a.image_id.value;
      assert r.store.images[|store.images| + q] == merged.images[q];
    }
  }
}
