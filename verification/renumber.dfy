/**
 The merge path of `POST /data/update`: uploaded images and annotations are
 renumbered from the current maxima, and each annotation's image reference is
 rewritten through the map from original to new image ids.
 */
module Renumber {
  import opened Optional
  import opened Records
  import opened Keyed
  import opened IdReconciler

  /** The id given to the record at 0-based position i of an upload: `last + index + 1`. */
  function NewId(last: int, i: nat): int { last + i + 1 }

  function RenumberImages(images: seq<Image>, lastImageId: int): (r: seq<Image>)
    ensures |r| == |images|
    ensures forall i :: 0 <= i < |r| ==> r[i].id == NewId(lastImageId, i)
    ensures forall i :: 0 <= i < |r| ==> r[i] == images[i].(id := r[i].id)
  {
    seq(|images|, i requires 0 <= i < |images| => images[i].(id := NewId(lastImageId, i)))
  }

  /**
   `imageIdMapping`: original image id to new image id, filled in upload order,
   so when an original id repeats the position of its last occurrence wins.
   */
  function IdMapping(images: seq<Image>, lastImageId: int): (m: map<int, int>)
    ensures forall k :: k in m <==> exists i :: 0 <= i < |images| && images[i].id == k
    ensures forall i :: 0 <= i < |images| && IsLastWithKey(images, ImageId, i) ==>
      images[i].id in m && m[images[i].id] == NewId(lastImageId, i)
  {
    var byOriginal := IndexBy(Pairs(images, lastImageId), OriginalId);
    IdMappingFromIndex(images, lastImageId);
    map k | k in byOriginal :: byOriginal[k].1.id
  }

  /** Each uploaded image beside its renumbered copy, as the `map` callback sees them. */
  function Pairs(images: seq<Image>, lastImageId: int): (ps: seq<(Image, Image)>)
    ensures |ps| == |images|
    ensures forall i :: 0 <= i < |ps| ==> ps[i].0 == images[i] && ps[i].1.id == NewId(lastImageId, i)
  {
    var renumbered := RenumberImages(images, lastImageId);
    seq(|images|, i requires 0 <= i < |images| => (images[i], renumbered[i]))
  }

  function OriginalId(p: (Image, Image)): int { p.0.id }

  lemma IdMappingFromIndex(images: seq<Image>, lastImageId: int)
    ensures var byOriginal := IndexBy(Pairs(images, lastImageId), OriginalId);
      var m := map k | k in byOriginal :: byOriginal[k].1.id;
      && (forall k :: k in m <==> exists i :: 0 <= i < |images| && images[i].id == k)
      && (forall i :: 0 <= i < |images| && IsLastWithKey(images, ImageId, i) ==>
            images[i].id in m && m[images[i].id] == NewId(lastImageId, i))
  {
    var ps := Pairs(images, lastImageId);
    var byOriginal := IndexBy(ps, OriginalId);
    var m := map k | k in byOriginal :: byOriginal[k].1.id;
    forall k
      ensures k in m <==> exists i :: 0 <= i < |images| && images[i].id == k
    {
      if k in m {
        var i :| 0 <= i < |ps| && OriginalId(ps[i]) == k;
        assert images[i].id == k;
      }
      if exists i :: 0 <= i < |images| && images[i].id == k {
        var i :| 0 <= i < |images| && images[i].id == k;
        assert OriginalId(ps[i]) == k;
      }
    }
    forall i | 0 <= i < |images| && IsLastWithKey(images, ImageId, i)
      ensures images[i].id in m && m[images[i].id] == NewId(lastImageId, i)
    {
      assert IsLastWithKey(ps, OriginalId, i) by {
        forall j | i < j < |ps|
          ensures OriginalId(ps[j]) != OriginalId(ps[i])
        {
          assert ImageId(images[j]) != ImageId(images[i]);
        }
      }
      assert byOriginal[OriginalId(ps[i])] == ps[i];
    }
  }


  /** `imageIdMapping[annotation.image_id]`: undefined for a missing reference or an unknown key. */
  function RewriteImageId(mapping: map<int, int>, imageId: Option<int>): (r: Option<int>)
    ensures r.Some? <==> imageId.Some? && imageId.value in mapping
    ensures r.Some? ==> r.value == mapping[imageId.value]
  {
    match imageId
    case None => None
    case Some(k) => Get(mapping, k)
  }

  function RenumberAnnotations(annotations: seq<Annotation>, lastAnnotationId: int, mapping: map<int, int>)
    : (r: seq<Annotation>)
    ensures |r| == |annotations|
    ensures forall i :: 0 <= i < |r| ==> r[i].id == NewId(lastAnnotationId, i)
    ensures forall i :: 0 <= i < |r| ==> r[i].image_id == RewriteImageId(mapping, annotations[i].image_id)
    ensures forall i :: 0 <= i < |r| ==> r[i] == annotations[i].(id := r[i].id, image_id := r[i].image_id)
  {
    seq(|annotations|, i requires 0 <= i < |annotations| =>
      annotations[i].(id := NewId(lastAnnotationId, i), image_id := RewriteImageId(mapping, annotations[i].image_id)))
  }

  datatype Renumbered = Renumbered(images: seq<Image>, annotations: seq<Annotation>)

  /** The records the merge path hands to updateInBatches; uploaded categories are dropped. */
  function Merge(last: LastIds, payload: Dataset): Renumbered
  {
    var mapping := IdMapping(payload.images, last.lastImageId);
    Renumbered(
      RenumberImages(payload.images, last.lastImageId),
      RenumberAnnotations(payload.annotations, last.lastAnnotationId, mapping))
  }

  /** New image ids follow upload order, start above the previous maximum and never repeat. */
  lemma MergeImageIds(last: LastIds, payload: Dataset)
    ensures var r := Merge(last, payload);
      && |r.images| == |payload.images|
      && (forall i :: 0 <= i < |r.images| ==> r.images[i].id == last.lastImageId + i + 1)
      && (forall i :: 0 <= i < |r.images| ==> r.images[i].id > last.lastImageId)
      && IncreasingKeys(r.images, ImageId)
      && UniqueKeys(r.images, ImageId)
  {
  }

  /** New annotation ids follow upload order, start above the previous maximum and never repeat. */
  lemma MergeAnnotationIds(last: LastIds, payload: Dataset)
    ensures var r := Merge(last, payload);
      && |r.annotations| == |payload.annotations|
      && (forall i :: 0 <= i < |r.annotations| ==> r.annotations[i].id == last.lastAnnotationId + i + 1)
      && (forall i :: 0 <= i < |r.annotations| ==> r.annotations[i].id > last.lastAnnotationId)
      && IncreasingKeys(r.annotations, AnnotationId)
      && UniqueKeys(r.annotations, AnnotationId)
  {
  }

  /** The reference is defined and equals the id of one of the images. */
  ghost predicate NamesImageOf(images: seq<Image>, ref: Option<int>)
  {
    ref.Some? && exists j :: 0 <= j < |images| && images[j].id == ref.value
  }

  /**
   Foreign-key rewrite: an annotation that names an uploaded image now names the
   new id of the last uploaded image with that original id; any other
   annotation loses its image reference.
   */
  lemma MergeRewritesImageIds(last: LastIds, payload: Dataset)
    ensures var r := Merge(last, payload);
      && (forall i, j {:trigger payload.annotations[i], payload.images[j]} ::
            0 <= i < |payload.annotations| && 0 <= j < |payload.images| &&
            payload.annotations[i].image_id == Some(payload.images[j].id) &&
            IsLastWithKey(payload.images, ImageId, j) ==>
            r.annotations[i].image_id == Some(r.images[j].id))
      && (forall i :: 0 <= i < |payload.annotations| && !NamesImageOf(payload.images, payload.annotations[i].image_id) ==>
            r.annotations[i].image_id.None?)
  {
  }

  /** Every image reference the merge produces is the id of an image of the same merge. */
  lemma {:induction false} MergeReferencesResolve(last: LastIds, payload: Dataset)
    ensures var r := Merge(last, payload);
      forall i :: 0 <= i < |r.annotations| && r.annotations[i].image_id.Some? ==>
        exists j :: 0 <= j < |r.images| && r.images[j].id == r.annotations[i].image_id.value
  {
    var r := Merge(last, payload);
    var mapping := IdMapping(payload.images, last.lastImageId);
    forall i | 0 <= i < |r.annotations| && r.annotations[i].image_id.Some?
      ensures exists j :: 0 <= j < |r.images| && r.images[j].id == r.annotations[i].image_id.value
    {
      var k := payload.annotations[i].image_id.value;
      assert k in mapping;
      var p := FindLast(payload.images, ImageId, k);
      var j := p.value;
      assert r.images[j].id == r.annotations[i].image_id.value;
    }
  }

  /** Renumbering touches nothing but ids and image references. */
  lemma MergeKeepsPayloadFields(last: LastIds, payload: Dataset)
    ensures var r := Merge(last, payload);
      && (forall i :: 0 <= i < |r.images| ==>
            r.images[i].file_name == payload.images[i].file_name &&
            r.images[i].flickrurl == payload.images[i].flickrurl)
      && (forall i :: 0 <= i < |r.annotations| ==>
            var a, b := r.annotations[i], payload.annotations[i];
            a.category_id == b.category_id && a.segmentation == b.segmentation && a.area == b.area &&
            a.bbox == b.bbox && a.attributes == b.attributes)
  {
  }
}
