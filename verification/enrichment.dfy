/**
 The join of `GET /data`: each annotation of the page is returned with the
 file name of its image and the name and supercategory of its category, or
 the placeholder 'N/A' where the lookup finds nothing usable.
 */
module Enrichment {
  import opened Optional
  import opened Records
  import opened Keyed

  const Placeholder := "N/A"

  datatype EnrichedAnnotation = EnrichedAnnotation(
    annotation: Annotation, file_name: string, name: string, supercategory: string)

  /** `value || 'N/A'` for a string that may be undefined: undefined and "" are both falsy. */
  function OrPlaceholder(value: Option<string>): (r: string)
    ensures r != ""
    ensures value.Some? && value.value != "" ==> r == value.value
    ensures value.None? || value.value == "" ==> r == Placeholder
  {
    if value.Some? && value.value != "" then value.value else Placeholder
  }

  /** `imageMap[ref]?.file_name`: an undefined reference finds no image. */
  function FileNameOf(imageMap: map<int, Image>, ref: Option<int>): Option<string>
  {
    match ref
    case None => None
    case Some(k) => if k in imageMap then Some(imageMap[k].file_name) else None
  }

  function Enrich(annotations: seq<Annotation>, images: seq<Image>, categories: seq<Category>)
    : (r: seq<EnrichedAnnotation>)
    ensures |r| == |annotations|
    ensures forall i :: 0 <= i < |r| ==> r[i].annotation == annotations[i]
    ensures forall i :: 0 <= i < |r| ==> r[i].file_name != "" && r[i].name != "" && r[i].supercategory != ""
  {
    var imageMap := IndexBy(images, ImageId);
    var categoryMap := IndexBy(categories, CategoryId);
    seq(|annotations|, i requires 0 <= i < |annotations| =>
      var a := annotations[i];
      var category := Get(categoryMap, a.category_id);
      EnrichedAnnotation(
        a,
        OrPlaceholder(FileNameOf(imageMap, a.image_id)),
        OrPlaceholder(if category.Some? then Some(category.value.name) else None),
        OrPlaceholder(if category.Some? then Some(category.value.supercategory) else None)))
  }

  /**
   An annotation whose image reference names an image gets the file name of
   the last image with that id, unless that name is empty; likewise the name
   and supercategory of the last category with its category id.
   */
  lemma EnrichFindsLast(annotations: seq<Annotation>, images: seq<Image>, categories: seq<Category>)
    ensures var r := Enrich(annotations, images, categories);
      && (forall i, j {:trigger annotations[i], images[j]} ::
            (0 <= i < |annotations| && 0 <= j < |images| && annotations[i].image_id == Some(images[j].id) &&
             IsLastWithKey(images, ImageId, j)) ==>
            r[i].file_name == OrPlaceholder(Some(images[j].file_name)))
      && (forall i, j {:trigger annotations[i], categories[j]} ::
            (0 <= i < |annotations| && 0 <= j < |categories| && annotations[i].category_id == categories[j].id &&
             IsLastWithKey(categories, CategoryId, j)) ==>
            r[i].name == OrPlaceholder(Some(categories[j].name)) &&
            r[i].supercategory == OrPlaceholder(Some(categories[j].supercategory)))
  {
    var imageMap := IndexBy(images, ImageId);
    var categoryMap := IndexBy(categories, CategoryId);
    forall i, j | 0 <= i < |annotations| && 0 <= j < |images| && annotations[i].image_id == Some(images[j].id) &&
        IsLastWithKey(images, ImageId, j)
      ensures Enrich(annotations, images, categories)[i].file_name == OrPlaceholder(Some(images[j].file_name))
    {
      assert imageMap[ImageId(images[j])] == images[j];
    }
    forall i, j | 0 <= i < |annotations| && 0 <= j < |categories| && annotations[i].category_id == categories[j].id &&
        IsLastWithKey(categories, CategoryId, j)
      ensures Enrich(annotations, images, categories)[i].name == OrPlaceholder(Some(categories[j].name))
      ensures Enrich(annotations, images, categories)[i].supercategory == OrPlaceholder(Some(categories[j].supercategory))
    {
      assert categoryMap[CategoryId(categories[j])] == categories[j];
    }
  }

  /** A missing image or category is not an error: the fields become 'N/A'. */
  lemma EnrichPlaceholders(annotations: seq<Annotation>, images: seq<Image>, categories: seq<Category>)
    ensures var r := Enrich(annotations, images, categories);
      && (forall i :: 0 <= i < |annotations| && !HasImage(images, annotations[i].image_id) ==>
            r[i].file_name == Placeholder)
      && (forall i :: 0 <= i < |annotations| && !HasCategory(categories, annotations[i].category_id) ==>
            r[i].name == Placeholder && r[i].supercategory == Placeholder)
  {
    var imageMap := IndexBy(images, ImageId);
    var categoryMap := IndexBy(categories, CategoryId);
    forall i | 0 <= i < |annotations| && !HasImage(images, annotations[i].image_id)
      ensures Enrich(annotations, images, categories)[i].file_name == Placeholder
    {
      if annotations[i].image_id.Some? {
        assert annotations[i].image_id.value !in imageMap;
      }
    }
    forall i | 0 <= i < |annotations| && !HasCategory(categories, annotations[i].category_id)
      ensures Enrich(annotations, images, categories)[i].name == Placeholder
      ensures Enrich(annotations, images, categories)[i].supercategory == Placeholder
    {
      assert annotations[i].category_id !in categoryMap;
    }
  }

  ghost predicate HasImage(images: seq<Image>, ref: Option<int>)
  {
    ref.Some? && exists j :: 0 <= j < |images| && images[j].id == ref.value
  }

  ghost predicate HasCategory(categories: seq<Category>, id: int)
  {
    exists j :: 0 <= j < |categories| && categories[j].id == id
  }
}
