/**
 The records of the annotation store, as far as the upload, merge and dashboard
 code reads or writes them. The License and Info collections are never touched
 by that code and are not modelled.
 */
module Records {
  import opened Optional

  /** A JavaScript number the server only copies through (area, bbox, polygon coordinates). */
  type Number = real

  datatype Category = Category(id: int, name: string, supercategory: string)

  datatype Image = Image(id: int, file_name: string, flickrurl: string)

  /**
   An annotation. Its image reference is optional because the merge path can
   store an annotation whose image reference resolved to undefined.
   The open `attributes` object is modelled as a string map: it is only copied.
   */
  datatype Annotation = Annotation(
    id: int,
    image_id: Option<int>,
    category_id: int,
    segmentation: seq<seq<Number>>,
    area: Number,
    bbox: seq<Number>,
    attributes: map<string, string>)

  /** The three core collections, either as persisted (in natural order) or as uploaded. */
  datatype Dataset = Dataset(categories: seq<Category>, images: seq<Image>, annotations: seq<Annotation>)

  function CategoryId(c: Category): int { c.id }

  function ImageId(img: Image): int { img.id }

  function AnnotationId(a: Annotation): int { a.id }
}
