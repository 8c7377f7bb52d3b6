# Annotation store: upload merge, batch insert and dashboard joins

This project models the data-handling core of the annotation back end in
`server-v5/server.js`. The back end keeps COCO-style categories, images and
annotations in a document store. The model covers:

- **Upload (`POST /data/update`)**: a parsed JSON upload goes one of two ways.
  - Bootstrap path: when one of the three collections of the store is empty,
    the upload is inserted as it came.
  - Merge path: otherwise the uploaded images and annotations get new ids,
    counted on from the current maxima (`getLastIds`). Each annotation's
    `image_id` is rewritten through the map from original to new image ids,
    and both collections are appended in batches of 500 (`updateInBatches`).
    A failing batch is skipped without ending the request.
- **Dashboard (`GET /data/annotations/category-count`)**: one row per category
  id with its name and annotation count. A category with no annotations
  counts 0. Rows come in JavaScript `Object.keys` order.
- **Page join (`GET /data`)**: every annotation is returned with the file name
  of its image and the name and supercategory of its category, or `'N/A'`.

How the model represents the program:

- The store is a `Dataset` of three sequences in insertion order. An insert
  appends to them.
- Document-store calls become functions of that value. Sorting by id to read
  the last one becomes a maximum.
- A JavaScript object that is filled by a loop becomes a map where the last
  write wins (`Keyed.IndexBy`). `Keyed.FindLast` is the reference definition
  it is proved against.
- Which `insertMany` calls throw is an input, `faults`.
- The multipart upload is an input that is absent, unparsable or parsed.
- Ids are mathematical integers. `image_id` is optional, because the merge
  path can store an annotation whose image reference is undefined.

Modules, in dependency order:

- `Optional`, `Records`: option type and the record types.
- `Keyed`: last-write-wins indexing.
- `Subsequences`: order-preserving selection.
- `IdReconciler`: `getLastIds`.
- `Renumber`: merge-path renumbering.
- `BatchWriter`: `updateInBatches`.
- `Upload`: the whole upload handler.
- `ObjectKeys`: own-key order of a JavaScript object.
- `Dashboard`: category counts.
- `Enrichment`: the `'N/A'` join.
- `Scenarios`: worked examples.

## Model

| member | source | states |
|---|---|---|
| Keyed.IndexBy | server-v5/server.js:176-184 | building an object keyed by id: every id that occurs is a key, and no other; each key holds the last record with that id |
| Keyed.FindLast | server-v5/server.js:176-184 | reference lookup by a scan from the end: None exactly when no record has the key, otherwise the position of the last record with it |
| Keyed.IndexByIsFindLast | server-v5/server.js:176-184 | looking up the last-write-wins object agrees with the reference scan for every key, found or not |
| IdReconciler.MaxKeyOrZero | server-v5/server.js:224-229 | the id of the first record when sorted by id descending, or 0 for an empty collection: it bounds every id and is one of them |
| IdReconciler.GetLastIds | server-v5/server.js:221-236 | lastImageId and lastAnnotationId are each 0 for an empty collection, otherwise the largest stored id, even a negative one |
| Renumber.RenumberImages | server-v5/server.js:273-277 | image at position i gets id last + i + 1; every other field is kept; the length is kept |
| Renumber.IdMapping | server-v5/server.js:270-277 | the mapping's keys are exactly the uploaded image ids; a repeated original id maps to the new id of its last occurrence |
| Renumber.RewriteImageId | server-v5/server.js:285 | a reference is defined after the rewrite exactly when it was defined and is a key of the mapping, and it then holds the mapped value |
| Renumber.RenumberAnnotations | server-v5/server.js:280-287 | annotation at position i gets id last + i + 1 and the rewritten image reference; every other field is kept |
| Renumber.MergeImageIds | server-v5/server.js:273-277 | new image ids are above the last stored id, strictly increasing in upload order, hence distinct |
| Renumber.MergeAnnotationIds | server-v5/server.js:280-284 | new annotation ids are above the last stored id, strictly increasing in upload order, hence distinct |
| Renumber.MergeRewritesImageIds | server-v5/server.js:270-287 | an annotation naming an uploaded image points at the new id of the last uploaded image with that id; an annotation naming none loses its reference |
| Renumber.MergeReferencesResolve | server-v5/server.js:270-287 | every defined image reference after renumbering is the id of a renumbered image |
| Renumber.MergeKeepsPayloadFields | server-v5/server.js:276-286 | renumbering changes only ids and image references: file names, urls, category ids, geometry and attributes are unchanged |
| BatchWriter.BatchCount | server-v5/server.js:319-320 | Math.ceil(n / 500): the fewest batches of 500 that cover n records, 0 exactly for no records |
| BatchWriter.Batches | server-v5/server.js:319-323 | batch i is data.slice(i*500, (i+1)*500); every batch is non-empty and has at most 500 records |
| BatchWriter.BatchesPrefix | server-v5/server.js:322-323 | the first k batches together are the first min(500k, n) records |
| BatchWriter.BatchesSuffix | server-v5/server.js:322-323 | the batches from batch j on together are the records from position min(500j, n) on |
| BatchWriter.BatchesConcat | server-v5/server.js:319-323 | the batches together are the data, in order, with nothing lost or repeated |
| BatchWriter.LastBatchSize | server-v5/server.js:319-323 | the last batch holds n mod 500 records, or a full 500 when 500 divides n |
| BatchWriter.Kept | server-v5/server.js:325-331 | a batch whose insert throws contributes nothing; the others contribute their records |
| BatchWriter.UpdateInBatches | server-v5/server.js:318-333 | the loop attempts every batch in order and stores the records of the batches that did not fail |
| BatchWriter.InsertedWithoutFailures | server-v5/server.js:318-333 | with no failing batch, every record is stored in order |
| BatchWriter.InsertedIsSubseq | server-v5/server.js:318-333 | whatever fails, what is stored is the data with some records left out, in the original order |
| BatchWriter.InsertedSkipsOne | server-v5/server.js:322-332 | when only batch k fails, exactly its 500-record slice is missing and the records on both sides are stored |
| Upload.UploadData | server-v5/server.js:238-300 | no file gives 400 "No file uploaded"; an unparsable file gives 500; neither changes the store; nothing stored is ever removed; the merge path always answers with its success message and keeps the categories |
| Upload.BootstrapVerbatim | server-v5/server.js:249-263 | when a collection is empty and no insert fails, all three parts of the upload are appended unchanged, ids included |
| Upload.BootstrapStopsAtFirstFailure | server-v5/server.js:253-263 | the three inserts run in order and the first that throws ends the request with a 500; earlier inserts stay; success exactly when all three went through |
| Upload.MergeShape | server-v5/server.js:266-295 | the merge path appends to images and annotations what updateInBatches stores of the renumbered upload and leaves the categories |
| Upload.MergeAppendsAll | server-v5/server.js:266-295 | with no failures the whole renumbered upload is appended |
| Upload.MergeAppendsSubseq | server-v5/server.js:291-293 | whatever fails, the appended records are renumbered upload records in upload order |
| Upload.MergeKeepsIdsUnique | server-v5/server.js:266-293 | ids that were unique stay unique, and every appended id is above every stored one, whichever batches fail |
| Upload.MergeKeepsImageIdsUnique | server-v5/server.js:266-292 | the same for image ids alone |
| Upload.MergeKeepsAnnotationIdsUnique | server-v5/server.js:266-293 | the same for annotation ids alone |
| Upload.MergeKeepsReferences | server-v5/server.js:270-293 | when no image batch fails, every image reference a merge stores is the id of an image the same merge stored |
| ObjectKeys.FirstOccurrences | server-v5/server.js:79-82 | the keys of an object written key by key: each written key once, in order of first write |
| ObjectKeys.OwnKeys | server-v5/server.js:92 | Object.keys order: array-index keys first and ascending, then the other keys in creation order, each key once |
| ObjectKeys.KeysAfterWrites | server-v5/server.js:79-92 | the keys of an object filled by a sequence of writes: exactly the written keys, once each, array indices ascending first, others by first write |
| Dashboard.CategoryCountsKeys | server-v5/server.js:92-96 | one row per own key of the category map, in key order, carrying that key as its category id |
| Dashboard.CategoryCountsRows | server-v5/server.js:79-96 | a category id has a row exactly when some category has that id, and no id has two rows |
| Dashboard.CategoryCountsValues | server-v5/server.js:79-96 | a row's name is that of the last category with its id; its count is that of the group with its id, or 0 when no annotation has it |
| Dashboard.CategoryCountsOrder | server-v5/server.js:92-96 | rows of array-index ids come first in ascending id order, then the other ids in order of their first category |
| Enrichment.OrPlaceholder | server-v5/server.js:189-191 | a defined non-empty string is kept, undefined or empty becomes 'N/A'; never empty |
| Enrichment.Enrich | server-v5/server.js:187-192 | one enriched row per annotation, in order, carrying the annotation unchanged and three non-empty fields |
| Enrichment.EnrichFindsLast | server-v5/server.js:176-192 | the file name comes from the last image with the referenced id, and the name and supercategory from the last category with the annotation's category id |
| Enrichment.EnrichPlaceholders | server-v5/server.js:187-192 | an annotation whose image or category is not found gets 'N/A' in the matching fields |
| Scenarios.MergeExample | server-v5/server.js:266-295 | a store with largest ids 5 and 12 that receives images 1, 2 and annotations on them gets images 6, 7 and annotations 13, 14 pointing at 6, 7 |
| Scenarios.ExampleRenumbered | server-v5/server.js:266-287 | the renumbered upload of that example |
| Scenarios.ExampleLastIds | server-v5/server.js:221-231 | the example store's last ids are 5 and 12 |
| Scenarios.ExampleImages | server-v5/server.js:273-277 | the example images become 6 and 7 |
| Scenarios.ExampleMapping | server-v5/server.js:270-277 | the example mapping sends 1 to 6 and 2 to 7 |
| Scenarios.ExampleAnnotations | server-v5/server.js:280-287 | the example annotations become 13 and 14, pointing at 6 and 7 |
| Scenarios.FirstLoadExample | server-v5/server.js:253-263 | an empty store takes the first upload as it is |
| Scenarios.BootstrapCanRepeatIds | server-v5/server.js:249-263 | a store that has categories and annotations but no images takes an upload verbatim, so a stored annotation id can be repeated |

## Left out

- Transport: the Express setup, CORS, the body limits and multer's 200 MB file limit. A missing file and an unparsable file are inputs.
- JSON parsing is an input, so its details are not modelled. An unparsable upload is caught by the handler's `try`, so the answer is a 500, not a 400.
- Mongoose casting: `new Category(cat)` and schema casting in `insertMany` are not modelled. Every record has the fields of its schema.
- Uploads with missing fields are not modelled. An upload without `images` or `annotations` would throw while it is being read.
- Images without an `id` are not modelled, because ids are always integers here. In JavaScript an undefined id becomes the key "undefined", which an undefined `image_id` would then find.
- Number precision: ids are unbounded integers, and `area` and coordinates are reals. Non-integer ids are not modelled.
- The `parseInt` of a dashboard key is taken as giving back the integer id. This does not hold for ids whose decimal form is exponential.
- Partial inserts are not modelled: an ordered `insertMany` that fails part-way through a batch is treated as storing nothing of that batch.
- Store reads are taken to succeed: `countDocuments`, `findOne().sort`, `find` and `aggregate`. A failing read is left out, and `getLastIds` therefore never throws here.
- The text of a 500 response, which is the thrown error's message, is not modelled. Logging is left out too.
- Concurrency is left out: two uploads running at once could both read the same last ids.
- Dashboard.CategoryCountsValues: the `$group` aggregation itself is not computed. The groups are an input with one entry per counted category id. A group whose id is null is not modelled.
- Enrichment.Enrich: the pagination of `GET /data` is not modelled. That covers `offset`, `limit` and `parseInt` of the query, the category filter and `totalAnnotations`. The `$in` pre-filter of images and categories is dropped as well, which does not change any lookup.
- `POST /data/annotations/categories` (lines 106-138) is not modelled.
- `GET /data/categories` (lines 204-207) is not modelled.
- `GET /data/check` (lines 210-219) is not modelled. It only reports which collections are non-empty, which is the test `Upload.IsBootstrap` models.
- `GET /data/last-ids` (lines 303-315) is not modelled separately. It repeats the body of `getLastIds`, which `IdReconciler.GetLastIds` models.
- The License and Info schemas are not modelled, because no modelled route reads or writes them.
