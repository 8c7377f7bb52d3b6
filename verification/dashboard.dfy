/**
 `GET /data/annotations/category-count`: the per-category annotation counts
 from the store's group-by are joined onto the category list, with 0 for a
 category no annotation uses.
 */
module Dashboard {
  import opened Records
  import opened Keyed
  import opened ObjectKeys

  /** One row of the `$group` stage: a category id and how many annotations carry it. */
  datatype Group = Group(id: int, count: nat)

  datatype CategoryCount = CategoryCount(category_id: int, name: string, count: nat)

  function GroupId(g: Group): int { g.id }

  function CategoryIds(categories: seq<Category>): (ids: seq<int>)
    ensures |ids| == |categories|
    ensures forall i :: 0 <= i < |ids| ==> ids[i] == categories[i].id
  {
    seq(|categories|, i requires 0 <= i < |categories| => categories[i].id)
  }

  /**
   `categoryMap` is filled from the categories (a repeated id keeps the last
   name), a group's count is copied in only when its id is a key of
   `categoryMap`, and the rows come out in `Object.keys` order.
   */
  function CategoryCounts(categories: seq<Category>, groups: seq<Group>): (r: seq<CategoryCount>)
  {
    var byId := IndexBy(categories, CategoryId);
    var counts := IndexBy(groups, GroupId);
    var keys := KeysAfterWrites(CategoryIds(categories));
    KeysAreCategoryIds(categories);
    seq(|keys|, i requires 0 <= i < |keys| =>
      CategoryCount(keys[i], byId[keys[i]].name, if keys[i] in counts then counts[keys[i]].count else 0))
  }

  /** Every key of `categoryMap`, in `Object.keys` order, is the id of some category. */
  lemma KeysAreCategoryIds(categories: seq<Category>)
    ensures forall k :: k in KeysAfterWrites(CategoryIds(categories)) ==> k in IndexBy(categories, CategoryId)
  {
    var ids := CategoryIds(categories);
    forall k | k in KeysAfterWrites(ids)
      ensures k in IndexBy(categories, CategoryId)
    {
      var j :| 0 <= j < |ids| && ids[j] == k;
      assert CategoryId(categories[j]) == k;
    }
  }

  /** Row i is about the i-th key of `categoryMap`. */
  lemma CategoryCountsKeys(categories: seq<Category>, groups: seq<Group>)
    ensures var r := CategoryCounts(categories, groups);
      var keys := KeysAfterWrites(CategoryIds(categories));
      |r| == |keys| && forall i :: 0 <= i < |r| ==> r[i].category_id == keys[i]
  {
  }

  function CountIds(rows: seq<CategoryCount>): (ids: seq<int>)
    ensures |ids| == |rows|
    ensures forall i :: 0 <= i < |ids| ==> ids[i] == rows[i].category_id
  {
    seq(|rows|, i requires 0 <= i < |rows| => rows[i].category_id)
  }

  /** Each category id gives exactly one row, and no other row is produced. */
  lemma CategoryCountsRows(categories: seq<Category>, groups: seq<Group>)
    ensures var r := CategoryCounts(categories, groups);
      forall k :: k in CountIds(r) <==> k in CategoryIds(categories)
    ensures var r := CategoryCounts(categories, groups);
      forall i, j :: 0 <= i < j < |r| ==> r[i].category_id != r[j].category_id
  {
    var r := CategoryCounts(categories, groups);
    CategoryCountsKeys(categories, groups);
    assert CountIds(r) == KeysAfterWrites(CategoryIds(categories));
  }

  /**
   A row carries the name of the last category with its id, and the count of
   the last group with its id, or 0 when no group has it. A group whose id
   belongs to no category gets no row (CategoryCountsRows).
   */
  lemma CategoryCountsValues(categories: seq<Category>, groups: seq<Group>)
    ensures var r := CategoryCounts(categories, groups);
      && (forall i, j {:trigger r[i], categories[j]} ::
            (0 <= i < |r| && 0 <= j < |categories| && categories[j].id == r[i].category_id &&
             IsLastWithKey(categories, CategoryId, j)) ==> r[i].name == categories[j].name)
      && (forall i, g {:trigger r[i], groups[g]} ::
            (0 <= i < |r| && 0 <= g < |groups| && groups[g].id == r[i].category_id &&
             IsLastWithKey(groups, GroupId, g)) ==> r[i].count == groups[g].count)
      && (forall i :: 0 <= i < |r| && (forall g :: 0 <= g < |groups| ==> groups[g].id != r[i].category_id) ==>
            r[i].count == 0)
  {
    var r := CategoryCounts(categories, groups);
    var byId := IndexBy(categories, CategoryId);
    var counts := IndexBy(groups, GroupId);
    forall i, j | 0 <= i < |r| && 0 <= j < |categories| && categories[j].id == r[i].category_id &&
        IsLastWithKey(categories, CategoryId, j)
      ensures r[i].name == categories[j].name
    {
      assert byId[CategoryId(categories[j])] == categories[j];
    }
    forall i, g | 0 <= i < |r| && 0 <= g < |groups| && groups[g].id == r[i].category_id &&
        IsLastWithKey(groups, GroupId, g)
      ensures r[i].count == groups[g].count
    {
      assert counts[GroupId(groups[g])] == groups[g];
    }
    forall i | 0 <= i < |r| && (forall g :: 0 <= g < |groups| ==> groups[g].id != r[i].category_id)
      ensures r[i].count == 0
    {
      assert forall g :: 0 <= g < |groups| ==> GroupId(groups[g]) != r[i].category_id;
      assert r[i].category_id !in counts;
    }
  }

  /**
   Row order: rows whose id is an array index come first, by ascending id;
   the other rows follow in the order their id first occurs among the categories.
   */
  lemma CategoryCountsOrder(categories: seq<Category>, groups: seq<Group>)
    ensures var r := CategoryCounts(categories, groups);
      var ids := CategoryIds(categories);
      && (forall i, j :: 0 <= i < j < |r| && IsArrayIndex(r[j].category_id) ==>
            IsArrayIndex(r[i].category_id) && r[i].category_id < r[j].category_id)
      && (forall i, j :: 0 <= i < j < |r| && IsOtherKey(r[i].category_id) && IsOtherKey(r[j].category_id) ==>
            r[i].category_id in ids && r[j].category_id in ids &&
            IndexOf(ids, r[i].category_id) < IndexOf(ids, r[j].category_id))
  {
    CategoryCountsKeys(categories, groups);
  }
}
