/**
 * The database as the controllers see it: three collections (categories,
 * subcategories, items), each a table of documents in insertion order with a unique
 * index on `name`, and a source of fresh ids. `InsertX` is the write step of
 * `save()` for a document that passed validation; `UpdateX` is `updateOne`.
 */
module Storage {
  import opened Js
  import opened Queries
  import C = CategoryModel
  import S = SubCategoryModel
  import I = ItemModel
  import Schema

  /** What a controller reports, with the HTTP status it answers with. */
  datatype Outcome =
    | Created    // 201, "... created"
    | Updated    // 201, "Updated successfully."
    | Duplicate  // 400, "... is already available."
    | NotFound   // 404, "... not found"
    | Failed     // 500, "Some error occurred"

  class Store {
    var categories: seq<C.Category>
    var subcategories: seq<S.SubCategory>
    var items: seq<I.Item>
    var nextId: nat

    ghost predicate Valid()
      reads this
    {
      && TableWellFormed(categories, C.IdOf, C.NameOf, nextId)
      && TableWellFormed(subcategories, S.IdOf, S.NameOf, nextId)
      && TableWellFormed(items, I.IdOf, I.NameOf, nextId)
    }

    constructor ()
      ensures Valid()
      ensures categories == [] && subcategories == [] && items == [] && nextId == 0
    {
      categories, subcategories, items, nextId := [], [], [], 0;
    }

    /** The write of `save()` for a validated category: refused when the name is taken. */
    method InsertCategory(c: C.Category) returns (inserted: bool)
      requires Valid() && c.id == nextId
      modifies this
      ensures Valid()
      ensures inserted == !NameTaken(old(categories), C.NameOf, c.name)
      ensures categories == if inserted then old(categories) + [c] else old(categories)
      ensures nextId == if inserted then old(nextId) + 1 else old(nextId)
      ensures subcategories == old(subcategories) && items == old(items)
    {
      inserted := !NameTaken(categories, C.NameOf, c.name);
      if inserted {
        AppendKeepsTableWellFormed(categories, C.IdOf, C.NameOf, nextId, c);
        categories := categories + [c];
        nextId := nextId + 1;
      }
    }

    /** The write of `save()` for a validated subcategory: refused when the name is taken. */
    method InsertSubCategory(s: S.SubCategory) returns (inserted: bool)
      requires Valid() && s.id == nextId
      modifies this
      ensures Valid()
      ensures inserted == !NameTaken(old(subcategories), S.NameOf, s.name)
      ensures subcategories == if inserted then old(subcategories) + [s] else old(subcategories)
      ensures nextId == if inserted then old(nextId) + 1 else old(nextId)
      ensures categories == old(categories) && items == old(items)
    {
      inserted := !NameTaken(subcategories, S.NameOf, s.name);
      if inserted {
        AppendKeepsTableWellFormed(subcategories, S.IdOf, S.NameOf, nextId, s);
        subcategories := subcategories + [s];
        nextId := nextId + 1;
      }
    }

    /** The write of `save()` for a validated item: refused when the name is taken. */
    method InsertItem(it: I.Item) returns (inserted: bool)
      requires Valid() && it.id == nextId
      modifies this
      ensures Valid()
      ensures inserted == !NameTaken(old(items), I.NameOf, it.name)
      ensures items == if inserted then old(items) + [it] else old(items)
      ensures nextId == if inserted then old(nextId) + 1 else old(nextId)
      ensures categories == old(categories) && subcategories == old(subcategories)
    {
      inserted := !NameTaken(items, I.NameOf, it.name);
      if inserted {
        AppendKeepsTableWellFormed(items, I.IdOf, I.NameOf, nextId, it);
        items := items + [it];
        nextId := nextId + 1;
      }
    }

    /**
     * `CategoryModel.updateOne({_id: id}, p)`: no document with that id is no change
     * and no error; otherwise the patched document replaces the stored one unless its
     * name collides with another document's, which the unique index refuses.
     */
    method UpdateCategory(id: nat, p: C.CategoryBody) returns (duplicate: bool)
      requires Valid()
      modifies this
      ensures Valid()
      ensures var k := IndexOfId(old(categories), C.IdOf, id);
        && (k.None? ==> !duplicate && categories == old(categories))
        && (k.Some? ==>
              var c := C.ApplyPatch(old(categories)[k.value], p);
              && duplicate == NameTakenExcept(old(categories), C.NameOf, c.name, k.value)
              && categories == if duplicate then old(categories) else old(categories)[k.value := c])
      ensures nextId == old(nextId) && subcategories == old(subcategories) && items == old(items)
    {
      duplicate := false;
      var k := IndexOfId(categories, C.IdOf, id);
      if k.Some? {
        var c := C.ApplyPatch(categories[k.value], p);
        duplicate := NameTakenExcept(categories, C.NameOf, c.name, k.value);
        if !duplicate {
          ReplaceKeepsTableWellFormed(categories, C.IdOf, C.NameOf, nextId, k.value, c);
          categories := categories[k.value := c];
        }
      }
    }

    /** `SubCategoryModel.updateOne({_id: id}, p)` for a patch whose `parent` casts. */
    method UpdateSubCategory(id: nat, p: S.SubCategoryBody) returns (duplicate: bool)
      requires Valid() && Schema.RefCasts(p.parent)
      modifies this
      ensures Valid()
      ensures var k := IndexOfId(old(subcategories), S.IdOf, id);
        && (k.None? ==> !duplicate && subcategories == old(subcategories))
        && (k.Some? ==>
              var s := S.ApplyPatch(old(subcategories)[k.value], p);
              && duplicate == NameTakenExcept(old(subcategories), S.NameOf, s.name, k.value)
              && subcategories == if duplicate then old(subcategories) else old(subcategories)[k.value := s])
      ensures nextId == old(nextId) && categories == old(categories) && items == old(items)
    {
      duplicate := false;
      var k := IndexOfId(subcategories, S.IdOf, id);
      if k.Some? {
        var s := S.ApplyPatch(subcategories[k.value], p);
        duplicate := NameTakenExcept(subcategories, S.NameOf, s.name, k.value);
        if !duplicate {
          ReplaceKeepsTableWellFormed(subcategories, S.IdOf, S.NameOf, nextId, k.value, s);
          subcategories := subcategories[k.value := s];
        }
      }
    }

    /** `ItemModel.updateOne({_id: id}, p)` for a patch whose owner references cast. */
    method UpdateItem(id: nat, p: I.ItemBody) returns (duplicate: bool)
      requires Valid() && I.PatchCasts(p)
      modifies this
      ensures Valid()
      ensures var k := IndexOfId(old(items), I.IdOf, id);
        && (k.None? ==> !duplicate && items == old(items))
        && (k.Some? ==>
              var it := I.ApplyPatch(old(items)[k.value], p);
              && duplicate == NameTakenExcept(old(items), I.NameOf, it.name, k.value)
              && items == if duplicate then old(items) else old(items)[k.value := it])
      ensures nextId == old(nextId) && categories == old(categories) && subcategories == old(subcategories)
    {
      duplicate := false;
      var k := IndexOfId(items, I.IdOf, id);
      if k.Some? {
        var it := I.ApplyPatch(items[k.value], p);
        duplicate := NameTakenExcept(items, I.NameOf, it.name, k.value);
        if !duplicate {
          ReplaceKeepsTableWellFormed(items, I.IdOf, I.NameOf, nextId, k.value, it);
          items := items[k.value := it];
        }
      }
    }
  }
}
