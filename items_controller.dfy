/**
 * The item endpoints: case-insensitive search by name, merge-patch update, list
 * with optional filters, and list by owning category or subcategory.
 */
module ItemsController {
  import opened Js
  import opened ObjectIds
  import opened Text
  import opened Queries
  import opened Storage
  import I = ItemModel
  import CategoryController
  import SubCategoryController

  /** `(it) => it.name matches /q/i` */
  function NameMatches(q: string): I.Item -> bool
  {
    (it: I.Item) => ContainsIgnoringCase(it.name, q)
  }

  /**
   * `searchItem`: without a (truthy) `name` query nothing is searched and the answer
   * is empty; otherwise the items whose name contains the query, ignoring letter
   * case, in store order.
   */
  function SearchItem(t: seq<I.Item>, q: Option<string>): (r: seq<I.Item>)
    ensures !StringTruthy(q) ==> r == []
    ensures IsSubsequence(r, t)
    ensures StringTruthy(q) ==> forall it :: it in r <==> it in t && ContainsIgnoringCase(it.name, q.value)
    ensures StringTruthy(q) ==> forall it :: multiset(r)[it] ==
                                             if ContainsIgnoringCase(it.name, q.value) then multiset(t)[it] else 0
  {
    if StringTruthy(q) then
      FilterKeepsEveryCopy(t, NameMatches(q.value));
      Filter(t, NameMatches(q.value))
    else []
  }

  /** Any item whose name contains the query, with the letter case as written, is found. */
  lemma SearchFindsSubstring(t: seq<I.Item>, it: I.Item, q: string, i: nat)
    requires it in t && q != ""
    requires OccursAt(q, it.name, i)
    ensures it in SearchItem(t, Some(q))
  {
    LowerSlice(it.name, i, i + |q|);
    assert OccursAt(Lower(q), Lower(it.name), i);
    OccursIff(Lower(q), Lower(it.name));
  }

  /** The letter case of the query does not change what is found. */
  lemma SearchIgnoresQueryCase(t: seq<I.Item>, q: string)
    ensures SearchItem(t, Some(q)) == SearchItem(t, Some(Lower(q)))
  {
    LowerIdempotent(q);
    FilterAgrees(t, NameMatches(q), NameMatches(Lower(q)));
  }

  lemma LapMatchesLaptop(name: string)
    requires name == "Laptop" || name == "Laptop Pro"
    ensures ContainsIgnoringCase(name, "lap")
  {
    assert Lower("lap") == "lap";
    assert Lower(name)[..3] == "lap";
  }

  lemma LapMissesMouse()
    ensures !ContainsIgnoringCase("Mouse", "lap")
  {
    assert Lower("lap") == "lap";
    var m := Lower("Mouse");
    assert m == "mouse";
    assert m[..3][0] != 'l' && m[1..] == "ouse";
    assert "ouse"[..3][0] != 'l' && "ouse"[1..] == "use";
    assert "use"[..3][0] != 'l' && "use"[1..] == "se";
  }

  /** Searching for "lap" finds "Laptop" and "Laptop Pro" but not "Mouse". */
  lemma SearchExample(laptop: I.Item, pro: I.Item, mouse: I.Item)
    requires laptop.name == "Laptop" && pro.name == "Laptop Pro" && mouse.name == "Mouse"
    ensures SearchItem([laptop, mouse, pro], Some("lap")) == [laptop, pro]
  {
    LapMatchesLaptop(laptop.name);
    LapMatchesLaptop(pro.name);
    LapMissesMouse();
    var t, p := [laptop, mouse, pro], NameMatches("lap");
    assert t[1..] == [mouse, pro] && t[1..][1..] == [pro] && t[1..][1..][1..] == [];
    assert Filter([pro], p) == [pro];
    assert Filter([mouse, pro], p) == [pro];
  }

  /**
   * `updateItem`: `updateOne` casts its filter and its update first, so a path id or
   * an owner reference that does not cast is the generic failure; an unknown id is
   * no change and still a success; otherwise the patch is merged in unless the
   * patched name belongs to another item. `total_amount` is not recomputed.
   */
  method UpdateItem(db: Store, idText: string, patch: I.ItemBody) returns (o: Outcome)
    requires db.Valid()
    modifies db
    ensures db.Valid()
    ensures o == Updated || o == Failed
    ensures ParseId(idText).None? || !I.PatchCasts(patch) ==> o == Failed && db.items == old(db.items)
    ensures ParseId(idText).Some? && I.PatchCasts(patch) ==>
      var k := IndexOfId(old(db.items), I.IdOf, ParseId(idText).value);
      && (k.None? ==> o == Updated && db.items == old(db.items))
      && (k.Some? ==>
            var it := I.ApplyPatch(old(db.items)[k.value], patch);
            && (o == Failed <==> NameTakenExcept(old(db.items), I.NameOf, it.name, k.value))
            && db.items == if o == Failed then old(db.items) else old(db.items)[k.value := it])
    ensures db.nextId == old(db.nextId) && db.categories == old(db.categories) && db.subcategories == old(db.subcategories)
  {
    var id := ParseId(idText);
    if id.None? || !I.PatchCasts(patch) {
      return Failed;
    }
    var duplicate := db.UpdateItem(id.value, patch);
    o := if duplicate then Failed else Updated;
  }

  /**
   * `getItems`: the same four-way branch as the category listing: all names, the
   * items with a given name, the one with a given id string, or nothing when both
   * filters are given.
   */
  function GetItems(t: seq<I.Item>, nameFilter: Option<string>, idFilter: Option<string>): (r: Listing<I.Item>)
    ensures !StringTruthy(nameFilter) && !StringTruthy(idFilter) ==>
      r.Names? && |r.names| == |t| && forall k :: 0 <= k < |t| ==> r.names[k] == t[k].name
    ensures StringTruthy(nameFilter) && !StringTruthy(idFilter) ==>
      r.Records? && IsSubsequence(r.records, t) &&
      (forall it :: it in r.records <==> it in t && it.name == nameFilter.value) &&
      (forall it :: multiset(r.records)[it] == if it.name == nameFilter.value then multiset(t)[it] else 0)
    ensures !StringTruthy(nameFilter) && StringTruthy(idFilter) ==>
      r.Records? && IsSubsequence(r.records, t) &&
      (forall it :: it in r.records <==> it in t && IdText(it.id) == idFilter.value) &&
      (forall it :: multiset(r.records)[it] == if IdText(it.id) == idFilter.value then multiset(t)[it] else 0) &&
      (IncreasingIds(t, I.IdOf) ==> |r.records| <= 1)
    ensures StringTruthy(nameFilter) && StringTruthy(idFilter) ==> r == Records([])
  {
    List(t, I.NameOf, I.IdOf, nameFilter, idFilter)
  }

  /**
   * `getCategoryItems`: the items whose `category` is the path id, in store order; a
   * path id that does not cast makes the query fail. Items owned only through a
   * subcategory are not included.
   */
  function GetCategoryItems(t: seq<I.Item>, categoryId: string): (r: Option<seq<I.Item>>)
    ensures r.None? <==> ParseId(categoryId).None?
    ensures r.Some? ==> IsSubsequence(r.value, t)
    ensures r.Some? ==> forall it :: it in r.value <==>
      it in t && it.category.Some? && IdText(it.category.value) == categoryId
    ensures r.Some? ==> forall it :: multiset(r.value)[it] ==
                                       if it.category.Some? && IdText(it.category.value) == categoryId then multiset(t)[it] else 0
    ensures r.Some? && (forall it :: it in t ==> it.category.None? || IdText(it.category.value) != categoryId) ==> r.value == []
  {
    FindByRef(t, I.CategoryOf, categoryId)
  }

  /** `getSubCategoryItems`: the items whose `subcategory` is the path id, in store order. */
  function GetSubCategoryItems(t: seq<I.Item>, subcategoryId: string): (r: Option<seq<I.Item>>)
    ensures r.None? <==> ParseId(subcategoryId).None?
    ensures r.Some? ==> IsSubsequence(r.value, t)
    ensures r.Some? ==> forall it :: it in r.value <==>
      it in t && it.subcategory.Some? && IdText(it.subcategory.value) == subcategoryId
    ensures r.Some? ==> forall it :: multiset(r.value)[it] ==
                                       if it.subcategory.Some? && IdText(it.subcategory.value) == subcategoryId then multiset(t)[it] else 0
    ensures r.Some? && (forall it :: it in t ==> it.subcategory.None? || IdText(it.subcategory.value) != subcategoryId) ==> r.value == []
  {
    FindByRef(t, I.SubCategoryOf, subcategoryId)
  }

  /** An item just created under a category is listed among that category's items. */
  lemma CreatedCategoryItemIsListed(t: seq<I.Item>, categoryId: string, body: I.ItemBody, id: nat)
    requires ParseId(categoryId).Some?
    requires CategoryController.CategoryItemDocument(categoryId, body, id).Accepted?
    ensures var it := CategoryController.CategoryItemDocument(categoryId, body, id).doc;
      GetCategoryItems(t + [it], categoryId).Some? && it in GetCategoryItems(t + [it], categoryId).value
  {
    var it := CategoryController.CategoryItemDocument(categoryId, body, id).doc;
    IdTextOfParsed(categoryId, ParseId(categoryId).value);
    assert it in t + [it];
  }

  /** An item just created under a subcategory is listed among that subcategory's items. */
  lemma CreatedSubCategoryItemIsListed(t: seq<I.Item>, subcategoryId: string, body: I.ItemBody, id: nat)
    requires ParseId(subcategoryId).Some?
    requires SubCategoryController.SubCategoryItemDocument(subcategoryId, body, id).Accepted?
    ensures var it := SubCategoryController.SubCategoryItemDocument(subcategoryId, body, id).doc;
      GetSubCategoryItems(t + [it], subcategoryId).Some? && it in GetSubCategoryItems(t + [it], subcategoryId).value
  {
    var it := SubCategoryController.SubCategoryItemDocument(subcategoryId, body, id).doc;
    IdTextOfParsed(subcategoryId, ParseId(subcategoryId).value);
    assert it in t + [it];
  }
}
