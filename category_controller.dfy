/**
 * The category endpoints: create, list with optional filters, merge-patch update,
 * and create an item under a category. Path and query ids arrive as strings.
 */
module CategoryController {
  import opened Js
  import opened ObjectIds
  import opened Text
  import opened Queries
  import opened Schema
  import opened Storage
  import C = CategoryModel
  import I = ItemModel

  /**
   * `createCategory`: build and validate a document from the body, then save it.
   * A validation error is the generic failure; a taken name (duplicate key) is
   * reported as such; either way nothing is stored.
   */
  method CreateCategory(db: Store, body: C.CategoryBody) returns (o: Outcome)
    requires db.Valid()
    modifies db
    ensures db.Valid()
    ensures var built := C.Build(body, old(db.nextId));
      && (built.ValidationError? ==> o == Failed && db.categories == old(db.categories))
      && (built.Accepted? && NameTaken(old(db.categories), C.NameOf, built.doc.name) ==>
            o == Duplicate && db.categories == old(db.categories))
      && (built.Accepted? && !NameTaken(old(db.categories), C.NameOf, built.doc.name) ==>
            o == Created && db.categories == old(db.categories) + [built.doc])
    ensures db.nextId == old(db.nextId) + (if o == Created then 1 else 0)
    ensures db.subcategories == old(db.subcategories) && db.items == old(db.items)
  {
    var built := C.Build(body, db.nextId);
    if built.ValidationError? {
      return Failed;
    }
    var inserted := db.InsertCategory(built.doc);
    o := if inserted then Created else Duplicate;
  }

  /**
   * Two creates whose names trim to the same string: at most one of them stores a
   * category, whatever the order and whatever surrounding white space they carry.
   */
  method CreateSameNameTwice(db: Store, first: C.CategoryBody, second: C.CategoryBody)
    returns (o1: Outcome, o2: Outcome)
    requires db.Valid()
    requires first.name.Some? && second.name.Some? && Trim(first.name.value) == Trim(second.name.value)
    modifies db
    ensures db.Valid()
    ensures !(o1 == Created && o2 == Created)
    ensures o1 == Created ==> o2 != Created && (C.Build(second, old(db.nextId) + 1).Accepted? ==> o2 == Duplicate)
    ensures |db.categories| <= |old(db.categories)| + 1
  {
    o1 := CreateCategory(db, first);
    ghost var mid := db.categories;
    if o1 == Created {
      var last := |mid| - 1;
      assert C.NameOf(mid[last]) == Trim(second.name.value);
      assert NameTaken(mid, C.NameOf, Trim(second.name.value));
    }
    o2 := CreateCategory(db, second);
  }

  /**
   * `getCategories`: no filter gives the names of all categories in store order; a
   * name alone gives the categories with exactly that name; an id string alone gives
   * the category whose id text it is (at most one); both together give nothing,
   * because the code compares the ObjectId itself with the string.
   */
  function GetCategories(t: seq<C.Category>, nameFilter: Option<string>, idFilter: Option<string>): (r: Listing<C.Category>)
    ensures !StringTruthy(nameFilter) && !StringTruthy(idFilter) ==>
      r.Names? && |r.names| == |t| && forall k :: 0 <= k < |t| ==> r.names[k] == t[k].name
    ensures StringTruthy(nameFilter) && !StringTruthy(idFilter) ==>
      r.Records? && IsSubsequence(r.records, t) &&
      (forall c :: c in r.records <==> c in t && c.name == nameFilter.value) &&
      (forall c :: multiset(r.records)[c] == if c.name == nameFilter.value then multiset(t)[c] else 0)
    ensures !StringTruthy(nameFilter) && StringTruthy(idFilter) ==>
      r.Records? && IsSubsequence(r.records, t) &&
      (forall c :: c in r.records <==> c in t && IdText(c.id) == idFilter.value) &&
      (forall c :: multiset(r.records)[c] == if IdText(c.id) == idFilter.value then multiset(t)[c] else 0) &&
      (IncreasingIds(t, C.IdOf) ==> |r.records| <= 1)
    ensures StringTruthy(nameFilter) && StringTruthy(idFilter) ==> r == Records([])
  {
    List(t, C.NameOf, C.IdOf, nameFilter, idFilter)
  }

  /**
   * `updateCategory`: a path id that does not cast is the generic failure; an id no
   * category has changes nothing and still reports success; otherwise the patch is
   * merged in, unless the patched name belongs to another category.
   */
  method UpdateCategory(db: Store, idText: string, patch: C.CategoryBody) returns (o: Outcome)
    requires db.Valid()
    modifies db
    ensures db.Valid()
    ensures o == Updated || o == Failed
    ensures ParseId(idText).None? ==> o == Failed && db.categories == old(db.categories)
    ensures ParseId(idText).Some? ==>
      var k := IndexOfId(old(db.categories), C.IdOf, ParseId(idText).value);
      && (k.None? ==> o == Updated && db.categories == old(db.categories))
      && (k.Some? ==>
            var c := C.ApplyPatch(old(db.categories)[k.value], patch);
            && (o == Failed <==> NameTakenExcept(old(db.categories), C.NameOf, c.name, k.value))
            && db.categories == if o == Failed then old(db.categories) else old(db.categories)[k.value := c])
    ensures db.nextId == old(db.nextId) && db.subcategories == old(db.subcategories) && db.items == old(db.items)
  {
    var id := ParseId(idText);
    if id.None? {
      return Failed;
    }
    var duplicate := db.UpdateCategory(id.value, patch);
    o := if duplicate then Failed else Updated;
  }

  /**
   * The item `createCategoryItem` saves for category `categoryId`: the body with its
   * `category` path overwritten by the path id, built and validated as an item.
   */
  function CategoryItemDocument(categoryId: string, body: I.ItemBody, id: nat): (r: Checked<I.Item>)
    requires ParseId(categoryId).Some?
    ensures r.Accepted? <==>
      && RequiredString(body.name) && RequiredString(body.image) && RequiredString(body.description)
      && body.taxApplicable.Some? && body.baseAmount.Some? && body.discount.Some?
      && RefCasts(body.subcategory)
    ensures r.Accepted? ==>
      && r.doc.id == id
      && r.doc.category == ParseId(categoryId)
      && r.doc.name == Trim(body.name.value)
      && r.doc.image == Trim(body.image.value)
      && r.doc.description == Trim(body.description.value)
      && r.doc.taxApplicable == body.taxApplicable.value
      && r.doc.tax == body.tax
      && r.doc.baseAmount == body.baseAmount.value
      && r.doc.discount == body.discount.value
      && r.doc.totalAmount == Some(r.doc.baseAmount - r.doc.discount)
      && (r.doc.subcategory.None? <==> body.subcategory.None?)
      && (r.doc.subcategory.Some? ==> IdText(r.doc.subcategory.value) == body.subcategory.value)
  {
    var doc := I.Build(body.(category := Some(categoryId)), id);
    if doc.Accepted? then
      IdTextOfParsed(categoryId, ParseId(categoryId).value);
      ParseIdText(doc.doc.category.value);
      doc
    else
      doc
  }

  /**
   * `createCategoryItem`: a path id that does not cast fails (the lookup throws); an
   * unknown category is not found; otherwise the item is built with `category` set
   * to the path id and saved. Validation errors and a taken name are both reported
   * as the generic failure. Nothing is stored unless the outcome is `Created`.
   */
  method CreateCategoryItem(db: Store, categoryId: string, body: I.ItemBody) returns (o: Outcome)
    requires db.Valid()
    modifies db
    ensures db.Valid()
    ensures o == Created || o == NotFound || o == Failed
    ensures ParseId(categoryId).None? ==> o == Failed
    ensures ParseId(categoryId).Some? ==>
      (o == NotFound <==> IndexOfId(old(db.categories), C.IdOf, ParseId(categoryId).value).None?)
    ensures o == Created ==>
      var built := CategoryItemDocument(categoryId, body, old(db.nextId));
      && built.Accepted? && !NameTaken(old(db.items), I.NameOf, built.doc.name)
      && db.items == old(db.items) + [built.doc]
    ensures o != Created ==> db.items == old(db.items)
    ensures db.nextId == old(db.nextId) + (if o == Created then 1 else 0)
    ensures o == Failed && ParseId(categoryId).Some? &&
            IndexOfId(old(db.categories), C.IdOf, ParseId(categoryId).value).Some? ==>
      var built := CategoryItemDocument(categoryId, body, old(db.nextId));
      built.ValidationError? || NameTaken(old(db.items), I.NameOf, built.doc.name)
    ensures db.categories == old(db.categories) && db.subcategories == old(db.subcategories)
  {
    var id := ParseId(categoryId);
    if id.None? {
      return Failed;
    }
    var found := IndexOfId(db.categories, C.IdOf, id.value);
    if found.None? {
      return NotFound;
    }
    var itemData := body;
    itemData := itemData.(category := Some(categoryId));
    var validated := I.Validate(itemData, db.nextId);
    if validated.ValidationError? {
      return Failed;
    }
    var document := new I.ItemDocument(validated.doc);
    document.PreSave();
    var inserted := db.InsertItem(document.doc);
    o := if inserted then Created else Failed;
  }
}
