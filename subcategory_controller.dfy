/**
 * The subcategory endpoints: list by parent, list with optional filters, create
 * under a parent category (inheriting its tax settings), merge-patch update, and
 * create an item under a subcategory.
 */
module SubCategoryController {
  import opened Js
  import opened ObjectIds
  import opened Text
  import opened Queries
  import opened Schema
  import opened Storage
  import C = CategoryModel
  import S = SubCategoryModel
  import I = ItemModel

  /**
   * `isCategoryPresent`: the category whose id text is `id`; nothing when no
   * category has it, and nothing when `id` does not cast (the error is swallowed).
   */
  function IsCategoryPresent(t: seq<C.Category>, id: string): (r: Option<C.Category>)
    ensures r.Some? ==> r.value in t && IdText(r.value.id) == id && ParseId(id) == Some(r.value.id)
    ensures r.None? <==> forall c :: c in t ==> IdText(c.id) != id
  {
    FindByIdText(t, C.IdOf, id)
  }

  /**
   * `getSubCategoriesByParent`: the names of the subcategories whose `parent` is the
   * path id, in store order; a path id that does not cast makes the query fail.
   */
  function GetSubCategoriesByParent(t: seq<S.SubCategory>, parentId: string): (r: Option<seq<string>>)
    ensures r.None? <==> ParseId(parentId).None?
    ensures r.Some? ==> IsSubsequence(r.value, Map(t, S.NameOf))
    ensures r.Some? ==> forall n :: n in r.value <==>
      exists s :: s in t && s.parent.Some? && IdText(s.parent.value) == parentId && s.name == n
    ensures r.Some? && (forall s :: s in t ==> s.parent.None? || IdText(s.parent.value) != parentId) ==> r.value == []
  {
    match FindByRef(t, S.ParentOf, parentId)
    case None => None
    case Some(children) =>
      MapKeepsSubsequence(children, t, S.NameOf);
      forall n ensures n in Map(children, S.NameOf) <==>
        exists s :: s in t && s.parent.Some? && IdText(s.parent.value) == parentId && s.name == n
      {
        MapMembership(children, S.NameOf, n);
      }
      Some(Map(children, S.NameOf))
  }

  /**
   * `getSubCategories`: the same four-way branch as the category listing: all names,
   * the subcategories with a given name, the one with a given id string, or nothing
   * when both filters are given.
   */
  function GetSubCategories(t: seq<S.SubCategory>, nameFilter: Option<string>, idFilter: Option<string>): (r: Listing<S.SubCategory>)
    ensures !StringTruthy(nameFilter) && !StringTruthy(idFilter) ==>
      r.Names? && |r.names| == |t| && forall k :: 0 <= k < |t| ==> r.names[k] == t[k].name
    ensures StringTruthy(nameFilter) && !StringTruthy(idFilter) ==>
      r.Records? && IsSubsequence(r.records, t) &&
      (forall s :: s in r.records <==> s in t && s.name == nameFilter.value) &&
      (forall s :: multiset(r.records)[s] == if s.name == nameFilter.value then multiset(t)[s] else 0)
    ensures !StringTruthy(nameFilter) && StringTruthy(idFilter) ==>
      r.Records? && IsSubsequence(r.records, t) &&
      (forall s :: s in r.records <==> s in t && IdText(s.id) == idFilter.value) &&
      (forall s :: multiset(r.records)[s] == if IdText(s.id) == idFilter.value then multiset(t)[s] else 0) &&
      (IncreasingIds(t, S.IdOf) ==> |r.records| <= 1)
    ensures StringTruthy(nameFilter) && StringTruthy(idFilter) ==> r == Records([])
  {
    List(t, S.NameOf, S.IdOf, nameFilter, idFilter)
  }

  /**
   * The body `createSubCategory` hands to the model: a falsy `tax_applicable` or
   * `tax` is replaced by the parent's value (an absent parent `tax` leaves the path
   * absent), and `parent` is set to the path id.
   */
  function Inherit(body: S.SubCategoryBody, parent: C.Category, categoryId: string): (r: S.SubCategoryBody)
    ensures r.name == body.name && r.image == body.image && r.description == body.description
    ensures r.taxApplicable == Some(BoolTruthy(body.taxApplicable) || parent.taxApplicable)
    ensures r.tax == if NumberTruthy(body.tax) then body.tax else parent.tax
    ensures r.parent == Some(categoryId)
  {
    var withTaxApplicable :=
      if !BoolTruthy(body.taxApplicable) then body.(taxApplicable := Some(parent.taxApplicable)) else body;
    var withTax :=
      if !NumberTruthy(withTaxApplicable.tax) then withTaxApplicable.(tax := parent.tax) else withTaxApplicable;
    withTax.(parent := Some(categoryId))
  }

  /**
   * The subcategory `createSubCategory` saves under `parent` (found by `categoryId`):
   * validation now depends on the three strings only, since `tax_applicable` is
   * always filled in; the tax settings come from the body when truthy and from the
   * parent otherwise; `parent` references the parent category.
   */
  function SubCategoryDocument(parent: C.Category, categoryId: string, body: S.SubCategoryBody, id: nat): (r: Checked<S.SubCategory>)
    requires ParseId(categoryId) == Some(parent.id)
    ensures r.Accepted? <==>
      RequiredString(body.name) && RequiredString(body.image) && RequiredString(body.description)
    ensures r.Accepted? ==>
      && r.doc.id == id
      && r.doc.name == Trim(body.name.value)
      && r.doc.image == Trim(body.image.value)
      && r.doc.description == Trim(body.description.value)
      && r.doc.taxApplicable == (BoolTruthy(body.taxApplicable) || parent.taxApplicable)
      && r.doc.tax == (if NumberTruthy(body.tax) then body.tax else parent.tax)
      && r.doc.parent == Some(parent.id)
  {
    var built := S.Build(Inherit(body, parent, categoryId), id);
    if built.Accepted? then
      ParseIdText(built.doc.parent.value);
      built
    else
      built
  }

  /**
   * `createSubCategory`: an unknown parent (or an id that does not cast) is not
   * found; otherwise the inherited body is built and saved, and a taken name is
   * reported as a duplicate. Nothing is stored unless the outcome is `Created`.
   */
  method CreateSubCategory(db: Store, categoryId: string, body: S.SubCategoryBody) returns (o: Outcome)
    requires db.Valid()
    modifies db
    ensures db.Valid()
    ensures o == Created || o == Duplicate || o == NotFound || o == Failed
    ensures o == NotFound <==> IsCategoryPresent(old(db.categories), categoryId).None?
    ensures o != NotFound ==>
      var built := SubCategoryDocument(IsCategoryPresent(old(db.categories), categoryId).value, categoryId, body, old(db.nextId));
      && (o == Failed <==> built.ValidationError?)
      && (o == Duplicate <==> built.Accepted? && NameTaken(old(db.subcategories), S.NameOf, built.doc.name))
      && (o == Created ==> db.subcategories == old(db.subcategories) + [built.doc])
    ensures o != Created ==> db.subcategories == old(db.subcategories)
    ensures db.nextId == old(db.nextId) + (if o == Created then 1 else 0)
    ensures db.categories == old(db.categories) && db.items == old(db.items)
  {
    var category := IsCategoryPresent(db.categories, categoryId);
    if category.None? {
      return NotFound;
    }
    var parent := category.value;
    var subCategoryData := body;
    if !BoolTruthy(subCategoryData.taxApplicable) {
      subCategoryData := subCategoryData.(taxApplicable := Some(parent.taxApplicable));
    }
    if !NumberTruthy(subCategoryData.tax) {
      subCategoryData := subCategoryData.(tax := parent.tax);
    }
    subCategoryData := subCategoryData.(parent := Some(categoryId));
    assert subCategoryData == Inherit(body, parent, categoryId);
    var built := S.Build(subCategoryData, db.nextId);
    if built.ValidationError? {
      return Failed;
    }
    var inserted := db.InsertSubCategory(built.doc);
    o := if inserted then Created else Duplicate;
  }

  /** A subcategory just created under a category is listed among that category's children. */
  lemma CreatedSubCategoryIsListed(t: seq<S.SubCategory>, parent: C.Category, categoryId: string, body: S.SubCategoryBody, id: nat)
    requires ParseId(categoryId) == Some(parent.id)
    requires SubCategoryDocument(parent, categoryId, body, id).Accepted?
    ensures var s := SubCategoryDocument(parent, categoryId, body, id).doc;
      GetSubCategoriesByParent(t + [s], categoryId).Some? &&
      s.name in GetSubCategoriesByParent(t + [s], categoryId).value
  {
    var s := SubCategoryDocument(parent, categoryId, body, id).doc;
    IdTextOfParsed(categoryId, parent.id);
    assert s in t + [s];
  }

  /**
   * `updateSubCategory`: `updateOne` casts its filter and its update first, so a path
   * id or a `parent` that does not cast is the generic failure; an unknown id is no
   * change and still a success; otherwise the patch is merged in unless the patched
   * name belongs to another subcategory.
   */
  method UpdateSubCategory(db: Store, idText: string, patch: S.SubCategoryBody) returns (o: Outcome)
    requires db.Valid()
    modifies db
    ensures db.Valid()
    ensures o == Updated || o == Failed
    ensures ParseId(idText).None? || !RefCasts(patch.parent) ==> o == Failed && db.subcategories == old(db.subcategories)
    ensures ParseId(idText).Some? && RefCasts(patch.parent) ==>
      var k := IndexOfId(old(db.subcategories), S.IdOf, ParseId(idText).value);
      && (k.None? ==> o == Updated && db.subcategories == old(db.subcategories))
      && (k.Some? ==>
            var s := S.ApplyPatch(old(db.subcategories)[k.value], patch);
            && (o == Failed <==> NameTakenExcept(old(db.subcategories), S.NameOf, s.name, k.value))
            && db.subcategories == if o == Failed then old(db.subcategories) else old(db.subcategories)[k.value := s])
    ensures db.nextId == old(db.nextId) && db.categories == old(db.categories) && db.items == old(db.items)
  {
    var id := ParseId(idText);
    if id.None? || !RefCasts(patch.parent) {
      return Failed;
    }
    var duplicate := db.UpdateSubCategory(id.value, patch);
    o := if duplicate then Failed else Updated;
  }

  /**
   * `createSubCategoryItem` as the file stands: `ItemModel` is used but never
   * imported, so once the subcategory is found the handler throws and answers with
   * the generic failure. No item is ever created through this endpoint.
   */
  method CreateSubCategoryItemAsWritten(db: Store, subcategoryId: string, body: I.ItemBody) returns (o: Outcome)
    ensures o == NotFound <==> ParseId(subcategoryId).Some? && FindByIdText(db.subcategories, S.IdOf, subcategoryId).None?
    ensures o != NotFound ==> o == Failed
  {
    var id := ParseId(subcategoryId);
    if id.None? {
      return Failed;
    }
    var subcategory := FindByIdText(db.subcategories, S.IdOf, subcategoryId);
    if subcategory.None? {
      return NotFound;
    }
    o := Failed;
  }

  /** The item `createSubCategoryItem` saves: the body with `subcategory` set to the path id. */
  function SubCategoryItemDocument(subcategoryId: string, body: I.ItemBody, id: nat): (r: Checked<I.Item>)
    requires ParseId(subcategoryId).Some?
    ensures r.Accepted? <==>
      && RequiredString(body.name) && RequiredString(body.image) && RequiredString(body.description)
      && body.taxApplicable.Some? && body.baseAmount.Some? && body.discount.Some?
      && RefCasts(body.category)
    ensures r.Accepted? ==>
      && r.doc.id == id
      && r.doc.subcategory == ParseId(subcategoryId)
      && r.doc.name == Trim(body.name.value)
      && r.doc.image == Trim(body.image.value)
      && r.doc.description == Trim(body.description.value)
      && r.doc.taxApplicable == body.taxApplicable.value
      && r.doc.tax == body.tax
      && r.doc.baseAmount == body.baseAmount.value
      && r.doc.discount == body.discount.value
      && r.doc.totalAmount == Some(r.doc.baseAmount - r.doc.discount)
      && (r.doc.category.None? <==> body.category.None?)
      && (r.doc.category.Some? ==> IdText(r.doc.category.value) == body.category.value)
  {
    var doc := I.Build(body.(subcategory := Some(subcategoryId)), id);
    if doc.Accepted? then
      ParseIdText(doc.doc.subcategory.value);
      doc
    else
      doc
  }

  /**
   * `createSubCategoryItem` with `ItemModel` in scope: a path id that does not cast
   * fails (the lookup throws); an unknown subcategory is not found; otherwise the
   * item is built with `subcategory` set to the path id and saved. Validation errors
   * and a taken name are both the generic failure.
   */
  method CreateSubCategoryItem(db: Store, subcategoryId: string, body: I.ItemBody) returns (o: Outcome)
    requires db.Valid()
    modifies db
    ensures db.Valid()
    ensures o == Created || o == NotFound || o == Failed
    ensures ParseId(subcategoryId).None? ==> o == Failed
    ensures o == NotFound <==> ParseId(subcategoryId).Some? && FindByIdText(old(db.subcategories), S.IdOf, subcategoryId).None?
    ensures o == Created ==>
      var built := SubCategoryItemDocument(subcategoryId, body, old(db.nextId));
      && built.Accepted? && !NameTaken(old(db.items), I.NameOf, built.doc.name)
      && db.items == old(db.items) + [built.doc]
    ensures o == Failed && ParseId(subcategoryId).Some? &&
            FindByIdText(old(db.subcategories), S.IdOf, subcategoryId).Some? ==>
      var built := SubCategoryItemDocument(subcategoryId, body, old(db.nextId));
      built.ValidationError? || NameTaken(old(db.items), I.NameOf, built.doc.name)
    ensures o != Created ==> db.items == old(db.items)
    ensures db.nextId == old(db.nextId) + (if o == Created then 1 else 0)
    ensures db.categories == old(db.categories) && db.subcategories == old(db.subcategories)
  {
    var id := ParseId(subcategoryId);
    if id.None? {
      return Failed;
    }
    var subcategory := FindByIdText(db.subcategories, S.IdOf, subcategoryId);
    if subcategory.None? {
      return NotFound;
    }
    var itemData := body;
    itemData := itemData.(subcategory := Some(subcategoryId));
    var validated := I.Validate(itemData, db.nextId);
    if validated.ValidationError? {
      return Failed;
    }
    var document := new I.ItemDocument(validated.doc);
    document.PreSave();
    var inserted := db.InsertItem(document.doc);
    o := if inserted then Created else Failed;
  }
}
