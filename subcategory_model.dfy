/**
 * The SubCategory schema: the Category paths (`name` required, unique and trimmed;
 * `image` and `description` required trimmed strings; `tax_applicable` a required
 * boolean; `tax` an optional number) plus `parent`, an optional ObjectId reference
 * to a category. The schema does not require `parent`; only the controller sets it.
 */
module SubCategoryModel {
  import opened Js
  import opened Text
  import opened ObjectIds
  import opened Schema

  /** A stored subcategory document. */
  datatype SubCategory = SubCategory(
    id: nat,
    name: string,
    image: string,
    description: string,
    taxApplicable: bool,
    tax: Option<int>,
    parent: Option<nat>)

  function IdOf(s: SubCategory): nat { s.id }

  function NameOf(s: SubCategory): string { s.name }

  function ParentOf(s: SubCategory): Option<nat> { s.parent }

  /** The schema paths of a request body; `parent` arrives as an id string. */
  datatype SubCategoryBody = SubCategoryBody(
    name: Option<string>,
    image: Option<string>,
    description: Option<string>,
    taxApplicable: Option<bool>,
    tax: Option<int>,
    parent: Option<string>)

  /**
   * `new SubCategoryModel(body)` followed by validation on `save()`: strings are
   * trimmed, `parent` is cast to an ObjectId (a malformed one fails validation),
   * and the required paths are checked.
   */
  function Build(body: SubCategoryBody, id: nat): (r: Checked<SubCategory>)
    ensures r.Accepted? <==>
      RequiredString(body.name) && RequiredString(body.image) &&
      RequiredString(body.description) && body.taxApplicable.Some? && RefCasts(body.parent)
    ensures r.Accepted? ==>
      && r.doc.id == id
      && r.doc.name == Trim(body.name.value) && r.doc.name != "" && Trimmed(r.doc.name)
      && r.doc.image == Trim(body.image.value) && r.doc.image != ""
      && r.doc.description == Trim(body.description.value) && r.doc.description != ""
      && r.doc.taxApplicable == body.taxApplicable.value
      && r.doc.tax == body.tax
      && (r.doc.parent.None? <==> body.parent.None?)
      && (r.doc.parent.Some? ==> IdText(r.doc.parent.value) == body.parent.value)
  {
    var name, image, description := TrimPath(body.name), TrimPath(body.image), TrimPath(body.description);
    if RequiredString(body.name) && RequiredString(body.image) && RequiredString(body.description)
       && body.taxApplicable.Some? && RefCasts(body.parent)
    then
      Accepted(SubCategory(id, name.value, image.value, description.value,
                           body.taxApplicable.value, body.tax, CastRef(body.parent)))
    else
      ValidationError
  }

  /**
   * `updateOne({_id}, patch)` on one document, for a patch whose `parent` casts:
   * present paths replace stored ones (strings trimmed), absent paths are kept, and
   * nothing is validated. `parent` too can be re-pointed this way.
   */
  function ApplyPatch(s: SubCategory, p: SubCategoryBody): (r: SubCategory)
    requires RefCasts(p.parent)
    ensures r.id == s.id
    ensures r.name == (if p.name.Some? then Trim(p.name.value) else s.name)
    ensures r.image == (if p.image.Some? then Trim(p.image.value) else s.image)
    ensures r.description == (if p.description.Some? then Trim(p.description.value) else s.description)
    ensures r.taxApplicable == (if p.taxApplicable.Some? then p.taxApplicable.value else s.taxApplicable)
    ensures r.tax == (if p.tax.Some? then p.tax else s.tax)
    ensures p.parent.None? ==> r.parent == s.parent
    ensures p.parent.Some? ==> r.parent.Some? && IdText(r.parent.value) == p.parent.value
  {
    SubCategory(
      s.id,
      match p.name case Some(n) => Trim(n) case None => s.name,
      match p.image case Some(n) => Trim(n) case None => s.image,
      match p.description case Some(n) => Trim(n) case None => s.description,
      match p.taxApplicable case Some(b) => b case None => s.taxApplicable,
      match p.tax case Some(_) => p.tax case None => s.tax,
      match p.parent case Some(_) => CastRef(p.parent) case None => s.parent)
  }
}
