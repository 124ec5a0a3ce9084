/**
 * The Category schema: `name`, `image` and `description` are required trimmed
 * strings (`name` also unique), `tax_applicable` is a required boolean and `tax` an
 * optional number.
 */
module CategoryModel {
  import opened Js
  import opened Text
  import opened Schema

  /** A stored category document. */
  datatype Category = Category(
    id: nat,
    name: string,
    image: string,
    description: string,
    taxApplicable: bool,
    tax: Option<int>)

  function IdOf(c: Category): nat { c.id }

  function NameOf(c: Category): string { c.name }

  /**
   * The schema paths of a request body, each absent or present. A create sends it
   * to `new CategoryModel(body)`, an update to `updateOne` as the patch; paths the
   * schema does not declare are dropped and are not represented.
   */
  datatype CategoryBody = CategoryBody(
    name: Option<string>,
    image: Option<string>,
    description: Option<string>,
    taxApplicable: Option<bool>,
    tax: Option<int>)

  /** The body whose every path is absent: `{}`. */
  const EmptyPatch := CategoryBody(None, None, None, None, None)

  /**
   * `new CategoryModel(body)` followed by validation on `save()`: string paths are
   * trimmed, then the required paths are checked; a category document gets id `id`.
   */
  function Build(body: CategoryBody, id: nat): (r: Checked<Category>)
    ensures r.Accepted? <==>
      RequiredString(body.name) && RequiredString(body.image) &&
      RequiredString(body.description) && body.taxApplicable.Some?
    ensures r.Accepted? ==>
      && r.doc.id == id
      && r.doc.name == Trim(body.name.value) && r.doc.name != "" && Trimmed(r.doc.name)
      && r.doc.image == Trim(body.image.value) && r.doc.image != "" && Trimmed(r.doc.image)
      && r.doc.description == Trim(body.description.value) && r.doc.description != ""
      && Trimmed(r.doc.description)
      && r.doc.taxApplicable == body.taxApplicable.value
      && r.doc.tax == body.tax
  {
    var name, image, description := TrimPath(body.name), TrimPath(body.image), TrimPath(body.description);
    if RequiredString(body.name) && RequiredString(body.image) && RequiredString(body.description)
       && body.taxApplicable.Some?
    then
      Accepted(Category(id, name.value, image.value, description.value, body.taxApplicable.value, body.tax))
    else
      ValidationError
  }

  /**
   * `updateOne({_id}, patch)` applied to one document: each path present in the
   * patch replaces the stored value (strings through the trim setter), every other
   * path is left as it was. Update validators are off, so nothing is required.
   */
  function ApplyPatch(c: Category, p: CategoryBody): (r: Category)
    ensures r.id == c.id
    ensures r.name == (if p.name.Some? then Trim(p.name.value) else c.name)
    ensures r.image == (if p.image.Some? then Trim(p.image.value) else c.image)
    ensures r.description == (if p.description.Some? then Trim(p.description.value) else c.description)
    ensures r.taxApplicable == (if p.taxApplicable.Some? then p.taxApplicable.value else c.taxApplicable)
    ensures r.tax == (if p.tax.Some? then p.tax else c.tax)
  {
    Category(
      c.id,
      match p.name case Some(s) => Trim(s) case None => c.name,
      match p.image case Some(s) => Trim(s) case None => c.image,
      match p.description case Some(s) => Trim(s) case None => c.description,
      match p.taxApplicable case Some(b) => b case None => c.taxApplicable,
      match p.tax case Some(_) => p.tax case None => c.tax)
  }

  /** An empty patch changes nothing. */
  lemma EmptyPatchIsIdentity(c: Category)
    ensures ApplyPatch(c, EmptyPatch) == c
  {
  }
}
