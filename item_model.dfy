/**
 * The Item schema and its pre-save hook. `name` is required, unique and trimmed;
 * `image` and `description` are required trimmed strings; `tax_applicable`,
 * `base_amount` and `discount` are required; `tax`, `total_amount`, `category` and
 * `subcategory` are optional. Nothing requires exactly one of the two owner
 * references, and nothing bounds `discount` by `base_amount`. Amounts are whole
 * numbers (for instance cents).
 */
module ItemModel {
  import opened Js
  import opened Text
  import opened ObjectIds
  import opened Schema

  /** A stored item document (or one being built, before its hook has run). */
  datatype Item = Item(
    id: nat,
    name: string,
    image: string,
    description: string,
    taxApplicable: bool,
    tax: Option<int>,
    baseAmount: int,
    discount: int,
    totalAmount: Option<int>,
    subcategory: Option<nat>,
    category: Option<nat>)

  function IdOf(it: Item): nat { it.id }

  function NameOf(it: Item): string { it.name }

  function CategoryOf(it: Item): Option<nat> { it.category }

  function SubCategoryOf(it: Item): Option<nat> { it.subcategory }

  /** The schema paths of a request body; owner references arrive as id strings. */
  datatype ItemBody = ItemBody(
    name: Option<string>,
    image: Option<string>,
    description: Option<string>,
    taxApplicable: Option<bool>,
    tax: Option<int>,
    baseAmount: Option<int>,
    discount: Option<int>,
    totalAmount: Option<int>,
    subcategory: Option<string>,
    category: Option<string>)

  /** The schema's validation of a body, after the setters and casts have run. */
  predicate Conforms(body: ItemBody)
  {
    && RequiredString(body.name) && RequiredString(body.image) && RequiredString(body.description)
    && body.taxApplicable.Some? && body.baseAmount.Some? && body.discount.Some?
    && RefCasts(body.subcategory) && RefCasts(body.category)
  }

  /**
   * `new ItemModel(body)` followed by validation on `save()`: trim and cast each
   * path, then check the required ones. A `total_amount` in the body is kept as
   * given; the pre-save hook, which runs after validation, replaces it.
   */
  function Validate(body: ItemBody, id: nat): (r: Checked<Item>)
    ensures r.Accepted? <==> Conforms(body)
    ensures r.Accepted? ==>
      && r.doc.id == id
      && r.doc.name == Trim(body.name.value) && r.doc.name != "" && Trimmed(r.doc.name)
      && r.doc.image == Trim(body.image.value) && r.doc.image != ""
      && r.doc.description == Trim(body.description.value) && r.doc.description != ""
      && r.doc.taxApplicable == body.taxApplicable.value
      && r.doc.tax == body.tax
      && r.doc.baseAmount == body.baseAmount.value
      && r.doc.discount == body.discount.value
      && r.doc.totalAmount == body.totalAmount
      && (r.doc.category.None? <==> body.category.None?)
      && (r.doc.category.Some? ==> IdText(r.doc.category.value) == body.category.value)
      && (r.doc.subcategory.None? <==> body.subcategory.None?)
      && (r.doc.subcategory.Some? ==> IdText(r.doc.subcategory.value) == body.subcategory.value)
  {
    if Conforms(body) then
      var name, image, description := TrimPath(body.name), TrimPath(body.image), TrimPath(body.description);
      Accepted(Item(id, name.value, image.value, description.value, body.taxApplicable.value, body.tax,
                    body.baseAmount.value, body.discount.value, body.totalAmount,
                    CastRef(body.subcategory), CastRef(body.category)))
    else
      ValidationError
  }

  /** What the pre-save hook leaves: the total derived from the amounts, every other path as it was. */
  function WithTotal(d: Item): (r: Item)
    ensures r.totalAmount == Some(r.baseAmount - r.discount)
    ensures r.(totalAmount := d.totalAmount) == d
  {
    d.(totalAmount := Some(d.baseAmount - d.discount))
  }

  /** The document object `save()` works on, which the pre-save hook updates in place. */
  class ItemDocument {
    var doc: Item

    constructor (d: Item)
      ensures doc == d
    {
      doc := d;
    }

    /** The pre-save hook: `this.total_amount = this.base_amount - this.discount`. */
    method PreSave()
      modifies this
      ensures doc == WithTotal(old(doc))
      ensures doc.totalAmount == Some(doc.baseAmount - doc.discount)
    {
      doc := doc.(totalAmount := Some(doc.baseAmount - doc.discount));
    }
  }

  /**
   * The document `new ItemModel(body).save()` writes: the validated document after
   * the pre-save hook, so a `total_amount` in the body never survives.
   */
  function Build(body: ItemBody, id: nat): (r: Checked<Item>)
    ensures r.Accepted? <==> Conforms(body)
    ensures r.Accepted? ==>
      && r.doc.id == id
      && r.doc.name == Trim(body.name.value) && r.doc.name != "" && Trimmed(r.doc.name)
      && r.doc.image == Trim(body.image.value) && r.doc.image != ""
      && r.doc.description == Trim(body.description.value) && r.doc.description != ""
      && r.doc.taxApplicable == body.taxApplicable.value
      && r.doc.tax == body.tax
      && r.doc.baseAmount == body.baseAmount.value
      && r.doc.discount == body.discount.value
      && r.doc.totalAmount == Some(body.baseAmount.value - body.discount.value)
      && (r.doc.category.None? <==> body.category.None?)
      && (r.doc.category.Some? ==> IdText(r.doc.category.value) == body.category.value)
      && (r.doc.subcategory.None? <==> body.subcategory.None?)
      && (r.doc.subcategory.Some? ==> IdText(r.doc.subcategory.value) == body.subcategory.value)
  {
    match Validate(body, id)
    case Accepted(doc) => Accepted(WithTotal(doc))
    case ValidationError => ValidationError
  }

  /** Every path of an item body is castable and its owner references are well formed. */
  predicate PatchCasts(p: ItemBody)
  {
    RefCasts(p.subcategory) && RefCasts(p.category)
  }

  /**
   * `updateOne({_id}, patch)` on one document: present paths replace stored ones
   * (strings trimmed), absent ones are kept. `updateOne` does not run the save hook,
   * so `total_amount` changes only when the patch itself sets it.
   */
  function ApplyPatch(it: Item, p: ItemBody): (r: Item)
    requires PatchCasts(p)
    ensures r.id == it.id
    ensures r.name == (if p.name.Some? then Trim(p.name.value) else it.name)
    ensures r.image == (if p.image.Some? then Trim(p.image.value) else it.image)
    ensures r.description == (if p.description.Some? then Trim(p.description.value) else it.description)
    ensures r.taxApplicable == (if p.taxApplicable.Some? then p.taxApplicable.value else it.taxApplicable)
    ensures r.tax == (if p.tax.Some? then p.tax else it.tax)
    ensures r.baseAmount == (if p.baseAmount.Some? then p.baseAmount.value else it.baseAmount)
    ensures r.discount == (if p.discount.Some? then p.discount.value else it.discount)
    ensures r.totalAmount == (if p.totalAmount.Some? then p.totalAmount else it.totalAmount)
    ensures p.category.None? ==> r.category == it.category
    ensures p.category.Some? ==> r.category.Some? && IdText(r.category.value) == p.category.value
    ensures p.subcategory.None? ==> r.subcategory == it.subcategory
    ensures p.subcategory.Some? ==> r.subcategory.Some? && IdText(r.subcategory.value) == p.subcategory.value
  {
    Item(
      it.id,
      match p.name case Some(n) => Trim(n) case None => it.name,
      match p.image case Some(n) => Trim(n) case None => it.image,
      match p.description case Some(n) => Trim(n) case None => it.description,
      match p.taxApplicable case Some(b) => b case None => it.taxApplicable,
      match p.tax case Some(_) => p.tax case None => it.tax,
      match p.baseAmount case Some(a) => a case None => it.baseAmount,
      match p.discount case Some(a) => a case None => it.discount,
      match p.totalAmount case Some(_) => p.totalAmount case None => it.totalAmount,
      match p.subcategory case Some(_) => CastRef(p.subcategory) case None => it.subcategory,
      match p.category case Some(_) => CastRef(p.category) case None => it.category)
  }

  /** Whatever `total_amount` a client sends on create, the saved document is the same. */
  lemma ClientTotalIgnored(body: ItemBody, id: nat, total: Option<int>)
    ensures Build(body.(totalAmount := total), id) == Build(body, id)
  {
  }

  /**
   * The unique index sees trimmed names: two bodies whose names differ only by
   * surrounding white space produce the same stored name, so the second save of
   * such a pair is refused as a duplicate.
   */
  lemma PaddedNamesCollide(body: ItemBody, before: string, after: string, id1: nat, id2: nat)
    requires Conforms(body) && AllSpace(before) && AllSpace(after)
    ensures var padded := body.(name := Some(before + body.name.value + after));
      Build(padded, id2).Accepted? && Build(padded, id2).doc.name == Build(body, id1).doc.name
  {
    TrimIgnoresPadding(before, body.name.value, after);
  }

  /**
   * Neither owner reference is required and nothing ties them together: a body
   * conforms with no owner, with a category, with a subcategory, or with both,
   * exactly when it conforms with the other.
   */
  lemma OwnerReferencesOptional(body: ItemBody, category: string, subcategory: string)
    requires ParseId(category).Some? && ParseId(subcategory).Some?
    ensures var none := body.(category := None, subcategory := None);
      && (Conforms(none) <==> Conforms(none.(category := Some(category))))
      && (Conforms(none) <==> Conforms(none.(subcategory := Some(subcategory))))
      && (Conforms(none) <==> Conforms(none.(category := Some(category), subcategory := Some(subcategory))))
  {
  }

  /**
   * A patch that changes `discount` alone leaves `total_amount` at its stored value,
   * so the derived total goes stale: an item saved at 99999 with discount 10000
   * (total 89999), patched to discount 15000, still reads 89999 rather than 84999.
   */
  lemma UpdateLeavesTotalStale()
    ensures var body := ItemBody(Some("Laptop"), Some("laptop.png"), Some("High-performance laptop"),
                                 Some(true), Some(18), Some(99999), Some(10000), None, None, None);
            var saved := Build(body, 0).doc;
            var patched := ApplyPatch(saved, ItemBody(None, None, None, None, None, None, Some(15000), None, None, None));
            && saved.totalAmount == Some(89999)
            && patched.discount == 15000
            && patched.totalAmount == Some(89999)
            && patched.totalAmount != Some(patched.baseAmount - patched.discount)
  {
    var body := ItemBody(Some("Laptop"), Some("laptop.png"), Some("High-performance laptop"),
                         Some(true), Some(18), Some(99999), Some(10000), None, None, None);
    assert Trim("Laptop") == "Laptop";
    assert Trim("laptop.png") == "laptop.png";
    assert Trim("High-performance laptop") == "High-performance laptop";
    assert Conforms(body);
  }
}
