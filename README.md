# Catalog service model

A Dafny model of the catalog service: an Express/Mongoose back end that keeps three
collections: categories, subcategories (each under a parent category) and items
(under a category or a subcategory). The controllers create documents through the
Mongoose schemas, list them with optional `name`/`id` filters, look them up by
owner, patch them with `updateOne`, and search items by name ignoring case.

The model is one program over one in-memory database:

- `Js`: JavaScript truthiness, and strict equality between an ObjectId and a string.
- `ObjectIds`: an ObjectId and its text form. `IdText` and `ParseId` are the two
  directions of the cast. A string that does not cast is a malformed id.
- `Text`: the `trim` setter (JavaScript white space), ASCII lower-casing and
  substring search.
- `Schema`: the `required`, `trim` and ObjectId-cast rules the three schemas share.
  A body that breaks one of them gives a `ValidationError`.
- `CategoryModel`, `SubCategoryModel`, `ItemModel`: documents, request bodies,
  validation, and `updateOne` as a merge patch. `ItemModel` also holds the
  pre-save hook, modelled as an in-place method on the document object.
- `Queries`: the generic `filter`/`map` chains, the four-way list branch,
  `findById`, `find({ref: id})`, and the table invariant. The invariant is ids
  increasing in store order and below the next fresh id, plus unique names (the
  `unique` index).
- `Storage`: the `Store` class. Its three tables are `seq` fields that its
  methods reassign. The insert methods are the write step of `save()`; the update
  methods are `updateOne`.
- `CategoryController`, `SubCategoryController`, `ItemsController`: one member per
  endpoint. Each either changes the `Store` (methods) or computes a listing
  (functions).

An endpoint's answer is an `Outcome`:

| `Outcome` | HTTP status |
|---|---|
| `Created` | 201 |
| `Updated` | 201 |
| `Duplicate` | 400, duplicate key |
| `NotFound` | 404 |
| `Failed` | 500 |

Listings that can fail return an `Option`. `None` means the query itself threw
because the id did not cast.

Behaviour that follows the code as written:

- `updateOne` runs no validators and does not run the save hook. So
  `total_amount` goes stale when a patch changes an amount (`UpdateLeavesTotalStale`).
- A patch to a subcategory can re-point `parent`.
- An id that matches no document is no change, yet the answer is `Updated`.
- With both list filters, the code compares the ObjectId object with the string
  using `===`, so the answer is always empty.
- `createSubCategory` fills in the parent's tax settings before validation runs.
  A body without `tax_applicable` is therefore accepted. An explicit `false` or
  `0` is replaced, because the test is on falsiness.

## Model

| member | source | states |
|---|---|---|
| Js.StringTruthy | src/controllers/category.controllers.js:34 | `if (v)` on a query or body string: false when the field is absent or the empty string, true otherwise |
| Js.BoolTruthy | api/controllers/subcategory.controllers.js:65 | `if (v)` on a boolean body field: true only for a present `true`, so an absent field and an explicit `false` are both falsy |
| Js.NumberTruthy | api/controllers/subcategory.controllers.js:68 | `if (v)` on a number body field: false when absent or `0`, true for any other number |
| Js.StrictEqualsString | src/controllers/category.controllers.js:36 | `a === s` against a primitive string: true only when `a` is a primitive string with the same characters; an ObjectId object is never equal, whatever its text |
| ObjectIds.IdText | src/controllers/category.controllers.js:41 | `_id.toString()`: the text of an id, a canonical numeral without leading zeros |
| ObjectIds.ParseIdText | src/controllers/category.controllers.js:41 | the text of an id casts back to that id |
| ObjectIds.IdTextOfParsed | src/controllers/category.controllers.js:70 | a string that casts to an id is exactly that id's text, so in this decimal model a cast never accepts two spellings (the real hexadecimal cast accepts either letter case, while the id filter's `toString()` comparison matches lower case only; see Left out) |
| ObjectIds.IdTextInjective | src/controllers/category.controllers.js:40-41 | distinct ids have distinct texts (both directions) |
| ObjectIds.ParseId | api/models/items.models.js:41-48 | a string casts exactly when it is a canonical numeral |
| Text.Trim | src/models/category.models.js:9 | the `trim: true` setter, `s.trim()`: drop JavaScript white space and line terminators from the start, then from the end |
| Text.TrimSlice | src/models/category.models.js:5-10 | the trimmed value is a slice of the input with only white space cut off either end, and has no white space at either end |
| Text.TrimIdempotent | src/models/category.models.js:5-10 | trimming a trimmed value changes nothing |
| Text.TrimIgnoresPadding | api/models/items.models.js:5-10 | white space added around a value does not change what it trims to |
| Text.OccursIff | src/controllers/items.controller.js:7-10 | the left-to-right search succeeds exactly when the needle sits at some offset of the haystack |
| Text.Lower | src/controllers/items.controller.js:9 | the case folding of the `i` flag: same length, each letter `A`-`Z` mapped to its lower-case form, every other character kept |
| Text.LowerSlice | src/controllers/items.controller.js:9 | folding a piece of a name is the same piece of the folded name |
| Text.LowerIdempotent | src/controllers/items.controller.js:9 | folding a folded string changes nothing |
| Text.ContainsIgnoringCase | src/controllers/items.controller.js:9 | `{ $regex: q, $options: "i" }` on a name, for a query without metacharacters: the lower-cased query occurs somewhere in the lower-cased name |
| Schema.TrimPath | src/models/category.models.js:9 | the `trim` setter on an optional path: absent stays absent, present becomes its trimmed value |
| Schema.RequiredString | src/models/category.models.js:8-9 | `required: true` on a trimmed path: present, and not empty once trimmed |
| Schema.RefCasts | src/models/subcategory.models.js:30-33 | an ObjectId path conforms when it is absent or a string that casts to an id |
| Schema.CastRef | src/models/subcategory.models.js:30-33 | an ObjectId path that casts is stored as the id whose text it is; absent stays absent |
| Queries.Filter | src/controllers/category.controllers.js:35-41 | keeps exactly the elements satisfying the predicate, in order (a subsequence), never more than the input |
| Queries.FilterMultiplicity | src/controllers/category.controllers.js:35-41 | every element the predicate keeps occurs in the result exactly as often as in the input; every other element not at all |
| Queries.FilterKeepsEveryCopy | src/controllers/category.controllers.js:35-41 | the same count, for all elements at once |
| Queries.FilterAgrees | src/controllers/items.controller.js:8-10 | filters by predicates that agree on every element keep the same sequence |
| Queries.Map | src/controllers/category.controllers.js:43 | same length, each position mapped |
| Queries.FilterMonotone | src/controllers/category.controllers.js:34-39 | a stronger predicate keeps a subsequence of what a weaker one keeps |
| Queries.FilterAtMostOne | src/controllers/category.controllers.js:40-41 | when no two elements satisfy the predicate at most one is kept |
| Queries.IndexOfId | src/controllers/category.controllers.js:57 | finds the position of the document with an id, or shows no document has it |
| Queries.FindByIdText | src/controllers/category.controllers.js:70 | `findById(s)`: the document whose id text is `s`; nothing exactly when no document's id text is `s` (including a string that does not cast) |
| Queries.RefIs | src/controllers/items.controller.js:62 | the `{<path>: id}` match: the document's reference path is present and is that id |
| Queries.FindByRef | src/controllers/items.controller.js:62 | `find({ref: s})`: fails exactly when `s` does not cast; otherwise exactly the documents whose reference has text `s`, in store order and each as often as in the table; empty when none has |
| Queries.RefMatchesOnlyParsed | src/controllers/items.controller.js:62 | a reference equals the cast id exactly when its text is the query string |
| Queries.MapKeepsSubsequence | api/controllers/subcategory.controllers.js:17-19 | mapping preserves the subsequence relation |
| Queries.AppendKeepsTableWellFormed | src/models/category.models.js:5-10 | inserting a fresh id and a fresh name keeps the table invariant (unique index) |
| Queries.ReplaceKeepsTableWellFormed | src/models/category.models.js:5-10 | replacing a document with one of the same id and a name no other document has keeps the table invariant |
| Queries.NameTakenExcept | src/models/category.models.js:7 | the unique index refuses an update (E11000): some document other than the one updated already holds the name |
| Queries.NameTaken | src/models/category.models.js:7 | the unique index refuses an insert (E11000): some document already holds the name |
| Queries.NameIs | src/controllers/category.controllers.js:39 | `(c) => c.name === nameFilter` |
| Queries.IdStringIs | src/controllers/category.controllers.js:41 | `(c) => c._id.toString() === idFilter`: the id's text is the filter string |
| Queries.NameAndRawIdAre | src/controllers/category.controllers.js:36 | `(c) => c.name === nameFilter && c._id === idFilter`: the name matches and the ObjectId object strictly equals the string, which it never does |
| Queries.List | src/controllers/category.controllers.js:34-44 | the four-way branch: names of all in order; exactly the name matches; exactly the id-text matches, at most one when ids are increasing; nothing with both; each kept document as often as in the table |
| Queries.IdFilterAtMostOne | src/controllers/category.controllers.js:40-41 | the id-string filter keeps at most one document of a table with increasing ids |
| Queries.BothFiltersWithinNameOnly | src/controllers/category.controllers.js:34-39 | the both-filters answer is empty, and what it evidently meant to keep lies within the name-only answer |
| CategoryModel.Build | src/models/category.models.js:4-30 | a body is accepted exactly when name, image and description are present and non-empty after trimming and `tax_applicable` is present; the document holds the trimmed strings, the flag and the optional tax |
| CategoryModel.ApplyPatch | src/controllers/category.controllers.js:57 | each path in the patch replaces the stored one (strings trimmed), every other path and the id are kept |
| CategoryModel.EmptyPatchIsIdentity | src/controllers/category.controllers.js:57 | an empty patch changes nothing |
| SubCategoryModel.Build | src/models/subcategory.models.js:4-34 | accepted exactly when the three strings are present and non-empty after trimming, `tax_applicable` is present and `parent` is absent or casts; `parent` is optional; the document holds the trimmed strings and the cast parent |
| SubCategoryModel.ApplyPatch | api/controllers/subcategory.controllers.js:96 | merge patch; `parent` too can be re-pointed |
| ItemModel.Validate | api/models/items.models.js:4-49 | accepted exactly when name, image, description (non-empty after trimming), `tax_applicable`, `base_amount`, `discount` are present and the owner references cast; a client `total_amount` is kept until the hook |
| ItemModel.Conforms | api/models/items.models.js:4-49 | the item schema's validation: name, image and description present and non-empty once trimmed; `tax_applicable`, `base_amount` and `discount` present; each owner reference absent or castable |
| ItemModel.WithTotal | api/models/items.models.js:52-55 | the total is base minus discount and every other path is as before |
| ItemModel.ItemDocument.PreSave | api/models/items.models.js:52-55 | the hook assigns the total on the document in place, leaving every other path |
| ItemModel.ItemDocument.constructor | src/controllers/category.controllers.js:80 | wraps a validated document |
| ItemModel.Build | api/models/items.models.js:4-55 | the saved document: accepted exactly when the body conforms; trimmed strings, amounts, cast references; total always base minus discount |
| ItemModel.ApplyPatch | src/controllers/items.controller.js:23 | merge patch; `total_amount` changes only when the patch sets it |
| ItemModel.PatchCasts | src/controllers/items.controller.js:23 | `updateOne` can cast the update: each owner reference in the patch is absent or castable |
| ItemModel.ClientTotalIgnored | api/models/items.models.js:38-40 | a `total_amount` in a create body has no effect on the saved document |
| ItemModel.PaddedNamesCollide | api/models/items.models.js:5-10 | names differing only by surrounding white space are stored as the same name, so they collide on the unique index |
| ItemModel.OwnerReferencesOptional | api/models/items.models.js:41-48 | neither owner reference is required and nothing requires exactly one |
| ItemModel.UpdateLeavesTotalStale | src/controllers/items.controller.js:23 | a patch to `discount` leaves the stored total, which then differs from base minus discount |
| Storage.Store.constructor | src/models/category.models.js:33-37 | three empty tables |
| Storage.Store.Valid | src/models/category.models.js:5-10 | the invariant every store method keeps: in each table ids increase in store order and lie below the next fresh id, and no two documents share a name (the unique index) |
| Storage.Store.InsertCategory | src/controllers/category.controllers.js:8 | stores the category exactly when no category has its name, and keeps the invariant |
| Storage.Store.InsertSubCategory | api/controllers/subcategory.controllers.js:75 | stores the subcategory exactly when no subcategory has its name |
| Storage.Store.InsertItem | src/controllers/category.controllers.js:80 | stores the item exactly when no item has its name |
| Storage.Store.UpdateCategory | src/controllers/category.controllers.js:57 | unknown id: no change, no error; otherwise the patched document replaces the stored one unless its name is another document's |
| Storage.Store.UpdateSubCategory | api/controllers/subcategory.controllers.js:96 | as above for subcategories |
| Storage.Store.UpdateItem | src/controllers/items.controller.js:23 | as above for items |
| CategoryController.CreateCategory | src/controllers/category.controllers.js:5-23 | validation error: failure, nothing stored; name taken: duplicate, nothing stored; else created and appended |
| CategoryController.CreateSameNameTwice | src/controllers/category.controllers.js:12-15 | two creates whose names trim alike never both create; the second is a duplicate when it validates |
| CategoryController.GetCategories | src/controllers/category.controllers.js:26-52 | the four-way list branch over categories, each kept document as often as in the table |
| CategoryController.UpdateCategory | src/controllers/category.controllers.js:55-64 | a malformed id fails; an unknown id reports success and changes nothing; otherwise the merge patch, refused on a name collision |
| CategoryController.CategoryItemDocument | src/controllers/category.controllers.js:77-80 | the saved item references the path category and keeps every other body field (strings trimmed, `subcategory` cast to the id whose text the body gave), with the derived total |
| CategoryController.CreateCategoryItem | src/controllers/category.controllers.js:67-87 | malformed id fails; unknown category is not found and stores nothing; otherwise the item is saved with `category` the path id, or nothing is stored and the cause is a validation error or a taken name |
| SubCategoryController.IsCategoryPresent | api/controllers/subcategory.controllers.js:5-12 | the category with that id text; nothing exactly when none has it, a lookup error included |
| SubCategoryController.GetSubCategoriesByParent | api/controllers/subcategory.controllers.js:15-21 | names of exactly the subcategories whose parent is the id, in store order; empty for an unknown parent; failure for a malformed id |
| SubCategoryController.GetSubCategories | api/controllers/subcategory.controllers.js:24-49 | the four-way list branch over subcategories, each kept document as often as in the table |
| SubCategoryController.Inherit | api/controllers/subcategory.controllers.js:65-71 | a falsy `tax_applicable` or `tax` takes the parent's value, a truthy one is kept; `parent` is the path id whatever the body said |
| SubCategoryController.SubCategoryDocument | api/controllers/subcategory.controllers.js:62-75 | accepted exactly when the three strings are; tax settings from the body when truthy, from the parent otherwise; parent is the path category |
| SubCategoryController.CreateSubCategory | api/controllers/subcategory.controllers.js:52-91 | unknown parent: not found, nothing stored; validation error: failure; name taken: duplicate, nothing stored; else the inherited document is appended |
| SubCategoryController.CreatedSubCategoryIsListed | api/controllers/subcategory.controllers.js:15-21 | a subcategory created under a category is listed among its children |
| SubCategoryController.UpdateSubCategory | api/controllers/subcategory.controllers.js:94-103 | a malformed id or parent fails; otherwise as the category update |
| SubCategoryController.CreateSubCategoryItemAsWritten | api/controllers/subcategory.controllers.js:106-128 | as written: not found for an unknown subcategory, failure otherwise, never created |
| SubCategoryController.SubCategoryItemDocument | api/controllers/subcategory.controllers.js:118-121 | the saved item references the path subcategory and keeps every other body field (strings trimmed, `category` cast to the id whose text the body gave), with the derived total |
| SubCategoryController.CreateSubCategoryItem | api/controllers/subcategory.controllers.js:106-128 | with the model in scope: unknown subcategory is not found, nothing stored; otherwise saved with `subcategory` the path id, or nothing stored |
| ItemsController.NameMatches | src/controllers/items.controller.js:8-10 | the search predicate on an item: its name matches the query case-insensitively |
| ItemsController.SearchItem | src/controllers/items.controller.js:4-18 | empty for an absent or empty query; otherwise exactly the items whose name contains the query ignoring case, in store order and each as often as in the table |
| ItemsController.SearchFindsSubstring | src/controllers/items.controller.js:7-10 | an item whose name contains the query verbatim is found |
| ItemsController.SearchIgnoresQueryCase | src/controllers/items.controller.js:9 | the letter case of the query does not change the answer |
| ItemsController.SearchExample | src/controllers/items.controller.js:7-10 | "lap" finds "Laptop" and "Laptop Pro" but not "Mouse" |
| ItemsController.UpdateItem | src/controllers/items.controller.js:21-30 | a malformed id or reference fails; otherwise the merge patch, total not recomputed |
| ItemsController.GetItems | src/controllers/items.controller.js:33-56 | the four-way list branch over items, each kept document as often as in the table |
| ItemsController.GetCategoryItems | src/controllers/items.controller.js:59-70 | exactly the items whose category is the id, in store order and each as often as in the table; empty for an unknown id; failure for a malformed id |
| ItemsController.GetSubCategoryItems | src/controllers/items.controller.js:73-84 | exactly the items whose subcategory is the id, in store order and each as often as in the table; empty for an unknown id |
| ItemsController.CreatedCategoryItemIsListed | src/controllers/items.controller.js:59-63 | an item created under a category is listed by that category |
| ItemsController.CreatedSubCategoryItemIsListed | src/controllers/items.controller.js:73-77 | an item created under a subcategory is listed by that subcategory |

## Left out

- ObjectId text: ids are natural numbers written as canonical decimal numerals, not 24-digit hexadecimal; ObjectId generation is a fresh counter. Mongoose casts a hexadecimal id in either letter case, so `findById`, `updateOne` and the reference queries also find a document by an upper-case spelling, while the id filter of the list endpoints (`c._id.toString() === idFilter`) matches only the lower-case text. The model has one spelling per id and does not show that difference.
- A client `_id` in a create body is kept by `new CategoryModel(req.body)` (and the other two models). One that collides with a stored id answers as a duplicate on `createCategory` and `createSubCategory`, and as the generic failure on the two item create endpoints, whose error handlers do not test for the duplicate-key code; request bodies here carry no `_id`, and every document gets a fresh id.
- ItemsController.SearchItem: the query is matched as a plain substring; regular-expression metacharacters in it are not interpreted, and case folding covers the ASCII letters only.
- Request bodies carry only schema paths with their schema types (strict mode drops the rest); casting of other JSON values (a string `"true"` for a boolean, a numeric string for a number) is not modelled.
- Amounts are whole numbers (for instance cents): the JavaScript floating-point subtraction in the hook is not modelled.
- The database is reached without concurrency: two requests racing on the unique index, async scheduling and storage exceptions are not modelled; neither are the JSON response shapes (including the `ok: true` answer of the item listings' error paths) beyond `Outcome`.
- A listing whose id does not cast is `None`: the code either leaves the rejection unhandled (`getSubCategoriesByParent`) or answers with an error message; the difference is not modelled.
- Express routing, the server, the database connection and the API documentation are not part of this model, nor the duplicate copy of the app in the other source tree.

## Findings

| source | as written | input that shows it | evidently intended | confidence | as-written member | corrected member |
|---|---|---|---|---|---|---|
| api/controllers/subcategory.controllers.js:121 | `ItemModel` is used but never imported (lines 1-2), so the handler throws a ReferenceError, caught as a generic failure | any request whose path id is an existing subcategory, with a valid item body | save the item with `subcategory` set to the path id | not executed | SubCategoryController.CreateSubCategoryItemAsWritten | SubCategoryController.CreateSubCategoryItem |
