/** The category handlers: list, create, update and delete a category,
    with the same ownership guard as the other resources. */
module CategoryController {
  import opened Wrappers
  import opened Ledger
  import opened Invariants
  import opened Listing
  import Views

  /** The fields of a request body; `None` is a field the client left out.
      `user` is a client-supplied owner id that only update passes on. */
  datatype CategoryBody = CategoryBody(
    name: Option<string>,
    description: Option<string>,
    subcategories: Option<seq<string>>,
    user: Option<Id>)

  /** `getCategories`: exactly the categories the caller owns, each once. */
  method List(s: Store, caller: Id) returns (r: seq<(Id, Category)>)
    ensures forall e :: e in r ==> e.0 in s.categories && s.categories[e.0] == e.1 && e.1.owner == caller
    ensures multiset(KeysOf(r)) == multiset(OwnedKeys(s.categories, CategoryOwner, caller))
  {
    r := CollectOwned(s.categories, CategoryOwner, caller);
  }

  /** `createCategory`: name and description as sent, subcategories
      defaulting to the empty list, the caller as owner. The schema requires
      a non-empty name; that and an id clash are a 400. */
  function Create(s: Store, caller: Id, newId: Id, body: CategoryBody): (r: Reply<Category>)
    ensures r.Failed? <==> body.name.None? || body.name == Some("") || newId in s.categories
    ensures r.Failed? ==> r.failure == BadRequest
    ensures r.Done? ==>
      && r.body.owner == caller
      && Some(r.body.name) == body.name
      && r.body.description == body.description
      && r.body.subcategories == body.subcategories.GetOr([])
      && r.store == s.(categories := s.categories[newId := r.body])
  {
    if body.name.None? || body.name == Some("") || newId in s.categories then Failed(BadRequest)
    else
      var c := Category(caller, body.name.value, body.description, body.subcategories.GetOr([]));
      Done(s.(categories := s.categories[newId := c]), c)
  }

  function CategoryOwnerOf(s: Store, id: Id): (o: Option<Id>)
    ensures o.Some? <==> id in s.categories
    ensures o.Some? ==> o.value == s.categories[id].owner
  {
    if id in s.categories then Some(s.categories[id].owner) else None
  }

  /** `findByIdAndUpdate(id, req.body)` on a category: every supplied field
      overwrites the stored one; the rest is kept. */
  function Merge(c: Category, body: CategoryBody): (r: Category)
    ensures r.owner == body.user.GetOr(c.owner)
    ensures r.name == body.name.GetOr(c.name)
    ensures r.description == (if body.description.Some? then body.description else c.description)
    ensures r.subcategories == body.subcategories.GetOr(c.subcategories)
  {
    Category(
      body.user.GetOr(c.owner),
      body.name.GetOr(c.name),
      if body.description.Some? then body.description else c.description,
      body.subcategories.GetOr(c.subcategories))
  }

  /** `updateCategory`: the ownership guard, then the field merge. */
  function Update(s: Store, caller: Id, id: Id, body: CategoryBody): (r: Reply<Category>)
    ensures id !in s.categories ==> r == Failed(NotFound)
    ensures id in s.categories && s.categories[id].owner != caller ==> r == Failed(Unauthorized)
    ensures r.Done? <==> id in s.categories && s.categories[id].owner == caller
    ensures r.Done? ==> r.body == Merge(s.categories[id], body) && r.store == s.(categories := s.categories[id := r.body])
  {
    match Guard(CategoryOwnerOf(s, id), caller)
    case Some(f) => Failed(f)
    case None =>
      var c := Merge(s.categories[id], body);
      Done(s.(categories := s.categories[id := c]), c)
  }

  /** `deleteCategory`: the ownership guard, then removal of the category
      alone; transactions keep the deleted id. */
  function Delete(s: Store, caller: Id, id: Id): (r: Reply<()>)
    ensures id !in s.categories ==> r == Failed(NotFound)
    ensures id in s.categories && s.categories[id].owner != caller ==> r == Failed(Unauthorized)
    ensures r.Done? <==> id in s.categories && s.categories[id].owner == caller
    ensures r.Done? ==> r.store == s.(categories := s.categories - {id})
  {
    match Guard(CategoryOwnerOf(s, id), caller)
    case Some(f) => Failed(f)
    case None => Done(s.(categories := s.categories - {id}), ())
  }

  /** Category handlers never touch accounts or transactions, so the
      balance invariant, the sign rule and account integrity all survive
      them, whatever their outcome. */
  lemma HandlersKeepLedger(s: Store, base: map<Id, real>, caller: Id, id: Id, body: CategoryBody)
    requires Consistent(s, base) && SignsMatch(s) && Resolved(s)
    ensures var s' := After(s, Create(s, caller, id, body));
            Consistent(s', base) && SignsMatch(s') && Resolved(s')
    ensures var s' := After(s, Update(s, caller, id, body));
            Consistent(s', base) && SignsMatch(s') && Resolved(s')
    ensures var s' := After(s, Delete(s, caller, id));
            Consistent(s', base) && SignsMatch(s') && Resolved(s')
  {
  }

  /** After a category is deleted, every transaction that used it is shown
      with no category, which the reports label "Uncategorized". */
  lemma DeletedCategoryShowsUncategorized(s: Store, caller: Id, id: Id, k: Id)
    requires id in s.categories && s.categories[id].owner == caller
    requires k in s.transactions && s.transactions[k].category == id
    ensures var s' := Delete(s, caller, id).store;
            && k in s'.transactions
            && Populate(s', k).category.None?
            && Views.CategoryLabel(Populate(s', k)) == Views.UNCATEGORIZED
  {
  }

  /** Renaming a category renames it in every populated transaction view. */
  lemma RenameShowsInViews(s: Store, caller: Id, id: Id, k: Id, name: string)
    requires id in s.categories && s.categories[id].owner == caller && name != ""
    requires k in s.transactions && s.transactions[k].category == id
    ensures var s' := Update(s, caller, id, CategoryBody(Some(name), None, None, None)).store;
            && k in s'.transactions
            && Views.CategoryLabel(Populate(s', k)) == name
  {
  }
}
