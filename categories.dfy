/** The category handlers (controllers/categoryController.js). Reads are
    public; create, update and delete check `req.user.role` themselves
    before anything else, on top of the route's `authorize(["admin"])`. */
module CategoriesController {
  import opened Types
  import opened Text
  import opened Http
  import opened Schema
  import opened Listing
  import opened Db

  const CreateAdminOnlyError := "Only admins can create categories"
  const UpdateAdminOnlyError := "Only admins can update categories"
  const DeleteAdminOnlyError := "Only admins can delete categories"
  const InvalidCategoryIdError := "Invalid category ID format"
  const CategoryNotFoundError := "Category not found"
  const CategoryDeletedMessage := "Category deleted successfully"

  /** `createCategory`: 403 unless the user is an administrator; then
      `Category.create(req.body)`, whose refusal or duplicate name is
      forwarded as an error. Without `req.user` reading the role throws. */
  method CreateCategory(s: Store, user: Option<Claims>, body: Body) returns (r: Reply<(Id, Category)>)
    requires s.Valid()
    modifies s
    ensures s.Valid()
    ensures s.users == old(s.users) && s.notes == old(s.notes) && s.tags == old(s.tags)
    ensures user.None? ==> r.Forwarded? && unchanged(s)
    ensures user.Some? && user.value.role != AdminRole ==> r == Refused(403, CreateAdminOnlyError) && unchanged(s)
    ensures r.Ok? <==> && user.Some? && user.value.role == AdminRole
                       && NewCategory(body).Some? && !CategoryNameUsed(old(s.categories), NewCategory(body).value.name, None)
    ensures !r.Ok? ==> s.categories == old(s.categories)
    ensures r.Ok? ==> && r.status == 201 && r.data.0 !in old(s.categories)
                      && NewCategory(body) == Some(r.data.1)
                      && s.categories == old(s.categories)[r.data.0 := r.data.1]
  {
    if user.None? {
      return Forwarded;
    }
    if user.value.role != AdminRole {
      return Refused(403, CreateAdminOnlyError);
    }
    var saved := s.CreateCategory(body);
    if !saved.Saved? {
      return Forwarded;
    }
    r := Ok(201, (saved.id, saved.doc));
  }

  /** `getAllCategories`: every category, each once, by name ascending. */
  method GetAllCategories(s: Store) returns (r: Reply<Page<(Id, Category)>>)
    requires s.Valid()
    ensures r.Ok? && r.status == 200 && r.data.count == |r.data.data|
    ensures forall p :: p in r.data.data <==> p.0 in s.categories && s.categories[p.0] == p.1
    ensures forall i, j :: 0 <= i < j < |r.data.data| ==> r.data.data[i].0 != r.data.data[j].0
    ensures SortedBy(r.data.data, CategoryNameOrder)
  {
    CategoryNameOrderTotal();
    var categories := Query(s.categories, s.clock, (id: Id, c: Category) => true, CategoryNameOrder);
    r := Ok(200, Page(|categories|, categories));
  }

  /** `getCategoryById`: 400 for a malformed id, 404 for an absent one. */
  method GetCategoryById(s: Store, id: IdParam) returns (r: Reply<(Id, Category)>)
    ensures id.Malformed? ==> r == Refused(400, InvalidCategoryIdError)
    ensures r.Ok? <==> id.Wellformed? && id.id in s.categories
    ensures r.Ok? ==> r == Ok(200, (id.id, s.categories[id.id]))
    ensures id.Wellformed? && !r.Ok? ==> r == Refused(404, CategoryNotFoundError)
  {
    if id.Malformed? {
      return Refused(400, InvalidCategoryIdError);
    }
    if id.id !in s.categories {
      return Refused(404, CategoryNotFoundError);
    }
    r := Ok(200, (id.id, s.categories[id.id]));
  }

  /** `updateCategory`: the role check comes before the id check; then the
      update's validators, then 404 for an absent category. */
  method UpdateCategory(s: Store, user: Option<Claims>, id: IdParam, body: Body) returns (r: Reply<(Id, Category)>)
    requires s.Valid()
    modifies s
    ensures s.Valid()
    ensures s.users == old(s.users) && s.notes == old(s.notes) && s.tags == old(s.tags) && s.clock == old(s.clock)
    ensures user.None? ==> r.Forwarded?
    ensures user.Some? && user.value.role != AdminRole ==> r == Refused(403, UpdateAdminOnlyError)
    ensures user.Some? && user.value.role == AdminRole && id.Malformed? ==> r == Refused(400, InvalidCategoryIdError)
    ensures r == Refused(404, CategoryNotFoundError) <==>
      user.Some? && user.value.role == AdminRole && id.Wellformed? && CategoryUpdateValid(body) && id.id !in old(s.categories)
    ensures r.Ok? <==> && user.Some? && user.value.role == AdminRole
                       && id.Wellformed? && CategoryUpdateValid(body) && id.id in old(s.categories)
                       && (body.name.Some? ==> !CategoryNameUsed(old(s.categories), Trim(body.name.value), Some(id.id)))
    ensures && user.Some? && user.value.role == AdminRole && id.Wellformed? && !CategoryUpdateValid(body) ==> r.Forwarded?
    ensures (&& user.Some? && user.value.role == AdminRole && id.Wellformed? && CategoryUpdateValid(body) && id.id in old(s.categories)
             && body.name.Some? && CategoryNameUsed(old(s.categories), Trim(body.name.value), Some(id.id))) ==> r.Forwarded?
    ensures !r.Ok? ==> s.categories == old(s.categories)
    ensures r.Ok? ==> && user.Some? && user.value.role == AdminRole && id.Wellformed? && id.id in old(s.categories)
                      && r.status == 200 && r.data.0 == id.id
                      && PatchCategory(old(s.categories)[id.id], body) == Some(r.data.1)
                      && !CategoryNameUsed(old(s.categories), r.data.1.name, Some(id.id))
                      && s.categories == old(s.categories)[id.id := r.data.1]
  {
    if user.None? {
      return Forwarded;
    }
    if user.value.role != AdminRole {
      return Refused(403, UpdateAdminOnlyError);
    }
    if id.Malformed? {
      return Refused(400, InvalidCategoryIdError);
    }
    var saved := s.UpdateCategory(id.id, body);
    if saved.Missing? {
      return Refused(404, CategoryNotFoundError);
    }
    if !saved.Saved? {
      return Forwarded;
    }
    r := Ok(200, (id.id, saved.doc));
  }

  /** `deleteCategory`: role check, then id check, then 404; notes that use
      the category's name keep it. */
  method DeleteCategory(s: Store, user: Option<Claims>, id: IdParam) returns (r: Reply<Done>)
    requires s.Valid()
    modifies s
    ensures s.Valid()
    ensures s.users == old(s.users) && s.notes == old(s.notes) && s.tags == old(s.tags) && s.clock == old(s.clock)
    ensures user.None? ==> r.Forwarded?
    ensures user.Some? && user.value.role != AdminRole ==> r == Refused(403, DeleteAdminOnlyError)
    ensures user.Some? && user.value.role == AdminRole && id.Malformed? ==> r == Refused(400, InvalidCategoryIdError)
    ensures r.Ok? <==> user.Some? && user.value.role == AdminRole && id.Wellformed? && id.id in old(s.categories)
    ensures user.Some? && user.value.role == AdminRole && id.Wellformed? && !r.Ok? ==> r == Refused(404, CategoryNotFoundError)
    ensures r.Ok? ==> r == Ok(200, Done(Some(CategoryDeletedMessage)))
    ensures s.categories == if r.Ok? then old(s.categories) - {id.id} else old(s.categories)
  {
    if user.None? {
      return Forwarded;
    }
    if user.value.role != AdminRole {
      return Refused(403, DeleteAdminOnlyError);
    }
    if id.Malformed? {
      return Refused(400, InvalidCategoryIdError);
    }
    var found := s.DeleteCategory(id.id);
    if !found {
      assert s.categories == old(s.categories);
      return Refused(404, CategoryNotFoundError);
    }
    r := Ok(200, Done(Some(CategoryDeletedMessage)));
  }
}
