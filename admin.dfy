/** The administration handlers (controllers/adminController.js). Every
    route that reaches them has passed `authenticate` and `authorize(["admin"])`
    (see Routes); the handlers themselves only look at `req.user` to stop an
    administrator from deleting their own account. */
module AdminController {
  import opened Types
  import opened Text
  import opened Http
  import opened Schema
  import opened Listing
  import opened Db

  const InvalidUserIdError := "Invalid user ID"
  const UserNotFoundError := "User not found"
  const SelfDeleteError := "Cannot delete yourself"
  const InvalidNoteIdError := "Invalid note ID"
  const NoteNotFoundError := "Note not found"
  const InvalidCategoryIdError := "Invalid category ID"
  const CategoryNotFoundError := "Category not found"
  const InvalidTagIdError := "Invalid tag ID"
  const TagNotFoundError := "Tag not found"

  /** The colour `createTagAdmin` gives a tag created without one. It is not
      the schema's own default (#3b82f6). */
  const AdminTagColorDefault: string := "#6366f1"

  /** How many users and notes the dashboard lists. */
  const RecentLimit: nat := 5

  /** Users as listed: `select("-password")` on each. */
  function PublicAll(e: seq<(Id, User)>): (r: seq<PublicUser>)
    ensures |r| == |e|
    ensures forall i :: 0 <= i < |e| ==> r[i] == Public(e[i].0, e[i].1)
  {
    seq(|e|, i requires 0 <= i < |e| => Public(e[i].0, e[i].1))
  }

  /** A listed user appears, without the password, in the public list. */
  lemma PublicAllLists(e: seq<(Id, User)>, x: (Id, User))
    requires x in e
    ensures exists i :: 0 <= i < |PublicAll(e)| && PublicAll(e)[i].id == x.0
  {
    var i :| 0 <= i < |e| && e[i] == x;
    assert PublicAll(e)[i].id == x.0;
  }

  // ===== users =====

  /** `getAllUsers`: every user without the password, newest first. */
  method GetAllUsers(s: Store) returns (r: Reply<Page<PublicUser>>)
    requires s.Valid()
    ensures r.Ok? && r.status == 200 && r.data.count == |r.data.data|
    ensures forall i :: 0 <= i < |r.data.data| ==>
      r.data.data[i].id in s.users && r.data.data[i] == Public(r.data.data[i].id, s.users[r.data.data[i].id])
    ensures forall id :: id in s.users ==> exists i :: 0 <= i < |r.data.data| && r.data.data[i].id == id
    ensures forall i, j :: 0 <= i < j < |r.data.data| ==> r.data.data[i].id > r.data.data[j].id
  {
    var m := s.users;
    var e := ByNewest(m, s.clock);
    var users := PublicAll(e);
    forall id | id in m
      ensures exists i :: 0 <= i < |users| && users[i].id == id
    {
      PublicAllLists(e, (id, m[id]));
    }
    r := Ok(200, Page(|users|, users));
  }

  /** `getUserById`: 400 for a malformed id, 404 for an absent user, and
      otherwise the user without the password. */
  method GetUserById(s: Store, id: IdParam) returns (r: Reply<PublicUser>)
    ensures id.Malformed? ==> r == Refused(400, InvalidUserIdError)
    ensures r.Ok? <==> id.Wellformed? && id.id in s.users
    ensures r.Ok? ==> r == Ok(200, Public(id.id, s.users[id.id]))
    ensures id.Wellformed? && !r.Ok? ==> r == Refused(404, UserNotFoundError)
  {
    if id.Malformed? {
      return Refused(400, InvalidUserIdError);
    }
    if id.id !in s.users {
      return Refused(404, UserNotFoundError);
    }
    r := Ok(200, Public(id.id, s.users[id.id]));
  }

  /** The `updateData` of `updateUser`: the email when it is truthy, the
      role when it is truthy and one of the enum's names. Anything else in
      the body, the password included, is dropped. */
  function UserUpdate(body: Body): (r: (Option<string>, Option<Role>))
    ensures r.0.Some? <==> Truthy(body.email)
    ensures r.0.Some? ==> r.0 == body.email
    ensures r.1.Some? <==> body.role.Some? && (body.role.value == "user" || body.role.value == "admin")
    ensures r.1.Some? ==> r.1.value.Name() == body.role.value
  {
    var email := if Truthy(body.email) then body.email else None;
    var role := if Truthy(body.role) then ParseRole(body.role.value) else None;
    (email, role)
  }

  /** `updateUser`: 400 for a malformed id; a truthy email is cast and
      checked (a failure, or an email another user has, is forwarded as an
      error); 404 when there is no such user; otherwise the user, without
      the password, with the new email and role. An unknown role is
      silently ignored, and the password is never changed. */
  method UpdateUser(s: Store, id: IdParam, body: Body) returns (r: Reply<PublicUser>)
    requires s.Valid()
    modifies s
    ensures s.Valid()
    ensures s.notes == old(s.notes) && s.tags == old(s.tags) && s.categories == old(s.categories) && s.clock == old(s.clock)
    ensures id.Malformed? ==> r == Refused(400, InvalidUserIdError)
    ensures !r.Ok? ==> s.users == old(s.users)
    ensures r == Refused(404, UserNotFoundError) <==>
      id.Wellformed? && id.id !in old(s.users) && (!Truthy(body.email) || CastEmail(body.email.value, s.emailShape).Some?)
    ensures r.Ok? <==> && id.Wellformed? && id.id in old(s.users)
                       && (Truthy(body.email) ==> CastEmail(body.email.value, s.emailShape).Some?
                                                  && !EmailUsed(old(s.users), Lower(body.email.value), Some(id.id)))
    ensures id.Wellformed? && Truthy(body.email) && CastEmail(body.email.value, s.emailShape).None? ==> r.Forwarded?
    ensures (&& id.Wellformed? && id.id in old(s.users) && Truthy(body.email) && CastEmail(body.email.value, s.emailShape).Some?
             && EmailUsed(old(s.users), Lower(body.email.value), Some(id.id))) ==> r.Forwarded?
    ensures r.Ok? ==> && id.Wellformed? && id.id in old(s.users) && id.id in s.users
                      && r == Ok(200, Public(id.id, s.users[id.id]))
                      && s.users == old(s.users)[id.id := s.users[id.id]]
                      && s.users[id.id].email == (if Truthy(body.email) then Lower(body.email.value) else old(s.users)[id.id].email)
                      && s.users[id.id].role == (if UserUpdate(body).1.Some? then UserUpdate(body).1.value else old(s.users)[id.id].role)
                      && s.users[id.id].password == old(s.users)[id.id].password
  {
    if id.Malformed? {
      return Refused(400, InvalidUserIdError);
    }
    var (email, role) := UserUpdate(body);
    var saved := s.UpdateUser(id.id, email, role);
    if saved.Missing? {
      return Refused(404, UserNotFoundError);
    }
    if !saved.Saved? {
      return Forwarded;
    }
    r := Ok(200, Public(id.id, saved.doc));
  }

  /** `deleteUser`: 400 for a malformed id, 404 for an absent user, 400 when
      the administrator names their own account; otherwise every note the
      user owns is deleted, then the user. Without `req.user` the
      comparison throws and the error is forwarded. */
  method DeleteUser(s: Store, actor: Option<Claims>, id: IdParam) returns (r: Reply<Done>)
    requires s.Valid()
    modifies s
    ensures s.Valid()
    ensures s.tags == old(s.tags) && s.categories == old(s.categories) && s.clock == old(s.clock)
    ensures id.Malformed? ==> r == Refused(400, InvalidUserIdError)
    ensures id.Wellformed? && id.id !in old(s.users) ==> r == Refused(404, UserNotFoundError)
    ensures id.Wellformed? && id.id in old(s.users) && actor.None? ==> r.Forwarded?
    ensures id.Wellformed? && id.id in old(s.users) && actor.Some? && actor.value.id == id.id ==> r == Refused(400, SelfDeleteError)
    ensures r.Ok? <==> id.Wellformed? && id.id in old(s.users) && actor.Some? && actor.value.id != id.id
    ensures !r.Ok? ==> s.users == old(s.users) && s.notes == old(s.notes)
    ensures r.Ok? ==> && r == Ok(200, Done(None))
                      && s.users == old(s.users) - {id.id}
                      && (forall n :: n in s.notes ==> s.notes[n].userId != id.id)
                      && (forall n :: n in old(s.notes) && old(s.notes)[n].userId != id.id ==> n in s.notes && s.notes[n] == old(s.notes)[n])
                      && (forall n :: n in s.notes ==> n in old(s.notes))
  {
    if id.Malformed? {
      return Refused(400, InvalidUserIdError);
    }
    if id.id !in s.users {
      return Refused(404, UserNotFoundError);
    }
    if actor.None? {
      return Forwarded;
    }
    if id.id == actor.value.id {
      return Refused(400, SelfDeleteError);
    }
    s.DeleteNotesOf(id.id);
    s.DeleteUser(id.id);
    r := Ok(200, Done(None));
  }

  // ===== notes =====

  /** `getAllNotesAdmin`: every user's notes, newest first. */
  method GetAllNotesAdmin(s: Store) returns (r: Reply<Page<(Id, Note)>>)
    requires s.Valid()
    ensures r.Ok? && r.status == 200 && r.data.count == |r.data.data|
    ensures forall p :: p in r.data.data <==> p.0 in s.notes && s.notes[p.0] == p.1
    ensures forall i, j :: 0 <= i < j < |r.data.data| ==> r.data.data[i].0 > r.data.data[j].0
  {
    var notes := ByNewest(s.notes, s.clock);
    r := Ok(200, Page(|notes|, notes));
  }

  /** `deleteNoteAdmin`: any user's note, without an ownership check. */
  method DeleteNoteAdmin(s: Store, id: IdParam) returns (r: Reply<Done>)
    requires s.Valid()
    modifies s
    ensures s.Valid()
    ensures s.users == old(s.users) && s.tags == old(s.tags) && s.categories == old(s.categories) && s.clock == old(s.clock)
    ensures id.Malformed? ==> r == Refused(400, InvalidNoteIdError)
    ensures r.Ok? <==> id.Wellformed? && id.id in old(s.notes)
    ensures id.Wellformed? && !r.Ok? ==> r == Refused(404, NoteNotFoundError)
    ensures r.Ok? ==> r == Ok(200, Done(None))
    ensures s.notes == if r.Ok? then old(s.notes) - {id.id} else old(s.notes)
  {
    if id.Malformed? {
      return Refused(400, InvalidNoteIdError);
    }
    var found := s.DeleteNote(id.id);
    if !found {
      assert s.notes == old(s.notes);
      return Refused(404, NoteNotFoundError);
    }
    r := Ok(200, Done(None));
  }

  // ===== categories =====

  /** `createCategoryAdmin`: `Category.create(req.body)` with no body
      validator in front; the schema's refusal or a duplicate name is
      forwarded as an error. */
  method CreateCategoryAdmin(s: Store, body: Body) returns (r: Reply<(Id, Category)>)
    requires s.Valid()
    modifies s
    ensures s.Valid()
    ensures s.users == old(s.users) && s.notes == old(s.notes) && s.tags == old(s.tags)
    ensures r.Ok? || r.Forwarded?
    ensures r.Ok? <==> NewCategory(body).Some? && !CategoryNameUsed(old(s.categories), NewCategory(body).value.name, None)
    ensures !r.Ok? ==> s.categories == old(s.categories)
    ensures r.Ok? ==> && r.status == 201 && r.data.0 !in old(s.categories)
                      && NewCategory(body) == Some(r.data.1)
                      && s.categories == old(s.categories)[r.data.0 := r.data.1]
  {
    var saved := s.CreateCategory(body);
    if !saved.Saved? {
      return Forwarded;
    }
    r := Ok(201, (saved.id, saved.doc));
  }

  /** `updateCategoryAdmin`: 400 for a malformed id; the update's validators,
      then 404 for an absent category. */
  method UpdateCategoryAdmin(s: Store, id: IdParam, body: Body) returns (r: Reply<(Id, Category)>)
    requires s.Valid()
    modifies s
    ensures s.Valid()
    ensures s.users == old(s.users) && s.notes == old(s.notes) && s.tags == old(s.tags) && s.clock == old(s.clock)
    ensures id.Malformed? ==> r == Refused(400, InvalidCategoryIdError)
    ensures r == Refused(404, CategoryNotFoundError) <==> id.Wellformed? && CategoryUpdateValid(body) && id.id !in old(s.categories)
    ensures id.Wellformed? && !CategoryUpdateValid(body) ==> r.Forwarded?
    ensures r.Ok? <==> && id.Wellformed? && CategoryUpdateValid(body) && id.id in old(s.categories)
                       && (body.name.Some? ==> !CategoryNameUsed(old(s.categories), Trim(body.name.value), Some(id.id)))
    ensures (&& id.Wellformed? && CategoryUpdateValid(body) && id.id in old(s.categories)
             && body.name.Some? && CategoryNameUsed(old(s.categories), Trim(body.name.value), Some(id.id))) ==> r.Forwarded?
    ensures !r.Ok? ==> s.categories == old(s.categories)
    ensures r.Ok? ==> && id.Wellformed? && id.id in old(s.categories) && r.status == 200 && r.data.0 == id.id
                      && PatchCategory(old(s.categories)[id.id], body) == Some(r.data.1)
                      && !CategoryNameUsed(old(s.categories), r.data.1.name, Some(id.id))
                      && s.categories == old(s.categories)[id.id := r.data.1]
  {
    if id.Malformed? {
      return Refused(400, InvalidCategoryIdError);
    }
    var saved := s.UpdateCategory(id.id, body);
    if saved.Missing? {
      return Refused(404, CategoryNotFoundError);
    }
    if !saved.Saved? {
      return Forwarded;
    }
    r := Ok(200, (id.id, saved.doc));
  }

  /** `deleteCategoryAdmin`: notes keep their category names. */
  method DeleteCategoryAdmin(s: Store, id: IdParam) returns (r: Reply<Done>)
    requires s.Valid()
    modifies s
    ensures s.Valid()
    ensures s.users == old(s.users) && s.notes == old(s.notes) && s.tags == old(s.tags) && s.clock == old(s.clock)
    ensures id.Malformed? ==> r == Refused(400, InvalidCategoryIdError)
    ensures r.Ok? <==> id.Wellformed? && id.id in old(s.categories)
    ensures id.Wellformed? && !r.Ok? ==> r == Refused(404, CategoryNotFoundError)
    ensures r.Ok? ==> r == Ok(200, Done(None))
    ensures s.categories == if r.Ok? then old(s.categories) - {id.id} else old(s.categories)
  {
    if id.Malformed? {
      return Refused(400, InvalidCategoryIdError);
    }
    var found := s.DeleteCategory(id.id);
    if !found {
      assert s.categories == old(s.categories);
      return Refused(404, CategoryNotFoundError);
    }
    r := Ok(200, Done(None));
  }

  // ===== tags =====

  /** The document `createTagAdmin` hands to `Tag.create`: the name lower
      cased and trimmed, the colour when truthy and #6366f1 otherwise. The
      schema's own `lowercase` and `trim` then leave the name as it is, so
      the tag stored is exactly that document. */
  function AdminTagBody(name: string, color: Option<string>): (b: Body)
    ensures NewTag(b).Some? <==> CastTagName(name).Some? && (!Truthy(color) || ColorOk(color.value))
    ensures NewTag(b).Some? ==> NewTag(b).value == Tag(Normalize(name), if Truthy(color) then color.value else AdminTagColorDefault)
  {
    NormalizeIdempotent(name);
    EmptyBody.(name := Some(Normalize(name)), color := Some(if Truthy(color) then color.value else AdminTagColorDefault))
  }

  /** `createTagAdmin`: a body without a name throws on `toLowerCase` and is
      forwarded; otherwise the tag is created with the normalised name and
      the colour given, or #6366f1 when none is. */
  method CreateTagAdmin(s: Store, body: Body) returns (r: Reply<(Id, Tag)>)
    requires s.Valid()
    modifies s
    ensures s.Valid()
    ensures s.users == old(s.users) && s.notes == old(s.notes) && s.categories == old(s.categories)
    ensures r.Ok? || r.Forwarded?
    ensures body.name.None? ==> r.Forwarded? && unchanged(s)
    ensures r.Ok? <==> && body.name.Some? && CastTagName(body.name.value).Some?
                       && (!Truthy(body.color) || ColorOk(body.color.value))
                       && !TagNameUsed(old(s.tags), Normalize(body.name.value), None)
    ensures !r.Ok? ==> s.tags == old(s.tags)
    ensures r.Ok? ==> && r.status == 201 && r.data.0 !in old(s.tags)
                      && r.data.1 == Tag(Normalize(body.name.value), if Truthy(body.color) then body.color.value else AdminTagColorDefault)
                      && s.tags == old(s.tags)[r.data.0 := r.data.1]
  {
    if body.name.None? {
      return Forwarded;
    }
    var saved := s.CreateTag(AdminTagBody(body.name.value, body.color));
    if !saved.Saved? {
      return Forwarded;
    }
    r := Ok(201, (saved.id, saved.doc));
  }

  /** The `updateData` of `updateTagAdmin`: the normalised name when the
      body's name is truthy, the colour when it is truthy, nothing else. */
  function AdminTagUpdate(body: Body): (b: Body)
    ensures b.name == (if Truthy(body.name) then Some(Normalize(body.name.value)) else None)
    ensures b.color == (if Truthy(body.color) then body.color else None)
    ensures b == EmptyBody.(name := b.name, color := b.color)
    ensures TagUpdateValid(b) <==> && (Truthy(body.name) ==> CastTagName(body.name.value).Some?)
                                   && (Truthy(body.color) ==> ColorOk(body.color.value))
  {
    assert Truthy(body.name) ==> Normalize(Normalize(body.name.value)) == Normalize(body.name.value) by {
      if Truthy(body.name) {
        NormalizeIdempotent(body.name.value);
      }
    }
    EmptyBody.(
      name := if Truthy(body.name) then Some(Normalize(body.name.value)) else None,
      color := if Truthy(body.color) then body.color else None)
  }

  /** `updateTagAdmin`: 400 for a malformed id; only the truthy name
      (normalised) and colour are applied; 404 for an absent tag. */
  method UpdateTagAdmin(s: Store, id: IdParam, body: Body) returns (r: Reply<(Id, Tag)>)
    requires s.Valid()
    modifies s
    ensures s.Valid()
    ensures s.users == old(s.users) && s.notes == old(s.notes) && s.categories == old(s.categories) && s.clock == old(s.clock)
    ensures id.Malformed? ==> r == Refused(400, InvalidTagIdError)
    ensures r == Refused(404, TagNotFoundError) <==>
      && id.Wellformed? && id.id !in old(s.tags)
      && (Truthy(body.name) ==> CastTagName(body.name.value).Some?)
      && (Truthy(body.color) ==> ColorOk(body.color.value))
    ensures r.Ok? <==>
      && id.Wellformed? && id.id in old(s.tags)
      && (Truthy(body.name) ==> CastTagName(body.name.value).Some? && !TagNameUsed(old(s.tags), Normalize(body.name.value), Some(id.id)))
      && (Truthy(body.color) ==> ColorOk(body.color.value))
    ensures id.Wellformed? && ((Truthy(body.name) && CastTagName(body.name.value).None?) || (Truthy(body.color) && !ColorOk(body.color.value))) ==> r.Forwarded?
    ensures (&& id.Wellformed? && id.id in old(s.tags) && (Truthy(body.color) ==> ColorOk(body.color.value))
             && Truthy(body.name) && TagNameUsed(old(s.tags), Normalize(body.name.value), Some(id.id))) ==> r.Forwarded?
    ensures !r.Ok? ==> s.tags == old(s.tags)
    ensures r.Ok? ==> && id.Wellformed? && id.id in old(s.tags) && r.status == 200 && r.data.0 == id.id
                      && r.data.1.name == (if Truthy(body.name) then Normalize(body.name.value) else old(s.tags)[id.id].name)
                      && r.data.1.color == (if Truthy(body.color) then body.color.value else old(s.tags)[id.id].color)
                      && s.tags == old(s.tags)[id.id := r.data.1]
  {
    if id.Malformed? {
      return Refused(400, InvalidTagIdError);
    }
    if Truthy(body.name) {
      NormalizeIdempotent(body.name.value);
    }
    var saved := s.UpdateTag(id.id, AdminTagUpdate(body));
    if saved.Missing? {
      return Refused(404, TagNotFoundError);
    }
    if !saved.Saved? {
      return Forwarded;
    }
    r := Ok(200, (id.id, saved.doc));
  }

  /** `deleteTagAdmin`: 400 for a malformed id, 404 for an absent tag;
      otherwise the tag is deleted and its id pulled from every note. */
  method DeleteTagAdmin(s: Store, id: IdParam) returns (r: Reply<Done>)
    requires s.Valid()
    modifies s
    ensures s.Valid()
    ensures s.users == old(s.users) && s.categories == old(s.categories) && s.clock == old(s.clock)
    ensures id.Malformed? ==> r == Refused(400, InvalidTagIdError)
    ensures r.Ok? <==> id.Wellformed? && id.id in old(s.tags)
    ensures id.Wellformed? && !r.Ok? ==> r == Refused(404, TagNotFoundError)
    ensures !r.Ok? ==> s.tags == old(s.tags) && s.notes == old(s.notes)
    ensures r.Ok? ==> && r == Ok(200, Done(None))
                      && s.tags == old(s.tags) - {id.id}
                      && s.notes == PullFromNotes(old(s.notes), id.id)
                      && forall n :: n in s.notes ==> id.id !in s.notes[n].tags
  {
    if id.Malformed? {
      return Refused(400, InvalidTagIdError);
    }
    var found := s.DeleteTag(id.id);
    if !found {
      assert s.tags == old(s.tags);
      return Refused(404, TagNotFoundError);
    }
    s.PullTag(id.id);
    r := Ok(200, Done(None));
  }

  // ===== dashboard =====

  datatype Stats = Stats(users: nat, notes: nat, categories: nat, tags: nat)

  datatype Dashboard = Dashboard(stats: Stats, recentUsers: seq<PublicUser>, recentNotes: seq<(Id, Note)>)

  /** `getDashboardStats`: the size of each collection, and the five newest
      users (without passwords) and notes, newest first. */
  method GetDashboardStats(s: Store) returns (r: Reply<Dashboard>)
    requires s.Valid()
    ensures r.Ok? && r.status == 200
    ensures r.data.stats == Stats(|s.users|, |s.notes|, |s.categories|, |s.tags|)
    ensures r.data.recentUsers == PublicAll(Newest(s.users, s.clock, RecentLimit))
    ensures r.data.recentNotes == Newest(s.notes, s.clock, RecentLimit)
  {
    var stats := Stats(|s.users|, |s.notes|, |s.categories|, |s.tags|);
    var recentUsers := PublicAll(Newest(s.users, s.clock, RecentLimit));
    var recentNotes := Newest(s.notes, s.clock, RecentLimit);
    r := Ok(200, Dashboard(stats, recentUsers, recentNotes));
  }
}
