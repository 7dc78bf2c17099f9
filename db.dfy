/** The MongoDB collections behind the models, as one store of four tables
    keyed by ObjectId, and the model operations the handlers call on them.
    A creation counter stands for both the ObjectId generator and the
    `createdAt` timestamp: every new document takes the counter's value as
    its id, so ids grow with creation time. */
module Db {
  import opened Types
  import opened Text
  import opened Http
  import opened Schema

  /** How a write ends: the document as stored; a validation or cast error;
      a duplicate-key error (`E11000`) from a `unique` index; or, for
      `findByIdAndUpdate`, no document with that id. */
  datatype Saved<T> = Saved(id: Id, doc: T) | Rejected | Duplicate | Missing

  predicate Below<R>(m: map<Id, R>, n: nat) {
    forall id :: id in m ==> id < n
  }

  /** The `unique: true` index on `Tag.name`. */
  predicate UniqueTagNames(tags: map<Id, Tag>) {
    forall a, b :: a in tags && b in tags && tags[a].name == tags[b].name ==> a == b
  }

  /** The `unique: true` index on `Category.name`. */
  predicate UniqueCategoryNames(categories: map<Id, Category>) {
    forall a, b :: a in categories && b in categories && categories[a].name == categories[b].name ==> a == b
  }

  /** The `unique: true` index on `User.email`. */
  predicate UniqueEmails(users: map<Id, User>) {
    forall a, b :: a in users && b in users && users[a].email == users[b].email ==> a == b
  }

  /** Whether a document other than `self` already has this key. */
  predicate TagNameUsed(tags: map<Id, Tag>, name: string, self: Option<Id>) {
    exists id :: id in tags && Some(id) != self && tags[id].name == name
  }

  predicate CategoryNameUsed(categories: map<Id, Category>, name: string, self: Option<Id>) {
    exists id :: id in categories && Some(id) != self && categories[id].name == name
  }

  predicate EmailUsed(users: map<Id, User>, email: string, self: Option<Id>) {
    exists id :: id in users && Some(id) != self && users[id].email == email
  }

  /** `Tag.findOne({ name })`: the tag with that name, if any. */
  function TagNamed(tags: map<Id, Tag>, name: string): (r: Option<Id>)
    requires UniqueTagNames(tags)
    ensures r.Some? ==> r.value in tags && tags[r.value].name == name
    ensures r.None? ==> forall id :: id in tags ==> tags[id].name != name
  {
    if exists id :: id in tags && tags[id].name == name then
      var id :| id in tags && tags[id].name == name;
      Some(id)
    else None
  }

  /** `Note.deleteMany({ userId: owner })`. */
  function WithoutOwner(notes: map<Id, Note>, owner: Id): (r: map<Id, Note>)
    ensures forall id :: id in r <==> id in notes && notes[id].userId != owner
    ensures forall id :: id in r ==> r[id] == notes[id]
  {
    map id | id in notes && notes[id].userId != owner :: notes[id]
  }

  /** `$pull: { tags: x }` on one array: every occurrence of `x` goes, the
      rest keep their order. */
  function Pull(ids: seq<Id>, x: Id): (r: seq<Id>)
    ensures x !in r
    ensures multiset(r) == multiset(ids)[x := 0]
  {
    if ids == [] then []
    else
      assert ids == [ids[0]] + ids[1..];
      if ids[0] == x then Pull(ids[1..], x) else [ids[0]] + Pull(ids[1..], x)
  }

  /** `$pull` keeps the order of what it leaves: pulling from two arrays
      laid end to end is pulling from each and laying the results end to
      end. With `PullOne` this fixes the result element by element. */
  lemma {:induction false} PullAppend(a: seq<Id>, b: seq<Id>, x: Id)
    ensures Pull(a + b, x) == Pull(a, x) + Pull(b, x)
  {
    if a == [] {
      assert a + b == b;
    } else {
      assert (a + b)[0] == a[0];
      assert (a + b)[1..] == a[1..] + b;
      PullAppend(a[1..], b, x);
    }
  }

  /** One element is dropped when it is the pulled id and kept otherwise. */
  lemma PullOne(y: Id, x: Id)
    ensures Pull([y], x) == if y == x then [] else [y]
  {
    assert [y][1..] == [];
  }

  /** The ids left by `$pull` keep their relative order: pulling an absent
      id from `[1, 2]` gives `[1, 2]`, not `[2, 1]`. */
  lemma PullKeepsOrder()
    ensures Pull([1, 2], 3) == [1, 2]
  {
    assert [1, 2] == [1] + [2];
    PullAppend([1], [2], 3);
    PullOne(1, 3);
    PullOne(2, 3);
  }

  /** Pulling an id the array does not hold leaves it as it is. */
  lemma {:induction false} PullAbsent(ids: seq<Id>, x: Id)
    requires x !in ids
    ensures Pull(ids, x) == ids
  {
    if ids != [] {
      PullAbsent(ids[1..], x);
    }
  }

  /** `Note.updateMany({ tags: x }, { $pull: { tags: x } })`: every note that
      lists `x` loses it, and nothing else changes. */
  function PullFromNotes(notes: map<Id, Note>, x: Id): (r: map<Id, Note>)
    ensures r.Keys == notes.Keys
    ensures forall id :: id in r ==> r[id] == notes[id].(tags := Pull(notes[id].tags, x))
  {
    map id | id in notes :: notes[id].(tags := Pull(notes[id].tags, x))
  }

  /** A note that did not list the tag is left exactly as it was. */
  lemma PullFromNotesUntouched(notes: map<Id, Note>, x: Id, id: Id)
    requires id in notes && x !in notes[id].tags
    ensures PullFromNotes(notes, x)[id] == notes[id]
  {
    PullAbsent(notes[id].tags, x);
  }

  class Store {
    /** The user schema's email pattern `^\w+([\.-]?\w+)*@\w+([\.-]?\w+)*(\.\w{2,3})+$`. */
    const emailShape: string -> bool
    var users: map<Id, User>
    var notes: map<Id, Note>
    var tags: map<Id, Tag>
    var categories: map<Id, Category>
    /** The next ObjectId, and the current time. */
    var clock: nat

    /** Every stored document satisfies its schema, the unique indexes hold,
        and every id was issued by the counter. */
    ghost predicate Valid()
      reads this
    {
      && Below(users, clock) && Below(notes, clock) && Below(tags, clock) && Below(categories, clock)
      && (forall id :: id in users ==> UserValid(users[id], emailShape))
      && (forall id :: id in notes ==> NoteValid(notes[id]))
      && (forall id :: id in tags ==> TagValid(tags[id]))
      && (forall id :: id in categories ==> CategoryValid(categories[id]))
      && UniqueEmails(users) && UniqueTagNames(tags) && UniqueCategoryNames(categories)
    }

    constructor (emailShape: string -> bool)
      ensures Valid() && this.emailShape == emailShape
      ensures users == map[] && notes == map[] && tags == map[] && categories == map[] && clock == 0
    {
      this.emailShape := emailShape;
      users, notes, tags, categories := map[], map[], map[], map[];
      clock := 0;
    }

    /** A new ObjectId, later than every id issued before. */
    method Mint() returns (id: Id)
      modifies this
      ensures id == old(clock) && clock == old(clock) + 1
      ensures users == old(users) && notes == old(notes) && tags == old(tags) && categories == old(categories)
    {
      id := clock;
      clock := clock + 1;
    }

    // ----- tags -----

    /** Writes a valid tag under an issued id whose name no other tag has. */
    method PutTag(id: Id, tag: Tag)
      requires Valid() && id < clock && TagValid(tag) && !TagNameUsed(tags, tag.name, Some(id))
      modifies this
      ensures Valid()
      ensures tags == old(tags)[id := tag]
      ensures users == old(users) && notes == old(notes) && categories == old(categories) && clock == old(clock)
    {
      tags := tags[id := tag];
    }

    /** `Tag.create(body)`. */
    method CreateTag(body: Body) returns (r: Saved<Tag>)
      requires Valid()
      modifies this
      ensures Valid()
      ensures users == old(users) && notes == old(notes) && categories == old(categories)
      ensures r.Rejected? <==> NewTag(body).None?
      ensures r.Duplicate? <==> NewTag(body).Some? && TagNameUsed(old(tags), NewTag(body).value.name, None)
      ensures !r.Saved? ==> tags == old(tags) && clock == old(clock)
      ensures r.Saved? ==> && NewTag(body).Some? && r.doc == NewTag(body).value && r.id == old(clock)
                           && !TagNameUsed(old(tags), r.doc.name, None)
                           && tags == old(tags)[r.id := r.doc] && clock == old(clock) + 1
      ensures r.Saved? || r.Rejected? || r.Duplicate?
    {
      var tag := NewTag(body);
      if tag.None? {
        return Rejected;
      }
      if TagNameUsed(tags, tag.value.name, None) {
        return Duplicate;
      }
      var id := Mint();
      PutTag(id, tag.value);
      r := Saved(id, tag.value);
    }

    /** `Tag.findByIdAndUpdate(id, body, { new: true, runValidators: true })`:
        the validators run on the named paths before the document is looked
        up; the unique index is checked when it is written. */
    method UpdateTag(id: Id, body: Body) returns (r: Saved<Tag>)
      requires Valid()
      modifies this
      ensures Valid()
      ensures users == old(users) && notes == old(notes) && categories == old(categories) && clock == old(clock)
      ensures r.Rejected? <==> !TagUpdateValid(body)
      ensures r.Missing? <==> TagUpdateValid(body) && id !in old(tags)
      ensures !r.Saved? ==> tags == old(tags)
      ensures r.Saved? ==> && id in old(tags) && r.id == id && PatchTag(old(tags)[id], body) == Some(r.doc)
                           && !TagNameUsed(old(tags), r.doc.name, Some(id))
                           && tags == old(tags)[id := r.doc]
      ensures r.Duplicate? ==> id in old(tags) && TagNameUsed(old(tags), PatchTag(old(tags)[id], body).value.name, Some(id))
      ensures r.Saved? || r.Rejected? || r.Missing? || r.Duplicate?
    {
      if !TagUpdateValid(body) {
        return Rejected;
      }
      if id !in tags {
        return Missing;
      }
      var tag := PatchTag(tags[id], body).value;
      if TagNameUsed(tags, tag.name, Some(id)) {
        return Duplicate;
      }
      PutTag(id, tag);
      r := Saved(id, tag);
    }

    /** `Tag.findByIdAndDelete(id)`: whether there was such a tag. Notes that
        list the tag keep its id. */
    method DeleteTag(id: Id) returns (found: bool)
      requires Valid()
      modifies this
      ensures Valid()
      ensures found == (id in old(tags))
      ensures tags == old(tags) - {id}
      ensures users == old(users) && notes == old(notes) && categories == old(categories) && clock == old(clock)
    {
      found := id in tags;
      tags := tags - {id};
    }

    /** `Note.updateMany({ tags: x }, { $pull: { tags: x } })`. */
    method PullTag(x: Id)
      requires Valid()
      modifies this
      ensures Valid()
      ensures notes == PullFromNotes(old(notes), x)
      ensures users == old(users) && tags == old(tags) && categories == old(categories) && clock == old(clock)
    {
      notes := PullFromNotes(notes, x);
    }

    // ----- categories -----

    /** Writes a valid category under an issued id whose name no other
        category has. */
    method PutCategory(id: Id, category: Category)
      requires Valid() && id < clock && CategoryValid(category) && !CategoryNameUsed(categories, category.name, Some(id))
      modifies this
      ensures Valid()
      ensures categories == old(categories)[id := category]
      ensures users == old(users) && notes == old(notes) && tags == old(tags) && clock == old(clock)
    {
      categories := categories[id := category];
    }

    /** `Category.create(body)`. */
    method CreateCategory(body: Body) returns (r: Saved<Category>)
      requires Valid()
      modifies this
      ensures Valid()
      ensures users == old(users) && notes == old(notes) && tags == old(tags)
      ensures r.Rejected? <==> NewCategory(body).None?
      ensures r.Duplicate? <==> NewCategory(body).Some? && CategoryNameUsed(old(categories), NewCategory(body).value.name, None)
      ensures !r.Saved? ==> categories == old(categories) && clock == old(clock)
      ensures r.Saved? ==> && NewCategory(body).Some? && r.doc == NewCategory(body).value && r.id == old(clock)
                           && !CategoryNameUsed(old(categories), r.doc.name, None)
                           && categories == old(categories)[r.id := r.doc] && clock == old(clock) + 1
      ensures r.Saved? || r.Rejected? || r.Duplicate?
    {
      var category := NewCategory(body);
      if category.None? {
        return Rejected;
      }
      if CategoryNameUsed(categories, category.value.name, None) {
        return Duplicate;
      }
      var id := Mint();
      PutCategory(id, category.value);
      r := Saved(id, category.value);
    }

    /** `Category.findByIdAndUpdate(id, body, { new: true, runValidators: true })`. */
    method UpdateCategory(id: Id, body: Body) returns (r: Saved<Category>)
      requires Valid()
      modifies this
      ensures Valid()
      ensures users == old(users) && notes == old(notes) && tags == old(tags) && clock == old(clock)
      ensures r.Rejected? <==> !CategoryUpdateValid(body)
      ensures r.Missing? <==> CategoryUpdateValid(body) && id !in old(categories)
      ensures !r.Saved? ==> categories == old(categories)
      ensures r.Saved? ==> && id in old(categories) && r.id == id && PatchCategory(old(categories)[id], body) == Some(r.doc)
                           && !CategoryNameUsed(old(categories), r.doc.name, Some(id))
                           && categories == old(categories)[id := r.doc]
      ensures r.Duplicate? ==> id in old(categories) && CategoryNameUsed(old(categories), PatchCategory(old(categories)[id], body).value.name, Some(id))
      ensures r.Saved? || r.Rejected? || r.Missing? || r.Duplicate?
    {
      if !CategoryUpdateValid(body) {
        return Rejected;
      }
      if id !in categories {
        return Missing;
      }
      var category := PatchCategory(categories[id], body).value;
      if CategoryNameUsed(categories, category.name, Some(id)) {
        return Duplicate;
      }
      PutCategory(id, category);
      r := Saved(id, category);
    }

    /** `Category.findByIdAndDelete(id)`: notes are not touched. */
    method DeleteCategory(id: Id) returns (found: bool)
      requires Valid()
      modifies this
      ensures Valid()
      ensures found == (id in old(categories))
      ensures categories == old(categories) - {id}
      ensures users == old(users) && notes == old(notes) && tags == old(tags) && clock == old(clock)
    {
      found := id in categories;
      categories := categories - {id};
    }

    // ----- notes -----

    /** Writes a valid note under an issued id. */
    method PutNote(id: Id, note: Note)
      requires Valid() && id < clock && NoteValid(note)
      modifies this
      ensures Valid()
      ensures notes == old(notes)[id := note]
      ensures users == old(users) && tags == old(tags) && categories == old(categories) && clock == old(clock)
    {
      notes := notes[id := note];
    }

    /** `Note.create(noteData)` for the given owner and tag ids. */
    method CreateNote(body: Body, owner: Id, tagIds: seq<Id>) returns (r: Saved<Note>)
      requires Valid()
      modifies this
      ensures Valid()
      ensures users == old(users) && tags == old(tags) && categories == old(categories)
      ensures r.Rejected? <==> NewNote(body, owner, tagIds).None?
      ensures !r.Saved? ==> notes == old(notes) && clock == old(clock)
      ensures r.Saved? ==> && NewNote(body, owner, tagIds) == Some(r.doc) && r.id == old(clock)
                           && notes == old(notes)[r.id := r.doc] && clock == old(clock) + 1
      ensures r.Saved? || r.Rejected?
    {
      var note := NewNote(body, owner, tagIds);
      if note.None? {
        return Rejected;
      }
      var id := Mint();
      PutNote(id, note.value);
      r := Saved(id, note.value);
    }

    /** `Note.findByIdAndUpdate(id, noteData, { new: true, runValidators: true })`. */
    method UpdateNote(id: Id, body: Body, tagIds: Option<seq<Id>>) returns (r: Saved<Note>)
      requires Valid()
      modifies this
      ensures Valid()
      ensures users == old(users) && tags == old(tags) && categories == old(categories) && clock == old(clock)
      ensures r.Rejected? <==> !NoteUpdateValid(body)
      ensures r.Missing? <==> NoteUpdateValid(body) && id !in old(notes)
      ensures !r.Saved? ==> notes == old(notes)
      ensures r.Saved? ==> && id in old(notes) && r.id == id && PatchNote(old(notes)[id], body, tagIds) == Some(r.doc)
                           && notes == old(notes)[id := r.doc]
      ensures r.Saved? || r.Rejected? || r.Missing?
    {
      if !NoteUpdateValid(body) {
        return Rejected;
      }
      if id !in notes {
        return Missing;
      }
      var note := PatchNote(notes[id], body, tagIds).value;
      PutNote(id, note);
      r := Saved(id, note);
    }

    /** `Note.findByIdAndDelete(id)`. */
    method DeleteNote(id: Id) returns (found: bool)
      requires Valid()
      modifies this
      ensures Valid()
      ensures found == (id in old(notes))
      ensures notes == old(notes) - {id}
      ensures users == old(users) && tags == old(tags) && categories == old(categories) && clock == old(clock)
    {
      found := id in notes;
      notes := notes - {id};
    }

    /** `Note.deleteMany({ userId: owner })`. */
    method DeleteNotesOf(owner: Id)
      requires Valid()
      modifies this
      ensures Valid()
      ensures notes == WithoutOwner(old(notes), owner)
      ensures users == old(users) && tags == old(tags) && categories == old(categories) && clock == old(clock)
    {
      notes := WithoutOwner(notes, owner);
    }

    // ----- users -----

    /** Writes a valid user under an issued id whose email no other user
        has. */
    method PutUser(id: Id, user: User)
      requires Valid() && id < clock && UserValid(user, emailShape) && !EmailUsed(users, user.email, Some(id))
      modifies this
      ensures Valid()
      ensures users == old(users)[id := user]
      ensures notes == old(notes) && tags == old(tags) && categories == old(categories) && clock == old(clock)
    {
      users := users[id := user];
    }

    /** `User.findByIdAndUpdate(id, updateData, { new: true, runValidators: true })`
        where `updateData` may set the email and the role. */
    method UpdateUser(id: Id, email: Option<string>, role: Option<Role>) returns (r: Saved<User>)
      requires Valid()
      modifies this
      ensures Valid()
      ensures notes == old(notes) && tags == old(tags) && categories == old(categories) && clock == old(clock)
      ensures r.Rejected? <==> email.Some? && CastEmail(email.value, emailShape).None?
      ensures r.Missing? <==> (email.None? || CastEmail(email.value, emailShape).Some?) && id !in old(users)
      ensures !r.Saved? ==> users == old(users)
      ensures r.Saved? ==> && id in old(users) && r.id == id
                           && r.doc.email == (if email.Some? then Lower(email.value) else old(users)[id].email)
                           && r.doc.role == (if role.Some? then role.value else old(users)[id].role)
                           && r.doc.password == old(users)[id].password
                           && !EmailUsed(old(users), r.doc.email, Some(id))
                           && users == old(users)[id := r.doc]
      ensures r.Duplicate? ==> email.Some? && EmailUsed(old(users), Lower(email.value), Some(id))
      ensures r.Saved? || r.Rejected? || r.Missing? || r.Duplicate?
    {
      var newEmail := None;
      if email.Some? {
        newEmail := CastEmail(email.value, emailShape);
        if newEmail.None? {
          return Rejected;
        }
      }
      if id !in users {
        return Missing;
      }
      var user := users[id];
      if newEmail.Some? {
        user := user.(email := newEmail.value);
      }
      if role.Some? {
        user := user.(role := role.value);
      }
      if email.Some? && EmailUsed(users, user.email, Some(id)) {
        return Duplicate;
      }
      PutUser(id, user);
      r := Saved(id, user);
    }

    /** `User.findByIdAndDelete(id)`. */
    method DeleteUser(id: Id)
      requires Valid()
      modifies this
      ensures Valid()
      ensures users == old(users) - {id}
      ensures notes == old(notes) && tags == old(tags) && categories == old(categories) && clock == old(clock)
    {
      users := users - {id};
    }
  }
}
