/** The note handlers (controllers/noteController.js). A handler reads
    `req.user`, the `:id` parameter, the body or the query string, works on
    the store and answers with a `Reply`. */
module NotesController {
  import opened Types
  import opened Text
  import opened Http
  import opened Schema
  import opened Listing
  import opened Db

  const LoginToCreateError := "You must be logged in to create a note"
  const LoginToUpdateError := "You must be logged in to update a note"
  const LoginToDeleteError := "You must be logged in to delete a note"
  const InvalidNoteIdError := "Invalid note ID format"
  const NoteNotFoundError := "Note not found"
  const UpdateOwnError := "You can only update your own notes"
  const DeleteOwnError := "You can only delete your own notes"
  const NoteDeletedMessage := "Note deleted successfully"

  /** Every name passes the tag schema's `name` cast once normalised. */
  predicate AllCast(names: seq<string>) {
    forall i :: 0 <= i < |names| ==> CastTagName(names[i]).Some?
  }

  /** Whether the note `id` exists and belongs to `owner`: the
      `findOne({ _id, userId })` of the update and delete handlers. */
  predicate Owns(notes: map<Id, Note>, id: Id, owner: Id) {
    id in notes && notes[id].userId == owner
  }

  /** One round of the conversion loop: the tag named like the normalised
      `raw`, looked up and created when missing. Creation fails exactly when
      the name does not pass the schema's cast; an existing tag always has a
      name that does. */
  method FindOrCreateTag(s: Store, raw: string) returns (r: Option<Id>)
    requires s.Valid()
    modifies s
    ensures s.Valid()
    ensures s.users == old(s.users) && s.notes == old(s.notes) && s.categories == old(s.categories)
    ensures r.Some? <==> CastTagName(raw).Some?
    ensures r.Some? ==> r.value in s.tags && s.tags[r.value].name == Normalize(raw)
    ensures r.None? ==> s.tags == old(s.tags)
    ensures forall id :: id in old(s.tags) ==> id in s.tags && s.tags[id] == old(s.tags)[id]
    ensures forall id :: id in s.tags && id !in old(s.tags) ==> s.tags[id] == Tag(Normalize(raw), TagColorDefault)
  {
    NormalizeIdempotent(raw);
    var name := Normalize(raw);
    var found := TagNamed(s.tags, name);
    if found.Some? {
      return found;
    }
    var created := s.CreateTag(EmptyBody.(name := Some(name)));
    if created.Saved? {
      r := Some(created.id);
    } else {
      r := None;
    }
  }

  /** `convertTagNamesToIds`: for each name in turn, the tag whose name is
      the normalised name, created (with the default colour) when there is
      none. A name that normalises to "" or to more than 30 characters makes
      `Tag.create` throw; the tags created before it stay. */
  method ConvertTagNamesToIds(s: Store, names: seq<string>) returns (r: Option<seq<Id>>)
    requires s.Valid()
    modifies s
    ensures s.Valid()
    ensures s.users == old(s.users) && s.notes == old(s.notes) && s.categories == old(s.categories)
    ensures r.Some? <==> AllCast(names)
    ensures r.Some? ==> |r.value| == |names|
    ensures r.Some? ==> forall i :: 0 <= i < |names| ==> r.value[i] in s.tags && s.tags[r.value[i]].name == Normalize(names[i])
    ensures r.Some? ==> forall i, j :: 0 <= i < |names| && 0 <= j < |names| && Normalize(names[i]) == Normalize(names[j]) ==> r.value[i] == r.value[j]
    ensures forall id :: id in old(s.tags) ==> id in s.tags && s.tags[id] == old(s.tags)[id]
    ensures forall id :: id in s.tags && id !in old(s.tags) ==> exists k :: 0 <= k < |names| && s.tags[id] == Tag(Normalize(names[k]), TagColorDefault)
  {
    var ids: seq<Id> := [];
    var i := 0;
    while i < |names|
      invariant 0 <= i <= |names| && |ids| == i
      invariant s.Valid()
      invariant s.users == old(s.users) && s.notes == old(s.notes) && s.categories == old(s.categories)
      invariant Resolved(old(s.tags), s.tags, names, ids)
    {
      ghost var before := s.tags;
      var id := FindOrCreateTag(s, names[i]);
      if id.None? {
        return None;
      }
      ResolvedStep(old(s.tags), before, s.tags, names, ids, id.value);
      ids := ids + [id.value];
      i := i + 1;
    }
    ResolvedNames(s.tags, names, ids);
    r := Some(ids);
  }

  /** What the conversion loop keeps once `ids` are resolved: each id is a
      tag named like the corresponding name; the tags that were there before
      the loop are kept; every tag added since came from one of those names
      and has the default colour. */
  ghost predicate Resolved(tags0: map<Id, Tag>, tags: map<Id, Tag>, names: seq<string>, ids: seq<Id>) {
    && |ids| <= |names|
    && (forall k :: 0 <= k < |ids| ==> ids[k] in tags && tags[ids[k]].name == Normalize(names[k]))
    && (forall id :: id in tags0 ==> id in tags && tags[id] == tags0[id])
    && (forall id :: id in tags && id !in tags0 ==> exists k :: 0 <= k < |ids| && tags[id] == Tag(Normalize(names[k]), TagColorDefault))
  }

  /** One more name resolved keeps `Resolved`. */
  lemma ResolvedStep(tags0: map<Id, Tag>, tags: map<Id, Tag>, tags1: map<Id, Tag>, names: seq<string>, ids: seq<Id>, id: Id)
    requires |ids| < |names| && Resolved(tags0, tags, names, ids)
    requires forall t :: t in tags ==> t in tags1 && tags1[t] == tags[t]
    requires forall t :: t in tags1 && t !in tags ==> tags1[t] == Tag(Normalize(names[|ids|]), TagColorDefault)
    requires id in tags1 && tags1[id].name == Normalize(names[|ids|])
    ensures Resolved(tags0, tags1, names, ids + [id])
  {
    var next := ids + [id];
    forall k | 0 <= k < |next| ensures next[k] in tags1 && tags1[next[k]].name == Normalize(names[k]) {
      if k < |ids| {
        assert next[k] == ids[k] && ids[k] in tags;
      }
    }
    forall t | t in tags1 && t !in tags0
      ensures exists k :: 0 <= k < |next| && tags1[t] == Tag(Normalize(names[k]), TagColorDefault)
    {
      if t !in tags {
        var k := |ids|;
        assert 0 <= k < |next| && tags1[t] == Tag(Normalize(names[k]), TagColorDefault);
      } else {
        var k :| 0 <= k < |ids| && tags[t] == Tag(Normalize(names[k]), TagColorDefault);
        assert 0 <= k < |next| && tags1[t] == Tag(Normalize(names[k]), TagColorDefault);
      }
    }
  }

  /** Names resolved to stored tags: each passed the cast (a stored tag's
      name did), and names that normalise alike share their tag. */
  lemma ResolvedNames(tags: map<Id, Tag>, names: seq<string>, ids: seq<Id>)
    requires forall id :: id in tags ==> TagValid(tags[id])
    requires UniqueTagNames(tags)
    requires |ids| == |names|
    requires forall k :: 0 <= k < |names| ==> ids[k] in tags && tags[ids[k]].name == Normalize(names[k])
    ensures AllCast(names)
    ensures forall i, j :: 0 <= i < |names| && 0 <= j < |names| && Normalize(names[i]) == Normalize(names[j]) ==> ids[i] == ids[j]
  {
    forall k | 0 <= k < |names| ensures CastTagName(names[k]).Some? {
      assert TagValid(tags[ids[k]]);
    }
  }

  /** `createNote`: 401 without a user; otherwise the note is created for
      that user, with its tag names (when there are any) turned into tag
      ids, and answered with 201. A body the schema refuses, or a tag name
      that cannot be created, is forwarded as an error. */
  method CreateNote(s: Store, user: Option<Claims>, body: Body) returns (r: Reply<(Id, Note)>)
    requires s.Valid()
    modifies s
    ensures s.Valid()
    ensures s.users == old(s.users) && s.categories == old(s.categories)
    ensures forall id :: id in old(s.tags) ==> id in s.tags && s.tags[id] == old(s.tags)[id]
    ensures user.None? ==> r == Refused(401, LoginToCreateError) && unchanged(s)
    ensures r.Refused? ==> user.None?
    ensures user.Some? ==> (r.Ok? <==> NewNote(body, user.value.id, []).Some? && (body.tags.None? || AllCast(body.tags.value)))
    ensures !r.Ok? ==> s.notes == old(s.notes)
    ensures r.Ok? ==> && user.Some? && r.status == 201
                      && r.data.0 !in old(s.notes) && s.notes == old(s.notes)[r.data.0 := r.data.1]
                      && NewNote(body, user.value.id, r.data.1.tags) == Some(r.data.1)
                      && |r.data.1.tags| == (if body.tags.Some? then |body.tags.value| else 0)
                      && forall i :: 0 <= i < |r.data.1.tags| ==>
                           r.data.1.tags[i] in s.tags && s.tags[r.data.1.tags[i]].name == Normalize(body.tags.value[i])
  {
    if user.None? {
      return Refused(401, LoginToCreateError);
    }
    var tagIds: seq<Id> := [];
    if body.tags.Some? && |body.tags.value| > 0 {
      var converted := ConvertTagNamesToIds(s, body.tags.value);
      if converted.None? {
        return Forwarded;
      }
      tagIds := converted.value;
    }
    var saved := s.CreateNote(body, user.value.id, tagIds);
    if saved.Rejected? {
      return Forwarded;
    }
    r := Ok(201, (saved.id, saved.doc));
  }

  /** Which tag the `tag` query parameter selects. */
  datatype TagChoice = AnyTag | NoSuchTag | WithTag(id: Id)

  /** `Tag.findOne({ name: tag.toLowerCase() })` when `tag` is truthy.
      Mongoose casts the filter value through the `name` path's setters
      (`lowercase`, `trim`), so the name looked up is the normalised one. */
  function ChooseTag(tags: map<Id, Tag>, tag: Option<string>): (r: TagChoice)
    requires UniqueTagNames(tags)
    ensures r.AnyTag? <==> !Truthy(tag)
    ensures r.WithTag? ==> r.id in tags && tags[r.id].name == Normalize(tag.value)
    ensures r.NoSuchTag? ==> forall id :: id in tags ==> tags[id].name != Normalize(tag.value)
  {
    if !Truthy(tag) then AnyTag
    else
      LowerIsLower(tag.value);
      LowerOfLower(Lower(tag.value));
      match TagNamed(tags, Normalize(Lower(tag.value)))
      case None => NoSuchTag
      case Some(id) => WithTag(id)
  }

  /** The query `getAllNotes` builds: the user's own notes when there is a
      user; the category when given; `isPinned` compared with "true" when
      present; the `$text` search (`textMatch`) when given; the chosen tag.
      A tag that does not exist matches nothing. */
  predicate NoteMatches(n: Note, user: Option<Claims>, q: NoteQuery, tag: TagChoice, textMatch: (Note, string) -> bool) {
    && (user.Some? ==> n.userId == user.value.id)
    && (Truthy(q.category) ==> n.category == q.category.value)
    && (q.isPinned.Some? ==> n.isPinned == (q.isPinned.value == "true"))
    && (Truthy(q.search) ==> textMatch(n, q.search.value))
    && !tag.NoSuchTag?
    && (tag.WithTag? ==> tag.id in n.tags)
  }

  /** `getAllNotes`: exactly the notes the query matches, each once, pinned
      ones first and newest first within each group; `count` is their
      number. */
  method GetAllNotes(s: Store, user: Option<Claims>, q: NoteQuery, textMatch: (Note, string) -> bool) returns (r: Reply<Page<(Id, Note)>>)
    requires s.Valid()
    ensures r.Ok? && r.status == 200 && r.data.count == |r.data.data|
    ensures ChooseTag(s.tags, q.tag).NoSuchTag? ==> r.data.data == []
    ensures forall p :: p in r.data.data <==>
      p.0 in s.notes && s.notes[p.0] == p.1 && NoteMatches(p.1, user, q, ChooseTag(s.tags, q.tag), textMatch)
    ensures forall i, j :: 0 <= i < j < |r.data.data| ==> r.data.data[i].0 != r.data.data[j].0
    ensures SortedBy(r.data.data, PinnedThenNewest)
  {
    var tag := ChooseTag(s.tags, q.tag);
    if tag.NoSuchTag? {
      return Ok(200, Page(0, []));
    }
    PinnedThenNewestTotal();
    var notes := Query(s.notes, s.clock, (id: Id, n: Note) => NoteMatches(n, user, q, tag, textMatch), PinnedThenNewest);
    r := Ok(200, Page(|notes|, notes));
  }

  /** The tag filter ignores the case of the query parameter. */
  lemma ChooseTagIgnoresCase(tags: map<Id, Tag>, t: string)
    requires UniqueTagNames(tags)
    ensures ChooseTag(tags, Some(Lower(t))) == ChooseTag(tags, Some(t))
  {
    LowerIsLower(t);
    LowerOfLower(Lower(t));
  }

  /** Padding around the query parameter is trimmed away: `?tag=%20work`
      and `?tag=Work%20` select the tag named "work". */
  lemma ChooseTagIgnoresPadding(tags: map<Id, Tag>, id: Id, color: string)
    requires UniqueTagNames(tags) && id in tags && tags[id] == Tag("work", color)
    ensures ChooseTag(tags, Some(" work")) == WithTag(id)
    ensures ChooseTag(tags, Some("Work ")) == WithTag(id)
  {
    LeadingSpaceWork();
    TrailingSpaceWork();
  }

  lemma LeadingSpaceWork()
    ensures Normalize(" work") == "work"
  {
    assert Lower(" work") == " work";
    assert TrimStart(" work") == "work";
    assert TrimEnd("work") == "work";
  }

  lemma TrailingSpaceWork()
    ensures Normalize("Work ") == "work"
  {
    assert Lower("Work ") == "work ";
    assert TrimStart("work ") == "work ";
    assert TrimEnd("work ") == "work";
  }

  /** `getNoteById`: 400 for a malformed id; the note when it exists and,
      with a user, belongs to that user; 404 otherwise. Without a user any
      note is returned. */
  method GetNoteById(s: Store, user: Option<Claims>, id: IdParam) returns (r: Reply<(Id, Note)>)
    ensures id.Malformed? ==> r == Refused(400, InvalidNoteIdError)
    ensures r.Ok? <==> id.Wellformed? && id.id in s.notes && (user.Some? ==> s.notes[id.id].userId == user.value.id)
    ensures r.Ok? ==> r == Ok(200, (id.id, s.notes[id.id]))
    ensures id.Wellformed? && !r.Ok? ==> r == Refused(404, NoteNotFoundError)
  {
    if id.Malformed? {
      return Refused(400, InvalidNoteIdError);
    }
    if id.id !in s.notes || (user.Some? && s.notes[id.id].userId != user.value.id) {
      return Refused(404, NoteNotFoundError);
    }
    r := Ok(200, (id.id, s.notes[id.id]));
  }

  /** `updateNote`: 401 without a user, 400 for a malformed id, 403 unless
      the note exists and is the user's; then non-empty tag names become
      ids, an empty list clears the tags, and the update runs with its
      validators. Nothing is written before the ownership check. */
  method UpdateNote(s: Store, user: Option<Claims>, id: IdParam, body: Body) returns (r: Reply<(Id, Note)>)
    requires s.Valid()
    modifies s
    ensures s.Valid()
    ensures s.users == old(s.users) && s.categories == old(s.categories)
    ensures forall t :: t in old(s.tags) ==> t in s.tags && s.tags[t] == old(s.tags)[t]
    ensures user.None? ==> r == Refused(401, LoginToUpdateError)
    ensures user.Some? && id.Malformed? ==> r == Refused(400, InvalidNoteIdError)
    ensures user.Some? && id.Wellformed? && !Owns(old(s.notes), id.id, user.value.id) ==> r == Refused(403, UpdateOwnError)
    ensures r.Refused? ==> unchanged(s)
    ensures user.Some? && id.Wellformed? && Owns(old(s.notes), id.id, user.value.id) ==>
      (r.Ok? <==> NoteUpdateValid(body) && (body.tags.None? || AllCast(body.tags.value)))
    ensures !r.Ok? ==> s.notes == old(s.notes)
    ensures r.Ok? ==> && user.Some? && id.Wellformed? && Owns(old(s.notes), id.id, user.value.id)
                      && r.status == 200 && r.data.0 == id.id
                      && s.notes == old(s.notes)[id.id := r.data.1]
                      && PatchNote(old(s.notes)[id.id], body, if body.tags.Some? then Some(r.data.1.tags) else None) == Some(r.data.1)
                      && (body.tags.Some? ==>
                            && |r.data.1.tags| == |body.tags.value|
                            && forall i :: 0 <= i < |body.tags.value| ==>
                                 r.data.1.tags[i] in s.tags && s.tags[r.data.1.tags[i]].name == Normalize(body.tags.value[i]))
  {
    if user.None? {
      return Refused(401, LoginToUpdateError);
    }
    if id.Malformed? {
      return Refused(400, InvalidNoteIdError);
    }
    if !Owns(s.notes, id.id, user.value.id) {
      return Refused(403, UpdateOwnError);
    }
    var tagIds: Option<seq<Id>> := None;
    if body.tags.Some? && |body.tags.value| > 0 {
      var converted := ConvertTagNamesToIds(s, body.tags.value);
      if converted.None? {
        return Forwarded;
      }
      tagIds := converted;
    } else if body.tags.Some? {
      tagIds := Some([]);
    }
    var saved := s.UpdateNote(id.id, body, tagIds);
    if saved.Rejected? {
      return Forwarded;
    }
    assert saved.Saved?;
    r := Ok(200, (id.id, saved.doc));
  }

  /** `deleteNote`: 401 without a user, 400 for a malformed id, 403 unless
      the note exists and is the user's; otherwise the note is deleted. */
  method DeleteNote(s: Store, user: Option<Claims>, id: IdParam) returns (r: Reply<Done>)
    requires s.Valid()
    modifies s
    ensures s.Valid()
    ensures user.None? ==> r == Refused(401, LoginToDeleteError)
    ensures user.Some? && id.Malformed? ==> r == Refused(400, InvalidNoteIdError)
    ensures user.Some? && id.Wellformed? && !Owns(old(s.notes), id.id, user.value.id) ==> r == Refused(403, DeleteOwnError)
    ensures r.Refused? ==> unchanged(s)
    ensures r.Ok? <==> user.Some? && id.Wellformed? && Owns(old(s.notes), id.id, user.value.id)
    ensures r.Ok? ==> r == Ok(200, Done(Some(NoteDeletedMessage))) && s.notes == old(s.notes) - {id.id}
    ensures s.users == old(s.users) && s.tags == old(s.tags) && s.categories == old(s.categories) && s.clock == old(s.clock)
    ensures !r.Forwarded?
  {
    if user.None? {
      return Refused(401, LoginToDeleteError);
    }
    if id.Malformed? {
      return Refused(400, InvalidNoteIdError);
    }
    if !Owns(s.notes, id.id, user.value.id) {
      return Refused(403, DeleteOwnError);
    }
    var _ := s.DeleteNote(id.id);
    r := Ok(200, Done(Some(NoteDeletedMessage)));
  }
}
