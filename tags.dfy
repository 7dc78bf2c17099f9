/** The public tag handlers (controllers/tagController.js). None of them
    looks at `req.user`, and deleting a tag leaves its id in the notes that
    list it (the administration handler pulls it out; see AdminController). */
module TagsController {
  import opened Types
  import opened Text
  import opened Http
  import opened Schema
  import opened Listing
  import opened Db

  const InvalidTagIdError := "Invalid tag ID format"
  const TagNotFoundError := "Tag not found"
  const TagDeletedMessage := "Tag deleted successfully"

  /** `createTag`: `Tag.create(req.body)`; the name is normalised only by
      the schema's setters, and a refused body or a duplicate name is
      forwarded as an error. */
  method CreateTag(s: Store, body: Body) returns (r: Reply<(Id, Tag)>)
    requires s.Valid()
    modifies s
    ensures s.Valid()
    ensures s.users == old(s.users) && s.notes == old(s.notes) && s.categories == old(s.categories)
    ensures r.Ok? || r.Forwarded?
    ensures r.Ok? <==> NewTag(body).Some? && !TagNameUsed(old(s.tags), NewTag(body).value.name, None)
    ensures !r.Ok? ==> s.tags == old(s.tags)
    ensures r.Ok? ==> && r.status == 201 && r.data.0 !in old(s.tags)
                      && r.data.1 == Tag(Normalize(body.name.value), if body.color.Some? then body.color.value else TagColorDefault)
                      && s.tags == old(s.tags)[r.data.0 := r.data.1]
  {
    var saved := s.CreateTag(body);
    if !saved.Saved? {
      return Forwarded;
    }
    r := Ok(201, (saved.id, saved.doc));
  }

  /** `getAllTags`: every tag, each once, by name ascending. */
  method GetAllTags(s: Store) returns (r: Reply<Page<(Id, Tag)>>)
    requires s.Valid()
    ensures r.Ok? && r.status == 200 && r.data.count == |r.data.data|
    ensures forall p :: p in r.data.data <==> p.0 in s.tags && s.tags[p.0] == p.1
    ensures forall i, j :: 0 <= i < j < |r.data.data| ==> r.data.data[i].0 != r.data.data[j].0
    ensures SortedBy(r.data.data, TagNameOrder)
  {
    TagNameOrderTotal();
    var tags := Query(s.tags, s.clock, (id: Id, t: Tag) => true, TagNameOrder);
    r := Ok(200, Page(|tags|, tags));
  }

  /** `getTagById`: 400 for a malformed id, 404 for an absent one. */
  method GetTagById(s: Store, id: IdParam) returns (r: Reply<(Id, Tag)>)
    ensures id.Malformed? ==> r == Refused(400, InvalidTagIdError)
    ensures r.Ok? <==> id.Wellformed? && id.id in s.tags
    ensures r.Ok? ==> r == Ok(200, (id.id, s.tags[id.id]))
    ensures id.Wellformed? && !r.Ok? ==> r == Refused(404, TagNotFoundError)
  {
    if id.Malformed? {
      return Refused(400, InvalidTagIdError);
    }
    if id.id !in s.tags {
      return Refused(404, TagNotFoundError);
    }
    r := Ok(200, (id.id, s.tags[id.id]));
  }

  /** `updateTag`: 400 for a malformed id; the update's validators, then
      404 for an absent tag; a duplicate name is forwarded as an error. */
  method UpdateTag(s: Store, id: IdParam, body: Body) returns (r: Reply<(Id, Tag)>)
    requires s.Valid()
    modifies s
    ensures s.Valid()
    ensures s.users == old(s.users) && s.notes == old(s.notes) && s.categories == old(s.categories) && s.clock == old(s.clock)
    ensures id.Malformed? ==> r == Refused(400, InvalidTagIdError)
    ensures r == Refused(404, TagNotFoundError) <==> id.Wellformed? && TagUpdateValid(body) && id.id !in old(s.tags)
    ensures id.Wellformed? && !TagUpdateValid(body) ==> r.Forwarded?
    ensures r.Ok? <==> && id.Wellformed? && TagUpdateValid(body) && id.id in old(s.tags)
                       && (body.name.Some? ==> !TagNameUsed(old(s.tags), Normalize(body.name.value), Some(id.id)))
    ensures (&& id.Wellformed? && TagUpdateValid(body) && id.id in old(s.tags)
             && body.name.Some? && TagNameUsed(old(s.tags), Normalize(body.name.value), Some(id.id))) ==> r.Forwarded?
    ensures !r.Ok? ==> s.tags == old(s.tags)
    ensures r.Ok? ==> && id.Wellformed? && id.id in old(s.tags) && r.status == 200 && r.data.0 == id.id
                      && r.data.1.name == (if body.name.Some? then Normalize(body.name.value) else old(s.tags)[id.id].name)
                      && r.data.1.color == (if body.color.Some? then body.color.value else old(s.tags)[id.id].color)
                      && !TagNameUsed(old(s.tags), r.data.1.name, Some(id.id))
                      && s.tags == old(s.tags)[id.id := r.data.1]
  {
    if id.Malformed? {
      return Refused(400, InvalidTagIdError);
    }
    var saved := s.UpdateTag(id.id, body);
    if saved.Missing? {
      return Refused(404, TagNotFoundError);
    }
    if !saved.Saved? {
      return Forwarded;
    }
    r := Ok(200, (id.id, saved.doc));
  }

  /** `deleteTag`: 400 for a malformed id, 404 for an absent tag; otherwise
      only the tag goes. Every note is left as it was, so a note that listed
      the tag now lists an id no tag has. */
  method DeleteTag(s: Store, id: IdParam) returns (r: Reply<Done>)
    requires s.Valid()
    modifies s
    ensures s.Valid()
    ensures s.users == old(s.users) && s.notes == old(s.notes) && s.categories == old(s.categories) && s.clock == old(s.clock)
    ensures id.Malformed? ==> r == Refused(400, InvalidTagIdError)
    ensures r.Ok? <==> id.Wellformed? && id.id in old(s.tags)
    ensures id.Wellformed? && !r.Ok? ==> r == Refused(404, TagNotFoundError)
    ensures r.Ok? ==> r == Ok(200, Done(Some(TagDeletedMessage)))
    ensures s.tags == if r.Ok? then old(s.tags) - {id.id} else old(s.tags)
    ensures r.Ok? ==> forall n :: n in s.notes && id.id in s.notes[n].tags ==> id.id !in s.tags
  {
    if id.Malformed? {
      return Refused(400, InvalidTagIdError);
    }
    var found := s.DeleteTag(id.id);
    if !found {
      assert s.tags == old(s.tags);
      return Refused(404, TagNotFoundError);
    }
    r := Ok(200, Done(Some(TagDeletedMessage)));
  }
}
