/** The four Mongoose schemas: the records they store, the constraints a
    stored record satisfies, and how a request body becomes a record. A
    string path's setters (`trim`, `lowercase`) run first, then its
    validators (`required`, `maxlength`, `enum`, `match`) on the result; a
    default applies only when the path is absent. On an update with
    `runValidators` only the paths present in the update are cast and
    checked. Failing any of these throws, which the handlers pass to
    `next(error)`; here that is `None`. Uniqueness is a property of the whole
    collection and is checked by the store. */
module Schema {
  import opened Types
  import opened Text
  import opened Http
  import opened Validation

  /** A note. `createdAt` is the note's id (see Db). */
  datatype Note = Note(
    userId: Id,
    title: string,
    content: string,
    category: string,
    isPinned: bool,
    color: string,
    tags: seq<Id>)

  datatype Tag = Tag(name: string, color: string)

  datatype Category = Category(name: string, description: Option<string>, color: string, icon: string)

  /** A user; `password` holds the bcrypt hash. */
  datatype User = User(email: string, password: string, role: Role)

  /** A user as the admin handlers return it: `select("-password")`. */
  datatype PublicUser = PublicUser(id: Id, email: string, role: Role)

  function Public(id: Id, u: User): (p: PublicUser)
    ensures p.id == id && p.email == u.email && p.role == u.role
  {
    PublicUser(id, u.email, u.role)
  }

  const NoteCategoryDefault: string := "Other"
  const NoteColorDefault: string := "#ffffff"
  const TagColorDefault: string := "#3b82f6"
  const CategoryColorDefault: string := "#3b82f6"
  const CategoryIconDefault: string := "\U{1F4C2}"

  const TitleMax: nat := 100
  const TagNameMax: nat := 30
  const CategoryNameMax: nat := 50
  const DescriptionMax: nat := 200
  const PasswordMin: nat := 6

  /** The `match: /^#[0-9A-Fa-f]{6}$/` validator. Mongoose's `match` does not
      test the empty string, so "" is accepted. */
  predicate ColorOk(c: string) {
    c == "" || IsHexColor(c)
  }

  predicate NoteValid(n: Note) {
    && n.title != "" && Trimmed(n.title) && |n.title| <= TitleMax
    && n.content != "" && Trimmed(n.content)
    && n.category in NoteCategories
    && ColorOk(n.color)
  }

  /** A stored tag name: non-empty, lower case and trimmed, at most 30. */
  predicate TagNameOk(name: string) {
    name != "" && IsLower(name) && Trimmed(name) && |name| <= TagNameMax
  }

  predicate TagValid(t: Tag) {
    TagNameOk(t.name) && ColorOk(t.color)
  }

  predicate CategoryValid(c: Category) {
    && c.name != "" && Trimmed(c.name) && |c.name| <= CategoryNameMax
    && (c.description.Some? ==> Trimmed(c.description.value) && |c.description.value| <= DescriptionMax)
    && ColorOk(c.color)
  }

  /** A stored user: the email is present, lower case and of the shape the
      schema's email pattern accepts (`emailShape`). The role is in the
      enum by its type. */
  predicate UserValid(u: User, emailShape: string -> bool) {
    u.email != "" && IsLower(u.email) && emailShape(u.email)
  }

  /** A string path with `trim: true`: the trimmed value, refused when the
      path is `required` and the value is empty, or when it is longer than
      its `maxlength`. */
  function CastText(raw: string, required: bool, max: Option<nat>): (r: Option<string>)
    ensures r.Some? ==> r.value == Trim(raw) && Trimmed(r.value)
    ensures r.Some? ==> (!required || r.value != "") && (max.None? || |r.value| <= max.value)
    ensures r.None? ==> (required && Trim(raw) == "") || (max.Some? && |Trim(raw)| > max.value)
  {
    var t := Trim(raw);
    if (required && t == "") || (max.Some? && |t| > max.value) then None else Some(t)
  }

  /** A value already stored casts to itself. */
  lemma CastTextStored(v: string, required: bool, max: Option<nat>)
    requires Trimmed(v) && (!required || v != "") && (max.None? || |v| <= max.value)
    ensures CastText(v, required, max) == Some(v)
  {
  }

  /** The tag `name` path: `lowercase` and `trim`, then `required` and
      `maxlength: 30`. */
  function CastTagName(raw: string): (r: Option<string>)
    ensures r.Some? ==> TagNameOk(r.value) && r.value == Normalize(raw)
    ensures r.None? ==> Normalize(raw) == "" || |Normalize(raw)| > TagNameMax
  {
    NormalizedShape(raw);
    var n := Normalize(raw);
    if n == "" || |n| > TagNameMax then None else Some(n)
  }

  lemma CastTagNameStored(name: string)
    requires TagNameOk(name)
    ensures CastTagName(name) == Some(name)
  {
    NormalForm(name);
  }

  /** The user `email` path: `lowercase`, then `required` and `match`. */
  function CastEmail(raw: string, emailShape: string -> bool): (r: Option<string>)
    ensures r.Some? ==> r.value == Lower(raw) && r.value != "" && IsLower(r.value) && emailShape(r.value)
    ensures r.None? ==> raw == "" || !emailShape(Lower(raw))
  {
    LowerIsLower(raw);
    var e := Lower(raw);
    if e == "" || !emailShape(e) then None else Some(e)
  }

  /** A colour path with a default: absent gives the default, present must
      pass `match`. */
  function CastColor(raw: Option<string>, default: string): (r: Option<string>)
    requires ColorOk(default)
    ensures r.Some? ==> ColorOk(r.value)
    ensures r.None? <==> raw.Some? && !ColorOk(raw.value)
    ensures raw.None? ==> r == Some(default)
  {
    match raw
    case None => Some(default)
    case Some(c) => if ColorOk(c) then Some(c) else None
  }

  /** `Note.create(noteData)` for an owner and the tag ids the handler
      computed: title and content are required, category, `isPinned` and
      colour take their defaults when absent. Any `userId` in the body is
      overridden by the owner. */
  function NewNote(body: Body, owner: Id, tags: seq<Id>): (r: Option<Note>)
    ensures r.Some? ==> NoteValid(r.value)
    ensures r.Some? ==> body.title.Some? && body.content.Some?
    ensures r.Some? ==> r.value.userId == owner && r.value.tags == tags
    ensures r.Some? ==> r.value.title == Trim(body.title.value) && r.value.content == Trim(body.content.value)
    ensures r.Some? ==> r.value.category == (if body.category.Some? then body.category.value else NoteCategoryDefault)
    ensures r.Some? ==> r.value.isPinned == (body.isPinned == Some(true))
    ensures r.Some? ==> r.value.color == (if body.color.Some? then body.color.value else NoteColorDefault)
    ensures r.None? <==>
      || body.title.None? || Trim(body.title.value) == "" || |Trim(body.title.value)| > TitleMax
      || body.content.None? || Trim(body.content.value) == ""
      || (body.category.Some? && body.category.value !in NoteCategories)
      || (body.color.Some? && !ColorOk(body.color.value))
  {
    if body.title.None? || body.content.None? then None
    else
      var title := CastText(body.title.value, true, Some(TitleMax));
      var content := CastText(body.content.value, true, None);
      var category := if body.category.Some? then body.category.value else NoteCategoryDefault;
      var color := CastColor(body.color, NoteColorDefault);
      if title.None? || content.None? || category !in NoteCategories || color.None? then None
      else
        var pinned := if body.isPinned.Some? then body.isPinned.value else false;
        Some(Note(owner, title.value, content.value, category, pinned, color.value, tags))
  }

  /** The update validators of the note paths a body names, and the cast
      of a `userId` in it. They do not depend on the stored note. */
  predicate NoteUpdateValid(body: Body) {
    && (body.title.Some? ==> Trim(body.title.value) != "" && |Trim(body.title.value)| <= TitleMax)
    && (body.content.Some? ==> Trim(body.content.value) != "")
    && (body.category.Some? ==> body.category.value in NoteCategories)
    && (body.color.Some? ==> ColorOk(body.color.value))
    && body.userId != Some(Malformed)
  }

  /** `findByIdAndUpdate(id, noteData, { runValidators: true })` on note
      `n`: every path present in the body is cast and checked, the others
      keep their values. `tags` is the list the handler computed, if any; a
      `userId` in the body moves the note to that owner, and one that is not
      an ObjectId fails to cast. */
  function PatchNote(n: Note, body: Body, tags: Option<seq<Id>>): (r: Option<Note>)
    ensures NoteValid(n) && r.Some? ==> NoteValid(r.value)
    ensures r.Some? ==> r.value.title == (if body.title.Some? then Trim(body.title.value) else n.title)
    ensures r.Some? ==> r.value.content == (if body.content.Some? then Trim(body.content.value) else n.content)
    ensures r.Some? ==> r.value.category == (if body.category.Some? then body.category.value else n.category)
    ensures r.Some? ==> r.value.isPinned == (if body.isPinned.Some? then body.isPinned.value else n.isPinned)
    ensures r.Some? ==> r.value.color == (if body.color.Some? then body.color.value else n.color)
    ensures r.Some? ==> r.value.tags == (if tags.Some? then tags.value else n.tags)
    ensures r.Some? ==> r.value.userId == (if body.userId.Some? && body.userId.value.Wellformed? then body.userId.value.id else n.userId)
    ensures r.None? <==> !NoteUpdateValid(body)
  {
    if !NoteUpdateValid(body) then None
    else
      Some(Note(
        if body.userId.Some? && body.userId.value.Wellformed? then body.userId.value.id else n.userId,
        if body.title.Some? then Trim(body.title.value) else n.title,
        if body.content.Some? then Trim(body.content.value) else n.content,
        if body.category.Some? then body.category.value else n.category,
        if body.isPinned.Some? then body.isPinned.value else n.isPinned,
        if body.color.Some? then body.color.value else n.color,
        if tags.Some? then tags.value else n.tags))
  }

  /** An update that names no path leaves the note as it is. */
  lemma PatchNoteNothing(n: Note)
    ensures PatchNote(n, EmptyBody, None) == Some(n)
  {
  }

  /** `Tag.create(body)`: the name is required and normalised, the colour
      defaults to #3b82f6. */
  function NewTag(body: Body): (r: Option<Tag>)
    ensures r.Some? ==> TagValid(r.value)
    ensures r.Some? ==> body.name.Some?
    ensures r.Some? ==> r.value.name == Normalize(body.name.value)
    ensures r.Some? ==> r.value.color == (if body.color.Some? then body.color.value else TagColorDefault)
    ensures r.None? <==> body.name.None? || CastTagName(body.name.value).None? || CastColor(body.color, TagColorDefault).None?
  {
    if body.name.None? then None
    else
      var name := CastTagName(body.name.value);
      var color := CastColor(body.color, TagColorDefault);
      if name.None? || color.None? then None else Some(Tag(name.value, color.value))
  }

  /** The update validators of the tag paths a body names. */
  predicate TagUpdateValid(body: Body) {
    && (body.name.Some? ==> CastTagName(body.name.value).Some?)
    && (body.color.Some? ==> ColorOk(body.color.value))
  }

  /** A tag update with `runValidators`: a present name is normalised and
      checked, a present colour checked, the rest kept. */
  function PatchTag(t: Tag, body: Body): (r: Option<Tag>)
    ensures TagValid(t) && r.Some? ==> TagValid(r.value)
    ensures r.Some? ==> r.value.name == (if body.name.Some? then Normalize(body.name.value) else t.name)
    ensures r.Some? ==> r.value.color == (if body.color.Some? then body.color.value else t.color)
    ensures r.None? <==> !TagUpdateValid(body)
  {
    var name := if body.name.Some? then CastTagName(body.name.value) else Some(t.name);
    var color := if body.color.Some? then (if ColorOk(body.color.value) then body.color else None) else Some(t.color);
    if name.None? || color.None? then None else Some(Tag(name.value, color.value))
  }

  /** `Category.create(body)`: the name is required, trimmed and at most 50
      long; a description is trimmed and at most 200; colour and icon take
      their defaults when absent. */
  function NewCategory(body: Body): (r: Option<Category>)
    ensures r.Some? ==> CategoryValid(r.value)
    ensures r.Some? ==> body.name.Some?
    ensures r.Some? ==> r.value.name == Trim(body.name.value)
    ensures r.Some? ==> r.value.description == (if body.description.Some? then Some(Trim(body.description.value)) else None)
    ensures r.Some? ==> r.value.color == (if body.color.Some? then body.color.value else CategoryColorDefault)
    ensures r.Some? ==> r.value.icon == (if body.icon.Some? then body.icon.value else CategoryIconDefault)
    ensures r.None? <==>
      || body.name.None? || CastText(body.name.value, true, Some(CategoryNameMax)).None?
      || (body.description.Some? && CastText(body.description.value, false, Some(DescriptionMax)).None?)
      || CastColor(body.color, CategoryColorDefault).None?
  {
    if body.name.None? then None
    else
      var name := CastText(body.name.value, true, Some(CategoryNameMax));
      var description := if body.description.Some? then CastText(body.description.value, false, Some(DescriptionMax)) else Some("");
      var color := CastColor(body.color, CategoryColorDefault);
      if name.None? || description.None? || color.None? then None
      else
        Some(Category(
          name.value,
          if body.description.Some? then description else None,
          color.value,
          if body.icon.Some? then body.icon.value else CategoryIconDefault))
  }

  /** The update validators of the category paths a body names. */
  predicate CategoryUpdateValid(body: Body) {
    && (body.name.Some? ==> CastText(body.name.value, true, Some(CategoryNameMax)).Some?)
    && (body.description.Some? ==> CastText(body.description.value, false, Some(DescriptionMax)).Some?)
    && (body.color.Some? ==> ColorOk(body.color.value))
  }

  /** A category update with `runValidators` on the paths the body names. */
  function PatchCategory(c: Category, body: Body): (r: Option<Category>)
    ensures CategoryValid(c) && r.Some? ==> CategoryValid(r.value)
    ensures r.Some? ==> r.value.name == (if body.name.Some? then Trim(body.name.value) else c.name)
    ensures r.Some? ==> r.value.description == (if body.description.Some? then Some(Trim(body.description.value)) else c.description)
    ensures r.Some? ==> r.value.color == (if body.color.Some? then body.color.value else c.color)
    ensures r.Some? ==> r.value.icon == (if body.icon.Some? then body.icon.value else c.icon)
    ensures r.None? <==> !CategoryUpdateValid(body)
  {
    var name := if body.name.Some? then CastText(body.name.value, true, Some(CategoryNameMax)) else Some(c.name);
    var description := if body.description.Some? then CastText(body.description.value, false, Some(DescriptionMax)) else Some("");
    var color := if body.color.Some? then (if ColorOk(body.color.value) then body.color else None) else Some(c.color);
    if name.None? || description.None? || color.None? then None
    else
      Some(Category(
        name.value,
        if body.description.Some? then description else c.description,
        color.value,
        if body.icon.Some? then body.icon.value else c.icon))
  }

  /** The user schema's pre-save hook: the password is replaced by its hash
      (`hash` stands for bcrypt with a fresh salt) only when it was
      modified; nothing else changes. */
  function PreSave(u: User, passwordModified: bool, hash: string -> string): (r: User)
    ensures r.email == u.email && r.role == u.role
    ensures r.password == (if passwordModified then hash(u.password) else u.password)
  {
    if passwordModified then u.(password := hash(u.password)) else u
  }

  /** Saving again without touching the password does not hash the stored
      hash a second time. */
  lemma PreSaveHashesOnce(u: User, hash: string -> string)
    ensures PreSave(PreSave(u, true, hash), false, hash) == PreSave(u, true, hash)
    ensures PreSave(u, false, hash) == u
  {
  }

  // ----- What the validators guarantee about the schemas -----

  /** A body `validateNote` accepts is accepted by the note schema, unless
      its trimmed title is longer than 100: the validator never bounds the
      title. */
  lemma NoteValidatorSound(body: Body, owner: Id, tags: seq<Id>)
    requires NoteErrors(body) == []
    requires |Trim(body.title.value)| <= TitleMax
    ensures NewNote(body, owner, tags).Some?
  {
    assert Flag(body, TitleRequired) == [] && Flag(body, ContentRequired) == [];
    assert Flag(body, CategoryRequired) == [] && Flag(body, CategoryNotAllowed) == [];
    assert Flag(body, NoteColorInvalid) == [];
    if body.category.Some? {
      assert Trim(body.category.value) != "";
      assert body.category.value != "";
    }
  }

  /** A 101-character title passes `validateNote` but not the schema. */
  lemma LongTitleRefusedBySchema(body: Body, owner: Id, tags: seq<Id>)
    requires body.title == Some(seq(101, _ => 'x'))
    requires body.content == Some("c") && body.category == Some("Work") && body.color.None?
    ensures NoteErrors(body) == [] && NewNote(body, owner, tags).None?
  {
    LongTitlePassesValidator(body);
    TrimOfTrimmed(body.title.value);
  }

  /** A body `validateCategory` accepts is accepted by the category schema:
      the validator's bounds on the untrimmed text are at least as strict. */
  lemma CategoryValidatorSound(body: Body)
    requires CategoryErrors(body) == []
    ensures NewCategory(body).Some?
  {
    CategoryErrorsExact(body);
    assert !Violated(body, CategoryNameRequired) && !Violated(body, CategoryNameTooLong);
    assert !Violated(body, DescriptionTooLong) && !Violated(body, CategoryColorInvalid);
  }

  /** A body `validateTag` accepts is accepted by the tag schema: lower-casing
      keeps the length, and trimming a name that is not blank leaves it
      non-empty. */
  lemma TagValidatorSound(body: Body)
    requires TagErrors(body) == []
    ensures NewTag(body).Some?
  {
    TagErrorsExact(body);
    assert !Violated(body, TagNameRequired) && !Violated(body, TagNameTooLong);
    assert !Violated(body, TagColorInvalid);
    var raw := body.name.value;
    TrimLowerCommute(raw);
    assert |Normalize(raw)| == |Trim(raw)|;
  }
}
