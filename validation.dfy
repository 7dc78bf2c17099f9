/** The request-body validators `validateNote`, `validateCategory` and
    `validateTag`. Each runs every one of its checks, collects the message of
    every check that fails, answers 400 with all of them when there is at
    least one, and otherwise lets the request through. */
module Validation {
  import opened Types
  import opened Text
  import opened Http

  /** One failed check, in the order the validators run them. */
  datatype FieldError =
    | TitleRequired | ContentRequired | CategoryRequired | CategoryNotAllowed | NoteColorInvalid
    | CategoryNameRequired | CategoryNameTooLong | DescriptionTooLong | CategoryColorInvalid
    | TagNameRequired | TagNameTooLong | TagColorInvalid
  {
    /** The text pushed onto the `errors` array. */
    function Message(): string {
      match this
      case TitleRequired => "Title is required"
      case ContentRequired => "Content is required"
      case CategoryRequired => "Category is required"
      case CategoryNotAllowed => "Category must be one of: Work, Personal, Ideas, Study, Todo, Other"
      case NoteColorInvalid => "Color must be a valid hex color code (e.g., #ffffff)"
      case CategoryNameRequired => "Category name is required"
      case CategoryNameTooLong => "Category name cannot exceed 50 characters"
      case DescriptionTooLong => "Description cannot exceed 200 characters"
      case CategoryColorInvalid => "Color must be a valid hex color code (e.g., #3b82f6)"
      case TagNameRequired => "Tag name is required"
      case TagNameTooLong => "Tag name cannot exceed 30 characters"
      case TagColorInvalid => "Color must be a valid hex color code (e.g., #3b82f6)"
    }
  }

  /** The condition under which each check adds its message. */
  predicate Violated(body: Body, e: FieldError) {
    match e
    case TitleRequired => Blank(body.title)
    case ContentRequired => Blank(body.content)
    case CategoryRequired => Blank(body.category)
    case CategoryNotAllowed => Truthy(body.category) && body.category.value !in NoteCategories
    case NoteColorInvalid => Truthy(body.color) && !IsHexColor(body.color.value)
    case CategoryNameRequired => Blank(body.name)
    case CategoryNameTooLong => Truthy(body.name) && |body.name.value| > 50
    case DescriptionTooLong => Truthy(body.description) && |body.description.value| > 200
    case CategoryColorInvalid => Truthy(body.color) && !IsHexColor(body.color.value)
    case TagNameRequired => Blank(body.name)
    case TagNameTooLong => Truthy(body.name) && |body.name.value| > 30
    case TagColorInvalid => Truthy(body.color) && !IsHexColor(body.color.value)
  }

  const NoteChecks: seq<FieldError> := [TitleRequired, ContentRequired, CategoryRequired, CategoryNotAllowed, NoteColorInvalid]
  const CategoryChecks: seq<FieldError> := [CategoryNameRequired, CategoryNameTooLong, DescriptionTooLong, CategoryColorInvalid]
  const TagChecks: seq<FieldError> := [TagNameRequired, TagNameTooLong, TagColorInvalid]

  /** What one check contributes to the error list. */
  function Flag(body: Body, e: FieldError): seq<FieldError> {
    if Violated(body, e) then [e] else []
  }

  /** The messages validateNote collects, check by check. */
  function NoteErrors(body: Body): seq<FieldError> {
    Flag(body, TitleRequired) + Flag(body, ContentRequired) + Flag(body, CategoryRequired)
    + Flag(body, CategoryNotAllowed) + Flag(body, NoteColorInvalid)
  }

  /** The messages validateCategory collects, check by check. */
  function CategoryErrors(body: Body): seq<FieldError> {
    Flag(body, CategoryNameRequired) + Flag(body, CategoryNameTooLong)
    + Flag(body, DescriptionTooLong) + Flag(body, CategoryColorInvalid)
  }

  /** The messages validateTag collects, check by check. */
  function TagErrors(body: Body): seq<FieldError> {
    Flag(body, TagNameRequired) + Flag(body, TagNameTooLong) + Flag(body, TagColorInvalid)
  }

  /** The position of a check in its validator's sequence of checks. */
  function Rank(e: FieldError): nat {
    match e
    case TitleRequired => 0
    case ContentRequired => 1
    case CategoryRequired => 2
    case CategoryNotAllowed => 3
    case NoteColorInvalid => 4
    case CategoryNameRequired => 0
    case CategoryNameTooLong => 1
    case DescriptionTooLong => 2
    case CategoryColorInvalid => 3
    case TagNameRequired => 0
    case TagNameTooLong => 1
    case TagColorInvalid => 2
  }

  /** Messages listed in the order their checks run, none twice. */
  predicate InCheckOrder(errs: seq<FieldError>) {
    forall i, j :: 0 <= i < j < |errs| ==> Rank(errs[i]) < Rank(errs[j])
  }

  lemma InCheckOrderSnoc(body: Body, errs: seq<FieldError>, e: FieldError)
    requires InCheckOrder(errs) && forall x :: x in errs ==> Rank(x) < Rank(e)
    ensures InCheckOrder(errs + Flag(body, e))
    ensures forall x :: x in errs + Flag(body, e) ==> Rank(x) <= Rank(e)
  {
    var r := errs + Flag(body, e);
    forall i, j | 0 <= i < j < |r| ensures Rank(r[i]) < Rank(r[j]) {
      if j >= |errs| {
        assert r[i] in errs;
      }
    }
  }

  /** What the verdict on the note checks says about the body. */
  lemma NoteVerdict(body: Body)
    ensures Judge(NoteErrors(body)).Proceed? <==> forall e :: e in NoteChecks ==> !Violated(body, e)
    ensures Judge(NoteErrors(body)).Reject? ==> InCheckOrder(NoteErrors(body))
    ensures Judge(NoteErrors(body)).Reject? ==> forall e :: e in NoteErrors(body) <==> e in NoteChecks && Violated(body, e)
  {
    NoteErrorsExact(body);
    NoteErrorsOrdered(body);
    JudgeMeaning(body, NoteErrors(body), NoteChecks);
  }

  /** Every check of a validator reports its message exactly when it fails,
      each message once, in check order. */
  lemma NoteErrorsExact(body: Body)
    ensures forall e :: e in NoteErrors(body) <==> e in NoteChecks && Violated(body, e)
  {
  }

  lemma NoteErrorsOrdered(body: Body)
    ensures InCheckOrder(NoteErrors(body))
  {
    var e0 := Flag(body, TitleRequired);
    InCheckOrderSnoc(body, e0, ContentRequired);
    var e1 := e0 + Flag(body, ContentRequired);
    InCheckOrderSnoc(body, e1, CategoryRequired);
    var e2 := e1 + Flag(body, CategoryRequired);
    InCheckOrderSnoc(body, e2, CategoryNotAllowed);
    var e3 := e2 + Flag(body, CategoryNotAllowed);
    InCheckOrderSnoc(body, e3, NoteColorInvalid);
  }

  /** What the verdict on the category checks says about the body. */
  lemma CategoryVerdict(body: Body)
    ensures Judge(CategoryErrors(body)).Proceed? <==> forall e :: e in CategoryChecks ==> !Violated(body, e)
    ensures Judge(CategoryErrors(body)).Reject? ==> InCheckOrder(CategoryErrors(body))
    ensures Judge(CategoryErrors(body)).Reject? ==> forall e :: e in CategoryErrors(body) <==> e in CategoryChecks && Violated(body, e)
  {
    CategoryErrorsExact(body);
    CategoryErrorsOrdered(body);
    JudgeMeaning(body, CategoryErrors(body), CategoryChecks);
  }

  lemma CategoryErrorsExact(body: Body)
    ensures forall e :: e in CategoryErrors(body) <==> e in CategoryChecks && Violated(body, e)
  {
  }

  lemma CategoryErrorsOrdered(body: Body)
    ensures InCheckOrder(CategoryErrors(body))
  {
    var e0 := Flag(body, CategoryNameRequired);
    InCheckOrderSnoc(body, e0, CategoryNameTooLong);
    var e1 := e0 + Flag(body, CategoryNameTooLong);
    InCheckOrderSnoc(body, e1, DescriptionTooLong);
    var e2 := e1 + Flag(body, DescriptionTooLong);
    InCheckOrderSnoc(body, e2, CategoryColorInvalid);
  }

  /** What the verdict on the tag checks says about the body. */
  lemma TagVerdict(body: Body)
    ensures Judge(TagErrors(body)).Proceed? <==> forall e :: e in TagChecks ==> !Violated(body, e)
    ensures Judge(TagErrors(body)).Reject? ==> InCheckOrder(TagErrors(body))
    ensures Judge(TagErrors(body)).Reject? ==> forall e :: e in TagErrors(body) <==> e in TagChecks && Violated(body, e)
  {
    TagErrorsExact(body);
    TagErrorsOrdered(body);
    JudgeMeaning(body, TagErrors(body), TagChecks);
  }

  lemma TagErrorsExact(body: Body)
    ensures forall e :: e in TagErrors(body) <==> e in TagChecks && Violated(body, e)
  {
  }

  lemma TagErrorsOrdered(body: Body)
    ensures InCheckOrder(TagErrors(body))
  {
    var e0 := Flag(body, TagNameRequired);
    InCheckOrderSnoc(body, e0, TagNameTooLong);
    var e1 := e0 + Flag(body, TagNameTooLong);
    InCheckOrderSnoc(body, e1, TagColorInvalid);
  }

  /** A validator's decision: call `next()`, or answer
      `400 { success: false, errors }`. */
  datatype Verdict = Proceed | Reject(errors: seq<FieldError>) {
    function Status(): nat { if Proceed? then 200 else 400 }
    function Messages(): seq<string> {
      if Proceed? then [] else seq(|errors|, i requires 0 <= i < |errors| => errors[i].Message())
    }
  }

  /** `if (errors.length > 0) return 400 ...; next();` */
  function Judge(errors: seq<FieldError>): Verdict {
    if |errors| > 0 then Reject(errors) else Proceed
  }

  /** What the verdict on a validator's error list says about the body. */
  lemma JudgeMeaning(body: Body, errors: seq<FieldError>, checks: seq<FieldError>)
    requires forall e :: e in errors <==> e in checks && Violated(body, e)
    ensures Judge(errors).Proceed? <==> forall e :: e in checks ==> !Violated(body, e)
  {
    if errors != [] {
      assert errors[0] in errors;
    }
  }

  /** validateNote: title, content and category required (not blank), a
      present category in the enum, a present colour a hex colour. The
      errors are pushed one check at a time; what the verdict means is
      `NoteVerdict`. */
  method ValidateNote(body: Body) returns (v: Verdict)
    ensures v == Judge(NoteErrors(body))
  {
    var errors: seq<FieldError> := [];
    ghost var before: seq<FieldError> := [];
    if Blank(body.title) {
      errors := errors + [TitleRequired];
    }
    assert errors == Flag(body, TitleRequired);
    before := errors;
    if Blank(body.content) {
      errors := errors + [ContentRequired];
    }
    assert errors == before + Flag(body, ContentRequired);
    before := errors;
    if Blank(body.category) {
      errors := errors + [CategoryRequired];
    }
    assert errors == before + Flag(body, CategoryRequired);
    before := errors;
    if Truthy(body.category) && body.category.value !in NoteCategories {
      errors := errors + [CategoryNotAllowed];
    }
    assert errors == before + Flag(body, CategoryNotAllowed);
    before := errors;
    if Truthy(body.color) && !IsHexColor(body.color.value) {
      errors := errors + [NoteColorInvalid];
    }
    assert errors == before + Flag(body, NoteColorInvalid);
    assert errors == NoteErrors(body);
    if |errors| > 0 {
      v := Reject(errors);
    } else {
      v := Proceed;
    }
  }

  /** validateCategory: name required and at most 50 characters (counted
      before trimming), description at most 200, a present colour a hex
      colour. What the verdict means is `CategoryVerdict`. */
  method ValidateCategory(body: Body) returns (v: Verdict)
    ensures v == Judge(CategoryErrors(body))
  {
    var errors: seq<FieldError> := [];
    ghost var before: seq<FieldError> := [];
    if Blank(body.name) {
      errors := errors + [CategoryNameRequired];
    }
    assert errors == Flag(body, CategoryNameRequired);
    before := errors;
    if Truthy(body.name) && |body.name.value| > 50 {
      errors := errors + [CategoryNameTooLong];
    }
    assert errors == before + Flag(body, CategoryNameTooLong);
    before := errors;
    if Truthy(body.description) && |body.description.value| > 200 {
      errors := errors + [DescriptionTooLong];
    }
    assert errors == before + Flag(body, DescriptionTooLong);
    before := errors;
    if Truthy(body.color) && !IsHexColor(body.color.value) {
      errors := errors + [CategoryColorInvalid];
    }
    assert errors == before + Flag(body, CategoryColorInvalid);
    assert errors == CategoryErrors(body);
    if |errors| > 0 {
      v := Reject(errors);
    } else {
      v := Proceed;
    }
  }

  /** validateTag: name required and at most 30 characters (counted before
      trimming), a present colour a hex colour. What the verdict means is
      `TagVerdict`. */
  method ValidateTag(body: Body) returns (v: Verdict)
    ensures v == Judge(TagErrors(body))
  {
    var errors: seq<FieldError> := [];
    ghost var before: seq<FieldError> := [];
    if Blank(body.name) {
      errors := errors + [TagNameRequired];
    }
    assert errors == Flag(body, TagNameRequired);
    before := errors;
    if Truthy(body.name) && |body.name.value| > 30 {
      errors := errors + [TagNameTooLong];
    }
    assert errors == before + Flag(body, TagNameTooLong);
    before := errors;
    if Truthy(body.color) && !IsHexColor(body.color.value) {
      errors := errors + [TagColorInvalid];
    }
    assert errors == before + Flag(body, TagColorInvalid);
    assert errors == TagErrors(body);
    if |errors| > 0 {
      v := Reject(errors);
    } else {
      v := Proceed;
    }
  }

  /** Every note category starts with a capital letter. */
  lemma CategoriesCapitalised()
    ensures forall x :: x in NoteCategories ==> x != [] && 'A' <= x[0] <= 'Z'
  {
  }

  /** A non-empty category made only of white space fails both the
      "required" check and the enum check. */
  lemma BlankCategoryFailsTwice(body: Body)
    requires body.category.Some? && body.category.value != "" && AllSpace(body.category.value)
    ensures NoteErrors(body) == (if Blank(body.title) then [TitleRequired] else [])
                                + (if Blank(body.content) then [ContentRequired] else [])
                                + [CategoryRequired, CategoryNotAllowed]
                                + (if Violated(body, NoteColorInvalid) then [NoteColorInvalid] else [])
  {
    var c := body.category.value;
    TrimEmptyIffAllSpace(c);
    assert !('A' <= c[0] <= 'Z') by {
      assert IsSpace(c[0]);
    }
    CategoriesCapitalised();
    assert c !in NoteCategories;
  }

  /** The note validator does not bound the title's length: a 101-character
      title passes it (only the schema's `maxlength` rejects it later). */
  lemma LongTitlePassesValidator(body: Body)
    requires body.title == Some(seq(101, _ => 'x'))
    requires body.content == Some("c") && body.category == Some("Work") && body.color.None?
    ensures NoteErrors(body) == []
  {
    TrimOfTrimmed(body.title.value);
    TrimOfTrimmed("c");
    TrimOfTrimmed("Work");
  }

  /** The category name's length is checked before trimming, independently of
      the "required" check: 51 spaces fail both. */
  lemma SpacesNameFailsTwice(body: Body)
    requires body.name == Some(seq(51, _ => ' '))
    requires body.description.None? && body.color.None?
    ensures CategoryErrors(body) == [CategoryNameRequired, CategoryNameTooLong]
  {
    TrimEmptyIffAllSpace(body.name.value);
  }

  /** The same holds of the tag validator with its limit of 30. */
  lemma SpacesTagNameFailsTwice(body: Body)
    requires body.name == Some(seq(31, _ => ' '))
    requires body.color.None?
    ensures TagErrors(body) == [TagNameRequired, TagNameTooLong]
  {
    TrimEmptyIffAllSpace(body.name.value);
  }
}
