/** The route files: for each endpoint, the middleware that runs before its
    handler, in order. A request goes down the chain; each stage either
    passes it on (the authentication stage with `req.user` set) or answers
    itself. The four routers are mounted under `/api/notes`, `/api/tags`,
    `/api/categories` and `/api/admin`, none with middleware of its own. */
module Routes {
  import opened Types
  import opened Http
  import opened Validation
  import Auth

  /** A middleware function that can precede a handler. `AdminOnly` is
      `authorize(["admin"])`. */
  datatype Stage = Authenticate | OptionalAuthenticate | AdminOnly | NoteValidator | CategoryValidator | TagValidator {
    predicate IsValidator() {
      NoteValidator? || CategoryValidator? || TagValidator?
    }
  }

  datatype Verb = Get | Post | Put | Delete

  /** The controller function a route ends in. */
  datatype Handler =
    | CreateNote | GetAllNotes | GetNoteById | UpdateNote | DeleteNote
    | CreateTag | GetAllTags | GetTagById | UpdateTag | DeleteTag
    | CreateCategory | GetAllCategories | GetCategoryById | UpdateCategory | DeleteCategory
    | GetDashboardStats | GetAllUsers | GetUserById | UpdateUser | DeleteUser
    | GetAllNotesAdmin | DeleteNoteAdmin
    | CreateCategoryAdmin | UpdateCategoryAdmin | DeleteCategoryAdmin
    | CreateTagAdmin | UpdateTagAdmin | DeleteTagAdmin

  datatype Route = Route(verb: Verb, path: string, stages: seq<Stage>, handler: Handler)

  /** Where a request ends up: at the handler with the request as the
      chain left it, at a stage that answered with a status and an error,
      or at a validator that answered 400 with its error list. */
  datatype Outcome = Reached(handler: Handler, req: Request) | Halted(status: nat, error: string) | Invalid(errors: seq<FieldError>)

  /** Runs the stages in order, then the handler. */
  function Run(stages: seq<Stage>, h: Handler, req: Request, verify: string -> Option<Claims>): (o: Outcome)
    ensures o.Reached? ==> o.handler == h && o.req.body == req.body && o.req.authorization == req.authorization
    decreases |stages|
  {
    if stages == [] then Reached(h, req)
    else
      var rest := stages[1..];
      match stages[0]
      case Authenticate =>
        (match Auth.Authenticate(req, verify)
         case Halt(status, error) => Halted(status, error)
         case Next(next) => Run(rest, h, next, verify))
      case OptionalAuthenticate =>
        Run(rest, h, Auth.OptionalAuth(req, verify).req, verify)
      case AdminOnly =>
        (match Auth.Authorize([AdminRole], req)
         case Halt(status, error) => Halted(status, error)
         case Next(next) => Run(rest, h, next, verify))
      case NoteValidator =>
        if Judge(NoteErrors(req.body)).Reject? then Invalid(NoteErrors(req.body)) else Run(rest, h, req, verify)
      case CategoryValidator =>
        if Judge(CategoryErrors(req.body)).Reject? then Invalid(CategoryErrors(req.body)) else Run(rest, h, req, verify)
      case TagValidator =>
        if Judge(TagErrors(req.body)).Reject? then Invalid(TagErrors(req.body)) else Run(rest, h, req, verify)
  }

  /** The claims of the request's token, when it has one that verifies. */
  function TokenClaims(req: Request, verify: string -> Option<Claims>): (c: Option<Claims>)
    ensures c.Some? <==> Auth.Authenticate(req, verify).Next?
  {
    match Auth.BearerToken(req.authorization)
    case None => None
    case Some(token) => verify(token)
  }

  predicate OnlyValidators(stages: seq<Stage>) {
    forall i :: 0 <= i < |stages| ==> stages[i].IsValidator()
  }

  /** The validators a chain runs pass the request on untouched, or stop it
      with 400 and their error list; they never answer 401 or 403. */
  lemma {:induction false} ValidatorsKeepRequest(stages: seq<Stage>, h: Handler, req: Request, verify: string -> Option<Claims>)
    requires OnlyValidators(stages)
    ensures Run(stages, h, req, verify) == Reached(h, req) || Run(stages, h, req, verify).Invalid?
  {
    if stages != [] {
      ValidatorsKeepRequest(stages[1..], h, req, verify);
    }
  }

  /** `authenticate` then `authorize(["admin"])`, then validators: 401
      without a token or with one that does not verify, 403 for a verified
      user who is not an administrator, and the handler is reached only
      with `req.user` set to an administrator's claims. */
  lemma AdminChain(rest: seq<Stage>, h: Handler, req: Request, verify: string -> Option<Claims>)
    requires OnlyValidators(rest)
    ensures TokenClaims(req, verify).None? ==>
      Run([Authenticate, AdminOnly] + rest, h, req, verify).Halted? && Run([Authenticate, AdminOnly] + rest, h, req, verify).status == 401
    ensures TokenClaims(req, verify).Some? && TokenClaims(req, verify).value.role != AdminRole ==>
      Run([Authenticate, AdminOnly] + rest, h, req, verify) == Halted(403, Auth.AccessDeniedError)
    ensures Run([Authenticate, AdminOnly] + rest, h, req, verify).Reached? ==>
      && TokenClaims(req, verify).Some? && TokenClaims(req, verify).value.role == AdminRole
      && Run([Authenticate, AdminOnly] + rest, h, req, verify).req.user == TokenClaims(req, verify)
    ensures rest == [] ==>
      (Run([Authenticate, AdminOnly], h, req, verify).Reached? <==> TokenClaims(req, verify).Some? && TokenClaims(req, verify).value.role == AdminRole)
  {
    var stages := [Authenticate, AdminOnly] + rest;
    assert stages[1..] == [AdminOnly] + rest;
    assert ([AdminOnly] + rest)[1..] == rest;
    if TokenClaims(req, verify).Some? {
      var next := req.(user := TokenClaims(req, verify));
      ValidatorsKeepRequest(rest, h, next, verify);
    }
  }

  // ===== /api/notes =====

  /** routes/noteRoutes.js as written: only validation, no authentication. */
  const NoteRoutes: seq<Route> := [
    Route(Post, "/", [NoteValidator], CreateNote),
    Route(Get, "/", [], GetAllNotes),
    Route(Get, "/:id", [], GetNoteById),
    Route(Put, "/:id", [NoteValidator], UpdateNote),
    Route(Delete, "/:id", [], DeleteNote)
  ]

  /** No note route sets `req.user`: a handler sees the request exactly as
      it came in, and a request from the network carries no user, so
      `createNote`, `updateNote` and `deleteNote` always answer 401 and the
      listing is never limited to one owner. Nothing but the note validator
      can stop a request. */
  lemma NoteRoutesNeverAuthenticate(req: Request, verify: string -> Option<Claims>)
    ensures forall r :: r in NoteRoutes ==>
      Run(r.stages, r.handler, req, verify) == Reached(r.handler, req) || Run(r.stages, r.handler, req, verify).Invalid?
  {
    forall r | r in NoteRoutes
      ensures Run(r.stages, r.handler, req, verify) == Reached(r.handler, req) || Run(r.stages, r.handler, req, verify).Invalid?
    {
      ValidatorsKeepRequest(r.stages, r.handler, req, verify);
    }
  }

  /** The note routes with the authentication the handlers and the browser
      client expect: `authenticate` before every change, `optionalAuth`
      before the reads (whose handlers serve anonymous callers too). */
  const NoteRoutesAuthenticated: seq<Route> := [
    Route(Post, "/", [Authenticate, NoteValidator], CreateNote),
    Route(Get, "/", [OptionalAuthenticate], GetAllNotes),
    Route(Get, "/:id", [OptionalAuthenticate], GetNoteById),
    Route(Put, "/:id", [Authenticate, NoteValidator], UpdateNote),
    Route(Delete, "/:id", [Authenticate], DeleteNote)
  ]

  /** With authentication in front, a caller whose token verifies reaches
      every note handler as that user, so the 401 branches are taken only
      for callers without a valid token, and the listing is scoped to the
      caller. */
  lemma NoteRoutesAuthenticatedSetUser(req: Request, verify: string -> Option<Claims>)
    ensures forall r :: r in NoteRoutesAuthenticated && Run(r.stages, r.handler, req, verify).Reached? ==>
      Run(r.stages, r.handler, req, verify).req.user == (if TokenClaims(req, verify).Some? then TokenClaims(req, verify) else req.user)
    ensures forall r :: r in NoteRoutesAuthenticated && r.verb != Get && Run(r.stages, r.handler, req, verify).Reached? ==>
      Run(r.stages, r.handler, req, verify).req.user == TokenClaims(req, verify) && TokenClaims(req, verify).Some?
    ensures forall r :: r in NoteRoutesAuthenticated && r.verb != Get && TokenClaims(req, verify).None? ==>
      Run(r.stages, r.handler, req, verify).Halted? && Run(r.stages, r.handler, req, verify).status == 401
  {
    var next := req.(user := TokenClaims(req, verify));
    var read := if TokenClaims(req, verify).Some? then next else req;
    forall r | r in NoteRoutesAuthenticated
      ensures Run(r.stages, r.handler, req, verify).Reached? ==>
        Run(r.stages, r.handler, req, verify).req.user == (if TokenClaims(req, verify).Some? then TokenClaims(req, verify) else req.user)
      ensures r.verb != Get && Run(r.stages, r.handler, req, verify).Reached? ==>
        Run(r.stages, r.handler, req, verify).req.user == TokenClaims(req, verify) && TokenClaims(req, verify).Some?
      ensures r.verb != Get && TokenClaims(req, verify).None? ==>
        Run(r.stages, r.handler, req, verify).Halted? && Run(r.stages, r.handler, req, verify).status == 401
    {
      if r.verb == Get {
        assert Auth.OptionalAuth(req, verify).req == read;
        ValidatorsKeepRequest([], r.handler, read, verify);
      } else {
        assert r.stages[1..] == [] || r.stages[1..] == [NoteValidator];
        if TokenClaims(req, verify).Some? {
          ValidatorsKeepRequest(r.stages[1..], r.handler, next, verify);
        }
      }
    }
  }

  /** One request that shows the difference: `DELETE /api/notes/:id` with
      the header `Bearer t`, where `t` verifies. As written the handler sees
      no user (and answers 401); with authentication it sees the caller. */
  lemma NoteDeleteIgnoresToken(verify: string -> Option<Claims>, c: Claims)
    requires verify("t") == Some(c)
    ensures Run(NoteRoutes[4].stages, DeleteNote, Request(Some("Bearer t"), None, EmptyBody), verify)
      == Reached(DeleteNote, Request(Some("Bearer t"), None, EmptyBody))
    ensures Run(NoteRoutesAuthenticated[4].stages, DeleteNote, Request(Some("Bearer t"), None, EmptyBody), verify)
      == Reached(DeleteNote, Request(Some("Bearer t"), Some(c), EmptyBody))
  {
    assert Auth.Join(["Bearer", "t"]) == "Bearer t";
    Auth.BearerTokenOfWords(["Bearer", "t"]);
  }

  // ===== /api/tags =====

  /** routes/tagRoutes.js: validation only. */
  const TagRoutes: seq<Route> := [
    Route(Post, "/", [TagValidator], CreateTag),
    Route(Get, "/", [], GetAllTags),
    Route(Get, "/:id", [], GetTagById),
    Route(Put, "/:id", [TagValidator], UpdateTag),
    Route(Delete, "/:id", [], DeleteTag)
  ]

  /** No tag route asks who the caller is: the request reaches the handler
      as it came, or the tag validator stops it with 400. */
  lemma TagRoutesArePublic(req: Request, verify: string -> Option<Claims>)
    ensures forall r :: r in TagRoutes ==>
      Run(r.stages, r.handler, req, verify) == Reached(r.handler, req) || Run(r.stages, r.handler, req, verify).Invalid?
    ensures forall r :: r in TagRoutes && r.verb in {Get, Delete} ==> Run(r.stages, r.handler, req, verify) == Reached(r.handler, req)
  {
    forall r | r in TagRoutes
      ensures Run(r.stages, r.handler, req, verify) == Reached(r.handler, req) || Run(r.stages, r.handler, req, verify).Invalid?
    {
      ValidatorsKeepRequest(r.stages, r.handler, req, verify);
    }
  }

  // ===== /api/categories =====

  /** routes/categoryRoutes.js: public reads, administrator-only changes. */
  const CategoryRoutes: seq<Route> := [
    Route(Get, "/", [], GetAllCategories),
    Route(Get, "/:id", [], GetCategoryById),
    Route(Post, "/", [Authenticate, AdminOnly, CategoryValidator], CreateCategory),
    Route(Put, "/:id", [Authenticate, AdminOnly, CategoryValidator], UpdateCategory),
    Route(Delete, "/:id", [Authenticate, AdminOnly], DeleteCategory)
  ]

  /** Reading categories needs nothing; creating, changing or deleting one
      reaches the handler only as an administrator, 401 and 403 coming
      before the body is validated. */
  lemma CategoryRoutesGuarded(req: Request, verify: string -> Option<Claims>)
    ensures forall r :: r in CategoryRoutes && r.verb == Get ==> Run(r.stages, r.handler, req, verify) == Reached(r.handler, req)
    ensures forall r :: r in CategoryRoutes && r.verb != Get && Run(r.stages, r.handler, req, verify).Reached? ==>
      && TokenClaims(req, verify).Some? && TokenClaims(req, verify).value.role == AdminRole
      && Run(r.stages, r.handler, req, verify).req.user == TokenClaims(req, verify)
    ensures forall r :: r in CategoryRoutes && r.verb != Get && TokenClaims(req, verify).None? ==>
      Run(r.stages, r.handler, req, verify).Halted? && Run(r.stages, r.handler, req, verify).status == 401
    ensures forall r :: r in CategoryRoutes && r.verb != Get && TokenClaims(req, verify).Some? && TokenClaims(req, verify).value.role != AdminRole ==>
      Run(r.stages, r.handler, req, verify) == Halted(403, Auth.AccessDeniedError)
  {
    forall r | r in CategoryRoutes && r.verb != Get
      ensures Run(r.stages, r.handler, req, verify).Reached? ==>
        && TokenClaims(req, verify).Some? && TokenClaims(req, verify).value.role == AdminRole
        && Run(r.stages, r.handler, req, verify).req.user == TokenClaims(req, verify)
      ensures TokenClaims(req, verify).None? ==>
        Run(r.stages, r.handler, req, verify).Halted? && Run(r.stages, r.handler, req, verify).status == 401
      ensures TokenClaims(req, verify).Some? && TokenClaims(req, verify).value.role != AdminRole ==>
        Run(r.stages, r.handler, req, verify) == Halted(403, Auth.AccessDeniedError)
    {
      var rest := r.stages[2..];
      assert r.stages == [Authenticate, AdminOnly] + rest;
      AdminChain(rest, r.handler, req, verify);
    }
  }

  // ===== /api/admin =====

  /** routes/adminRoutes.js: `router.use(authenticate)` and
      `router.use(authorize(["admin"]))` put the same two stages in front of
      every route, and no route adds a validator. */
  const AdminPrefix: seq<Stage> := [Authenticate, AdminOnly]

  const AdminRoutes: seq<Route> := [
    Route(Get, "/dashboard", AdminPrefix, GetDashboardStats),
    Route(Get, "/users", AdminPrefix, GetAllUsers),
    Route(Get, "/users/:id", AdminPrefix, GetUserById),
    Route(Put, "/users/:id", AdminPrefix, UpdateUser),
    Route(Delete, "/users/:id", AdminPrefix, DeleteUser),
    Route(Get, "/notes", AdminPrefix, GetAllNotesAdmin),
    Route(Delete, "/notes/:id", AdminPrefix, DeleteNoteAdmin),
    Route(Post, "/categories", AdminPrefix, CreateCategoryAdmin),
    Route(Put, "/categories/:id", AdminPrefix, UpdateCategoryAdmin),
    Route(Delete, "/categories/:id", AdminPrefix, DeleteCategoryAdmin),
    Route(Post, "/tags", AdminPrefix, CreateTagAdmin),
    Route(Put, "/tags/:id", AdminPrefix, UpdateTagAdmin),
    Route(Delete, "/tags/:id", AdminPrefix, DeleteTagAdmin)
  ]

  /** Every administration handler is reached exactly when the caller's
      token verifies to an administrator, whatever the body: 401 without a
      valid token, 403 for anyone else, and the creation routes run no body
      validator, unlike their public counterparts. */
  lemma AdminRoutesGuarded(req: Request, verify: string -> Option<Claims>)
    ensures forall r :: r in AdminRoutes ==>
      (Run(r.stages, r.handler, req, verify).Reached? <==> TokenClaims(req, verify).Some? && TokenClaims(req, verify).value.role == AdminRole)
    ensures forall r :: r in AdminRoutes && Run(r.stages, r.handler, req, verify).Reached? ==>
      Run(r.stages, r.handler, req, verify).req.user == TokenClaims(req, verify)
    ensures forall r :: r in AdminRoutes && TokenClaims(req, verify).None? ==>
      Run(r.stages, r.handler, req, verify).Halted? && Run(r.stages, r.handler, req, verify).status == 401
    ensures forall r :: r in AdminRoutes && TokenClaims(req, verify).Some? && TokenClaims(req, verify).value.role != AdminRole ==>
      Run(r.stages, r.handler, req, verify) == Halted(403, Auth.AccessDeniedError)
    ensures forall r :: r in AdminRoutes ==> !Run(r.stages, r.handler, req, verify).Invalid?
  {
    assert AdminPrefix == [Authenticate, AdminOnly] + [];
    AdminChain([], GetDashboardStats, req, verify);
    forall r | r in AdminRoutes
      ensures Run(r.stages, r.handler, req, verify) == Run(AdminPrefix, r.handler, req, verify)
    {
    }
    forall h: Handler {
      AdminChain([], h, req, verify);
    }
  }
}
