/** The parts of an HTTP exchange the handlers look at. */
module Http {
  import opened Types

  /** A `:id` route parameter as `validateObjectId` sees it: either it is not
      a well-formed ObjectId, or it names one. */
  datatype IdParam = Malformed | Wellformed(id: Id)

  /** A JSON request body. Every field may be absent; a field of the wrong
      JSON type is not modelled. `userId` is a string that Mongoose casts to
      an ObjectId, hence an `IdParam`. */
  datatype Body = Body(
    title: Option<string>,
    content: Option<string>,
    category: Option<string>,
    color: Option<string>,
    isPinned: Option<bool>,
    tags: Option<seq<string>>,
    userId: Option<IdParam>,
    name: Option<string>,
    description: Option<string>,
    icon: Option<string>,
    email: Option<string>,
    role: Option<string>)

  /** A body with no field at all. */
  const EmptyBody: Body := Body(None, None, None, None, None, None, None, None, None, None, None, None)

  /** A request travelling down a middleware chain: the `Authorization`
      header, `req.user` (set only by the authentication middleware) and the
      body. */
  datatype Request = Request(authorization: Option<string>, user: Option<Claims>, body: Body)

  /** The query string of `GET /api/notes`. */
  datatype NoteQuery = NoteQuery(category: Option<string>, isPinned: Option<string>, search: Option<string>, tag: Option<string>)

  /** A listing's JSON body: `count` and `data`. */
  datatype Page<T> = Page(count: nat, data: seq<T>)

  /** The `data: {}` of a deletion, with the `message` some handlers add. */
  datatype Done = Done(message: Option<string>)

  /** What a handler answers: a success status with its `data`, an error
      status with its `error` message, or `next(error)`, which hands a thrown
      error (a schema validation failure, a cast error, a duplicate key) to
      the application's error middleware. */
  datatype Reply<T> = Ok(status: nat, data: T) | Refused(status: nat, error: string) | Forwarded
}
