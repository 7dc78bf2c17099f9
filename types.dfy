/** Values shared by every layer of the service: optional JSON fields,
    document ids, roles and the claims a signed token carries. */
module Types {

  /** An optional value: a JSON field that may be absent. */
  datatype Option<+T> = None | Some(value: T)

  /** A MongoDB ObjectId. Ids are drawn from the store's creation counter. */
  type Id = nat

  /** The `role` enum of the user schema: "user" or "admin". */
  datatype Role = UserRole | AdminRole {
    function Name(): string {
      match this
      case UserRole => "user"
      case AdminRole => "admin"
    }
  }

  /** Reads a role name; anything outside the enum is rejected. */
  function ParseRole(s: string): (r: Option<Role>)
    ensures r.Some? ==> r.value.Name() == s
    ensures r.None? ==> s != "user" && s != "admin"
  {
    if s == "user" then Some(UserRole)
    else if s == "admin" then Some(AdminRole)
    else None
  }

  lemma ParseRoleName(r: Role)
    ensures ParseRole(r.Name()) == Some(r)
  {
  }

  /** The six note categories, listed alike by the note validator
      (middleware/validateNote.js) and by the `enum` of the note schema. */
  const NoteCategories: seq<string> := ["Work", "Personal", "Ideas", "Study", "Todo", "Other"]

  /** The payload of a verified token, `{ id, role }`, as signed at login. */
  datatype Claims = Claims(id: Id, role: Role)
}
