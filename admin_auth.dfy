/** The `adminAuth` middleware (middleware/adminAuth.js). */
module AdminAuth {
  import opened Common

  /** The part of `req.user` the gate reads. */
  datatype RequestUser = RequestUser(role: Option<string>)

  /** Either the next handler runs, or the gate answers 401 itself. */
  datatype Outcome = Next | NotAdmin   // NotAdmin: 401 {msg: 'Not authorized as admin'}

  const NotAdminMessage: string := "Not authorized as admin"

  function Gate(user: Option<RequestUser>): (o: Outcome)
    ensures o == Next <==> user.Some? && user.value.role == Some("admin")
    ensures user.None? ==> o == NotAdmin
  {
    if user.Some? && user.value.role == Some("admin") then Next else NotAdmin
  }

  /** The status the gate itself writes: none when the next handler runs,
      401 otherwise, so the two outcomes never both happen. */
  function OutcomeStatus(o: Outcome): (status: Option<int>)
    ensures status.None? <==> o == Next
    ensures status.Some? ==> status.value == 401
  {
    if o == Next then None else Some(401)
  }
}
