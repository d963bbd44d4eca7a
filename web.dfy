/** What every route handler shares: the session guard, awaited effects that may
    throw, and the JSON response with its HTTP status. */
module Web {
  import opened Json

  /** An exception reaching a handler's `catch`: Prisma's error `code`, if any, and
      its `message` (the empty string when it has none). */
  datatype Thrown = Thrown(code: Option<string>, message: string)

  /** The result of one awaited effect (a database call, `request.json()`, a file
      write): its value, or the exception it threw. */
  datatype Outcome<+T> = Done(value: T) | Threw(error: Thrown)

  /** The session `getServerSession` returns, reduced to the user's role. */
  datatype Session = Session(role: string)

  /** `NextResponse.json(body, { status })`. */
  datatype Response<+B> = Response(status: int, body: B)

  /** The guard of the admin routes: a session whose role is ADMIN or EDITOR. */
  predicate IsStaff(session: Option<Session>)
  {
    session.Some? && (session.value.role == "ADMIN" || session.value.role == "EDITOR")
  }

  /** `error?.code === code`. */
  predicate HasCode(e: Thrown, code: string)
  {
    e.code == Some(code)
  }
}
