/** The request middleware's routing decision (middleware.ts), with the
    route matchers taken as given booleans. */
module Middleware {
  import opened Common
  import opened Schema

  datatype Decision = Next | Redirect(path: string)

  /** The callback: a signed-in user is looked up first; a failed lookup
      sends them to sign in, a non-instructor on an instructor route goes
      home; then public routes pass, and signed-out users elsewhere are
      sent to sign in. */
  function Decide(userId: Option<string>, lookup: UserLookup, isPublic: bool, isInstructorRoute: bool)
    : (d: Decision)
    ensures d == Redirect("/sign-in") <==>
      (userId.Some? && lookup.LookupFailed?) || (userId.None? && !isPublic)
    ensures d == Redirect("/") <==>
      userId.Some? && lookup.Found? && lookup.role != Some("instructor") && isInstructorRoute
    ensures d.Redirect? ==> d.path == "/" || d.path == "/sign-in"
    ensures d == Next <==>
      if userId.Some? then lookup.Found? && (lookup.role == Some("instructor") || !isInstructorRoute)
      else isPublic
  {
    if userId.Some? && lookup.LookupFailed? then Redirect("/sign-in")
    else if userId.Some? && lookup.role != Some("instructor") && isInstructorRoute then Redirect("/")
    else if isPublic then Next
    else if userId.None? then Redirect("/sign-in")
    else Next
  }

  /** Signed-out users never see the instructor redirect, whatever the
      lookup would have said (it is not made). */
  lemma SignedOutNeverSentHome(lookup: UserLookup, lookup': UserLookup, isPublic: bool, isInstructorRoute: bool)
    ensures Decide(None, lookup, isPublic, isInstructorRoute) != Redirect("/")
    ensures Decide(None, lookup, isPublic, isInstructorRoute) == Decide(None, lookup', isPublic, isInstructorRoute)
  {
  }

  /** Instructors are never kept off a route by their role. */
  lemma InstructorsPass(userId: string, isPublic: bool, isInstructorRoute: bool)
    ensures Decide(Some(userId), Found(Some("instructor")), isPublic, isInstructorRoute) == Next
  {
  }

  /** A failed lookup redirects to sign in even on a public route. */
  lemma FailedLookupBlocksPublic(userId: string, isInstructorRoute: bool)
    ensures Decide(Some(userId), LookupFailed, true, isInstructorRoute) == Redirect("/sign-in")
  {
  }
}
