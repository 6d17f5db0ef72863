/** The access guards of `src/middleware/auth.js`: decisions over the
    session, one of which also remembers where the visitor was going. */
module Guards {
  import opened Base

  /** What the session keeps about a signed-in user. */
  datatype SessionUser = SessionUser(id: nat, name: string, email: string, role: string)

  class Session {
    var user: Option<SessionUser>
    var returnTo: Option<string>

    /** A fresh session: nobody signed in, nowhere to return to. */
    constructor ()
      ensures user == None && returnTo == None
    {
      user, returnTo := None, None;
    }
  }

  const AdminRole: string := "admin"

  /** A guard's outcome: pass to the next handler, redirect, or 403. */
  datatype Gate = Next | Redirect(location: string) | Forbidden

  predicate SignedIn(session: Session)
    reads session
  {
    session.user.Some?
  }

  /** `ensureAuthenticated`: passes a signed-in visitor; anyone else has
      the requested URL recorded and is sent to the login page. */
  method EnsureAuthenticated(session: Session, originalUrl: string) returns (g: Gate)
    modifies session
    ensures g == Next <==> old(SignedIn(session))
    ensures g == Next ==> unchanged(session)
    ensures g != Next ==>
      g == Redirect("/login") && session.returnTo == Some(originalUrl) && session.user == old(session.user)
  {
    if session.user.Some? {
      return Next;
    }
    session.returnTo := Some(originalUrl);
    return Redirect("/login");
  }

  /** `ensureGuest`: passes only a visitor who is not signed in; a
      signed-in one is sent home. */
  function EnsureGuest(session: Session): (g: Gate)
    reads session
    ensures g == Next <==> !SignedIn(session)
    ensures g != Next ==> g == Redirect("/")
  {
    if session.user.Some? then Redirect("/") else Next
  }

  /** `ensureAdmin`: passes only a signed-in user whose role is "admin";
      anyone else gets 403 and nothing is recorded. */
  function EnsureAdmin(session: Session): (g: Gate)
    reads session
    ensures g == Next <==> SignedIn(session) && session.user.value.role == AdminRole
    ensures g != Next ==> g == Forbidden
  {
    if session.user.Some? && session.user.value.role == AdminRole then Next else Forbidden
  }

  /** The guest guard and the authentication guard never both pass, and
      exactly one of them does; a visitor the admin guard passes is signed
      in, so the authentication guard in front of it passes too. */
  lemma GuardsAgree(session: Session)
    ensures (EnsureGuest(session) == Next) != SignedIn(session)
    ensures EnsureAdmin(session) == Next ==> SignedIn(session) && EnsureGuest(session) != Next
  {
  }
}
