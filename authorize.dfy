/**
 * Role authorisation (middleware/authorize.js). `authorize(roles)` returns a middleware that admits
 * a request only when its authenticated user's type is one of `roles`.
 */
module Authorize {
  import opened Common
  import opened Store

  /** The argument of `authorize`: omitted (it defaults to `[]`), a single role, or an array of roles. */
  datatype RolesArg = Omitted | Single(role: string) | Many(roles: seq<string>)

  /** authorize.js:1,3: the default is the empty list and a single role becomes a one-element list. */
  function Normalise(arg: RolesArg): seq<string> {
    match arg
    case Omitted => []
    case Single(role) => [role]
    case Many(roles) => roles
  }

  /** Normalising an already normalised argument changes nothing. */
  lemma NormaliseIdempotent(arg: RolesArg)
    ensures Normalise(Many(Normalise(arg))) == Normalise(arg)
  {
  }

  /** The test of authorize.js:5: no user, or a user type not in the list, is Forbidden. */
  function Decide(roles: seq<string>, user: Option<AuthUser>): (step: Step)
    ensures step.Respond? ==> step.error == Forbidden
  {
    if user.None? || user.value.userType.None? || user.value.userType.value !in roles then Respond(Forbidden)
    else Next
  }

  /**
   * A request passes exactly when it has a user whose type is in the normalised list; with the
   * default argument every request is forbidden, and with a single role exactly the users of that type pass.
   */
  lemma DecideAdmits(arg: RolesArg, user: Option<AuthUser>)
    ensures Decide(Normalise(arg), user) == Next <==>
      user.Some? && user.value.userType.Some? && user.value.userType.value in Normalise(arg)
    ensures arg.Omitted? ==> Decide(Normalise(arg), user) == Respond(Forbidden)
    ensures arg.Single? ==> (Decide(Normalise(arg), user) == Next <==> user.Some? && user.value.userType == Some(arg.role))
  {
  }

  /**
   * The closure `authorize(roles)` returns. It reassigns its captured `roles` to the normalised list
   * on every request (authorize.js:3), which is why it is an object with state.
   */
  class Authorizer {
    var roles: RolesArg

    constructor (roles: RolesArg)
      ensures this.roles == roles
    {
      this.roles := roles;
    }

    /** One request through the middleware: `Next` is `next()` called once, `Respond` a 403 with no `next()`. */
    method Handle(user: Option<AuthUser>) returns (step: Step)
      modifies this
      ensures roles == Many(Normalise(old(roles)))
      ensures step == Decide(Normalise(old(roles)), user)
    {
      if !roles.Many? {
        roles := Many(Normalise(roles));
      }
      step := Decide(Normalise(roles), user);
    }
  }

  /** Since normalising is idempotent, the reassignment never changes a later request's decision. */
  method HandleTwice(arg: RolesArg, first: Option<AuthUser>, second: Option<AuthUser>) returns (a: Step, b: Step)
    ensures a == Decide(Normalise(arg), first)
    ensures b == Decide(Normalise(arg), second)
  {
    var auth := new Authorizer(arg);
    a := auth.Handle(first);
    b := auth.Handle(second);
  }
}
