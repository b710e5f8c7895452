// The user-level guards of the handlers and the choice `sign_in` makes.

module Access {
  import opened Records

  /** The guard of `get_user` and `delete_user`: refused when the URL names
      another user and the caller is not staff. */
  predicate MayActOn(pk: UserId, caller: UserId, callerIsStaff: bool)
  {
    !(pk != caller && !callerIsStaff)
  }

  /** The guard of `get_five_messages` and `get_stores`: the URL must name
      the caller. */
  predicate MayActOnSelfOnly(pk: UserId, caller: UserId)
  {
    pk == caller
  }

  /** Staff may act on anyone, everybody else on themselves only; the
      self-only guard is strictly narrower, since it ignores staff. */
  lemma GuardsCompared(pk: UserId, caller: UserId, callerIsStaff: bool)
    ensures MayActOn(pk, caller, callerIsStaff) <==> pk == caller || callerIsStaff
    ensures MayActOnSelfOnly(pk, caller) ==> MayActOn(pk, caller, callerIsStaff)
    ensures callerIsStaff && pk != caller ==> MayActOn(pk, caller, callerIsStaff) && !MayActOnSelfOnly(pk, caller)
  {
  }

  /** `get_user`: the guard, then the lookup of `pk`, then the profile
      serializer, which is absent for a user with no profile. The caller is
      an authenticated user. */
  function GetUser(users: map<UserId, User>, pk: UserId, caller: UserId, hasProfile: bool): (r: Reply<User>)
    requires caller in users
    ensures r.Forbidden? <==> pk != caller && !users[caller].isStaff
    ensures r.NotFound? <==> MayActOn(pk, caller, users[caller].isStaff) && pk !in users
    ensures r.BadRequest? <==> MayActOn(pk, caller, users[caller].isStaff) && pk in users && !hasProfile
    ensures r.Success? ==> pk in users && r.value == users[pk]
    ensures !r.ServerError?
  {
    if !MayActOn(pk, caller, users[caller].isStaff) then Forbidden
    else if pk !in users then NotFound
    else if !hasProfile then BadRequest
    else Success(users[pk])
  }

  /** `delete_user`: the guard, the lookup, then the row is gone. The
      cascade to profiles and their rows is not part of this model. */
  function DeleteUser(users: map<UserId, User>, pk: UserId, caller: UserId): (r: (map<UserId, User>, Reply<UserId>))
    requires caller in users
    ensures r.1.Success? <==> MayActOn(pk, caller, users[caller].isStaff) && pk in users
    ensures r.1.Forbidden? <==> !MayActOn(pk, caller, users[caller].isStaff)
    ensures r.1.NotFound? <==> MayActOn(pk, caller, users[caller].isStaff) && pk !in users
    ensures r.1.Success? ==> r.0.Keys == users.Keys - {pk} && forall u :: u in r.0 ==> r.0[u] == users[u]
    ensures !r.1.Success? ==> r.0 == users
  {
    if !MayActOn(pk, caller, users[caller].isStaff) then (users, Forbidden)
    else if pk !in users then (users, NotFound)
    else (users - {pk}, Success(pk))
  }

  /** A user may always delete their own account, and only staff may delete another's. */
  lemma DeleteOwnAccount(users: map<UserId, User>, caller: UserId, pk: UserId)
    requires caller in users
    ensures DeleteUser(users, caller, caller).1 == Success(caller)
    ensures caller !in DeleteUser(users, caller, caller).0
    ensures pk != caller && pk in users ==> (DeleteUser(users, pk, caller).1.Success? <==> users[caller].isStaff)
  {
  }

  /** The reason given after a refused password check. */
  function SignInReason(registered: bool): (reason: string)
    ensures |reason| > 0
  {
    if registered then "Incorrect password" else "User not found"
  }

  /** The two reasons tell a registered email from an unknown one. */
  lemma SignInReasonsDiffer(a: bool, b: bool)
    ensures SignInReason(a) == SignInReason(b) <==> a == b
  {
    if a != b {
      assert SignInReason(true)[0] != SignInReason(false)[0];
    }
  }

  datatype SignIn = SignedIn(user: UserId) | Refused(reason: string) | Raised

  /** The users registered with `email`; the schema does not make emails unique. */
  function WithEmail(users: map<UserId, User>, email: string): set<UserId>
  {
    set u | u in users && users[u].email == email
  }

  lemma SingletonMember(s: set<UserId>, u: UserId, v: UserId)
    requires |s| == 1 && u in s && v in s
    ensures u == v
  {
    var rest := s - {u};
    assert s == rest + {u};
    assert |rest| == 0;
    assert v in rest || v == u;
  }

  /** `sign_in` as written: `User.objects.get` runs first and raises unless
      exactly one user has the email; `authenticated` is the verdict of the
      framework's `authenticate` on that user's name and the password. */
  function SignInAsWritten(users: map<UserId, User>, email: string, authenticated: bool): (r: SignIn)
    ensures r.Raised? <==> |WithEmail(users, email)| != 1
    ensures r.SignedIn? ==> r.user in users && users[r.user].email == email && authenticated
    ensures r.Refused? ==> r.reason == SignInReason(true) && !authenticated
  {
    var matches := WithEmail(users, email);
    if |matches| != 1 then Raised
    else
      var u :| u in matches;
      assert forall v | v in matches :: v == u by {
        forall v | v in matches ensures v == u {
          SingletonMember(matches, u, v);
        }
      }
      if authenticated then SignedIn(u)
      else Refused(SignInReason(WithEmail(users, email) != {}))
  }

  /** As written the "User not found" reason can never be given: the unknown
      email has already raised. */
  lemma AsWrittenNeverSaysNotFound(users: map<UserId, User>, email: string, authenticated: bool)
    ensures SignInAsWritten(users, email, authenticated) != Refused(SignInReason(false))
    ensures WithEmail(users, email) == {} ==> SignInAsWritten(users, email, authenticated).Raised?
  {
    SignInReasonsDiffer(true, false);
  }

  /** `sign_in` with the existence test moved before the lookup, so an
      unknown email gets its reason. Several users sharing an email still
      make the lookup raise. */
  function SignInChecked(users: map<UserId, User>, email: string, authenticated: bool): (r: SignIn)
    ensures WithEmail(users, email) == {} ==> r == Refused(SignInReason(false))
    ensures WithEmail(users, email) != {} ==> r == SignInAsWritten(users, email, authenticated)
  {
    if WithEmail(users, email) == {} then Refused(SignInReason(false))
    else SignInAsWritten(users, email, authenticated)
  }

  /** With the check moved, the reason answers whether the email is registered. */
  lemma CheckedReasonMeansUnknown(users: map<UserId, User>, email: string, authenticated: bool)
    ensures SignInChecked(users, email, authenticated) == Refused(SignInReason(false)) <==> WithEmail(users, email) == {}
    ensures SignInChecked(users, email, authenticated) == Refused(SignInReason(true)) <==> |WithEmail(users, email)| == 1 && !authenticated
  {
    SignInReasonsDiffer(true, false);
  }
}
