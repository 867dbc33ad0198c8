/**
 * The backend API: authentication of a bearer token against the users
 * collection, the admin gate, and one method per endpoint. Every endpoint
 * runs its checks in a fixed order (401 authentication, 403 admin role,
 * then 404 or 400 on the target) and changes nothing unless all pass.
 */
module Server {
  import opened Wrappers
  import opened Crypto
  import opened Store

  /** The error responses the endpoints raise: 400, 401, 403 and 404. */
  datatype Status = BadRequest | Unauthorized | Forbidden | NotFound

  /** A 200 response carrying a value, or an error response. */
  datatype Result<+T> = Ok(value: T) | Err(status: Status)

  /** The body of a successful register or login. */
  datatype UserWithToken = UserWithToken(user: UserView, token: Token)

  /** The body of `GET /stats`. */
  datatype Stats = Stats(totalUsers: nat, totalEvents: nat, totalAdmins: nat)

  /**
   * `get_current_user`: the caller is the stored user named by the token's
   * subject. The model answers every failure, from a missing credential to
   * a subject that is no longer stored, with 401, as the handler's exception
   * clauses intend. Nothing but the subject is taken from the token: the
   * role and every other field come from the stored record.
   */
  function Authenticate(users: map<string, UserRec>, credentials: Option<Token>, now: int): (r: Result<UserView>)
    ensures r.Err? ==> r.status == Unauthorized
    ensures r.Ok? <==>
      && credentials.Some?
      && DecodeToken(credentials.value, now).Some?
      && DecodeToken(credentials.value, now).value in users
    ensures r.Ok? ==>
      && credentials.value.sub == Some(r.value.email)
      && r.value.email in users
      && r.value == View(r.value.email, users[r.value.email])
  {
    if credentials.None? then Err(Unauthorized)
    else match DecodeToken(credentials.value, now)
      case None => Err(Unauthorized)
      case Some(email) =>
        if email in users then Ok(View(email, users[email])) else Err(Unauthorized)
  }

  /**
   * `require_admin`: lets through exactly the authenticated callers whose
   * stored role is the string "admin"; "chief", "user" and every other role
   * get 403. A caller that does not authenticate gets 401, never 403.
   */
  function RequireAdmin(users: map<string, UserRec>, credentials: Option<Token>, now: int): (r: Result<UserView>)
    ensures Authenticate(users, credentials, now).Err? ==> r == Err(Unauthorized)
    ensures Authenticate(users, credentials, now).Ok? ==>
      if users[credentials.value.sub.value].role == "admin"
      then r == Authenticate(users, credentials, now)
      else r == Err(Forbidden)
    ensures r.Ok? ==> r.value.role == "admin"
  {
    match Authenticate(users, credentials, now)
    case Err(status) => Err(status)
    case Ok(caller) => if caller.role != "admin" then Err(Forbidden) else Ok(caller)
  }

  /** A token issued at `issued` authenticates its stored subject until it expires. */
  lemma IssuedTokenAuthenticates(users: map<string, UserRec>, email: string, issued: int, now: int)
    requires email in users
    ensures Authenticate(users, Some(CreateAccessToken(email, issued)), now) ==
      if now < issued + AccessTokenExpireMinutes then Ok(View(email, users[email])) else Err(Unauthorized)
  {
  }

  /**
   * Registration takes the requested role as given, so a self-registered
   * "admin" passes the admin gate with the token it receives, while a
   * self-registered "chief" is refused by it.
   */
  lemma SelfRegisteredRoleIsTrusted(users: map<string, UserRec>, name: string, email: string,
                                    password: string, role: string, uniform: string, now: int)
    requires email !in users
    ensures var users' := users[email := NewUser(name, role, uniform, password)];
      RequireAdmin(users', Some(CreateAccessToken(email, now)), now) ==
        if role == "admin" then Ok(View(email, users'[email])) else Err(Forbidden)
  {
  }

  /** The in-memory server: its two collections and its wall clock in minutes. */
  class Backend {
    var users: map<string, UserRec>
    var events: seq<EventRec>
    var clock: int

    ghost predicate Valid()
      reads this
    {
      Consistent(users, events)
    }

    constructor (now: int)
      ensures Valid()
      ensures users == map[] && events == [] && clock == now
    {
      users := map[];
      events := [];
      clock := now;
    }

    /** Time passes. */
    method Tick(minutes: nat)
      requires Valid()
      modifies this
      ensures Valid()
      ensures clock == old(clock) + minutes
      ensures users == old(users) && events == old(events)
    {
      clock := clock + minutes;
    }

    /**
     * `POST /auth/register`. A request that omits `role` or
     * `uniform_required` gets the model's defaults.
     */
    method Register(name: string, email: string, password: string,
                    role: Option<string>, uniformRequired: Option<string>)
      returns (r: Result<UserWithToken>)
      requires Valid()
      modifies this
      ensures Valid()
      ensures events == old(events) && clock == old(clock)
      ensures email in old(users) ==> r == Err(BadRequest) && users == old(users)
      ensures email !in old(users) ==>
        && users.Keys == old(users).Keys + {email}
        && (forall other :: other in old(users) ==> users[other] == old(users)[other])
        && users[email] == NewUser(name, role.GetOr(DefaultRole), uniformRequired.GetOr(DefaultUniform), password)
        && r == Ok(UserWithToken(View(email, users[email]), CreateAccessToken(email, clock)))
    {
      if email in users {
        return Err(BadRequest);
      }
      var u := NewUser(name, role.GetOr(DefaultRole), uniformRequired.GetOr(DefaultUniform), password);
      RegisterKeepsConsistent(users, events, email, u);
      users := users[email := u];
      r := Ok(UserWithToken(View(email, u), CreateAccessToken(email, clock)));
    }

    /**
     * `POST /auth/login`: an unknown email and a wrong password get the
     * same 401.
     */
    method Login(email: string, password: string) returns (r: Result<UserWithToken>)
      ensures r.Ok? <==> email in users && VerifyPassword(password, users[email].passwordHash)
      ensures r.Err? ==> r == Err(Unauthorized)
      ensures r.Ok? ==> r.value == UserWithToken(View(email, users[email]), CreateAccessToken(email, clock))
    {
      if email !in users || !VerifyPassword(password, users[email].passwordHash) {
        return Err(Unauthorized);
      }
      r := Ok(UserWithToken(View(email, users[email]), CreateAccessToken(email, clock)));
    }

    /** `GET /users/me`: the caller's stored profile. */
    method GetCurrentUserProfile(credentials: Option<Token>) returns (r: Result<UserView>)
      ensures r.Ok? <==> credentials.Some? && DecodeToken(credentials.value, clock).Some?
                         && DecodeToken(credentials.value, clock).value in users
      ensures r.Ok? ==> r.value.email in users && r.value == View(r.value.email, users[r.value.email])
      ensures r.Err? ==> r == Err(Unauthorized)
    {
      r := Authenticate(users, credentials, clock);
    }

    /** `GET /users`: every stored user, without password hashes, for an admin. */
    method GetAllUsers(credentials: Option<Token>) returns (r: Result<map<string, UserView>>)
      ensures RequireAdmin(users, credentials, clock).Err? ==>
        r == Err(RequireAdmin(users, credentials, clock).status)
      ensures RequireAdmin(users, credentials, clock).Ok? ==>
        && r.Ok?
        && r.value.Keys == users.Keys
        && (forall email :: email in r.value ==> r.value[email] == View(email, users[email]))
    {
      var admin := RequireAdmin(users, credentials, clock);
      if admin.Err? {
        return Err(admin.status);
      }
      r := Ok(map email | email in users :: View(email, users[email]));
    }

    /** `POST /users/{user_email}/achievements`. */
    method AddAchievement(credentials: Option<Token>, userEmail: string, achievement: string)
      returns (r: Result<()>)
      requires Valid()
      modifies this
      ensures Valid()
      ensures events == old(events) && clock == old(clock)
      ensures var admin := RequireAdmin(old(users), credentials, clock);
        if admin.Err? then r == Err(admin.status) && users == old(users)
        else if userEmail !in old(users) then r == Err(NotFound) && users == old(users)
        else r == Ok(()) && users == old(users)[userEmail := WithAchievement(old(users)[userEmail], achievement)]
    {
      var admin := RequireAdmin(users, credentials, clock);
      if admin.Err? {
        return Err(admin.status);
      }
      if userEmail !in users {
        return Err(NotFound);
      }
      users := users[userEmail := WithAchievement(users[userEmail], achievement)];
      r := Ok(());
    }

    /** `POST /events`: no check for an existing event of the same name. */
    method CreateEvent(credentials: Option<Token>, eventName: string, date: string, description: string)
      returns (r: Result<EventRec>)
      requires Valid()
      modifies this
      ensures Valid()
      ensures users == old(users) && clock == old(clock)
      ensures var admin := RequireAdmin(users, credentials, clock);
        if admin.Err? then r == Err(admin.status) && events == old(events)
        else
          && r == Ok(EventRec(eventName, date, description, admin.value.email, [], []))
          && events == old(events) + [r.value]
    {
      var admin := RequireAdmin(users, credentials, clock);
      if admin.Err? {
        return Err(admin.status);
      }
      var e := EventRec(eventName, date, description, admin.value.email, [], []);
      CreateEventKeepsConsistent(users, events, e);
      events := events + [e];
      r := Ok(e);
    }

    /** `GET /events`: every event, for any authenticated caller. */
    method GetEvents(credentials: Option<Token>) returns (r: Result<seq<EventRec>>)
      ensures Authenticate(users, credentials, clock).Err? ==> r == Err(Unauthorized)
      ensures Authenticate(users, credentials, clock).Ok? ==> r == Ok(events)
    {
      var caller := Authenticate(users, credentials, clock);
      if caller.Err? {
        return Err(caller.status);
      }
      r := Ok(events);
    }

    /**
     * `POST /events/{event_name}/assign-user`: 404 for a missing event,
     * then 400 for an email already on it, then 404 for a missing user;
     * otherwise the email joins the first event of that name and the user's
     * counter goes up by one.
     */
    method AssignUserToEvent(credentials: Option<Token>, eventName: string, userEmail: string)
      returns (r: Result<()>)
      requires Valid()
      modifies this
      ensures Valid()
      ensures clock == old(clock)
      ensures var admin := RequireAdmin(old(users), credentials, clock);
        var found := FindEvent(old(events), eventName);
        if admin.Err? then r == Err(admin.status) && users == old(users) && events == old(events)
        else if found.None? then r == Err(NotFound) && users == old(users) && events == old(events)
        else if userEmail in old(events)[found.value].usersAssigned then
          r == Err(BadRequest) && users == old(users) && events == old(events)
        else if userEmail !in old(users) then
          r == Err(NotFound) && users == old(users) && events == old(events)
        else
          && r == Ok(())
          && events == old(events)[found.value := WithAssigned(old(events)[found.value], userEmail)]
          && users == old(users)[userEmail := Bumped(old(users)[userEmail])]
      ensures r.Ok? ==>
        && users[userEmail].eventsJoinedCount == old(users)[userEmail].eventsJoinedCount + 1
        && JoinedCount(events, userEmail) == JoinedCount(old(events), userEmail) + 1
    {
      var admin := RequireAdmin(users, credentials, clock);
      if admin.Err? {
        return Err(admin.status);
      }
      var found := FindEvent(events, eventName);
      if found.None? {
        return Err(NotFound);
      }
      var i := found.value;
      if userEmail in events[i].usersAssigned {
        return Err(BadRequest);
      }
      if userEmail !in users {
        return Err(NotFound);
      }
      AssignKeepsConsistent(users, events, i, userEmail);
      JoinedCountUpdate(events, i, WithAssigned(events[i], userEmail), userEmail);
      events := events[i := WithAssigned(events[i], userEmail)];
      users := users[userEmail := Bumped(users[userEmail])];
      r := Ok(());
    }

    /**
     * `POST /events/{event_name}/join`: 404 for a missing event, 400 when
     * the caller already joined it; otherwise the caller's email joins the
     * first event of that name. No user and no assignment list changes.
     */
    method JoinEventAsAdmin(credentials: Option<Token>, eventName: string) returns (r: Result<()>)
      requires Valid()
      modifies this
      ensures Valid()
      ensures users == old(users) && clock == old(clock)
      ensures var admin := RequireAdmin(users, credentials, clock);
        var found := FindEvent(old(events), eventName);
        if admin.Err? then r == Err(admin.status) && events == old(events)
        else if found.None? then r == Err(NotFound) && events == old(events)
        else if admin.value.email in old(events)[found.value].adminsJoined then
          r == Err(BadRequest) && events == old(events)
        else
          && r == Ok(())
          && events == old(events)[found.value := WithAdmin(old(events)[found.value], admin.value.email)]
      ensures |events| == |old(events)|
      ensures forall k :: 0 <= k < |events| ==> events[k].usersAssigned == old(events)[k].usersAssigned
    {
      var admin := RequireAdmin(users, credentials, clock);
      if admin.Err? {
        return Err(admin.status);
      }
      var found := FindEvent(events, eventName);
      if found.None? {
        return Err(NotFound);
      }
      var i := found.value;
      if admin.value.email in events[i].adminsJoined {
        return Err(BadRequest);
      }
      JoinKeepsConsistent(users, events, i, admin.value.email);
      events := events[i := WithAdmin(events[i], admin.value.email)];
      r := Ok(());
    }

    /** `GET /stats`: counts of role "user", of role "admin", and of events. */
    method GetStats(credentials: Option<Token>) returns (r: Result<Stats>)
      ensures RequireAdmin(users, credentials, clock).Err? ==>
        r == Err(RequireAdmin(users, credentials, clock).status)
      ensures RequireAdmin(users, credentials, clock).Ok? ==>
        && r.Ok?
        && r.value.totalUsers == |set email | email in users && users[email].role == "user"|
        && r.value.totalAdmins == |set email | email in users && users[email].role == "admin"|
        && r.value.totalEvents == |events|
    {
      var admin := RequireAdmin(users, credentials, clock);
      if admin.Err? {
        return Err(admin.status);
      }
      r := Ok(Stats(CountRole(users, "user"), |events|, CountRole(users, "admin")));
    }
  }
}
