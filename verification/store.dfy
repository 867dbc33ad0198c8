/**
 * The two collections of the backend (`users` keyed by email, `events` in
 * insertion order), the queries the endpoints run against them, and the
 * cross-collection invariant the mutating endpoints keep: each stored
 * `events_joined_count` agrees with the `users_assigned` lists, and every
 * email listed on an event names a stored user.
 */
module Store {
  import opened Wrappers
  import opened Crypto

  /** The role a registration gets when the request names none. */
  const DefaultRole: string := "user"

  /** The uniform a registration gets when the request names none. */
  const DefaultUniform: string := "Standard Scout Uniform"

  /** A document of the `users` collection; its key, the email, is the map key. */
  datatype UserRec = UserRec(
    name: string,
    role: string,
    uniformRequired: string,
    passwordHash: PasswordHash,
    eventsJoinedCount: int,
    achievements: seq<string>)

  /** A user as the API returns it: the stored fields without the password hash. */
  datatype UserView = UserView(
    name: string,
    email: string,
    role: string,
    uniformRequired: string,
    eventsJoinedCount: int,
    achievements: seq<string>)

  /** A document of the `events` collection. Names need not be unique. */
  datatype EventRec = EventRec(
    eventName: string,
    date: string,
    description: string,
    createdBy: string,
    adminsJoined: seq<string>,
    usersAssigned: seq<string>)

  function View(email: string, u: UserRec): UserView
  {
    UserView(u.name, email, u.role, u.uniformRequired, u.eventsJoinedCount, u.achievements)
  }

  /** The record a successful registration stores. */
  function NewUser(name: string, role: string, uniformRequired: string, password: string): (u: UserRec)
    ensures u.eventsJoinedCount == 0 && u.achievements == []
    ensures u.role == role && VerifyPassword(password, u.passwordHash)
  {
    UserRec(name, role, uniformRequired, HashPassword(password), 0, [])
  }

  predicate NoDup(s: seq<string>)
  {
    forall i, j :: 0 <= i < j < |s| ==> s[i] != s[j]
  }

  /**
   * MongoDB's `$addToSet` on an array field: the value is appended at the
   * end unless it is already present, in which case nothing changes.
   */
  function AddToSet(s: seq<string>, x: string): (r: seq<string>)
    ensures forall y :: y in r <==> y in s || y == x
    ensures |r| == if x in s then |s| else |s| + 1
    ensures r[..|s|] == s
    ensures NoDup(s) ==> NoDup(r)
  {
    if x in s then s else s + [x]
  }

  /** `$addToSet` applied twice with the same value changes nothing more. */
  lemma AddToSetIdempotent(s: seq<string>, x: string)
    ensures AddToSet(AddToSet(s, x), x) == AddToSet(s, x)
  {
  }

  /**
   * `find_one({"event_name": name})` on the events in insertion order: the
   * index of the first event with that name.
   */
  function FindEvent(events: seq<EventRec>, name: string): (r: Option<nat>)
    ensures r.Some? ==> r.value < |events| && events[r.value].eventName == name
    ensures r.Some? ==> forall j :: 0 <= j < r.value ==> events[j].eventName != name
    ensures r.None? ==> forall j :: 0 <= j < |events| ==> events[j].eventName != name
  {
    if events == [] then None
    else if events[0].eventName == name then Some(0)
    else match FindEvent(events[1..], name)
      case None => None
      case Some(i) => Some(i + 1)
  }

  /** The number of events whose `users_assigned` list holds `email`. */
  function JoinedCount(events: seq<EventRec>, email: string): (n: nat)
    ensures n <= |events|
  {
    if events == [] then 0
    else (if email in events[0].usersAssigned then 1 else 0) + JoinedCount(events[1..], email)
  }

  /** The indices of the events whose `users_assigned` list holds `email`. */
  ghost function AssignedAt(events: seq<EventRec>, email: string): set<int>
  {
    set i | 0 <= i < |events| && email in events[i].usersAssigned
  }

  /** Shifting every index up by one keeps the number of indices. */
  lemma {:induction false} ShiftedCard(s: set<int>)
    ensures |set j | j in s :: j + 1| == |s|
    decreases |s|
  {
    if s != {} {
      assert exists y :: y in s by {
        if forall y :: y !in s { assert false; }
      }
      var x :| x in s;
      var rest := s - {x};
      ShiftedCard(rest);
      var shifted := set j | j in s :: j + 1;
      var shiftedRest := set j | j in rest :: j + 1;
      forall k | k in shifted ensures k in shiftedRest + {x + 1} {
        assert k - 1 in s;
        if k != x + 1 { assert k - 1 in rest; }
      }
      assert shifted == shiftedRest + {x + 1};
      assert x + 1 !in shiftedRest;
    }
  }


  /** `JoinedCount` is the number of events whose `users_assigned` list holds the email. */
  lemma {:induction false} JoinedCountCountsEvents(events: seq<EventRec>, email: string)
    ensures JoinedCount(events, email) == |AssignedAt(events, email)|
  {
    if events != [] {
      var tail := AssignedAt(events[1..], email);
      JoinedCountCountsEvents(events[1..], email);
      ShiftedCard(tail);
      var shifted := set j | j in tail :: j + 1;
      var head: set<int> := if email in events[0].usersAssigned then {0} else {};
      forall i | i in AssignedAt(events, email)
        ensures i in head + shifted
      {
        if i > 0 {
          assert events[1..][i - 1] == events[i];
          assert i - 1 in tail;
        }
      }
      forall i | i in shifted
        ensures i in AssignedAt(events, email)
      {
        assert events[1..][i - 1] == events[i];
      }
      assert AssignedAt(events, email) == head + shifted;
      assert head !! shifted;
    }
  }

  /** The invariant tying the two collections together. */
  ghost predicate Consistent(users: map<string, UserRec>, events: seq<EventRec>): (ok: bool)
    ensures ok ==> forall email :: email in users ==> 0 <= users[email].eventsJoinedCount <= |events|
  {
    && (forall email :: email in users ==> users[email].eventsJoinedCount == JoinedCount(events, email))
    && (forall i, email :: 0 <= i < |events| && email in events[i].usersAssigned ==> email in users)
    && (forall i, email :: 0 <= i < |events| && email in events[i].adminsJoined ==> email in users)
    && (forall i :: 0 <= i < |events| ==> NoDup(events[i].usersAssigned) && NoDup(events[i].adminsJoined))
  }

  lemma {:induction false} JoinedCountAppend(events: seq<EventRec>, e: EventRec, email: string)
    ensures JoinedCount(events + [e], email) ==
      JoinedCount(events, email) + (if email in e.usersAssigned then 1 else 0)
  {
    if events == [] {
      assert events + [e] == [e];
      assert [e][1..] == [];
    } else {
      assert (events + [e])[1..] == events[1..] + [e];
      JoinedCountAppend(events[1..], e, email);
    }
  }

  lemma {:induction false} JoinedCountUpdate(events: seq<EventRec>, i: nat, e: EventRec, email: string)
    requires i < |events|
    ensures JoinedCount(events[i := e], email) ==
      JoinedCount(events, email)
      - (if email in events[i].usersAssigned then 1 else 0)
      + (if email in e.usersAssigned then 1 else 0)
  {
    if i == 0 {
      assert events[i := e][1..] == events[1..];
    } else {
      assert events[i := e][1..] == events[1..][i - 1 := e];
      JoinedCountUpdate(events[1..], i - 1, e, email);
    }
  }

  lemma {:induction false} JoinedCountAbsent(events: seq<EventRec>, email: string)
    requires forall i :: 0 <= i < |events| ==> email !in events[i].usersAssigned
    ensures JoinedCount(events, email) == 0
  {
    if events != [] {
      assert email !in events[0].usersAssigned;
      forall i | 0 <= i < |events[1..]|
        ensures email !in events[1..][i].usersAssigned
      {
        assert events[1..][i] == events[i + 1];
      }
      JoinedCountAbsent(events[1..], email);
    }
  }

  /** Registration stores a user with a zero count under a fresh email. */
  lemma RegisterKeepsConsistent(users: map<string, UserRec>, events: seq<EventRec>, email: string, u: UserRec)
    requires Consistent(users, events)
    requires email !in users && u.eventsJoinedCount == 0
    ensures Consistent(users[email := u], events)
  {
    JoinedCountAbsent(events, email);
  }

  /** Creating an event appends one with empty member lists. */
  lemma CreateEventKeepsConsistent(users: map<string, UserRec>, events: seq<EventRec>, e: EventRec)
    requires Consistent(users, events)
    requires e.usersAssigned == [] && e.adminsJoined == []
    ensures Consistent(users, events + [e])
  {
    forall email | email in users
      ensures users[email].eventsJoinedCount == JoinedCount(events + [e], email)
    {
      JoinedCountAppend(events, e, email);
    }
  }

  /** The event a successful assignment leaves behind. */
  function WithAssigned(e: EventRec, email: string): EventRec
  {
    e.(usersAssigned := AddToSet(e.usersAssigned, email))
  }

  /** The user record a successful assignment leaves behind. */
  function Bumped(u: UserRec): UserRec
  {
    u.(eventsJoinedCount := u.eventsJoinedCount + 1)
  }

  /**
   * Assigning a stored user who is not yet on event `i` and incrementing
   * that user's counter keeps the counters in agreement with the lists.
   */
  lemma AssignKeepsConsistent(users: map<string, UserRec>, events: seq<EventRec>, i: nat, email: string)
    requires Consistent(users, events)
    requires i < |events| && email in users && email !in events[i].usersAssigned
    ensures Consistent(users[email := Bumped(users[email])], events[i := WithAssigned(events[i], email)])
  {
    var events' := events[i := WithAssigned(events[i], email)];
    var users' := users[email := Bumped(users[email])];
    forall x | x in users'
      ensures users'[x].eventsJoinedCount == JoinedCount(events', x)
    {
      JoinedCountUpdate(events, i, WithAssigned(events[i], email), x);
    }
  }

  /** The event a successful join leaves behind. */
  function WithAdmin(e: EventRec, email: string): EventRec
  {
    e.(adminsJoined := AddToSet(e.adminsJoined, email))
  }

  /** Joining as an admin touches no `users_assigned` list and no counter. */
  lemma JoinKeepsConsistent(users: map<string, UserRec>, events: seq<EventRec>, i: nat, email: string)
    requires Consistent(users, events)
    requires i < |events| && email in users
    ensures Consistent(users, events[i := WithAdmin(events[i], email)])
  {
    forall x | x in users
      ensures users[x].eventsJoinedCount == JoinedCount(events[i := WithAdmin(events[i], email)], x)
    {
      JoinedCountUpdate(events, i, WithAdmin(events[i], email), x);
    }
  }

  /** The user record a successful `add_achievement` leaves behind. */
  function WithAchievement(u: UserRec, achievement: string): UserRec
  {
    u.(achievements := AddToSet(u.achievements, achievement))
  }

  /** `count_documents({"role": role})` on the users collection. */
  function CountRole(users: map<string, UserRec>, role: string): (n: nat)
    ensures n <= |users|
    ensures n == 0 <==> forall email :: email in users ==> users[email].role != role
  {
    var holders := set email | email in users && users[email].role == role;
    assert holders <= users.Keys;
    SubsetCard(holders, users.Keys);
    assert forall email :: email in users && users[email].role == role ==> email in holders;
    assert holders != {} ==> exists email :: email in holders by {
      if holders != {} && forall email :: email !in holders { assert false; }
    }
    |holders|
  }

  lemma {:induction false} SubsetCard(a: set<string>, b: set<string>)
    requires a <= b
    ensures |a| <= |b|
    decreases |b|
  {
    if b != {} {
      assert exists y :: y in b by {
        if forall y :: y !in b { assert false; }
      }
      var y :| y in b;
      SubsetCard(a - {y}, b - {y});
    }
  }

  /**
   * Users with role "user", users with role "admin" and everyone else
   * partition the collection; so a chief, or any other role string, is
   * counted by neither statistic.
   */
  lemma StatsPartition(users: map<string, UserRec>)
    ensures CountRole(users, "user") + CountRole(users, "admin")
      + |set email | email in users && users[email].role != "user" && users[email].role != "admin"|
      == |users|
    ensures (exists email :: email in users && users[email].role == "chief") ==>
      CountRole(users, "user") + CountRole(users, "admin") < |users|
  {
    var plain := set email | email in users && users[email].role == "user";
    var admins := set email | email in users && users[email].role == "admin";
    var others := set email | email in users && users[email].role != "user" && users[email].role != "admin";
    assert plain !! admins && (plain + admins) !! others;
    assert plain + admins + others == users.Keys;
    assert |plain + admins| == |plain| + |admins|;
    assert |plain + admins + others| == |plain + admins| + |others|;
    if email :| email in users && users[email].role == "chief" {
      assert email in others;
    }
  }
}
