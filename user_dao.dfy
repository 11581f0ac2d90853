/** The user and session store of `UserDao`: the users collection (one user
    per email), the sessions collection (one session per jwt token), and the
    read-modify-write merge of user preferences. */
module Users {
  import opened DaoBase
  import opened Documents

  /** A user document. Preferences may be absent (null) in a stored user. */
  datatype User = User(
    name: string,
    email: string,
    hashedpw: string,
    preferences: Option<map<string, string>>)

  /** A session document: the fields `user_id` and `jwt`, and no other. */
  datatype Session = Session(userId: string, jwt: string)

  /** The value a query filter reads from field `field` of a session document.
      A session has a `user_id` and a `jwt` field and no other: any other field
      is absent. */
  function SessionField(s: Session, field: string): Option<string>
  {
    if field == "user_id" then Some(s.userId)
    else if field == "jwt" then Some(s.jwt)
    else None
  }

  /** The session filter `new Document(field, value)`: a session matches when
      its field `field` holds `value`, so a filter on a field sessions do not
      have matches no session. */
  function SessionFilter(field: string, value: string): Session -> bool
  {
    (s: Session) => SessionField(s, field) == Some(value)
  }

  /** The user filter `new Document("email", email)`. */
  function UserFilter(email: string): User -> bool
  {
    (u: User) => u.email == email
  }

  /** With the unique index on `email`, the user filter matches at most one
      document, and `find(filter).first()` finds it when there is one. */
  lemma {:induction false} UserFilterMatchesAtMostOne(users: seq<User>, email: string)
    requires forall i, j | 0 <= i < j < |users| :: users[i].email != users[j].email
    ensures |Filter(users, UserFilter(email))| <= 1
    ensures FirstMatch(users, UserFilter(email)).Some? ==>
      Filter(users, UserFilter(email)) == [users[FirstMatch(users, UserFilter(email)).value]]
  {
    if users != [] {
      var tail := users[1..];
      if users[0].email == email {
        FilterNothing(tail, UserFilter(email));
      } else {
        UserFilterMatchesAtMostOne(tail, email);
      }
    }
  }

  /** The preference map a merge starts from (an empty one when there is none),
      with every payload entry put into it. */
  function Overlay(prefs: Option<map<string, string>>, payload: map<string, string>): (m: map<string, string>)
    ensures m.Keys == (if prefs.Some? then prefs.value.Keys else {}) + payload.Keys
    ensures forall k | k in payload :: m[k] == payload[k]
    ensures forall k | k in m && k !in payload :: prefs.Some? && k in prefs.value && m[k] == prefs.value[k]
  {
    (if prefs.None? then map[] else prefs.value) + payload
  }

  /** Two merges in a row keep the keys of both payloads, the later one
      winning where they overlap: a merge never forgets an earlier key. */
  lemma OverlayTwice(prefs: Option<map<string, string>>, a: map<string, string>, b: map<string, string>)
    ensures Overlay(Some(Overlay(prefs, a)), b) == Overlay(prefs, a + b)
    ensures forall k | k in a && k !in b :: Overlay(Some(Overlay(prefs, a)), b)[k] == a[k]
  {
    var base := if prefs.None? then map[] else prefs.value;
    assert (base + a) + b == base + (a + b);
  }

  /** The filter of `deleteUserSessions` leaves a user's only session in
      place, where the filter on `user_id` removes it. */
  lemma LogoutKeepsSession(userId: string, jwt: string)
    ensures DeleteOne([Session(userId, jwt)], SessionFilter("email", userId)) == [Session(userId, jwt)]
    ensures DeleteOne([Session(userId, jwt)], SessionFilter("user_id", userId)) == []
  {
  }

  /** Deleting the user with an email from a collection with unique emails
      leaves no user with that email, and the emails unique. */
  lemma DeleteUserByEmail(users: seq<User>, email: string)
    requires forall i, j | 0 <= i < j < |users| :: users[i].email != users[j].email
    ensures var r := DeleteOne(users, UserFilter(email));
      && (forall u | u in r :: u.email != email)
      && (forall i, j | 0 <= i < j < |r| :: r[i].email != r[j].email)
  {
    var r := DeleteOne(users, UserFilter(email));
    match FirstMatch(users, UserFilter(email))
    case None =>
    case Some(k) =>
      assert users[k].email == email;
      forall i | 0 <= i < |r|
        ensures r[i] == users[if i < k then i else i + 1]
        ensures r[i].email != email
      {
        DeleteOneAt(users, UserFilter(email), k, i);
      }
      forall i, j | 0 <= i < j < |r|
        ensures r[i].email != r[j].email
      {
        DeleteOneAt(users, UserFilter(email), k, i);
        DeleteOneAt(users, UserFilter(email), k, j);
      }
  }

  /** `deleteOne` on the sessions keeps the jwt tokens distinct. */
  lemma DeleteSessionKeepsTokens(sessions: seq<Session>, matches: Session -> bool)
    requires forall i, j | 0 <= i < j < |sessions| :: sessions[i].jwt != sessions[j].jwt
    ensures var r := DeleteOne(sessions, matches);
      forall i, j | 0 <= i < j < |r| :: r[i].jwt != r[j].jwt
  {
    var r := DeleteOne(sessions, matches);
    match FirstMatch(sessions, matches)
    case None =>
    case Some(k) =>
      forall i, j | 0 <= i < j < |r|
        ensures r[i].jwt != r[j].jwt
      {
        DeleteOneAt(sessions, matches, k, i);
        DeleteOneAt(sessions, matches, k, j);
      }
  }

  /** One more payload entry put into the map being merged. */
  lemma PutOneMore(start: map<string, string>, payload: map<string, string>, keys: set<string>, key: string)
    requires keys <= payload.Keys && key in keys
    ensures (start + map k | k in payload.Keys - keys :: payload[k])[key := payload[key]] ==
            start + map k | k in payload.Keys - (keys - {key}) :: payload[k]
  {
  }

  /** The loop of `updateUserPreferences` that puts every payload entry into
      the preference map, one key at a time. */
  method PutAll(prefs: map<string, string>, payload: map<string, string>) returns (merged: map<string, string>)
    ensures merged == Overlay(Some(prefs), payload)
  {
    merged := prefs;
    var keys := payload.Keys;
    while keys != {}
      invariant keys <= payload.Keys
      invariant merged == prefs + map k | k in payload.Keys - keys :: payload[k]
      decreases keys
    {
      var key :| key in keys;
      PutOneMore(prefs, payload, keys, key);
      merged := merged[key := payload[key]];
      keys := keys - {key};
    }
    assert (map k | k in payload.Keys - {} :: payload[k]) == payload;
  }

  /** Writing back a user with the same email keeps the emails unique. */
  lemma SameEmailKeepsUnique(users: seq<User>, i: nat, u: User)
    requires i < |users| && u.email == users[i].email
    requires forall i, j | 0 <= i < j < |users| :: users[i].email != users[j].email
    ensures var r := users[i := u];
      forall i, j | 0 <= i < j < |r| :: r[i].email != r[j].email
  {
    var r := users[i := u];
    assert forall k | 0 <= k < |r| :: r[k].email == users[k].email;
  }

  /** The upsert on a token that has a session replaces that session: the
      token then has only the new session, the other tokens keep theirs, and the
      tokens stay distinct. */
  lemma UpsertReplaces(sessions: seq<Session>, i: nat, session: Session)
    requires forall i, j | 0 <= i < j < |sessions| :: sessions[i].jwt != sessions[j].jwt
    requires FirstMatch(sessions, SessionFilter("jwt", session.jwt)) == Some(i)
    ensures var r, byToken := sessions[i := session], SessionFilter("jwt", session.jwt);
      && Filter(r, byToken) == [session]
      && Filter(r, Not(byToken)) == Filter(sessions, Not(byToken))
      && forall i, j | 0 <= i < j < |r| :: r[i].jwt != r[j].jwt
  {
    var byToken := SessionFilter("jwt", session.jwt);
    FilterNothing(sessions[..i], byToken);
    FilterNothing(sessions[i + 1..], byToken);
    FilterReplace(sessions, i, session, byToken);
    FilterReplace(sessions, i, session, Not(byToken));
    assert sessions == sessions[..i] + [sessions[i]] + sessions[i + 1..];
    FilterConcat(sessions[..i] + [sessions[i]], sessions[i + 1..], Not(byToken));
    FilterConcat(sessions[..i], [sessions[i]], Not(byToken));
  }

  /** The upsert on a token without a session appends one: the token then has
      only the new session, the other tokens keep theirs, and the tokens stay
      distinct. */
  lemma UpsertInserts(sessions: seq<Session>, session: Session)
    requires forall i, j | 0 <= i < j < |sessions| :: sessions[i].jwt != sessions[j].jwt
    requires FirstMatch(sessions, SessionFilter("jwt", session.jwt)).None?
    ensures var r, byToken := sessions + [session], SessionFilter("jwt", session.jwt);
      && Filter(r, byToken) == [session]
      && Filter(r, Not(byToken)) == Filter(sessions, Not(byToken))
      && forall i, j | 0 <= i < j < |r| :: r[i].jwt != r[j].jwt
  {
    var byToken := SessionFilter("jwt", session.jwt);
    FilterNothing(sessions, byToken);
    FilterConcat(sessions, [session], byToken);
    FilterConcat(sessions, [session], Not(byToken));
  }

  class UserDao {
    /** The users collection in natural order. */
    var users: seq<User>
    /** The sessions collection in natural order. */
    var sessions: seq<Session>

    /** The users collection has a unique index on `email`; the session upsert
        keeps at most one session per jwt token. */
    ghost predicate Valid()
      reads this
    {
      && (forall i, j | 0 <= i < j < |users| :: users[i].email != users[j].email)
      && (forall i, j | 0 <= i < j < |sessions| :: sessions[i].jwt != sessions[j].jwt)
    }

    /** A DAO over the users and sessions collections as the database holds
        them: the emails are unique (the unique index), and so are the session
        tokens (taken as given: no index enforces it). */
    constructor(storedUsers: seq<User>, storedSessions: seq<Session>)
      requires forall i, j | 0 <= i < j < |storedUsers| :: storedUsers[i].email != storedUsers[j].email
      requires forall i, j | 0 <= i < j < |storedSessions| :: storedSessions[i].jwt != storedSessions[j].jwt
      ensures Valid() && users == storedUsers && sessions == storedSessions
    {
      users := storedUsers;
      sessions := storedSessions;
    }

    /** `addUser`: inserts the user; a second user with the same email is
        refused by the unique index, and the store's write error reaches the
        caller. */
    method AddUser(user: User) returns (r: Result<bool, DaoError>)
      requires Valid()
      modifies this
      ensures Valid() && sessions == old(sessions)
      ensures old(GetUser(user.email)).Some? ==> r == Failure(MongoWriteException) && users == old(users)
      ensures old(GetUser(user.email)).None? ==> r == Success(true) && users == old(users) + [user]
    {
      if FirstMatch(users, UserFilter(user.email)).Some? {
        return Failure(MongoWriteException);
      }
      users := users + [user];
      r := Success(true);
    }

    /** `createUserSession`: upserts the session keyed by `jwt`. Afterwards the
        token has exactly one session, bearing `userId`, and the sessions of
        every other token are as they were. */
    method CreateUserSession(userId: string, jwt: string) returns (ok: bool)
      requires Valid()
      modifies this
      ensures Valid() && users == old(users)
      ensures ok
      ensures Filter(sessions, SessionFilter("jwt", jwt)) == [Session(userId, jwt)]
      ensures Filter(sessions, Not(SessionFilter("jwt", jwt))) ==
              Filter(old(sessions), Not(SessionFilter("jwt", jwt)))
    {
      var session := Session(userId, jwt);
      match FirstMatch(sessions, SessionFilter("jwt", jwt)) {
        case Some(i) =>
          UpsertReplaces(sessions, i, session);
          sessions := sessions[i := session];
        case None =>
          UpsertInserts(sessions, session);
          sessions := sessions + [session];
      }
      ok := true;
    }

    /** `getUser`: the user with this email, if there is one. */
    function GetUser(email: string): (r: Option<User>)
      reads this
      ensures r.Some? ==> r.value.email == email && r.value in users
      ensures r.None? <==> forall u | u in users :: u.email != email
    {
      match FirstMatch(users, UserFilter(email))
      case Some(i) => Some(users[i])
      case None => None
    }

    /** `getUserSession`: the first session whose `user_id` is `userId`, if any. */
    function GetUserSession(userId: string): (r: Option<Session>)
      reads this
      ensures r.Some? ==> r.value.userId == userId && r.value in sessions
      ensures r.None? <==> forall s | s in sessions :: s.userId != userId
    {
      match FirstMatch(sessions, SessionFilter("user_id", userId))
      case Some(i) => Some(sessions[i])
      case None => None
    }

    /** `deleteUserSessions`, as written: `deleteOne` with the filter
        `email == userId`. Session documents have no `email` field, so the
        filter matches nothing and no session is ever removed; the answer is
        true regardless. */
    method DeleteUserSessions(userId: string) returns (ok: bool)
      requires Valid()
      modifies this
      ensures Valid() && users == old(users)
      ensures ok
      ensures sessions == DeleteOne(old(sessions), SessionFilter("email", userId))
      ensures sessions == old(sessions)
    {
      sessions := DeleteOne(sessions, SessionFilter("email", userId));
      ok := true;
    }

    /** `deleteUserSessions` as evidently intended: `deleteOne` with the filter
        `user_id == userId`, the filter `deleteUser` uses for the same purpose. */
    method DeleteUserSessionsByUserId(userId: string) returns (ok: bool)
      requires Valid()
      modifies this
      ensures Valid() && users == old(users)
      ensures ok
      ensures sessions == DeleteOne(old(sessions), SessionFilter("user_id", userId))
      ensures old(GetUserSession(userId)).Some? ==> |sessions| == |old(sessions)| - 1
      ensures Filter(sessions, Not(SessionFilter("user_id", userId))) ==
              Filter(old(sessions), Not(SessionFilter("user_id", userId)))
    {
      DeleteSessionKeepsTokens(sessions, SessionFilter("user_id", userId));
      DeleteOneRemovesOneMatch(sessions, SessionFilter("user_id", userId));
      sessions := DeleteOne(sessions, SessionFilter("user_id", userId));
      ok := true;
    }

    /** `deleteUser`: removes the user with this email and one session whose
        `user_id` is that email, if there are such; the answer is always true. */
    method DeleteUser(email: string) returns (ok: bool)
      requires Valid()
      modifies this
      ensures Valid()
      ensures ok
      ensures users == DeleteOne(old(users), UserFilter(email))
      ensures sessions == DeleteOne(old(sessions), SessionFilter("user_id", email))
      ensures GetUser(email).None?
      ensures |old(users)| - 1 <= |users| && |old(sessions)| - 1 <= |sessions|
      ensures Filter(sessions, Not(SessionFilter("user_id", email))) ==
              Filter(old(sessions), Not(SessionFilter("user_id", email)))
    {
      DeleteUserByEmail(users, email);
      DeleteSessionKeepsTokens(sessions, SessionFilter("user_id", email));
      DeleteOneRemovesOneMatch(sessions, SessionFilter("user_id", email));
      users := DeleteOne(users, UserFilter(email));
      sessions := DeleteOne(sessions, SessionFilter("user_id", email));
      ok := true;
    }

    /** `updateUserPreferences`: a null payload is refused before the store is
        reached. Otherwise the user is fetched and dereferenced without a null
        check (an unknown email ends in a NullPointerException); a missing
        preference map is replaced by an empty one, every payload entry is put
        into it, and the whole user document is written back. */
    method UpdateUserPreferences(email: string, userPreferences: Option<map<string, string>>)
      returns (r: Result<bool, DaoError>)
      requires Valid()
      modifies this
      ensures Valid() && sessions == old(sessions)
      ensures userPreferences.None? ==>
        r == Failure(IncorrectDaoOperation(NullPreferences)) && users == old(users)
      ensures userPreferences.Some? && FirstMatch(old(users), UserFilter(email)).None? ==>
        r == Failure(NullPointerException) && users == old(users)
      ensures userPreferences.Some? && FirstMatch(old(users), UserFilter(email)).Some? ==>
        var i := FirstMatch(old(users), UserFilter(email)).value;
        var user := old(users)[i];
        && r == Success(true)
        && users == old(users)[i := user.(preferences := Some(Overlay(user.preferences, userPreferences.value)))]
      ensures userPreferences.Some? && old(GetUser(email)).Some? ==>
        var user := old(GetUser(email)).value;
        GetUser(email) == Some(user.(preferences := Some(Overlay(user.preferences, userPreferences.value))))
    {
      if userPreferences.None? {
        return Failure(IncorrectDaoOperation(NullPreferences));
      }
      var payload := userPreferences.value;
      var found := FirstMatch(users, UserFilter(email));
      if found.None? {
        return Failure(NullPointerException);
      }
      var i := found.value;
      var user := users[i];
      var prefs := PutAll(if user.preferences.None? then map[] else user.preferences.value, payload);
      var updated := user.(preferences := Some(prefs));
      FirstMatchReplaced(users, i, updated, UserFilter(email));
      SameEmailKeepsUnique(users, i, updated);
      users := users[i := updated];
      r := Success(true);
    }
  }
}
