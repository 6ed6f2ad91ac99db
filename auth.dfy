/** The session context (`src/context/AuthContext.tsx`): the token and the user
    of the logged-in session, mirrored into the browser's key-value storage so
    that a reload restores them. `JSON.stringify` and `JSON.parse` of a user
    are the parameters `stringify` and `parse`. */
module Auth {
  import opened Wrappers

  /** A user as the server describes it. */
  datatype User = User(id: int, name: string, email: string, role: string)

  /** The storage as a map from keys to strings. */
  type Storage = map<string, string>

  /** The token a provider starts with: the stored "token", if any. */
  function InitialToken(storage: Storage): (t: Option<string>)
    ensures t.Some? <==> "token" in storage
    ensures t.Some? ==> t.value == storage["token"]
  {
    if "token" in storage then Some(storage["token"]) else None
  }

  /** The user a provider starts with: the stored "user" parsed, or none
      when the entry is missing or empty. */
  function InitialUser(storage: Storage, parse: string -> User): (u: Option<User>)
    ensures u.Some? <==> "user" in storage && |storage["user"]| > 0
    ensures u.Some? ==> u.value == parse(storage["user"])
  {
    if "user" in storage && |storage["user"]| > 0 then Some(parse(storage["user"])) else None
  }

  /** What `useAuth` hands out. */
  datatype AuthValue = AuthValue(token: Option<string>, user: Option<User>)

  /** `useAuth`: the context value, or an error outside a provider. */
  function UseAuth(ctx: Option<AuthValue>): (r: Result<AuthValue>)
    ensures r.Failure? <==> ctx.None?
    ensures r.Success? ==> r.value == ctx.value
    ensures r.Failure? ==> r.error == "useAuth must be used within AuthProvider"
  {
    match ctx
    case None => Failure("useAuth must be used within AuthProvider")
    case Some(v) => Success(v)
  }

  class AuthProvider {
    var token: Option<string>
    var user: Option<User>
    var storage: Storage

    /** A provider mounted over `stored` starts from what it finds there. */
    constructor (stored: Storage, parse: string -> User)
      ensures storage == stored
      ensures token == InitialToken(stored) && user == InitialUser(stored, parse)
    {
      storage := stored;
      token := if "token" in stored then Some(stored["token"]) else None;
      var raw := if "user" in stored then stored["user"] else "";
      user := if |raw| > 0 then Some(parse(raw)) else None;
    }

    /** `login`: both fields set and both keys written; other keys untouched.
        A provider mounted later over this storage reads the token back. */
    method Login(t: string, u: User, stringify: User -> string)
      modifies this
      ensures token == Some(t) && user == Some(u)
      ensures storage == old(storage)["token" := t]["user" := stringify(u)]
      ensures InitialToken(storage) == Some(t)
      ensures forall k :: k in old(storage) && k != "token" && k != "user" ==> k in storage && storage[k] == old(storage)[k]
    {
      token := Some(t);
      user := Some(u);
      storage := storage["token" := t];
      storage := storage["user" := stringify(u)];
    }

    /** `logout`: both fields cleared and both keys removed; other keys untouched.
        A provider mounted later over this storage starts with no token and
        no stored user. */
    method Logout()
      modifies this
      ensures token == None && user == None
      ensures storage == old(storage) - {"token", "user"}
      ensures InitialToken(storage) == None && "user" !in storage
    {
      token := None;
      user := None;
      storage := storage - {"token"};
      storage := storage - {"user"};
      assert storage == old(storage) - {"token", "user"};
    }
  }

  /** A reload after `login` restores the session: the token always, the user
      whenever parsing undoes the serialisation and the serialised text is
      not empty. */
  lemma LoginSurvivesReload(before: Storage, t: string, u: User, stringify: User -> string, parse: string -> User)
    requires parse(stringify(u)) == u && |stringify(u)| > 0
    ensures InitialToken(before["token" := t]["user" := stringify(u)]) == Some(t)
    ensures InitialUser(before["token" := t]["user" := stringify(u)], parse) == Some(u)
  {
  }
}
