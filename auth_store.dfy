/**
 * The web client's authentication store: the access token and the guest
 * flag mirrored in local storage, the current user, and the actions that
 * log in, register, bootstrap, enter as guest and log out. The answers of
 * the API calls are parameters of the actions.
 */
module AuthStore {
  import opened Common

  const TokenKey := "campus_access_token"
  const GuestKey := "campus_guest"

  /** The answer of `GET /me`. */
  datatype Me = Me(id: string, email: string, displayName: string, roles: seq<string>, permissions: seq<string>)

  /** What an API call throws: an `ApiError` with the body's `message` (if any), or any other error. */
  datatype Thrown = ApiErrorThrown(bodyMessage: Option<string>) | OtherThrown

  /** How an awaited API call ends. */
  datatype ApiOutcome<T> = Succeeded(value: T) | Failed(thrown: Thrown)

  /** `e instanceof ApiError ? e.body?.message ?? fallback : fallback`. */
  function ErrorMessage(t: Thrown, fallback: string): (m: string)
    ensures t.ApiErrorThrown? && t.bodyMessage.Some? ==> m == t.bodyMessage.value
    ensures t.OtherThrown? || t.bodyMessage.None? ==> m == fallback
  {
    if t.ApiErrorThrown? && t.bodyMessage.Some? then t.bodyMessage.value else fallback
  }

  /** Local storage after `setToken(t)`: the token stored when truthy, the key removed otherwise. */
  function WithToken(storage: map<string, string>, t: Option<string>): map<string, string> {
    if Truthy(t) then storage[TokenKey := t.value] else storage - {TokenKey}
  }

  /** Local storage after `setGuest(v)`. */
  function WithGuest(storage: map<string, string>, v: bool): map<string, string> {
    if v then storage[GuestKey := "1"] else storage - {GuestKey}
  }

  /** Writing one of the two keys leaves every other key of local storage as it was. */
  lemma WritesOnlyOwnKeys(storage: map<string, string>, t: Option<string>, v: bool, k: string)
    requires k != TokenKey && k != GuestKey
    ensures k in WithToken(storage, t) <==> k in storage
    ensures k in WithGuest(storage, v) <==> k in storage
    ensures k in storage ==> WithToken(storage, t)[k] == storage[k] == WithGuest(storage, v)[k]
  {
  }

  /** Removing the token and then reading it back finds nothing; a truthy token reads back as itself. */
  lemma TokenReadsBack(storage: map<string, string>, t: Option<string>)
    ensures Truthy(t) ==> TokenKey in WithToken(storage, t) && WithToken(storage, t)[TokenKey] == t.value
    ensures !Truthy(t) ==> TokenKey !in WithToken(storage, t)
  {
  }

  class AuthStore {
    var token: Option<string>
    var me: Option<Me>
    var guest: bool
    var loading: bool
    var error: Option<string>
    /** The browser's local storage, of which the store owns two keys. */
    var storage: map<string, string>

    /** The in-memory token and guest flag agree with what local storage holds. */
    predicate Valid()
      reads this
    {
      && (Truthy(token) ==> TokenKey in storage && storage[TokenKey] == token.value)
      && (TokenKey in storage ==> token == Some(storage[TokenKey]))
      && (guest <==> GuestKey in storage && storage[GuestKey] == "1")
    }

    /** The initial state, read from local storage. */
    constructor (initial: map<string, string>)
      ensures token == (if TokenKey in initial then Some(initial[TokenKey]) else None)
      ensures guest == (GuestKey in initial && initial[GuestKey] == "1")
      ensures me == None && !loading && error == None && storage == initial
      ensures Valid()
    {
      token := if TokenKey in initial then Some(initial[TokenKey]) else None;
      me := None;
      guest := GuestKey in initial && initial[GuestKey] == "1";
      loading := false;
      error := None;
      storage := initial;
    }

    /** `isAuthenticated`: a truthy token and a loaded user. */
    function IsAuthenticated(): (r: bool)
      reads this
      ensures r <==> me.Some? && token.Some? && token.value != ""
    {
      Truthy(token) && me.Some?
    }

    /** `isGuest`: in a consistent store, exactly when local storage holds the guest flag. */
    function IsGuest(): (r: bool)
      reads this
      ensures Valid() ==> (r <==> GuestKey in storage && storage[GuestKey] == "1")
    {
      guest
    }

    /** `can(permission)`: the loaded user holds it; nobody holds anything before `/me` answered. */
    function Can(permission: string): (r: bool)
      reads this
      ensures r <==> exists i | 0 <= i < (if me.Some? then |me.value.permissions| else 0) ::
                       me.value.permissions[i] == permission
    {
      me.Some? && permission in me.value.permissions
    }

    /** `hasRole(role)`, likewise over the roles. */
    function HasRole(role: string): (r: bool)
      reads this
      ensures r <==> exists i | 0 <= i < (if me.Some? then |me.value.roles| else 0) :: me.value.roles[i] == role
    {
      me.Some? && role in me.value.roles
    }

    /** `setToken(t)`. */
    method SetToken(t: Option<string>)
      requires Valid()
      modifies this
      ensures token == t && storage == WithToken(old(storage), t)
      ensures me == old(me) && guest == old(guest) && loading == old(loading) && error == old(error)
      ensures Valid()
    {
      token := t;
      storage := WithToken(storage, t);
    }

    /** `setGuest(v)`. */
    method SetGuest(v: bool)
      requires Valid()
      modifies this
      ensures guest == v && storage == WithGuest(old(storage), v)
      ensures me == old(me) && token == old(token) && loading == old(loading) && error == old(error)
      ensures Valid()
    {
      guest := v;
      storage := WithGuest(storage, v);
    }

    /** `enterAsGuest()`: forget the token and the user, become a guest, clear the error. */
    method EnterAsGuest()
      requires Valid()
      modifies this
      ensures token == None && me == None && guest && error == None && loading == old(loading)
      ensures storage == WithGuest(WithToken(old(storage), None), true)
      ensures Valid() && !IsAuthenticated() && IsGuest()
    {
      SetToken(None);
      me := None;
      SetGuest(true);
      error := None;
    }

    /** `logout()`: forget the token, the user and the guest flag, clear the error. */
    method Logout()
      requires Valid()
      modifies this
      ensures token == None && me == None && !guest && error == None && loading == old(loading)
      ensures storage == WithGuest(WithToken(old(storage), None), false)
      ensures TokenKey !in storage && GuestKey !in storage
      ensures Valid() && !IsAuthenticated() && !IsGuest()
      ensures forall p :: !Can(p)
    {
      SetToken(None);
      me := None;
      SetGuest(false);
      error := None;
    }

    /**
     * `bootstrap()`. Without a truthy token it only clears the user. With
     * one it leaves guest mode and asks `/me`; `fetchMe` is that call's
     * outcome. A failure drops the token; the error is not recorded.
     */
    method Bootstrap(fetchMe: ApiOutcome<Me>)
      requires Valid()
      modifies this
      ensures !Truthy(old(token)) ==>
        && me == None && token == old(token) && guest == old(guest) && loading == old(loading)
        && error == old(error) && storage == old(storage)
      ensures Truthy(old(token)) ==> !loading && error == None && !guest
      ensures Truthy(old(token)) && fetchMe.Succeeded? ==>
        && token == old(token) && me == Some(fetchMe.value)
        && storage == WithGuest(old(storage), false) && IsAuthenticated()
      ensures Truthy(old(token)) && fetchMe.Failed? ==>
        && token == None && me == None && storage == WithToken(WithGuest(old(storage), false), None)
      ensures Valid()
    {
      if !Truthy(token) {
        me := None;
        return;
      }
      loading := true;
      error := None;
      SetGuest(false);
      match fetchMe {
        case Succeeded(m) =>
          me := Some(m);
        case Failed(_) =>
          SetToken(None);
          me := None;
      }
      loading := false;
    }

    /** The `catch` block shared by `login` and `register`. */
    method Fail(t: Thrown, fallback: string)
      requires Valid()
      modifies this
      ensures token == None && me == None && error == Some(ErrorMessage(t, fallback))
      ensures guest == old(guest) && loading == old(loading) && storage == WithToken(old(storage), None)
      ensures Valid()
    {
      SetToken(None);
      me := None;
      error := Some(ErrorMessage(t, fallback));
    }

    /**
     * The body shared by `login` and `register`: the credentials call
     * (`credentials`, answering the access token), then `/me` (`fetchMe`).
     * Returns the error the action rethrows, if any.
     */
    method Authenticate(credentials: ApiOutcome<string>, fetchMe: ApiOutcome<Me>, fallback: string)
      returns (rethrown: Option<Thrown>)
      requires Valid()
      modifies this
      ensures !loading && Valid()
      ensures credentials.Failed? ==>
        && rethrown == Some(credentials.thrown) && token == None && me == None
        && error == Some(ErrorMessage(credentials.thrown, fallback))
        && guest == old(guest) && storage == WithToken(old(storage), None)
      ensures credentials.Succeeded? && fetchMe.Succeeded? ==>
        && rethrown == None && token == Some(credentials.value) && me == Some(fetchMe.value)
        && error == None && !guest
        && storage == WithToken(WithGuest(old(storage), false), Some(credentials.value))
      ensures credentials.Succeeded? && fetchMe.Failed? ==>
        && rethrown == Some(fetchMe.thrown) && token == None && me == None
        && error == Some(ErrorMessage(fetchMe.thrown, fallback)) && !guest
        && storage == WithToken(WithToken(WithGuest(old(storage), false), Some(credentials.value)), None)
    {
      loading := true;
      error := None;
      match credentials {
        case Failed(t) =>
          Fail(t, fallback);
          rethrown := Some(t);
        case Succeeded(accessToken) =>
          SetGuest(false);
          SetToken(Some(accessToken));
          match fetchMe {
            case Succeeded(m) =>
              me := Some(m);
              rethrown := None;
            case Failed(t) =>
              Fail(t, fallback);
              rethrown := Some(t);
          }
      }
      loading := false;
    }

    /** `login(body)`; `credentials` is the outcome of `POST /auth/login`. */
    method Login(credentials: ApiOutcome<string>, fetchMe: ApiOutcome<Me>) returns (rethrown: Option<Thrown>)
      requires Valid()
      modifies this
      ensures !loading && Valid()
      ensures rethrown.None? <==> credentials.Succeeded? && fetchMe.Succeeded?
      ensures rethrown.None? ==>
        && token == Some(credentials.value) && me == Some(fetchMe.value) && error == None && !guest
        && (Truthy(token) ==> IsAuthenticated())
      ensures rethrown.Some? ==>
        && token == None && me == None && !IsAuthenticated() && TokenKey !in storage
        && error == Some(ErrorMessage(rethrown.value, "Login failed"))
      ensures credentials.Failed? ==>
        && rethrown == Some(credentials.thrown) && guest == old(guest)
        && storage == WithToken(old(storage), None)
      ensures credentials.Succeeded? && fetchMe.Succeeded? ==>
        storage == WithToken(WithGuest(old(storage), false), Some(credentials.value))
      ensures credentials.Succeeded? && fetchMe.Failed? ==>
        && rethrown == Some(fetchMe.thrown) && !guest
        && storage == WithToken(WithToken(WithGuest(old(storage), false), Some(credentials.value)), None)
    {
      rethrown := Authenticate(credentials, fetchMe, "Login failed");
    }

    /** `register(body)`; `credentials` is the outcome of `POST /auth/register`. */
    method Register(credentials: ApiOutcome<string>, fetchMe: ApiOutcome<Me>) returns (rethrown: Option<Thrown>)
      requires Valid()
      modifies this
      ensures !loading && Valid()
      ensures rethrown.None? <==> credentials.Succeeded? && fetchMe.Succeeded?
      ensures rethrown.None? ==>
        && token == Some(credentials.value) && me == Some(fetchMe.value) && error == None && !guest
        && (Truthy(token) ==> IsAuthenticated())
      ensures rethrown.Some? ==>
        && token == None && me == None && !IsAuthenticated() && TokenKey !in storage
        && error == Some(ErrorMessage(rethrown.value, "Register failed"))
      ensures credentials.Failed? ==>
        && rethrown == Some(credentials.thrown) && guest == old(guest)
        && storage == WithToken(old(storage), None)
      ensures credentials.Succeeded? && fetchMe.Succeeded? ==>
        storage == WithToken(WithGuest(old(storage), false), Some(credentials.value))
      ensures credentials.Succeeded? && fetchMe.Failed? ==>
        && rethrown == Some(fetchMe.thrown) && !guest
        && storage == WithToken(WithToken(WithGuest(old(storage), false), Some(credentials.value)), None)
    {
      rethrown := Authenticate(credentials, fetchMe, "Register failed");
    }
  }
}
