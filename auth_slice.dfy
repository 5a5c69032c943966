/** The client's session store (client/src/redux/authSlice.js): the signed-in
    user, the token and whether the client counts itself signed in, restored
    from the browser's local storage on start and kept there on sign-in and
    sign-out. The login and register requests share one shape and one set of
    reducers; both are modelled once. */
module AuthSlice {
  import opened Js
  import Api

  /** `localStorage.getItem('token') || null`. */
  function RestoredToken(stored: Option<string>): (t: Value)
    ensures t.Str? <==> Given(stored)
    ensures t.Str? ==> t.s == stored.value
    ensures !t.Str? ==> t == Null
  {
    if Given(stored) then Str(stored.value) else Null
  }

  /** How a login or registration request ends, after the response has been
      handled: fulfilled with the body, whose token was written to local
      storage as text, or rejected with a value for the reducer. */
  datatype Outcome = Fulfilled(payload: Value, storedText: string) | Failed(value: Value)

  /** The message of the TypeError raised by reading `token` of a missing
      `data`, as the V8 engine writes it. */
  function ReadError(data: Value): string
  {
    "Cannot read properties of " + (if data.Null? then "null" else "undefined") + " (reading 'token')"
  }

  /** The body of `loginUser` and `registerUser`: store `res.data.token`
      (`setItem` turns it into text) and resolve with the body; any error
      becomes `err.message || fallback`. `parseError` is the engine's message
      for a body that is not JSON. */
  function AuthRequest(res: Api.Settled, fallback: string, parseError: string): (o: Outcome)
    ensures o.Fulfilled? <==> res.Resolved? && !Nullish(Prop(res.data, "data"))
    ensures o.Fulfilled? ==> o.payload == res.data && o.storedText == ToStr(Prop(Prop(res.data, "data"), "token"))
    ensures res.Rejected? ==> o == Failed(Api.RejectValue(res.message, fallback))
    ensures o.Failed? ==> o.value.Str? && (fallback != "" ==> o.value.s != "")
  {
    match res
    case Resolved(body) =>
      var data := Prop(body, "data");
      if Nullish(data) then Failed(Api.RejectValue(ReadError(data), fallback))
      else Fulfilled(body, ToStr(Prop(data, "token")))
    case Rejected(message) => Failed(Api.RejectValue(message, fallback))
    case NotJson => Failed(Api.RejectValue(parseError, fallback))
  }

  class AuthState {
    var user: Value
    var token: Value
    var loading: bool
    var error: Value
    var isAuthenticated: bool
    /** The browser's `localStorage` entry `token`. */
    var storedToken: Option<string>

    /** `initialState`, read from local storage when the client starts. */
    constructor (stored: Option<string>)
      ensures user == Null && token == RestoredToken(stored) && !loading && error == Null
      ensures isAuthenticated == Given(stored) && storedToken == stored
    {
      user := Null;
      token := RestoredToken(stored);
      loading := false;
      error := Null;
      isAuthenticated := Given(stored);
      storedToken := stored;
    }

    /** `logout`: forget the user and the token, here and in storage. */
    method Logout()
      modifies this
      ensures user == Null && token == Null && !isAuthenticated && storedToken.None?
      ensures loading == old(loading) && error == old(error)
    {
      user := Null;
      token := Null;
      isAuthenticated := false;
      storedToken := None;
    }

    /** `setUser`: count the client as signed in with this user. */
    method SetUser(payload: Value)
      modifies this
      ensures user == payload && isAuthenticated
      ensures token == old(token) && loading == old(loading) && error == old(error) && storedToken == old(storedToken)
    {
      user := payload;
      isAuthenticated := true;
    }

    /** `loginUser.pending` and `registerUser.pending`. */
    method Pending()
      modifies this
      ensures loading && error == Null
      ensures user == old(user) && token == old(token) && isAuthenticated == old(isAuthenticated)
      ensures storedToken == old(storedToken)
    {
      loading := true;
      error := Null;
    }

    /** The request ends: on success the token is already in storage and the
        fulfilled reducer takes user and token from the body's `data`; on
        failure the rejected reducer records the error and counts the client
        as signed out, but keeps the user and token it had. */
    method Settle(o: Outcome)
      requires o.Fulfilled? ==> !Nullish(Prop(o.payload, "data"))
      modifies this
      ensures !loading
      ensures o.Fulfilled? ==> && user == Prop(Prop(o.payload, "data"), "user")
                               && token == Prop(Prop(o.payload, "data"), "token")
                               && isAuthenticated && storedToken == Some(o.storedText)
                               && error == old(error)
      ensures o.Failed? ==> && error == o.value && !isAuthenticated
                            && user == old(user) && token == old(token) && storedToken == old(storedToken)
    {
      match o
      case Fulfilled(payload, storedText) =>
        storedToken := Some(storedText);
        loading := false;
        var data := Prop(payload, "data");
        user := Prop(data, "user");
        token := Prop(data, "token");
        isAuthenticated := true;
      case Failed(value) =>
        loading := false;
        error := value;
        isAuthenticated := false;
    }
  }

  /** A successful sign-in survives a reload: the token text written to
      storage restores the same token and a signed-in state, whenever the
      server's token is a non-empty string. */
  lemma {:induction false} SignInSurvivesReload(res: Api.Settled, fallback: string, parseError: string)
    requires res.Resolved? && !Nullish(Prop(res.data, "data"))
    requires var t := Prop(Prop(res.data, "data"), "token"); t.Str? && t.s != ""
    ensures var o := AuthRequest(res, fallback, parseError);
            && o.Fulfilled?
            && RestoredToken(Some(o.storedText)) == Prop(Prop(res.data, "data"), "token")
            && Given(Some(o.storedText))
  {
    var o := AuthRequest(res, fallback, parseError);
    assert o.storedText == Prop(Prop(res.data, "data"), "token").s;
  }

  /** A body whose `data` has no token still counts as a sign-in, and the
      text "undefined" is written to storage, so after a reload the client
      counts itself signed in with the token "undefined". */
  lemma MissingTokenRestoresAsText(body: Value, fallback: string, parseError: string)
    requires !Nullish(Prop(body, "data")) && Prop(Prop(body, "data"), "token") == Undefined
    ensures var o := AuthRequest(Api.Resolved(body), fallback, parseError);
            && o.Fulfilled? && RestoredToken(Some(o.storedText)) == Str("undefined")
  {
  }

  /** A response the API wrapper rejected reaches the store as its message. */
  lemma RejectionReachesStore(status: int, data: Value, fallback: string, parseError: string)
    requires !Prop(data, "message").Arr?
    requires Api.HandleResponse(status, Some(data)).Rejected?
    ensures AuthRequest(Api.HandleResponse(status, Some(data)), fallback, parseError)
            == Failed(Str(Api.HandleResponse(status, Some(data)).message))
  {
    Api.RejectionNeverEmpty(status, data);
  }
}
