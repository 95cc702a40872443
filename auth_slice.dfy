/**
 * The client-side session state (frontend/Utils/Redux/auth/AuthSlice.ts):
 * four fields changed in place by the reducers of the register and login
 * request lifecycles and by `logout`, and the payloads the two request
 * thunks reject with. Values that come from the server or from a thrown
 * error are untyped JavaScript values.
 */
module AuthSlice {
  import opened Wrappers

  /** The JavaScript values the slice stores and inspects. */
  datatype Js = Undefined | Null | Bool(b: bool) | Num(n: int) | Str(s: string) | Obj(props: map<string, Js>)

  predicate Truthy(v: Js) {
    match v
    case Undefined => false
    case Null => false
    case Bool(b) => b
    case Num(n) => n != 0
    case Str(s) => s != ""
    case Obj(_) => true
  }

  /**
   * `v?.key`: undefined on undefined or null, and on the primitives too,
   * since no property the slice reads (`data`, `message`, `response`) exists
   * on a boolean, number or string.
   */
  function Get(v: Js, key: string): Js {
    if v.Obj? && key in v.props then v.props[key] else Undefined
  }

  /** `a || b`. */
  function Or(a: Js, b: Js): Js {
    if Truthy(a) then a else b
  }

  const RegisterFallback := "Registration failed"
  const LoginFallback := "Login failed. Invalid Credentials"

  /**
   * The register thunk's rejection payload, `error.message?.data || fallback`,
   * for a thrown error object with properties `err`.
   */
  function RegisterRejection(err: map<string, Js>): (r: Js)
    ensures Truthy(r)
    ensures !Get(Obj(err), "message").Obj? ==> r == Str(RegisterFallback)
    ensures Truthy(Get(Get(Obj(err), "message"), "data")) ==> r == Get(Get(Obj(err), "message"), "data")
    ensures !Truthy(Get(Get(Obj(err), "message"), "data")) ==> r == Str(RegisterFallback)
  {
    Or(Get(Get(Obj(err), "message"), "data"), Str(RegisterFallback))
  }

  /**
   * A request error carries its message as a string, so the register
   * rejection never reports what the server said.
   */
  lemma RequestErrorRegisterRejection(err: map<string, Js>, message: string, server: Js)
    requires "message" in err && err["message"] == Str(message)
    requires "response" in err && err["response"] == server
    ensures RegisterRejection(err) == Str(RegisterFallback)
  {
  }

  /** `error.response?.data?.message`: the message in the server's answer, if any. */
  function ServerMessage(err: map<string, Js>): Js {
    Get(Get(Get(Obj(err), "response"), "data"), "message")
  }

  /** The login thunk's rejection payload: the server's message when present and non-empty, else the fallback. */
  function LoginRejection(err: map<string, Js>): (r: Js)
    ensures Truthy(r)
    ensures Truthy(ServerMessage(err)) ==> r == ServerMessage(err)
    ensures !Truthy(ServerMessage(err)) ==> r == Str(LoginFallback)
  {
    Or(ServerMessage(err), Str(LoginFallback))
  }

  /** The 401 answer of a refused login carries its message through to the state. */
  lemma RefusedLoginReportsServerMessage(message: string)
    requires message != ""
    ensures LoginRejection(map["response" := Obj(map["data" := Obj(map["message" := Str(message)])])])
         == Str(message)
  {
    var err := map["response" := Obj(map["data" := Obj(map["message" := Str(message)])])];
    assert ServerMessage(err) == Str(message);
  }

  datatype AuthState = AuthState(user: Js, token: Js, loading: bool, error: Js)

  /** `initialState`. */
  const Initial := AuthState(Null, Null, false, Null)

  /** The two request lifecycles, `auth/register` and `auth/login`. */
  datatype Family = RegisterFamily | LoginFamily

  /** The actions the slice reacts to; a fulfilled payload is the server's JSON object. */
  datatype Action =
    | Pending(family: Family)
    | Fulfilled(family: Family, data: map<string, Js>)
    | Rejected(family: Family, payload: Js)
    | Logout

  /** The state after one action, as the reducers leave it. */
  function Reduce(s: AuthState, a: Action): (r: AuthState)
    ensures a.Pending? ==> r.loading && r.error == Null && r.user == s.user && r.token == s.token
    ensures a.Fulfilled? ==>
      && !r.loading && r.error == s.error
      && r.user == Get(Obj(a.data), "user") && r.token == Get(Obj(a.data), "token")
    ensures a.Rejected? ==> !r.loading && r.error == a.payload && r.user == s.user && r.token == s.token
    ensures a.Logout? ==> r.user == Null && r.token == Null && r.error == Null && r.loading == s.loading
  {
    match a
    case Pending(_) => s.(loading := true, error := Null)
    case Fulfilled(_, data) => s.(loading := false, user := Get(Obj(data), "user"), token := Get(Obj(data), "token"))
    case Rejected(_, payload) => s.(loading := false, error := payload)
    case Logout => s.(user := Null, token := Null, error := Null)
  }

  /** Register and login actions have the same effect on the state. */
  lemma FamiliesAgree(s: AuthState, data: map<string, Js>, payload: Js)
    ensures Reduce(s, Pending(RegisterFamily)) == Reduce(s, Pending(LoginFamily))
    ensures Reduce(s, Fulfilled(RegisterFamily, data)) == Reduce(s, Fulfilled(LoginFamily, data))
    ensures Reduce(s, Rejected(RegisterFamily, payload)) == Reduce(s, Rejected(LoginFamily, payload))
  {
  }

  /**
   * The register endpoint answers `{ message, user }` with no token, so a
   * successful registration leaves the token undefined.
   */
  lemma RegistrationLeavesNoToken(s: AuthState, message: Js, user: Js)
    ensures Reduce(s, Fulfilled(RegisterFamily, map["message" := message, "user" := user]))
         == AuthState(user, Undefined, false, s.error)
  {
  }

  /** The state after a sequence of actions. */
  function Run(s: AuthState, acts: seq<Action>): AuthState
    decreases |acts|
  {
    if acts == [] then s else Reduce(Run(s, acts[..|acts| - 1]), acts[|acts| - 1])
  }

  /** The latest action that is not `logout`, if any. */
  function LastRequest(acts: seq<Action>): (r: Option<Action>)
    ensures r.Some? ==> !r.value.Logout? && r.value in acts
    ensures r.None? <==> forall i :: 0 <= i < |acts| ==> acts[i].Logout?
    decreases |acts|
  {
    if acts == [] then None
    else if acts[|acts| - 1].Logout? then
      var r := LastRequest(acts[..|acts| - 1]);
      assert forall i :: 0 <= i < |acts| - 1 ==> acts[..|acts| - 1][i] == acts[i];
      r
    else Some(acts[|acts| - 1])
  }

  /**
   * `loading` is true exactly when the latest request action is a pending
   * one: a request is in flight until it is fulfilled or rejected, and
   * `logout` does not end it.
   */
  lemma {:induction false} LoadingIffRequestInFlight(s: AuthState, acts: seq<Action>)
    ensures Run(s, acts).loading <==>
      if LastRequest(acts).Some? then LastRequest(acts).value.Pending? else s.loading
    decreases |acts|
  {
    if acts != [] {
      LoadingIffRequestInFlight(s, acts[..|acts| - 1]);
    }
  }

  /** Every error the state holds, starting from the initial state, is the payload of some rejection. */
  lemma {:induction false} ErrorComesFromRejection(acts: seq<Action>)
    ensures Run(Initial, acts).error == Null ||
      exists i :: 0 <= i < |acts| && acts[i].Rejected? && acts[i].payload == Run(Initial, acts).error
    decreases |acts|
  {
    if acts != [] {
      var init := acts[..|acts| - 1];
      ErrorComesFromRejection(init);
      var before := Run(Initial, init);
      var last := acts[|acts| - 1];
      if last.Fulfilled? && before.error != Null {
        var i :| 0 <= i < |init| && init[i].Rejected? && init[i].payload == before.error;
        assert acts[i] == init[i];
      } else if last.Rejected? {
        assert acts[|acts| - 1].payload == Run(Initial, acts).error;
      }
    }
  }

  /** Without a fulfilled or logout action, the session (user and token) is untouched. */
  lemma {:induction false} SessionKeptWithoutFulfilOrLogout(s: AuthState, acts: seq<Action>)
    requires forall i :: 0 <= i < |acts| ==> acts[i].Pending? || acts[i].Rejected?
    ensures Run(s, acts).user == s.user && Run(s, acts).token == s.token
    decreases |acts|
  {
    if acts != [] {
      SessionKeptWithoutFulfilOrLogout(s, acts[..|acts| - 1]);
    }
  }

  /** The store holding the slice's state, whose reducers assign its fields in place. */
  class AuthStore {
    var user: Js
    var token: Js
    var loading: bool
    var error: Js

    function State(): AuthState
      reads this
    {
      AuthState(user, token, loading, error)
    }

    constructor ()
      ensures State() == Initial
    {
      user := Null;
      token := Null;
      loading := false;
      error := Null;
    }

    /** The `logout` reducer. */
    method Logout()
      modifies this
      ensures State() == Reduce(old(State()), Action.Logout)
    {
      user := Null;
      token := Null;
      error := Null;
    }

    /** The `registerUser.pending` and `loginUser.pending` cases. */
    method Pending()
      modifies this
      ensures State() == old(State()).(loading := true, error := Null)
    {
      loading := true;
      error := Null;
    }

    /** The `fulfilled` cases: the user and token of the server's answer. */
    method Fulfilled(data: map<string, Js>)
      modifies this
      ensures State() == old(State()).(loading := false, user := Get(Obj(data), "user"), token := Get(Obj(data), "token"))
    {
      loading := false;
      user := Get(Obj(data), "user");
      token := Get(Obj(data), "token");
    }

    /** The `rejected` cases: the thunk's rejection payload becomes the error. */
    method Rejected(payload: Js)
      modifies this
      ensures State() == old(State()).(loading := false, error := payload)
    {
      loading := false;
      error := payload;
    }

    /** Dispatch an action to the case that handles it. */
    method Dispatch(a: Action)
      modifies this
      ensures State() == Reduce(old(State()), a)
    {
      match a
      case Pending(_) => Pending();
      case Fulfilled(_, data) => Fulfilled(data);
      case Rejected(_, payload) => Rejected(payload);
      case Logout => Logout();
    }
  }
}
