/** The authentication store (`useAuthStore`) together with the three
    module-level variables beside it: whether the session-change listener
    has been registered, the shared "initialised" promise, and that
    promise's pending resolver.

    The client's own session object is modelled by `sessionModel` (its
    current user) and by the listeners registered on it; the sign-in and
    sign-up calls are recorded in `requests` and their outcomes are
    parameters. */
module Auth {
  import opened Common

  datatype User = User(id: Id, email: string)

  /** The auth calls the store makes into the record service. */
  datatype AuthRequest =
    | CreateUser(email: string, password: string, passwordConfirm: string)
    | AuthWithPassword(email: string, password: string)

  /** What `waitForInit` hands back: nothing to wait for, or the shared
      promise (identified by the order of its creation). */
  datatype Wait = Ready | Pending(promise: nat)

  class AuthStore {
    // store state
    var user: Option<User>
    var isInitialized: bool
    // module-level variables
    var authListenerInitialized: bool
    var initPromise: Option<nat>
    var initResolvePending: bool
    // the client's session object
    var sessionModel: Option<User>
    var listeners: nat
    var requests: seq<AuthRequest>
    // bookkeeping: promises ever created and resolver calls ever made
    var promisesCreated: nat
    var resolutions: nat

    /** The listener is registered at most once and exactly when its flag is
        set; at most one promise is ever created and resolved at most once;
        a resolver is pending only for an unresolved promise, and only before
        initialisation; once a promise exists it is resolved exactly when the
        store is initialised. */
    ghost predicate Valid()
      reads this
    {
      && listeners <= 1
      && (listeners == 1 <==> authListenerInitialized)
      && promisesCreated <= 1
      && (initPromise.Some? <==> promisesCreated == 1)
      && (initPromise.Some? ==> initPromise.value == 0)
      && resolutions <= promisesCreated
      && (initResolvePending ==> initPromise.Some? && resolutions == 0 && !isInitialized)
      && (initPromise.Some? ==> (resolutions == 1 <==> isInitialized))
      && (initPromise.Some? && !isInitialized ==> initResolvePending)
    }

    /** `isAuthenticated`: a user is signed in. */
    function IsAuthenticated(): (r: bool)
      reads this
      ensures r <==> user != None
    {
      user.Some?
    }

    /** The store starts from the client's current user, uninitialised,
        with no listener, promise or resolver. */
    constructor (sessionModel: Option<User>)
      ensures Valid()
      ensures user == sessionModel && this.sessionModel == sessionModel
      ensures !isInitialized && !authListenerInitialized && initPromise == None && !initResolvePending
      ensures listeners == 0 && resolutions == 0 && requests == []
    {
      user, isInitialized := sessionModel, false;
      authListenerInitialized, initPromise, initResolvePending := false, None, false;
      this.sessionModel, listeners, requests := sessionModel, 0, [];
      promisesCreated, resolutions := 0, 0;
    }

    /** `login`: on success `user` is the returned record; a failure
        propagates and changes nothing. */
    method Login(email: string, password: string, response: Outcome<User>) returns (r: Outcome<()>)
      requires Valid()
      modifies this`user, this`requests
      ensures Valid()
      ensures requests == old(requests) + [AuthWithPassword(email, password)]
      ensures r.Throws? <==> response.Throws?
      ensures response.Throws? ==> r.error == response.error && user == old(user)
      ensures response.Returns? ==> user == Some(response.value) && IsAuthenticated()
    {
      requests := requests + [AuthWithPassword(email, password)];
      if response.Throws? {
        return Throws(response.error);
      }
      user := Some(response.value);
      r := Returns(());
    }

    /** `register`: creates the account, then signs in with the same
        credentials; a failure of either call propagates. */
    method Register(email: string, password: string, passwordConfirm: string,
                    created: Outcome<User>, loggedIn: Outcome<User>) returns (r: Outcome<()>)
      requires Valid()
      modifies this`user, this`requests
      ensures Valid()
      ensures created.Throws? ==>
        && r == Throws(created.error)
        && requests == old(requests) + [CreateUser(email, password, passwordConfirm)]
        && user == old(user)
      ensures created.Returns? ==>
        && requests == old(requests) + [CreateUser(email, password, passwordConfirm), AuthWithPassword(email, password)]
        && (r.Throws? <==> loggedIn.Throws?)
        && (loggedIn.Throws? ==> r.error == loggedIn.error)
        && user == (if loggedIn.Returns? then Some(loggedIn.value) else old(user))
    {
      requests := requests + [CreateUser(email, password, passwordConfirm)];
      if created.Throws? {
        return Throws(created.error);
      }
      r := Login(email, password, loggedIn);
    }

    /** `logout`: clears the client's session (which notifies a registered
        listener) and then the store's user. */
    method Logout()
      requires Valid()
      modifies this`sessionModel, this`user
      ensures Valid()
      ensures sessionModel == None && user == None && !IsAuthenticated()
    {
      SessionChanged(None);
      user := None;
    }

    /** The client's session changed (sign-in, sign-out, token refresh): the
        registered listener, if any, copies the new user into the store. */
    method SessionChanged(model: Option<User>)
      requires Valid()
      modifies this`sessionModel, this`user
      ensures Valid()
      ensures sessionModel == model
      ensures user == if authListenerInitialized then model else old(user)
    {
      sessionModel := model;
      if authListenerInitialized {
        user := model;
      }
    }

    /** `init`: copies the client's user, marks the store initialised,
        resolves a pending waiter and forgets its resolver, and registers the
        session listener unless that was done before. */
    method Init()
      requires Valid()
      modifies this`user, this`isInitialized, this`initResolvePending, this`resolutions,
               this`authListenerInitialized, this`listeners
      ensures Valid()
      ensures user == old(sessionModel) && isInitialized
      ensures !initResolvePending
      ensures resolutions == if old(initResolvePending) then old(resolutions) + 1 else old(resolutions)
      ensures authListenerInitialized && listeners == 1
      ensures old(authListenerInitialized) ==> listeners == old(listeners)
    {
      user := sessionModel;
      isInitialized := true;
      if initResolvePending {
        resolutions := resolutions + 1;
        initResolvePending := false;
      }
      if !authListenerInitialized {
        authListenerInitialized := true;
        listeners := listeners + 1;
      }
    }

    /** `waitForInit`: nothing to wait for once initialised; before that,
        every caller gets the one shared promise, created on first demand. */
    method WaitForInit() returns (w: Wait)
      requires Valid()
      modifies this`initPromise, this`initResolvePending, this`promisesCreated
      ensures Valid()
      ensures old(isInitialized) ==> w == Ready && initPromise == old(initPromise) && !initResolvePending
      ensures !old(isInitialized) ==> w == Pending(0) && initPromise == Some(0) && initResolvePending
      ensures old(initPromise).Some? ==> initPromise == old(initPromise) && promisesCreated == old(promisesCreated)
    {
      if isInitialized {
        return Ready;
      }
      if initPromise.None? {
        initPromise := Some(promisesCreated);
        promisesCreated := promisesCreated + 1;
        initResolvePending := true;
      }
      w := Pending(initPromise.value);
    }
  }

  /** Waiters before `init` share one promise, `init` resolves it once,
      later waiters need not wait, and however often `init` runs the session
      listener is registered once. */
  method InitSequence(model: Option<User>) returns (w1: Wait, w2: Wait, w3: Wait, resolved: nat, registered: nat)
    ensures w1 == w2 && w1.Pending?
    ensures w3 == Ready
    ensures resolved == 1 && registered == 1
  {
    var store := new AuthStore(model);
    w1 := store.WaitForInit();
    w2 := store.WaitForInit();
    store.Init();
    store.Init();
    w3 := store.WaitForInit();
    resolved, registered := store.resolutions, store.listeners;
  }
}
