/**
 * The front-end router: three routes flagged as guest-only or
 * signed-in-only, and the guard run before every navigation. The guard
 * asks the server for the current user once, on the first navigation, and
 * then redirects on the auth flags.
 */
module Router {
  import opened Wrappers
  import opened AuthStore

  /** The `meta` flags of a route; a missing flag is false. */
  datatype Meta = Meta(requiresAuth: bool, requiresGuest: bool)

  datatype Route = Route(path: string, name: string, meta: Meta)

  /** The route table. */
  const Routes: seq<Route> := [
    Route("/login", "login", Meta(false, true)),
    Route("/register", "register", Meta(false, true)),
    Route("/", "dashboard", Meta(true, false))
  ]

  const LoginPath := "/login"
  const HomePath := "/"

  /** The guard's verdict: go on, or go elsewhere instead. */
  datatype Navigation = Proceed | Redirect(to: string)

  /** The first route in `routes` whose path is `path`. */
  function Resolve(routes: seq<Route>, path: string): (r: Option<nat>)
    ensures r.Some? ==> r.value < |routes| && routes[r.value].path == path
    ensures r.Some? ==> forall i | 0 <= i < r.value :: routes[i].path != path
    ensures r.None? <==> forall i | 0 <= i < |routes| :: routes[i].path != path
  {
    if routes == [] then None
    else if routes[0].path == path then Some(0)
    else match Resolve(routes[1..], path) {
      case None => None
      case Some(i) => Some(i + 1)
    }
  }

  /** The flags seen for a navigation to `path`; an unmatched path carries none. */
  function MetaOf(path: string): Meta
  {
    match Resolve(Routes, path) {
      case Some(i) => Routes[i].meta
      case None => Meta(false, false)
    }
  }

  /** The `beforeEach` decision, once the user is known. */
  function Decide(meta: Meta, isAuthenticated: bool): (n: Navigation)
    ensures n == Redirect(LoginPath) <==> meta.requiresAuth && !isAuthenticated
    ensures n == Redirect(HomePath) <==> meta.requiresGuest && isAuthenticated
    ensures n == Proceed <==> !(meta.requiresAuth && !isAuthenticated) && !(meta.requiresGuest && isAuthenticated)
  {
    if meta.requiresAuth && !isAuthenticated then Redirect(LoginPath)
    else if meta.requiresGuest && isAuthenticated then Redirect(HomePath)
    else Proceed
  }

  /** No declared route is both guest-only and signed-in-only. */
  lemma NoRouteHasBothFlags()
    ensures forall i | 0 <= i < |Routes| :: !(Routes[i].meta.requiresAuth && Routes[i].meta.requiresGuest)
  {
  }

  /** The flags of the three declared paths. */
  lemma DeclaredPathsResolve()
    ensures MetaOf(LoginPath) == Meta(false, true)
    ensures MetaOf("/register") == Meta(false, true)
    ensures MetaOf(HomePath) == Meta(true, false)
  {
  }

  /** On any navigation, at most one of the two redirect conditions holds. */
  lemma AtMostOneRedirectApplies(path: string, isAuthenticated: bool)
    ensures var m := MetaOf(path);
      !((m.requiresAuth && !isAuthenticated) && (m.requiresGuest && isAuthenticated))
    ensures var m := MetaOf(path);
      !(m.requiresAuth && m.requiresGuest)
  {
  }

  /** Following a redirect never redirects again while the auth state is the same. */
  lemma NoRedirectLoop(path: string, isAuthenticated: bool)
    ensures var n := Decide(MetaOf(path), isAuthenticated);
      n.Redirect? ==> Decide(MetaOf(n.to), isAuthenticated) == Proceed
  {
  }

  /**
   * The guard with its module-level `authChecked` flag. `fetches` counts the
   * calls to `fetchUser` the guard has made so far.
   */
  class NavigationGuard {
    const store: Store
    var authChecked: bool
    ghost var fetches: nat

    ghost predicate Valid()
      reads this
    {
      fetches == if authChecked then 1 else 0
    }

    constructor (store: Store)
      ensures Valid() && this.store == store && !authChecked
    {
      this.store := store;
      authChecked := false;
      fetches := 0;
    }

    /**
     * `router.beforeEach` for a navigation to `to`. `whoami` is how the
     * `/api/me` call ends if it is made.
     */
    method BeforeEach(to: string, whoami: ApiOutcome<UserView>) returns (nav: Navigation)
      requires Valid()
      modifies this, store
      ensures Valid() && authChecked && fetches <= 1
      ensures old(authChecked) ==> fetches == old(fetches) && store.user == old(store.user)
      ensures !old(authChecked) ==>
        fetches == 1 && store.user == (if whoami.Resolved? then Some(whoami.value) else None)
      ensures store.loading == old(store.loading) && store.error == old(store.error)
      ensures nav == Decide(MetaOf(to), store.IsAuthenticated())
    {
      if !authChecked {
        store.FetchUser(whoami);
        fetches := fetches + 1;
        authChecked := true;
      }
      nav := Decide(MetaOf(to), store.IsAuthenticated());
    }
  }
}
