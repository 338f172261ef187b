/** The dashboard's session guard (app/page.tsx): the protected page is shown only when
    the browser's local storage holds the token the sign-in page stores. */
module SessionGuard {
  import opened Outcomes

  /** The browser's local storage: string keys to string values. */
  type Storage = map<string, string>

  /** The storage key of the authentication token, 'TOKEN_APLICAÇÃO_FRONTEND'. */
  const TokenKey: string := "TOKEN_APLICA\U{C7}\U{C3}O_FRONTEND"

  /** The route the guard redirects to. */
  const SignInRoute: string := "/signin"

  /** checkAuth: `getItem` does not return null, that is, some value is stored under the
      token key. */
  predicate CheckAuth(storage: Storage) {
    TokenKey in storage
  }

  /** After the sign-in page stores a token under the same key, the guard lets the user
      through, whatever the token's value. */
  lemma SignInAuthenticates(storage: Storage, token: string)
    ensures CheckAuth(storage[TokenKey := token])
  {
  }

  /** Entries under any other key neither grant nor revoke access. */
  lemma OtherKeysIrrelevant(storage: Storage, key: string, value: string)
    requires key != TokenKey
    ensures CheckAuth(storage[key := value]) == CheckAuth(storage)
    ensures CheckAuth(storage - {key}) == CheckAuth(storage)
  {
  }

  /** Without the token entry the guard refuses. */
  lemma TokenRemovedRefuses(storage: Storage)
    ensures !CheckAuth(storage - {TokenKey})
  {
  }

  /** What the dashboard renders. */
  datatype View = LoadingText | Nothing | ProtectedPage

  /** The three render branches on `autenticado`: null shows "Carregando...", false
      renders nothing, true renders the page. */
  function Render(autenticado: Option<bool>): (v: View)
    ensures v == LoadingText <==> autenticado == None
    ensures v == ProtectedPage <==> autenticado == Some(true)
    ensures v == Nothing <==> autenticado == Some(false)
  {
    match autenticado
    case None => LoadingText
    case Some(true) => ProtectedPage
    case Some(false) => Nothing
  }

  class Dashboard {
    /** `autenticado`: unknown (None) until the mount effect has run. */
    var autenticado: Option<bool>
    /** The navigation the effect schedules with its 100 ms timer, if any. */
    var pendingRedirect: Option<string>

    /** Before the effect runs: unknown state, the loading text, no redirect. */
    constructor ()
      ensures autenticado == None && pendingRedirect == None
      ensures View() == LoadingText
    {
      autenticado := None;
      pendingRedirect := None;
    }

    function View(): View
      reads this
    {
      Render(autenticado)
    }

    /** The mount effect: `autenticado` becomes checkAuth(); a redirect to the sign-in
        route is scheduled exactly when it is false. The protected page is rendered
        exactly when the token is stored, and nothing is rendered otherwise. */
    method Mount(storage: Storage)
      modifies this
      ensures autenticado == Some(CheckAuth(storage))
      ensures pendingRedirect == (if CheckAuth(storage) then old(pendingRedirect) else Some(SignInRoute))
      ensures View() == ProtectedPage <==> TokenKey in storage
      ensures View() == Nothing <==> TokenKey !in storage
    {
      var isAuthenticated := CheckAuth(storage);
      autenticado := Some(isAuthenticated);
      if !isAuthenticated {
        pendingRedirect := Some(SignInRoute);
      }
    }
  }
}
