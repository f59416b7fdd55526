/** The landing page (frontend/app/page.tsx): the wallet check on mount and
    `handleConnect`, which connects the wallet, writes the session,
    reconciles the requested role with the stored one and picks the next
    route. */
module HomePage {
  import opened Common
  import opened Api
  import opened Session

  const FreighterUrl: string := "https://www.freighter.app/"
  const InstallMessage: string := "Please install the Freighter wallet extension and refresh the page."
  const ConnectFallback: string := "Failed to connect to Freighter wallet. Please try again."
  const MarketplaceRoute: string := "/marketplace"

  /** The registration page for a role. */
  function RegisterRoute(role: Role): (route: string)
    ensures route == "/freelancer/register" <==> role.Freelancer?
    ensures route == "/employer/register" <==> role.Employer?
  {
    assert |"/freelancer/register"| != |"/employer/register"|;
    match role
    case Freelancer => "/freelancer/register"
    case Employer => "/employer/register"
  }

  /** Everything `handleConnect` changes or produces: the session entries,
      the route pushed, the `error` state, the toast, and the page opened in
      a new tab. */
  datatype ConnectOutcome = ConnectOutcome(
    entries: map<string, string>,
    route: Option<string>,
    error: Option<string>,
    notice: Option<Notice>,
    openedTab: Option<string>)

  /** Whether `handleConnect` gets as far as the session writes: the wallet
      agent is there and the connection yielded a non-empty public key. */
  predicate Connected(installed: bool, key: Reply<Option<string>>)
  {
    installed && key.Ok? && Truthy(key.value)
  }

  /** The outcome of `handleConnect(role)` from the session `entries`, given
      what `checkFreighterInstalled` returned, what `connectFreighter`
      returned or threw, and what fetching the user list answered. */
  function Connect(entries: map<string, string>, role: Role, installed: bool, key: Reply<Option<string>>, users: Reply<seq<User>>)
    : (out: ConnectOutcome)
    // Nothing is stored and nothing is navigated to unless connected.
    ensures !Connected(installed, key) ==> out.entries == entries && out.route.None?
    // No agent: install hint, the agent's site opened, no toast.
    ensures !installed ==> out == ConnectOutcome(entries, None, Some(InstallMessage), None, Some(FreighterUrl))
    // The connection threw: its message becomes the error and a toast.
    ensures installed && key.Threw? ==>
      out.error == Some(MessageOr(key.exception, ConnectFallback))
      && out.notice == Some(Notice("Connection Failed", MessageOr(key.exception, "Failed to connect"), true))
      && out.openedTab.None?
    // No public key: nothing at all happens.
    ensures installed && key.Ok? && !Truthy(key.value) ==> out == ConnectOutcome(entries, None, None, None, None)
    // Connected: the key is the stored wallet, and no error is reported.
    ensures Connected(installed, key) ==>
      WalletAddressKey in out.entries && out.entries[WalletAddressKey] == key.value.value && out.error.None? && out.openedTab.None?
    // Only the session keys are ever written.
    ensures forall k :: k in entries && k != WalletAddressKey && k != UserTypeKey && k != UserIdKey ==>
      k in out.entries && out.entries[k] == entries[k]
    ensures forall k :: k in out.entries ==> k in entries || k == WalletAddressKey || k == UserTypeKey || k == UserIdKey
    // A registered user goes to the marketplace with the stored role and id.
    ensures Connected(installed, key) && CheckUserExists(users, key.value.value).found ==>
      var user := CheckUserExists(users, key.value.value).user.value;
      out.route == Some(MarketplaceRoute)
      && UserTypeKey in out.entries && out.entries[UserTypeKey] == user.userType
      && UserIdKey in out.entries && out.entries[UserIdKey] == IdText(user.id)
      && user.walletAddress == key.value.value
      && (user.userType != role.Name() ==>
            out.notice == Some(Notice("Role Mismatch", "This wallet is registered as " + user.userType + ". Redirecting...", true)))
      && (user.userType == role.Name() ==> out.notice == Some(Notice("Welcome back!", "Connected as " + user.fullName, false)))
    // A new wallet goes to the registration page of the requested role, with
    // the requested role stored and `userId` left as it was.
    ensures Connected(installed, key) && !CheckUserExists(users, key.value.value).found ==>
      out.route == Some(RegisterRoute(role))
      && UserTypeKey in out.entries && out.entries[UserTypeKey] == role.Name()
      && (UserIdKey in out.entries <==> UserIdKey in entries)
      && (UserIdKey in entries ==> out.entries[UserIdKey] == entries[UserIdKey])
      && out.notice.None?
  {
    if !installed then
      ConnectOutcome(entries, None, Some(InstallMessage), None, Some(FreighterUrl))
    else if key.Threw? then
      ConnectOutcome(entries, None, Some(MessageOr(key.exception, ConnectFallback)),
        Some(Notice("Connection Failed", MessageOr(key.exception, "Failed to connect"), true)), None)
    else if !Truthy(key.value) then
      ConnectOutcome(entries, None, None, None, None)
    else
      var publicKey := key.value.value;
      var check := CheckUserExists(users, publicKey);
      var stored := entries[UserTypeKey := role.Name()][WalletAddressKey := publicKey];
      if check.found then
        var user := check.user.value;
        if user.userType != role.Name() then
          var notice := Notice("Role Mismatch", "This wallet is registered as " + user.userType + ". Redirecting...", true);
          ConnectOutcome(stored[UserTypeKey := user.userType][UserIdKey := IdText(user.id)],
            Some(MarketplaceRoute), None, Some(notice), None)
        else
          ConnectOutcome(stored[UserIdKey := IdText(user.id)],
            Some(MarketplaceRoute), None, Some(Notice("Welcome back!", "Connected as " + user.fullName, false)), None)
      else
        ConnectOutcome(stored, Some(RegisterRoute(role)), None, None, None)
  }

  /** The page's state: whether the agent was found on mount, whether a
      connection is in progress, and the error shown. */
  class Page {
    var isFreighterInstalled: bool
    var isConnecting: bool
    var error: Option<string>

    constructor ()
      ensures !isFreighterInstalled && !isConnecting && error.None?
    {
      isFreighterInstalled := false;
      isConnecting := false;
      error := None;
    }

    /** The mount effect: records whether the agent is there. */
    method Mount(installed: bool)
      modifies this
      ensures isFreighterInstalled == installed
      ensures isConnecting == old(isConnecting) && error == old(error)
    {
      isFreighterInstalled := installed;
    }

    /** `handleConnect(role)`, step by step on the session store. */
    method HandleConnect(store: Store, role: Role, installed: bool, key: Reply<Option<string>>, users: Reply<seq<User>>)
      returns (route: Option<string>, notice: Option<Notice>, openedTab: Option<string>)
      modifies this, store
      ensures var out := Connect(old(store.entries), role, installed, key, users);
        store.entries == out.entries && route == out.route && error == out.error
        && notice == out.notice && openedTab == out.openedTab
      ensures !isConnecting && isFreighterInstalled == old(isFreighterInstalled)
    {
      isConnecting := true;
      error := None;
      route, notice, openedTab := None, None, None;
      if !installed {
        openedTab := Some(FreighterUrl);
        error := Some(InstallMessage);
        isConnecting := false;
        return;
      }
      if key.Threw? {
        error := Some(MessageOr(key.exception, ConnectFallback));
        notice := Some(Notice("Connection Failed", MessageOr(key.exception, "Failed to connect"), true));
      } else if Truthy(key.value) {
        var publicKey := key.value.value;
        var check := CheckUserExists(users, publicKey);
        store.SetItem(UserTypeKey, role.Name());
        store.SetItem(WalletAddressKey, publicKey);
        if check.found && check.user.Some? {
          var user := check.user.value;
          if user.userType != role.Name() {
            notice := Some(Notice("Role Mismatch", "This wallet is registered as " + user.userType + ". Redirecting...", true));
            store.SetItem(UserTypeKey, user.userType);
            store.SetItem(UserIdKey, IdText(user.id));
          } else {
            store.SetItem(UserIdKey, IdText(user.id));
            notice := Some(Notice("Welcome back!", "Connected as " + user.fullName, false));
          }
          route := Some(MarketplaceRoute);
        } else {
          route := Some(RegisterRoute(role));
        }
      }
      isConnecting := false;
    }
  }
}
