/** The header shown on the signed-in pages
    (frontend/components/app-header.tsx): the session it reads on mount, the
    balance it loads and refreshes, logout, and the two texts it derives. */
module AppHeader {
  import opened Common
  import opened Numbers
  import opened Text
  import opened Session
  import opened Stellar

  /** The session after logout: `walletAddress`, `userType` and
      `currentProfile` are gone, and every other key, `userId` among them,
      keeps its value. */
  function LoggedOut(entries: map<string, string>): (r: map<string, string>)
    ensures WalletAddressKey !in r && UserTypeKey !in r && CurrentProfileKey !in r
    ensures forall k :: k in r <==> k in entries && k != WalletAddressKey && k != UserTypeKey && k != CurrentProfileKey
    ensures forall k :: k in r ==> r[k] == entries[k]
    ensures UserIdKey in entries ==> UserIdKey in r && r[UserIdKey] == entries[UserIdKey]
  {
    entries - {WalletAddressKey, UserTypeKey, CurrentProfileKey}
  }

  /** Logging out twice is logging out once. */
  lemma LoggedOutIdempotent(entries: map<string, string>)
    ensures LoggedOut(LoggedOut(entries)) == LoggedOut(entries)
  {
    assert LoggedOut(LoggedOut(entries)).Keys == LoggedOut(entries).Keys;
  }

  /** `walletAddress.slice(0, 6) + "..." + walletAddress.slice(-4)` */
  function TruncateAddress(address: string): (s: string)
    ensures |address| >= 10 ==>
      |s| == 13 && s[..6] == address[..6] && s[6..9] == "..." && s[9..] == address[|address| - 4..]
  {
    Take(address, 6) + "..." + TakeLast(address, 4)
  }

  /** `isLoadingBalance ? "..." : formatXLM(balance) + " XLM"` */
  function BalanceLabel(isLoading: bool, balance: string): (shown: string)
    ensures isLoading ==> shown == "..."
    ensures !isLoading ==> |shown| >= 4 && shown[|shown| - 4..] == " XLM"
    // Before the unit stands the balance formatted to cents.
    ensures !isLoading ==> shown[..|shown| - 4] == FormatXlm(Text(balance))
    // An unreadable balance shows as "NaN XLM".
    ensures !isLoading && ParseFloat(balance).None? ==> shown == "NaN XLM"
  {
    if isLoading then "..." else FormatXlm(Text(balance)) + " XLM"
  }

  /** A readable balance is shown with its point and two cents digits just
      before the unit. */
  lemma BalanceLabelCents(balance: string)
    requires ParseFloat(balance).Some?
    ensures var shown := BalanceLabel(false, balance);
      |shown| >= 7 && shown[|shown| - 7] == '.' && AllDigits(shown[|shown| - 6..|shown| - 4])
  {
    var amount := FormatXlm(Text(balance));
    CentsLayout(ParseFloat(balance), amount);
    UnitAfterCents(amount, BalanceLabel(false, balance));
  }

  lemma CentsLayout(num: Number, amount: string)
    requires num.Some? && amount == ToFixed(num, 2)
    ensures |amount| > 3 && amount[|amount| - 3] == '.' && AllDigits(amount[|amount| - 2..])
  {
    ToFixedLayout(num.value, 2);
  }

  lemma UnitAfterCents(amount: string, shown: string)
    requires |amount| > 3 && amount[|amount| - 3] == '.' && AllDigits(amount[|amount| - 2..])
    requires shown == amount + " XLM"
    ensures |shown| >= 7 && shown[|shown| - 7] == '.' && AllDigits(shown[|shown| - 6..|shown| - 4])
  {
    assert shown[|shown| - 6..|shown| - 4] == amount[|amount| - 2..];
  }

  /** The text before the unit reads back as the balance rounded to cents. */
  lemma BalanceLabelReadBack(balance: string)
    requires ParseFloat(balance).Some?
    ensures var shown := BalanceLabel(false, balance);
      ParseFloat(shown[..|shown| - 4]) == Some(Rounded(ParseFloat(balance).value, 2))
  {
    var num := ParseFloat(balance);
    CentsReadBack(num);
    assert BalanceLabel(false, balance)[..|BalanceLabel(false, balance)| - 4] == ToFixed(num, 2);
  }

  class Header {
    const showBalance: bool
    var walletAddress: string
    var userType: Option<string>
    var balance: string
    var isLoadingBalance: bool

    constructor (showBalance: bool)
      ensures this.showBalance == showBalance
      ensures walletAddress == "" && userType.None? && balance == "0" && isLoadingBalance
    {
      this.showBalance := showBalance;
      walletAddress := "";
      userType := None;
      balance := "0";
      isLoadingBalance := true;
    }

    /** `loadBalance(wallet)`: `answer` is what `getAccountBalance(wallet)`
        resolved with or threw. The balance changes only on an answer, and
        loading ends either way. `Stellar.GetAccountBalance` itself never
        throws and never answers `""`; the `Threw` case only mirrors
        `loadBalance`'s own `catch`. */
    method LoadBalance(wallet: string, answer: Reply<string>)
      modifies this
      ensures balance == (if answer.Ok? then answer.value else old(balance))
      ensures !isLoadingBalance
      ensures walletAddress == old(walletAddress) && userType == old(userType)
    {
      isLoadingBalance := true;
      if answer.Ok? {
        balance := answer.value;
      }
      isLoadingBalance := false;
    }

    /** The mount effect: with a stored wallet, shows it and the stored role,
        and loads the balance when the header shows one. `requested` is the
        wallet whose balance was asked for. */
    method Mount(store: Store, answer: Reply<string>) returns (requested: Option<string>)
      modifies this
      ensures var wallet := store.GetItem(WalletAddressKey);
        if Truthy(wallet) then
          walletAddress == wallet.value && userType == store.GetItem(UserTypeKey)
          && (requested.Some? <==> showBalance)
          && (showBalance ==>
                requested.value == wallet.value && !isLoadingBalance
                && balance == (if answer.Ok? then answer.value else old(balance)))
          && (!showBalance ==> balance == old(balance) && isLoadingBalance == old(isLoadingBalance))
        else
          requested.None? && walletAddress == old(walletAddress) && userType == old(userType)
          && balance == old(balance) && isLoadingBalance == old(isLoadingBalance)
    {
      requested := None;
      var wallet := store.GetItem(WalletAddressKey);
      var role := store.GetItem(UserTypeKey);
      if Truthy(wallet) {
        walletAddress := wallet.value;
        userType := role;
        if showBalance {
          requested := Some(wallet.value);
          LoadBalance(wallet.value, answer);
        }
      }
    }

    /** `refreshBalance()`: reloads the balance of the shown wallet, and does
        nothing when no wallet is shown. */
    method RefreshBalance(answer: Reply<string>) returns (requested: Option<string>)
      modifies this
      ensures walletAddress == "" ==>
        requested.None? && balance == old(balance) && isLoadingBalance == old(isLoadingBalance)
      ensures walletAddress != "" ==>
        requested == Some(walletAddress) && !isLoadingBalance
        && balance == (if answer.Ok? then answer.value else old(balance))
      ensures walletAddress == old(walletAddress) && userType == old(userType)
    {
      requested := None;
      if walletAddress != "" {
        requested := Some(walletAddress);
        LoadBalance(walletAddress, answer);
      }
    }

    /** `handleLogout()`: clears the session keys and returns to the landing
        page. */
    method HandleLogout(store: Store) returns (route: string)
      modifies store
      ensures store.entries == LoggedOut(old(store.entries))
      ensures route == "/"
    {
      store.RemoveItem(WalletAddressKey);
      store.RemoveItem(UserTypeKey);
      store.RemoveItem(CurrentProfileKey);
      route := "/";
    }
  }
}
