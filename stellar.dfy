/** The wallet and ledger helpers of the client (frontend/lib/stellar.ts):
    the Freighter browser-agent calls, the native balance of an account, the
    payment procedure, and the two amount renderings. Every answer of the
    agent or of the Horizon server is a parameter. */
module Stellar {
  import opened Common
  import opened Numbers

  /** The passphrase of the public test network the client is bound to. */
  const NetworkPassphrase: string := "Test SDF Network ; September 2015"

  /** The SDK's base fee, in stroops. */
  const BaseFee: nat := 100

  /** Validity window of a built transaction, in seconds. */
  const TimeoutSeconds: nat := 30

  // ---------------------------------------------------------------------
  // Freighter agent

  /** `checkFreighterInstalled()`: the agent's `isConnected` flag, and `false`
      whenever asking the agent fails. */
  method CheckFreighterInstalled(answer: Reply<bool>) returns (installed: bool)
    ensures installed <==> answer.Ok? && answer.value
  {
    match answer
    case Ok(flag) =>
      installed := flag;
    case Threw(_) =>
      installed := false;
  }

  /** What `requestAccess()` and `getAddress()` resolve with: an address and
      an optional error text. */
  datatype AccessResult = AccessResult(address: string, error: Option<string>)

  /** `connectFreighter()`: rethrows a failure of the agent, throws an `Error`
      carrying the agent's error text, and otherwise yields the address, or
      `null` for an empty one. */
  method ConnectFreighter(answer: Reply<AccessResult>) returns (r: Reply<Option<string>>)
    ensures answer.Threw? ==> r == Threw(answer.exception)
    ensures answer.Ok? && Truthy(answer.value.error) ==> r == Threw(Error(answer.value.error.value))
    ensures r.Ok? <==> answer.Ok? && !Truthy(answer.value.error)
    ensures r.Ok? ==> (r.value.Some? <==> answer.value.address != "")
    ensures r.Ok? && r.value.Some? ==> r.value.value == answer.value.address
  {
    if answer.Threw? {
      return Threw(answer.exception);
    }
    var result := answer.value;
    if Truthy(result.error) {
      return Threw(Error(result.error.value));
    }
    r := Ok(if result.address != "" then Some(result.address) else None);
  }

  /** `getWalletAddress()`: never fails; an agent error or a failure of the
      agent yields `null`, and so does an empty address. */
  method GetWalletAddress(answer: Reply<AccessResult>) returns (address: Option<string>)
    ensures address.Some? <==> answer.Ok? && !Truthy(answer.value.error) && answer.value.address != ""
    ensures address.Some? ==> address.value == answer.value.address
  {
    if answer.Threw? {
      return None;
    }
    var result := answer.value;
    if Truthy(result.error) {
      return None;
    }
    address := if result.address != "" then Some(result.address) else None;
  }

  // ---------------------------------------------------------------------
  // Account balance

  /** One entry of an account's `balances` list. */
  datatype Balance = Balance(assetType: string, balance: string)

  predicate IsNative(b: Balance)
  {
    b.assetType == "native"
  }

  /** `balances.find(b => b.asset_type === "native")`, as the position of the
      first native entry in list order, if there is one. */
  function FirstNative(balances: seq<Balance>): (r: Option<nat>)
    ensures r.None? <==> forall k :: 0 <= k < |balances| ==> !IsNative(balances[k])
    ensures r.Some? ==>
      r.value < |balances| && IsNative(balances[r.value]) && forall k :: 0 <= k < r.value ==> !IsNative(balances[k])
  {
    if balances == [] then None
    else if IsNative(balances[0]) then Some(0)
    else
      var r := FirstNative(balances[1..]);
      if r.Some? then Some(r.value + 1) else None
  }

  /** `getAccountBalance(publicKey)`: the balance text of the first native
      entry of the loaded account, `"0"` when that text is empty, when there
      is no native entry, or when loading the account fails. */
  function GetAccountBalance(loaded: Reply<seq<Balance>>): (balance: string)
    ensures balance != ""
    ensures loaded.Threw? ==> balance == "0"
    ensures loaded.Ok? && (forall k :: 0 <= k < |loaded.value| ==> !IsNative(loaded.value[k])) ==> balance == "0"
    ensures loaded.Ok? && balance != "0" ==> exists k :: 0 <= k < |loaded.value| && IsNative(loaded.value[k]) && loaded.value[k].balance == balance
  {
    match loaded
    case Threw(_) => "0"
    case Ok(balances) =>
      var native := FirstNative(balances);
      if native.Some? && balances[native.value].balance != "" then balances[native.value].balance else "0"
  }

  /** The balance is the one of the first native entry, or `"0"` when that
      entry's text is empty: a later native entry is never read. */
  lemma BalanceOfFirstNative(balances: seq<Balance>, i: nat)
    requires i < |balances| && IsNative(balances[i])
    requires forall k :: 0 <= k < i ==> !IsNative(balances[k])
    ensures GetAccountBalance(Ok(balances)) == if balances[i].balance != "" then balances[i].balance else "0"
  {
    var r := FirstNative(balances);
    assert r.Some? && r.value == i;
  }

  // ---------------------------------------------------------------------
  // Payment

  datatype Asset = Native

  datatype Operation = Payment(destination: string, asset: Asset, amount: string)

  /** The transaction `sendPayment` builds, as the fields the client sets. */
  datatype Transaction = Transaction(
    source: string,
    fee: nat,
    network: string,
    operations: seq<Operation>,
    timeout: nat)

  /** The loaded source account. */
  datatype Account = Account(accountId: string)

  /** What `signTransaction` resolves with. */
  datatype SignResult = SignResult(signedTxXdr: string, error: Option<string>)

  /** The external calls `sendPayment` makes, in order. */
  datatype Call =
    | IsConnected
    | LoadAccount(publicKey: string)
    | SignTransaction(tx: Transaction, network: string, address: string)
    | SubmitTransaction(signedTxXdr: string)

  /** `{ success, hash?, error? }` */
  datatype PaymentResult = PaymentResult(success: bool, hash: Option<string>, error: Option<string>)

  /** The one-operation payment of the native asset, with the base fee, the
      test network and a 30-second timeout. */
  function BuildPayment(account: Account, destination: string, amount: string): (tx: Transaction)
    ensures tx.operations == [Payment(destination, Native, amount)]
    ensures tx.source == account.accountId && tx.fee == BaseFee
    ensures tx.network == NetworkPassphrase && tx.timeout == TimeoutSeconds
  {
    Transaction(account.accountId, BaseFee, NetworkPassphrase, [Payment(destination, Native, amount)], TimeoutSeconds)
  }

  /** The message a failed payment reports for an exception. */
  function PaymentFailure(e: Exception): (m: string)
    ensures e.NonError? ==> m == "Payment failed"
  {
    MessageOr(e, "Payment failed")
  }

  /** `sendPayment(source, destination, amount)`: asks whether the agent is
      there, loads the source account, builds and signs the payment, submits
      it, and classifies the outcome. `agent`, `loaded`, `signed` and
      `submitted` are the answers of the four external steps; `built` is what
      the SDK's `Operation.payment(...)` and `build()` threw, if anything (an
      invalid destination or amount, such as `"NaN"`, is refused there);
      `calls` is the sequence of external calls actually made. */
  method SendPayment(
    source: string, destination: string, amount: string,
    agent: Reply<bool>, loaded: Reply<Account>, built: Option<Exception>,
    signed: Reply<SignResult>, submitted: Reply<string>)
    returns (result: PaymentResult, calls: seq<Call>)
    // No wallet agent: fail at once, without loading or signing.
    ensures !(agent.Ok? && agent.value) ==>
      result == PaymentResult(false, None, Some("Freighter wallet not available")) && calls == [IsConnected]
    // Success exactly when every step succeeded, and then with the submission's hash.
    ensures result.success <==>
      agent.Ok? && agent.value && loaded.Ok? && built.None? && signed.Ok? && !Truthy(signed.value.error) && submitted.Ok?
    ensures result.success ==> result.hash == Some(submitted.value) && result.error.None?
    ensures !result.success ==> result.hash.None? && result.error.Some?
    // The reported message of each failing step.
    ensures agent.Ok? && agent.value && loaded.Threw? ==> result.error == Some(PaymentFailure(loaded.exception))
    ensures agent.Ok? && agent.value && loaded.Ok? && built.Some? ==>
      result.error == Some(PaymentFailure(built.value)) && |calls| == 2
    ensures agent.Ok? && agent.value && loaded.Ok? && built.None? && signed.Threw? ==>
      result.error == Some(PaymentFailure(signed.exception))
    ensures agent.Ok? && agent.value && loaded.Ok? && built.None? && signed.Ok? && Truthy(signed.value.error) ==>
      result.error == Some(signed.value.error.value)
    ensures (agent.Ok? && agent.value && loaded.Ok? && built.None? && signed.Ok? && !Truthy(signed.value.error)
      && submitted.Threw?) ==> result.error == Some(PaymentFailure(submitted.exception))
    // What was asked of the outside world.
    ensures agent.Ok? && agent.value ==> |calls| >= 2 && calls[..2] == [IsConnected, LoadAccount(source)]
    ensures |calls| >= 3 <==> agent.Ok? && agent.value && loaded.Ok? && built.None?
    ensures |calls| >= 3 ==> calls[2] == SignTransaction(BuildPayment(loaded.value, destination, amount), NetworkPassphrase, source)
    ensures |calls| == 4 <==> agent.Ok? && agent.value && loaded.Ok? && built.None? && signed.Ok? && !Truthy(signed.value.error)
    ensures |calls| <= 4 && forall k :: 0 <= k < |calls| ==> (calls[k].SubmitTransaction? <==> k == 3)
    ensures |calls| == 4 ==> calls[3] == SubmitTransaction(signed.value.signedTxXdr)
  {
    calls := [IsConnected];
    var installed := CheckFreighterInstalled(agent);
    if !installed {
      return PaymentResult(false, None, Some("Freighter wallet not available")), calls;
    }
    calls := calls + [LoadAccount(source)];
    if loaded.Threw? {
      return PaymentResult(false, None, Some(PaymentFailure(loaded.exception))), calls;
    }
    if built.Some? {
      return PaymentResult(false, None, Some(PaymentFailure(built.value))), calls;
    }
    var tx := BuildPayment(loaded.value, destination, amount);
    calls := calls + [SignTransaction(tx, NetworkPassphrase, source)];
    if signed.Threw? {
      return PaymentResult(false, None, Some(PaymentFailure(signed.exception))), calls;
    }
    if Truthy(signed.value.error) {
      // `throw new Error(signedResult.error)`, caught just below
      var thrown := Error(signed.value.error.value);
      return PaymentResult(false, None, Some(PaymentFailure(thrown))), calls;
    }
    calls := calls + [SubmitTransaction(signed.value.signedTxXdr)];
    if submitted.Threw? {
      return PaymentResult(false, None, Some(PaymentFailure(submitted.exception))), calls;
    }
    result := PaymentResult(true, Some(submitted.value), None);
  }

  // ---------------------------------------------------------------------
  // Amount renderings

  /** `formatXLM` takes a string or a number. */
  datatype Amount = Text(text: string) | Num(number: Number)

  /** `formatXLM(amount)`: a string is read with `parseFloat` first; the number
      is then printed with two fractional digits. */
  function FormatXlm(amount: Amount): (s: string)
    ensures amount.Text? ==> s == ToFixed(ParseFloat(amount.text), 2)
    ensures amount.Num? ==> s == ToFixed(amount.number, 2)
  {
    var num := match amount
      case Text(text) => ParseFloat(text)
      case Num(n) => n;
    ToFixed(num, 2)
  }

  /** A formatted amount is `"NaN"` or ends in a point and exactly two digits,
      and read back it is the amount rounded to cents. */
  lemma FormatXlmTwoDecimals(amount: Amount)
    ensures var num := if amount.Text? then ParseFloat(amount.text) else amount.number;
      var s := FormatXlm(amount);
      (num.None? ==> s == "NaN")
      && (num.Some? ==> |s| > 3 && s[|s| - 3] == '.' && AllDigits(s[|s| - 2..])
                        && ParseFloat(s) == Some(Rounded(num.value, 2)))
  {
    var num := if amount.Text? then ParseFloat(amount.text) else amount.number;
    assert FormatXlm(amount) == ToFixed(num, 2);
    CentsReadBack(num);
  }

  /** A number printed with two decimals is `"NaN"` or ends in a point and
      two digits, and reads back as the number rounded to cents. */
  lemma CentsReadBack(num: Number)
    ensures var s := ToFixed(num, 2);
      (num.None? ==> s == "NaN")
      && (num.Some? ==> |s| > 3 && s[|s| - 3] == '.' && AllDigits(s[|s| - 2..])
                        && ParseFloat(s) == Some(Rounded(num.value, 2)))
  {
    if num.Some? {
      FixedReadBack(num.value, 2, ToFixed(num, 2));
    }
  }

  /** Printing the rounded value again gives the same text, unless a negative
      number rounded to zero: its rendering keeps the minus sign, but the
      rounded value is zero and prints without one. */
  lemma ToFixedOfRounded(v: Decimal, digits: nat)
    requires !(v.units < 0 && RoundedMagnitude(v, digits) == 0)
    ensures ToFixed(Some(Rounded(v, digits)), digits) == ToFixed(Some(v), digits)
  {
    var m := RoundedMagnitude(v, digits);
    var r := Rounded(v, digits);
    assert Abs(r.units) == m;
    ExactQuotient(m, Pow10(digits));
    assert RoundedMagnitude(r, digits) == m;
    assert r.units < 0 <==> v.units < 0;
  }

  /** Formatting is idempotent: formatting the formatted text again gives the
      same text, exactly unless the amount is negative and rounds to zero
      cents. */
  lemma FormatXlmIdempotent(v: Decimal)
    ensures FormatXlm(Text(FormatXlm(Num(Some(v))))) == FormatXlm(Num(Some(v)))
      <==> !(v.units < 0 && RoundedMagnitude(v, 2) == 0)
  {
    if v.units < 0 && RoundedMagnitude(v, 2) == 0 {
      FormatXlmNegativeZero(v);
    } else {
      ParseToFixed(v, 2);
      ToFixedOfRounded(v, 2);
    }
  }

  /** The exception: a negative amount that rounds to zero cents prints with
      a minus sign, reads back as zero, and then prints without one. */
  lemma FormatXlmNegativeZero(v: Decimal)
    requires v.units < 0 && RoundedMagnitude(v, 2) == 0
    ensures var once := FormatXlm(Num(Some(v)));
      var twice := FormatXlm(Text(once));
      once != [] && once[0] == '-' && ParseFloat(once) == Some(Decimal(0, 2))
      && twice != [] && twice[0] != '-'
  {
    var once := FormatXlm(Num(Some(v)));
    assert once == ToFixed(Some(v), 2);
    ToFixedLayout(v, 2);
    ParseToFixed(v, 2);
    assert Rounded(v, 2) == Decimal(0, 2);
    assert FormatXlm(Text(once)) == ToFixed(Some(Decimal(0, 2)), 2);
    ToFixedLayout(Decimal(0, 2), 2);
  }

  /** -0.001 is such an amount: it prints as "-0.00". */
  lemma NegativeMilliPrintsMinusZero()
    ensures RoundedMagnitude(Decimal(-1, 3), 2) == 0
    ensures FormatXlm(Num(Some(Decimal(-1, 3)))) == "-0.00"
  {
    var v := Decimal(-1, 3);
    assert RoundedMagnitude(v, 2) == 0 by {
      assert Pow10(2) == 100 && Pow10(3) == 1000;
      DivModUnique(2 * (1 * 100) + 1000, 2 * 1000, 0, 1200);
    }
    ZeroCents(v);
  }

  /** A value whose magnitude rounds to zero cents prints as "0.00", behind
      a minus sign when it is negative. */
  lemma ZeroCents(v: Decimal)
    requires RoundedMagnitude(v, 2) == 0
    ensures ToFixed(Some(v), 2) == (if v.units < 0 then "-0.00" else "0.00")
  {
    assert Pow10(2) == 100;
    assert Div(0, 100) == 0 && Mod(0, 100) == 0;
    assert DecimalDigits(0) == "0";
    assert PaddedDigits(0, 2) == "00";
  }

  /** The exchange rate: one XLM is worth 0.10 USD. */
  const UsdPerXlm: Decimal := Decimal(1, 1)

  /** `convertUSDtoXLM(usd)`: `usd / 0.1` printed with seven fractional digits.
      Dividing by `1/10` is multiplying by 10. */
  function ConvertUsdToXlm(usd: Number): (s: string)
    ensures usd.None? ==> s == "NaN"
    ensures usd.Some? ==> |s| > 8 && s[|s| - 8] == '.' && AllDigits(s[|s| - 7..])
  {
    var xlm := Mul(usd, Some(Decimal(10, 0)));
    if xlm.Some? then
      ToFixedLayout(xlm.value, 7);
      ToFixed(xlm, 7)
    else
      ToFixed(xlm, 7)
  }

  /** An amount with at most seven fractional digits converts exactly: the
      text reads back as ten times the amount, with seven fractional digits. */
  lemma ConvertUsdToXlmExact(usd: Decimal)
    requires usd.scale <= 7
    ensures var s := ConvertUsdToXlm(Some(usd));
      |s| > 8 && s[|s| - 8] == '.' && AllDigits(s[|s| - 7..])
      && ParseFloat(s) == Some(Decimal(usd.units * 10 * Pow10(7 - usd.scale), 7))
  {
    var x := Decimal(usd.units * 10, usd.scale);
    assert Mul(Some(usd), Some(Decimal(10, 0))) == Some(x);
    var s := ConvertUsdToXlm(Some(usd));
    assert s == ToFixed(Some(x), 7);
    ParseToFixed(x, 7);
    ExactWhenFewerDigits(x, 7);
  }

  /** 125 USD is printed as 1250 XLM with seven zero decimals. */
  lemma ConvertUsdToXlmExample()
    ensures ConvertUsdToXlm(Some(Decimal(125, 0))) == "1250.0000000"
  {
    assert Mul(Some(Decimal(125, 0)), Some(Decimal(10, 0))) == Some(Decimal(1250, 0));
    RenderedXlm1250(Decimal(1250, 0), 12500000000);
  }

  /** 1250 printed with seven decimals; `m` is its rounded magnitude in units
      of `10^-7`. */
  lemma RenderedXlm1250(x: Decimal, m: nat)
    requires x == Decimal(1250, 0) && m == 12500000000
    ensures ToFixed(Some(x), 7) == "1250.0000000"
  {
    assert Pow10(7) == 10000000;
    assert RoundedMagnitude(x, 7) == m by {
      DivModUnique(2 * (1250 * 10000000) + 1, 2, m, 1);
    }
    assert WholeDigits(m, 7) == "1250" by {
      DivModUnique(m, 10000000, 1250, 0);
      assert DecimalDigits(1250) == "1250";
    }
    assert FractionOf(m, 7) == "0000000" by {
      DivModUnique(m, 10000000, 1250, 0);
      assert PaddedDigits(0, 7) == "0000000";
    }
    ToFixedParts(x, 7, m, "1250", "0000000");
    assert "1250" + PointAnd("0000000") == "1250.0000000";
  }
}
