/** The dialog an employer pays a freelancer from
    (frontend/components/payment-dialog.tsx): the rate and totals derived
    from the hours typed in, the enable rules of its two buttons, and the
    payment handler, which as written always ends in an error. */
module PaymentDialog {
  import opened Common
  import opened Numbers
  import opened Api
  import opened Session
  import opened Stellar

  /** JavaScript truthiness of a number: `0` and `NaN` are falsy. */
  predicate TruthyNumber(n: Number)
  {
    n.Some? && n.value.units != 0
  }

  /** `freelancer.hourly_rate || freelancer.budget` */
  function HourlyRate(job: FreelancerJob): (rate: Number)
    ensures job.hourlyRate.Some? && TruthyNumber(job.hourlyRate.value) ==> rate == job.hourlyRate.value
    ensures !(job.hourlyRate.Some? && TruthyNumber(job.hourlyRate.value)) ==> rate == job.budget
  {
    if job.hourlyRate.Some? && TruthyNumber(job.hourlyRate.value) then job.hourlyRate.value else job.budget
  }

  /** `parseFloat(hours) * hourlyRate` */
  function TotalUsd(hours: string, job: FreelancerJob): (total: Number)
    ensures total.Some? <==> ParseFloat(hours).Some? && HourlyRate(job).Some?
  {
    Mul(ParseFloat(hours), HourlyRate(job))
  }

  /** `convertUSDtoXLM(totalUSD)` */
  function TotalXlm(hours: string, job: FreelancerJob): (s: string)
    ensures TotalUsd(hours, job).None? ==> s == "NaN"
  {
    ConvertUsdToXlm(TotalUsd(hours, job))
  }

  /** With readable hours and rate, the USD total is a number, and it is
      exactly the hours times the rate. */
  lemma TotalUsdExact(hours: string, job: FreelancerJob, h: Decimal, r: Decimal)
    requires ParseFloat(hours) == Some(h) && HourlyRate(job) == Some(r)
    ensures TotalUsd(hours, job).Some? && Value(TotalUsd(hours, job).value) == Value(h) * Value(r)
  {
    assert TotalUsd(hours, job) == Mul(Some(h), Some(r));
    MulValue(h, r);
  }

  /** With a USD total of at most seven fractional digits, the XLM total is
      printed with seven fractional digits and reads back as exactly ten
      times the USD total. */
  lemma TotalXlmExact(hours: string, job: FreelancerJob, total: Decimal)
    requires TotalUsd(hours, job) == Some(total) && total.scale <= 7
    ensures var s := TotalXlm(hours, job);
      |s| > 8 && s[|s| - 8] == '.'
      && ParseFloat(s) == Some(Decimal(total.units * 10 * Pow10(7 - total.scale), 7))
  {
    TotalXlmOfProduct(hours, job, total);
    ConvertUsdToXlmExact(total);
  }

  /** The XLM total is the conversion of the USD total. */
  lemma TotalXlmOfProduct(hours: string, job: FreelancerJob, total: Decimal)
    requires TotalUsd(hours, job) == Some(total)
    ensures TotalXlm(hours, job) == ConvertUsdToXlm(Some(total))
  {
  }

  /** `disabled={isProcessing || !hours || parseFloat(hours) <= 0}`: `NaN`
      compares false, so unreadable hours leave the button enabled. */
  function PayDisabled(isProcessing: bool, hours: string): (disabled: bool)
    ensures !disabled <==>
      !isProcessing && hours != "" && (ParseFloat(hours).None? || ParseFloat(hours).value.units > 0)
  {
    var h := ParseFloat(hours);
    isProcessing || hours == "" || (h.Some? && h.value.units <= 0)
  }

  /** `disabled={isProcessing}` on Cancel. */
  function CancelDisabled(isProcessing: bool): (disabled: bool)
    ensures disabled == isProcessing
  {
    isProcessing
  }

  /** `paymentStatus` */
  datatype Status = Idle | Success | Failed

  const WalletMissing: string := "Wallet not connected"
  const RecipientMissing: string := "Freelancer wallet address not available. Backend integration needed."

  /** The status and message `handlePayment` ends with, given the stored
      wallet address: it never succeeds. */
  function PaymentAttempt(wallet: Option<string>): (r: (Status, string))
    ensures r.0 == Failed
    ensures r.1 == WalletMissing <==> !Truthy(wallet)
    ensures Truthy(wallet) ==> r.1 == RecipientMissing
  {
    var thrown := if !Truthy(wallet) then Error(WalletMissing) else Error(RecipientMissing);
    (Failed, MessageOr(thrown, "An error occurred"))
  }

  /** One rendering of the dialog's state. */
  datatype Snapshot = Snapshot(isProcessing: bool, status: Status, errorMessage: string)

  class Dialog {
    var hours: string
    var isProcessing: bool
    var paymentStatus: Status
    var errorMessage: string

    constructor ()
      ensures hours == "1" && !isProcessing && paymentStatus == Idle && errorMessage == ""
    {
      hours := "1";
      isProcessing := false;
      paymentStatus := Idle;
      errorMessage := "";
    }

    function State(): Snapshot
      reads this
    {
      Snapshot(isProcessing, paymentStatus, errorMessage)
    }

    /** `handlePayment()`: resets the status and message while processing,
      then fails. `history` is the state after each group of updates. */
    method HandlePayment(store: Store) returns (history: seq<Snapshot>)
      modifies this
      ensures |history| == 2 && history[0] == Snapshot(true, Idle, "") && history[1] == State()
      ensures (paymentStatus, errorMessage) == PaymentAttempt(store.GetItem(WalletAddressKey))
      ensures !isProcessing && hours == old(hours)
    {
      isProcessing := true;
      paymentStatus := Idle;
      errorMessage := "";
      history := [State()];
      var walletAddress := store.GetItem(WalletAddressKey);
      var thrown: Exception;
      if !Truthy(walletAddress) {
        thrown := Error(WalletMissing);
      } else {
        thrown := Error(RecipientMissing);
      }
      paymentStatus := Failed;
      errorMessage := MessageOr(thrown, "An error occurred");
      isProcessing := false;
      history := history + [State()];
    }
  }
}
