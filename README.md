# StellarWork client core in Dafny

StellarWork is a freelance marketplace. Its Next.js client connects a Freighter
wallet, keeps a small session in `localStorage` (`walletAddress`, `userType`,
`userId`, `currentProfile`), registers freelancers and employers with a
FastAPI backend, lists and filters freelancer profiles, and pays in XLM on the
Stellar test network. A Soroban contract next to it greets a caller.

This project models the logic of that client and of the contract:

- the session store and what each page does with it: the landing page's
  `handleConnect`, the marketplace and registration guards, registration's
  `userId` write and the header's logout (`session.dfy`, `home_page.dfy`,
  `marketplace.dfy`, `registration.dfy`, `freelancer_register.dfy`,
  `employer_register.dfy`, `app_header.dfy`);
- the lookup of a user by wallet address (`api.dfy`);
- JavaScript numbers as exact decimals, with `parseFloat` and `toFixed`
  written out, and the USD to XLM conversion and two-decimal display built on
  them (`numbers.dfy`, `stellar.dfy`);
- the Freighter agent helpers, the native balance, and the step sequence of
  `sendPayment` with the classification of its result (`stellar.dfy`);
- the payment dialog's totals, button rules and `handlePayment` state machine
  (`payment_dialog.dfy`);
- the marketplace search filter and skill badges (`marketplace.dfy`);
- the `hello` contract (`hello_contract.dfy`).

Every answer of the outside world (the Freighter agent, the Horizon server, the
backend's HTTP endpoints) is a parameter. It is a `Reply<T>`: a value the call
resolved with, or the exception it threw, either an `Error` with a message or
any other value. Routes pushed and toasts shown are returned values. State the
source keeps in React hooks or in `localStorage` is a field of a class, and
each handler is a method on it. Where a handler's outcome is worth stating on
its own (`handleConnect`, logout), a pure function describes it and the method
is proved equal to it.

A JavaScript number is `Option<Decimal>`: `None` is `NaN`, and
`Decimal(units, scale)` is the exact value `units / 10^scale`.

## Model

| member | source | states |
|---|---|---|
| Common.MessageOr | frontend/lib/stellar.ts:107 | an `Error` yields its own message; any other thrown value yields the fallback text |
| Session.Store.GetItem | frontend/app/marketplace/page.tsx:27-28 | `getItem` gives a value exactly for a stored key, and that value is the stored one |
| Session.Store.SetItem | frontend/app/page.tsx:53-54 | `setItem` overwrites one key and leaves every other key as it was |
| Session.Store.RemoveItem | frontend/components/app-header.tsx:48-50 | `removeItem` drops one key, and a missing key is no error |
| Text.Lower | frontend/app/marketplace/page.tsx:66-68 | `toLowerCase` keeps the length and lowers each character in place |
| Text.TrimStart | frontend/app/freelancer/register/page.tsx:68 | the result is a suffix of the input; only white space was cut, and it does not start with white space (white space and line terminators as ECMAScript defines them, the Unicode space separators included) |
| Text.TrimEnd | frontend/app/freelancer/register/page.tsx:68 | the result is a prefix of the input; only white space was cut, and it does not end with white space (white space and line terminators as ECMAScript defines them, the Unicode space separators included) |
| Text.Trim | frontend/app/freelancer/register/page.tsx:68 | `trim` gives a slice of the input with only white space cut on both sides; the slice has no white space at either end (ECMAScript white space and line terminators) |
| Text.Split | frontend/app/freelancer/register/page.tsx:68 | `split(",")` gives one piece more than there are commas, and no piece holds a comma |
| Text.JoinSplit | frontend/app/freelancer/register/page.tsx:68 | joining the pieces with the separator gives the input back |
| Text.SplitJoin | frontend/app/freelancer/register/page.tsx:68 | splitting pieces free of the separator after joining them gives the pieces back |
| Text.SplitAfterPiece | frontend/app/freelancer/register/page.tsx:68 | a separator-free piece followed by the separator splits off as the first piece |
| Text.SplitWithoutSeparator | frontend/app/freelancer/register/page.tsx:68 | a string without the separator splits into itself alone |
| Text.Take | frontend/components/app-header.tsx:93 | `slice(0, n)` is the first `n` characters, or the whole string when it is shorter |
| Text.TakeLast | frontend/components/app-header.tsx:93 | `slice(-n)` for `n > 0` is the last `n` characters, or the whole string when it is shorter |
| Text.LowerIdempotent | frontend/app/marketplace/page.tsx:66-68 | lower-casing an already lower-cased text changes nothing |
| Text.Contains | frontend/app/marketplace/page.tsx:66-68 | `includes` finds the empty string in every text and a text in itself, and never finds a needle longer than the text |
| Numbers.DecimalDigits | frontend/lib/stellar.ts:115 | the integer part is written with at least one digit, all of them decimal digits |
| Numbers.DecimalDigitsValue | frontend/lib/stellar.ts:115 | the digits written for `n` read back as `n` |
| Numbers.PaddedDigits | frontend/lib/stellar.ts:115 | the fraction is written with exactly `width` digits |
| Numbers.PaddedDigitsValue | frontend/lib/stellar.ts:115 | the padded digits read back as `n` modulo `10^width` |
| Numbers.LeadingDigitCount | frontend/lib/stellar.ts:114 | `parseFloat` reads the longest run of digits: all digits up to it, a non-digit right after it |
| Numbers.LeadingDigitsOfConcat | frontend/lib/stellar.ts:114 | the run of digits stops exactly where a non-digit follows the digits |
| Numbers.FractionDigits | frontend/lib/stellar.ts:114 | the fraction `parseFloat` reads holds digits only |
| Numbers.ParseUnsigned | frontend/lib/stellar.ts:114 | an unsigned literal never reads as a negative number |
| Numbers.DigitsValueConcat | frontend/lib/stellar.ts:114 | digits of `a` then `b` denote `a * 10^|b| + b` |
| Numbers.ParseUnsignedRendered | frontend/lib/stellar.ts:114 | `parseFloat` of `w.f` is the number whose digits are `w` then `f`, with `|f|` decimals |
| Numbers.ParseSigned | frontend/lib/stellar.ts:114 | a leading minus sign negates what the unsigned part reads as |
| Numbers.ParseFloat | frontend/lib/stellar.ts:114 | a text of nothing but white space reads as `NaN`; the number read is negative only behind a leading minus sign (what it reads otherwise: ParseSigned, ParseRendered, ParseToFixed) |
| Numbers.ParseRendered | frontend/lib/stellar.ts:114 | the text `toFixed` writes, sign included, reads back as the signed digits with `|f|` decimals |
| Numbers.ToFixed | frontend/lib/stellar.ts:115 | `NaN.toFixed(d)` is `"NaN"` |
| Numbers.WholeDigits | frontend/lib/stellar.ts:115 | the integer part of a rendering is at least one digit |
| Numbers.FractionOf | frontend/lib/stellar.ts:115 | the fraction of a rendering has exactly `digits` digits |
| Numbers.ToFixedLayout | frontend/lib/stellar.ts:115 | with `d > 0` the text ends in a point and exactly `d` digits, and begins with `-` exactly for a negative number |
| Numbers.RenderedDigitsValue | frontend/lib/stellar.ts:115 | the integer and fraction digits written together spell the rounded magnitude |
| Numbers.FixedReadBack | frontend/lib/stellar.ts:115 | with `d > 0` the text has a point followed by exactly `d` digits at its end, and reads back as the number rounded to `d` decimals |
| Numbers.ParseToFixed | frontend/lib/stellar.ts:115 | reading back a `toFixed` text gives the number rounded half up to `d` decimals |
| Numbers.RoundingError | frontend/lib/stellar.ts:115 | the rendering is within half a unit of the last printed digit of the exact value |
| Numbers.ExactWhenFewerDigits | frontend/lib/stellar.ts:115 | a number with at most `d` decimals is rendered without rounding |
| Numbers.Mul | frontend/components/payment-dialog.tsx:28 | a product is a number exactly when both factors are; `NaN` absorbs |
| Numbers.MulValue | frontend/components/payment-dialog.tsx:28 | the product of two numbers denotes, as a rational number, the product of their values |
| Numbers.RealPow10Add | frontend/components/payment-dialog.tsx:28 | `10^(a+b) = 10^a * 10^b` over the reals, which makes the scales of a product add up |
| Stellar.CheckFreighterInstalled | frontend/lib/stellar.ts:8-16 | true exactly when the agent answered and its `isConnected` flag is set; a failure yields false, never an exception |
| Stellar.ConnectFreighter | frontend/lib/stellar.ts:18-31 | an agent failure is rethrown; an error text is thrown as an `Error` with that message; otherwise the address, or `null` for an empty one |
| Stellar.GetWalletAddress | frontend/lib/stellar.ts:33-46 | never throws; an address exactly when the agent answered without error and with a non-empty address |
| Stellar.FirstNative | frontend/lib/stellar.ts:52 | `find` gives the first native entry in list order, and nothing exactly when no entry is native |
| Stellar.GetAccountBalance | frontend/lib/stellar.ts:49-58 | never empty; `"0"` when the load fails or no entry is native; any other value is the balance text of a native entry |
| Stellar.BalanceOfFirstNative | frontend/lib/stellar.ts:52-53 | the balance is that of the first native entry, or "0" when its text is empty; a later native entry is never read |
| Stellar.BuildPayment | frontend/lib/stellar.ts:74-86 | one native-asset payment to the destination for the amount, with the base fee, the test network and a 30-second timeout |
| Stellar.PaymentFailure | frontend/lib/stellar.ts:107 | a non-`Error` failure reports `"Payment failed"` |
| Stellar.SendPayment | frontend/lib/stellar.ts:60-110 | no agent: fails with "Freighter wallet not available" before loading or signing; success with the submission hash exactly when load, building the payment, signing without error and submission all succeed; otherwise the failing step's message, and a build failure stops before signing; the calls made, in order, with the signing request for the built payment |
| Stellar.FormatXlm | frontend/lib/stellar.ts:113-116 | a string is read with `parseFloat` first, then the number is printed with two decimals |
| Stellar.CentsReadBack | frontend/lib/stellar.ts:115 | a number printed with two decimals is "NaN" or ends in a point and exactly two digits, and reads back as the number rounded to cents |
| Stellar.FormatXlmTwoDecimals | frontend/lib/stellar.ts:113-116 | the text is `"NaN"` or ends in a point and exactly two digits, and reads back as the amount rounded to cents |
| Stellar.ToFixedOfRounded | frontend/lib/stellar.ts:115 | printing the rounded value again gives the same text, unless a negative value rounds to zero |
| Stellar.FormatXlmIdempotent | frontend/lib/stellar.ts:113-116 | formatting a formatted amount again changes nothing exactly when the amount is not negative-and-rounding-to-zero-cents |
| Stellar.FormatXlmNegativeZero | frontend/lib/stellar.ts:113-116 | the exception: a negative amount that rounds to zero cents prints with a leading "-", reads back as zero, and formats again without the "-" |
| Stellar.NegativeMilliPrintsMinusZero | frontend/lib/stellar.ts:113-116 | -0.001 rounds to zero cents and prints as "-0.00" |
| Stellar.ZeroCents | frontend/lib/stellar.ts:115 | a value that rounds to zero cents prints "0.00", behind a minus sign when negative |
| Stellar.ConvertUsdToXlm | frontend/lib/stellar.ts:119-123 | `NaN` prints as "NaN"; any other amount prints with a point and exactly seven digits |
| Stellar.ConvertUsdToXlmExact | frontend/lib/stellar.ts:119-123 | with at most seven decimals, the text has a point and exactly seven digits and reads back as ten times the USD amount |
| Stellar.ConvertUsdToXlmExample | frontend/lib/stellar.ts:119-123 | 125 USD prints as "1250.0000000" |
| Stellar.RenderedXlm1250 | frontend/lib/stellar.ts:122 | 1250 printed with seven decimals is "1250.0000000" |
| Api.Role.Name | frontend/lib/api.ts:21 | the stored role text is "freelancer" or "employer", "freelancer" exactly for a freelancer |
| Api.IdText | frontend/app/page.tsx:64 | `id?.toString() \|\| ""` is empty exactly when there is no id, and otherwise the id written in decimal: digits denoting the id, behind a minus sign when it is negative |
| Numbers.IntToString | frontend/app/page.tsx:64 | `toString` of an integer is a non-empty run of digits denoting it, behind a minus sign exactly when it is negative |
| Numbers.IntToStringInjective | frontend/app/page.tsx:64 | distinct ids are written as distinct texts |
| Api.FindByWallet | frontend/lib/api.ts:65 | the first position whose wallet address equals the query, and nothing exactly when none does |
| Api.GetUserByWallet | frontend/lib/api.ts:62-70 | `null` when fetching fails or no user has the address; a found user has exactly the queried address and is in the list |
| Api.GetUserByWalletFirst | frontend/lib/api.ts:65 | the found user is the first one in list order with the address |
| Api.GetUserByWalletUnique | frontend/lib/api.ts:65 | with unique wallet addresses in the backend, the lookup finds the one user holding the address |
| Api.CheckUserExists | frontend/lib/api.ts:95-101 | `exists` exactly when a user is present, exactly when the fetched list holds the address; the user has the queried address |
| HomePage.RegisterRoute | frontend/app/page.tsx:75-79 | "/freelancer/register" exactly for a freelancer, "/employer/register" exactly for an employer |
| HomePage.Connect | frontend/app/page.tsx:30-93 | no agent: install error and the agent's site opened, nothing stored, no route; a throwing connection: its message as error and toast, nothing stored; no key: nothing happens; a key: stored as wallet, only session keys written; a registered user: marketplace, the stored role and id, a mismatch or welcome toast; a new wallet: the requested role's registration page with `userId` untouched |
| HomePage.Page.constructor | frontend/app/page.tsx:14-16 | the page starts with the agent not yet detected, not connecting, and no error |
| HomePage.Page.Mount | frontend/app/page.tsx:20-28 | records whether the agent is installed |
| HomePage.Page.HandleConnect | frontend/app/page.tsx:30-93 | the store, route, error, toast and opened tab are those `Connect` describes; `isConnecting` ends false on every path |
| PaymentDialog.HourlyRate | frontend/components/payment-dialog.tsx:27 | `hourly_rate` when present and truthy (non-zero, not `NaN`), otherwise `budget`; the marketplace card's rate at frontend/app/marketplace/page.tsx:169 is the same expression |
| PaymentDialog.TotalUsd | frontend/components/payment-dialog.tsx:28 | the total is a number exactly when the hours and the rate are |
| PaymentDialog.TotalXlm | frontend/components/payment-dialog.tsx:29 | an unreadable total prints as "NaN" |
| PaymentDialog.TotalUsdExact | frontend/components/payment-dialog.tsx:28 | with readable hours and rate, the USD total is a number whose value is exactly the hours times the rate |
| PaymentDialog.TotalXlmExact | frontend/components/payment-dialog.tsx:29 | with a USD total of at most seven decimals, the XLM text has a point and seven digits and reads back as exactly ten times the USD total |
| PaymentDialog.PayDisabled | frontend/components/payment-dialog.tsx:128 | Pay is enabled exactly when not processing, hours are non-empty, and parsed hours are `NaN` or positive |
| PaymentDialog.CancelDisabled | frontend/components/payment-dialog.tsx:123 | Cancel is disabled exactly while processing |
| PaymentDialog.PaymentAttempt | frontend/components/payment-dialog.tsx:36-51 | always ends in the error status; "Wallet not connected" exactly when no wallet is stored, otherwise the missing-recipient message |
| PaymentDialog.Dialog.constructor | frontend/components/payment-dialog.tsx:21-24 | the dialog starts with one hour typed, not processing, status idle and no message |
| PaymentDialog.Dialog.HandlePayment | frontend/components/payment-dialog.tsx:31-52 | processing starts with status idle and an empty message, then ends not processing with the status and message of `PaymentAttempt` |
| AppHeader.LoggedOut | frontend/components/app-header.tsx:47-52 | exactly `walletAddress`, `userType` and `currentProfile` are removed; every other key, `userId` among them, keeps its value |
| AppHeader.LoggedOutIdempotent | frontend/components/app-header.tsx:47-52 | logging out twice is logging out once |
| AppHeader.TruncateAddress | frontend/components/app-header.tsx:93 | an address of ten or more characters shows its first six, "...", and its last four |
| AppHeader.BalanceLabel | frontend/components/app-header.tsx:80 | "..." while loading; otherwise the balance formatted to cents followed by " XLM", which is "NaN XLM" for an unreadable balance |
| AppHeader.BalanceLabelCents | frontend/components/app-header.tsx:80 | a readable balance is shown with a point and two digits just before " XLM" |
| AppHeader.CentsLayout | frontend/components/app-header.tsx:80 | a rendered readable balance ends in a point and two digits |
| AppHeader.BalanceLabelReadBack | frontend/components/app-header.tsx:80 | the text before " XLM" reads back as the balance rounded to cents |
| AppHeader.Header.constructor | frontend/components/app-header.tsx:16-19 | the header starts with no wallet, no role, a balance of "0", and loading |
| AppHeader.Header.LoadBalance | frontend/components/app-header.tsx:35-45 | the balance changes only on an answer, and loading ends false either way |
| AppHeader.Header.Mount | frontend/components/app-header.tsx:21-33 | with a stored wallet: shows it and the stored role, and requests its balance exactly when the header shows one, leaving the balance and its loading flag alone otherwise; without: nothing changes |
| AppHeader.Header.RefreshBalance | frontend/components/app-header.tsx:54-58 | nothing happens without a shown wallet; otherwise its balance is reloaded |
| AppHeader.Header.HandleLogout | frontend/components/app-header.tsx:47-52 | the store becomes `LoggedOut` of the old store, and the route is "/" |
| Marketplace.Filtered | frontend/app/marketplace/page.tsx:63-69 | a profile is kept exactly when it matches the query, as many times as it occurs; the result is an order-preserving subsequence of the list |
| Marketplace.Matches | frontend/app/marketplace/page.tsx:64-69 | an empty query matches every profile |
| Marketplace.MatchesIgnoresCase | frontend/app/marketplace/page.tsx:66-68 | a profile matches the lower-cased query exactly when it matches the query |
| Marketplace.FilterIgnoresCase | frontend/app/marketplace/page.tsx:63-69 | the search shows the same profiles whatever the case of the query |
| Marketplace.FilterEmptyQuery | frontend/app/marketplace/page.tsx:65 | an empty query keeps every profile |
| Marketplace.FilterIdempotent | frontend/app/marketplace/page.tsx:63-69 | filtering again with the same query changes nothing |
| Marketplace.SkillBadges | frontend/app/marketplace/page.tsx:177-188 | none without skills; otherwise the first three skills, then a "+(n-3)" badge exactly when there are more than three |
| Marketplace.CardActionFor | frontend/app/marketplace/page.tsx:192-200 | the pay action exactly when the role is "employer" |
| Marketplace.GuardRoute | frontend/app/marketplace/page.tsx:30-33 | the page stays exactly when both a wallet and a role are stored; otherwise it routes to "/" |
| Marketplace.Page.constructor | frontend/app/marketplace/page.tsx:18-24 | the page starts with no role, empty lists, an empty query, and loading |
| Marketplace.Page.Visible | frontend/app/marketplace/page.tsx:63-69 | the profiles shown are every loaded profile when the search is empty, and otherwise exactly the loaded profiles that match it |
| Marketplace.Page.Mount | frontend/app/marketplace/page.tsx:26-61 | guarded out: nothing fetched or changed; admitted: the employer list is fetched only after the freelancer list arrived, each list is set from its answer, a failure raises the load toast, and loading ends false |
| Registration.GuardRoute | frontend/app/freelancer/register/page.tsx:37-40 | the page stays exactly when a wallet is stored and the stored role is exactly the page's role; otherwise it routes to "/" |
| Registration.ParseSkills | frontend/app/freelancer/register/page.tsx:68 | one skill more than there are commas, each the trimmed piece between commas |
| Registration.ParsedSkillsTrimmed | frontend/app/freelancer/register/page.tsx:68 | every parsed skill is free of commas and of white space at either end |
| Registration.ParseSkillsEmpty | frontend/app/freelancer/register/page.tsx:68 | an empty field gives one empty skill |
| Registration.ParseSkillsJoined | frontend/app/employer/register/page.tsx:67 | skills without commas or surrounding blanks, joined with commas, parse back to themselves |
| Registration.SubmitFailed | frontend/app/freelancer/register/page.tsx:82-88 | the failure toast is a destructive "Error" with the exception's message or the fallback text |
| FreelancerRegister.NewUser | frontend/app/freelancer/register/page.tsx:51-56 | the user has role "freelancer", the stored wallet, the name and email typed, and no id |
| FreelancerRegister.Profile | frontend/app/freelancer/register/page.tsx:62-72 | budget and hourly rate are the same parse of the rate typed; the skills are the parsed field; the other fields are taken over as typed |
| FreelancerRegister.Page.constructor | frontend/app/freelancer/register/page.tsx:19-31 | the page starts with no wallet, not submitting, every field empty and availability "full-time" |
| FreelancerRegister.Page.Mount | frontend/app/freelancer/register/page.tsx:33-43 | the route is the freelancer guard's; the stored wallet is taken over only when admitted |
| FreelancerRegister.Page.HandleSubmit | frontend/app/freelancer/register/page.tsx:45-92 | the user request goes first; `userId` is stored as soon as the user exists, even if the profile fails; the marketplace exactly when both calls succeed; each failure's toast; `isSubmitting` ends false |
| EmployerRegister.NewUser | frontend/app/employer/register/page.tsx:50-55 | the user has role "employer", the contact person as name, the stored wallet and the email, and no id |
| EmployerRegister.Project | frontend/app/employer/register/page.tsx:61-68 | the salary is the parse of the budget typed; the skills are the parsed field; title, description and duration as typed |
| EmployerRegister.CompanyNameNotSent | frontend/app/employer/register/page.tsx:50-68 | neither request depends on the company name |
| EmployerRegister.Page.constructor | frontend/app/employer/register/page.tsx:19-30 | the page starts with no wallet, not submitting, and every field empty |
| EmployerRegister.Page.Mount | frontend/app/employer/register/page.tsx:32-42 | the route is the employer guard's; the stored wallet is taken over only when admitted |
| EmployerRegister.Page.HandleSubmit | frontend/app/employer/register/page.tsx:44-88 | the user request goes first; `userId` is stored as soon as the user exists, even if the project fails; the marketplace exactly when both calls succeed; each failure's toast; `isSubmitting` ends false |
| HelloContract.StringVec.constructor | sozlesme/proje/contracts/hello-world/src/lib.rs:11 | `Vec::new` is empty |
| HelloContract.StringVec.PushBack | sozlesme/proje/contracts/hello-world/src/lib.rs:12-13 | `push_back` appends one element at the end |
| HelloContract.Hello | sozlesme/proje/contracts/hello-world/src/lib.rs:10-15 | a fresh vector holding exactly the greeting |
| HelloContract.Greeting | sozlesme/proje/contracts/hello-world/src/lib.rs:10-15 | exactly two elements: "Hello", then the name unchanged |

## Left out

- Floating point: numbers are exact decimals. `parseFloat`, `toFixed`, the product of hours and rate, and `usd / 0.1` are computed exactly, with no binary rounding artefacts (`0.3 / 0.1` is 3 here, not `2.9999999999999996`).
- Numbers.ToFixed: rounds the exact decimal half up, away from zero. It does not model the exponent form JavaScript prints for magnitudes of `1e21` and above.
- Numbers.ParseFloat: reads white space, a sign, digits and an optional fraction. It does not model `Infinity` or an exponent (`1e5`).
- Text.Lower: lowers ASCII letters only. Other Unicode case mappings are not modelled.
- Stellar.SendPayment: building the payment (`TransactionBuilder` with `Operation.payment`) is one answer, `built`, that either succeeds or throws; which amounts or addresses the SDK rejects is not modelled. A failure of `TransactionBuilder.fromXDR` is folded into the submission answer, because both come after signing and both are caught the same way. The account's sequence number and the XDR encoding are not modelled; the built transaction is a record of the fields the client sets.
- FreelancerRegister.Page.HandleSubmit: requires a created user to carry an id, as the source's non-null assertion `user.id!` assumes. What the backend would do with a missing `user_id` is not modelled.
- EmployerRegister.Page.HandleSubmit: requires a created user to carry an id, for the same reason.
- The HTTP client (base URL, headers, timeout) and the endpoints `createUser`, `getAllUsers`, `createFreelancerJob`, `getFreelancerJobs`, `createEmployerJob` and `getEmployerJobs`: each call is one answer passed in as a parameter.
- The Freighter agent, the Horizon server and the Stellar SDK: each call is one answer passed in as a parameter.
- Console logging, JSX rendering, styling and the form's change handlers are not modelled.
- The marketplace's `handleHireFreelancer` and `handlePaymentSuccess` only open or close the payment dialog and show a toast. They are not modelled.
- Asynchrony: every handler runs as one sequential method. Interleavings of concurrent effects are not modelled.
- The Soroban environment: `String` is a Dafny string and `Vec` is a sequence-backed class; storage, authorisation and the host's limits are not modelled.
- The backend (FastAPI, SQLAlchemy) is not part of this model. Its unique wallet addresses appear only as the precondition of `Api.GetUserByWalletUnique`.
