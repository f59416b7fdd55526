/** The records the client exchanges with the backend, and the lookup of a
    user by wallet address (frontend/lib/api.ts). The HTTP calls themselves
    are answers given as parameters. */
module Api {
  import opened Common
  import opened Numbers

  /** The two roles a user registers with. */
  datatype Role = Freelancer | Employer
  {
    /** The role's name as stored in the backend and in the session. */
    function Name(): (name: string)
      ensures name == "freelancer" || name == "employer"
      ensures (name == "freelancer") <==> this == Freelancer
    {
      match this
      case Freelancer => "freelancer"
      case Employer => "employer"
    }
  }

  /** A user as the backend returns it; `userType` is the stored text. */
  datatype User = User(
    id: Option<int>,
    fullName: string,
    walletAddress: string,
    email: string,
    userType: string)

  /** A freelancer profile. */
  datatype FreelancerJob = FreelancerJob(
    id: Option<int>,
    userId: int,
    title: string,
    description: string,
    budget: Number,
    skills: Option<seq<string>>,
    hourlyRate: Option<Number>,
    availability: Option<string>,
    equipment: Option<string>,
    experience: Option<string>)

  /** A project posted by an employer. */
  datatype EmployerJob = EmployerJob(
    id: Option<int>,
    userId: int,
    title: string,
    description: string,
    salary: Number,
    duration: Option<string>,
    skills: Option<seq<string>>)

  /** `user.id?.toString() || ""`: the id in decimal, or empty without one */
  function IdText(id: Option<int>): (s: string)
    ensures s == "" <==> id.None?
    // An id is written in decimal: its digits, behind a minus sign when negative.
    ensures id.Some? && id.value >= 0 ==> AllDigits(s) && DigitsValue(s) == id.value
    ensures id.Some? && id.value < 0 ==> s[0] == '-' && AllDigits(s[1..]) && DigitsValue(s[1..]) == -id.value
  {
    if id.Some? then IntToString(id.value) else ""
  }

  predicate HasWallet(u: User, wallet: string)
  {
    u.walletAddress == wallet
  }

  /** `users.find(u => u.wallet_address === wallet)`, as the position of the
      first match in list order, if there is one. */
  function FindByWallet(users: seq<User>, wallet: string): (r: Option<nat>)
    ensures r.None? <==> forall k :: 0 <= k < |users| ==> !HasWallet(users[k], wallet)
    ensures r.Some? ==>
      r.value < |users| && HasWallet(users[r.value], wallet) && forall k :: 0 <= k < r.value ==> !HasWallet(users[k], wallet)
  {
    if users == [] then None
    else if HasWallet(users[0], wallet) then Some(0)
    else
      var r := FindByWallet(users[1..], wallet);
      if r.Some? then Some(r.value + 1) else None
  }

  /** `getUserByWallet(wallet)`: the first listed user with exactly that
      wallet address; `null` when none has it or when fetching the list
      fails. */
  function GetUserByWallet(fetched: Reply<seq<User>>, wallet: string): (r: Option<User>)
    ensures fetched.Threw? ==> r.None?
    ensures fetched.Ok? ==> (r.None? <==> forall k :: 0 <= k < |fetched.value| ==> !HasWallet(fetched.value[k], wallet))
    ensures r.Some? ==> r.value.walletAddress == wallet && r.value in fetched.value
  {
    match fetched
    case Threw(_) => None
    case Ok(users) =>
      var i := FindByWallet(users, wallet);
      if i.Some? then Some(users[i.value]) else None
  }

  /** The user found is the first match: one listed before it never has the
      queried address. */
  lemma GetUserByWalletFirst(users: seq<User>, wallet: string, i: nat)
    requires i < |users| && HasWallet(users[i], wallet)
    requires forall k :: 0 <= k < i ==> !HasWallet(users[k], wallet)
    ensures GetUserByWallet(Ok(users), wallet) == Some(users[i])
  {
    var r := FindByWallet(users, wallet);
    assert r.Some? && r.value == i;
  }

  /** Wallet addresses are unique in the backend; then the lookup finds the
      one user with the address, wherever it is listed. */
  lemma GetUserByWalletUnique(users: seq<User>, wallet: string, i: nat)
    requires forall j, k :: 0 <= j < k < |users| ==> users[j].walletAddress != users[k].walletAddress
    requires i < |users| && HasWallet(users[i], wallet)
    ensures GetUserByWallet(Ok(users), wallet) == Some(users[i])
  {
    var r := FindByWallet(users, wallet);
    assert r.Some? && r.value == i;
  }

  /** `{ exists, user }` as `checkUserExists` returns it (`exists` is `found` here). */
  datatype UserCheck = UserCheck(found: bool, user: Option<User>)

  /** `checkUserExists(wallet)`: `exists` is whether the lookup found a user,
      and the user is present exactly then. */
  function CheckUserExists(fetched: Reply<seq<User>>, wallet: string): (r: UserCheck)
    ensures r.found <==> r.user.Some?
    ensures r.found <==> fetched.Ok? && exists k :: 0 <= k < |fetched.value| && HasWallet(fetched.value[k], wallet)
    ensures r.user.Some? ==> r.user.value.walletAddress == wallet
  {
    var user := GetUserByWallet(fetched, wallet);
    UserCheck(user.Some?, user)
  }
}
