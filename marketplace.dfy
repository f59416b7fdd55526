/** The marketplace page (frontend/app/marketplace/page.tsx): its session
    guard, the loading of both job lists, the search filter over freelancer
    profiles, and what each profile card shows. */
module Marketplace {
  import opened Common
  import opened Numbers
  import opened Text
  import opened Api
  import opened Session

  // ---------------------------------------------------------------------
  // Search

  /** `s.toLowerCase().includes(query.toLowerCase())` */
  predicate MentionsQuery(s: string, query: string)
  {
    Contains(Lower(s), Lower(query))
  }

  /** The filter's test for one profile: an empty query keeps it; otherwise
      the query must occur, ignoring case, in the title, the description or
      one of the skills. */
  predicate Matches(job: FreelancerJob, query: string)
    ensures query == "" ==> Matches(job, query)
  {
    query == ""
    || MentionsQuery(job.title, query)
    || MentionsQuery(job.description, query)
    || (job.skills.Some? && exists k :: 0 <= k < |job.skills.value| && MentionsQuery(job.skills.value[k], query))
  }

  /** Both sides are lower-cased, so the query's case does not matter. */
  lemma MatchesIgnoresCase(job: FreelancerJob, query: string)
    ensures Matches(job, Lower(query)) == Matches(job, query)
  {
    LowerIdempotent(query);
    assert Lower(query) == "" <==> query == "";
  }

  /** `a` is `b` with some elements left out, the rest in order. */
  predicate SubsequenceOf<T(==)>(a: seq<T>, b: seq<T>)
    decreases |b|
  {
    if a == [] then true
    else if b == [] then false
    else (a[0] == b[0] && SubsequenceOf(a[1..], b[1..])) || SubsequenceOf(a, b[1..])
  }

  /** `freelancers.filter(f => matches(f, query))`: the matching profiles,
      in list order. */
  function Filtered(jobs: seq<FreelancerJob>, query: string): (r: seq<FreelancerJob>)
    ensures |r| <= |jobs|
    ensures forall k :: 0 <= k < |r| ==> Matches(r[k], query)
    ensures forall j :: j in r <==> j in jobs && Matches(j, query)
    ensures SubsequenceOf(r, jobs)
    // A matching profile is kept as many times as it occurs.
    ensures forall j :: multiset(r)[j] == if Matches(j, query) then multiset(jobs)[j] else 0
  {
    if jobs == [] then []
    else
      var rest := Filtered(jobs[1..], query);
      assert jobs == [jobs[0]] + jobs[1..];
      assert multiset(jobs) == multiset{jobs[0]} + multiset(jobs[1..]);
      assert forall j :: j in jobs <==> j == jobs[0] || j in jobs[1..];
      if Matches(jobs[0], query) then
        assert ([jobs[0]] + rest)[1..] == rest;
        [jobs[0]] + rest
      else rest
  }

  /** An empty query keeps every profile. */
  lemma {:induction false} FilterEmptyQuery(jobs: seq<FreelancerJob>)
    ensures Filtered(jobs, "") == jobs
  {
    if jobs != [] {
      FilterEmptyQuery(jobs[1..]);
      assert [jobs[0]] + jobs[1..] == jobs;
    }
  }

  /** Filtering again with the same query changes nothing. */
  lemma {:induction false} FilterIdempotent(jobs: seq<FreelancerJob>, query: string)
    ensures Filtered(Filtered(jobs, query), query) == Filtered(jobs, query)
  {
    if jobs != [] {
      FilterIdempotent(jobs[1..], query);
      var rest := Filtered(jobs[1..], query);
      if Matches(jobs[0], query) {
        assert ([jobs[0]] + rest)[0] == jobs[0];
        assert ([jobs[0]] + rest)[1..] == rest;
      }
    }
  }

  /** Typing the search in upper or lower case shows the same profiles. */
  lemma {:induction false} FilterIgnoresCase(jobs: seq<FreelancerJob>, query: string)
    ensures Filtered(jobs, Lower(query)) == Filtered(jobs, query)
  {
    if jobs != [] {
      FilterIgnoresCase(jobs[1..], query);
      MatchesIgnoresCase(jobs[0], query);
    }
  }

  // ---------------------------------------------------------------------
  // Profile cards

  /** The skill badges of a card: nothing without skills; otherwise the first
      three skills, then `+n` for the `n` skills not shown. */
  function SkillBadges(skills: Option<seq<string>>): (badges: seq<string>)
    ensures skills.None? || skills.value == [] ==> badges == []
    ensures skills.Some? && skills.value != [] ==>
      var n := |skills.value|;
      var shown := if n < 3 then n else 3;
      shown <= |badges| && badges[..shown] == skills.value[..shown]
      && (n > 3 <==> |badges| == 4)
      && (n <= 3 ==> |badges| == n)
      && (n > 3 ==> badges[3] == "+" + IntToString(n - 3))
  {
    if skills.None? || skills.value == [] then []
    else
      var n := |skills.value|;
      var first := if n < 3 then skills.value else skills.value[..3];
      first + (if n > 3 then ["+" + IntToString(n - 3)] else [])
  }

  /** The button a profile card offers. */
  datatype CardAction = PayHourlyRate | ViewProfile

  /** `userType === "employer" ? Pay Hourly Rate : View Profile` */
  function CardActionFor(userType: Option<string>): (action: CardAction)
    ensures action == PayHourlyRate <==> userType == Some("employer")
  {
    if userType == Some("employer") then PayHourlyRate else ViewProfile
  }

  // ---------------------------------------------------------------------
  // Loading

  /** The route the guard sends a visitor without a full session to. */
  function GuardRoute(wallet: Option<string>, role: Option<string>): (route: Option<string>)
    ensures route.None? <==> Truthy(wallet) && Truthy(role)
    ensures route.Some? ==> route.value == "/"
  {
    if !Truthy(wallet) || !Truthy(role) then Some("/") else None
  }

  /** The backend lists the page asks for. */
  datatype Fetch = FreelancerJobs | EmployerJobs

  const LoadFailed: Notice :=
    Notice("Error", "Failed to load marketplace data. Please check backend connection.", true)

  class Page {
    var userType: Option<string>
    var freelancers: seq<FreelancerJob>
    var projects: seq<EmployerJob>
    var searchQuery: string
    var isLoading: bool

    constructor ()
      ensures userType.None? && freelancers == [] && projects == [] && searchQuery == "" && isLoading
    {
      userType := None;
      freelancers := [];
      projects := [];
      searchQuery := "";
      isLoading := true;
    }

    /** `filteredFreelancers` */
    function Visible(): (v: seq<FreelancerJob>)
      reads this
      // With no search text every loaded profile is shown.
      ensures searchQuery == "" ==> v == freelancers
      // Exactly the loaded profiles that match the search are shown.
      ensures forall j :: j in v <==> j in freelancers && Matches(j, searchQuery)
    {
      FilterEmptyQuery(freelancers);
      Filtered(freelancers, searchQuery)
    }

    /** The mount effect: the session guard, then the two fetches in order.
        `freelancerAnswer` and `employerAnswer` are the backend's answers;
        `fetches` are the lists actually requested. */
    method Mount(store: Store, freelancerAnswer: Reply<seq<FreelancerJob>>, employerAnswer: Reply<seq<EmployerJob>>)
      returns (route: Option<string>, fetches: seq<Fetch>, notice: Option<Notice>)
      modifies this
      ensures route == GuardRoute(store.GetItem(WalletAddressKey), store.GetItem(UserTypeKey))
      // Guarded out: nothing is fetched and the page stays as it was.
      ensures route.Some? ==>
        fetches == [] && notice.None? && userType == old(userType) && freelancers == old(freelancers)
        && projects == old(projects) && isLoading == old(isLoading)
      // Admitted: the role is shown, and loading ends whatever the answers.
      ensures route.None? ==> userType == store.GetItem(UserTypeKey) && !isLoading
      // The employer list is asked for only after the freelancer list arrived.
      ensures route.None? ==>
        fetches == (if freelancerAnswer.Ok? then [FreelancerJobs, EmployerJobs] else [FreelancerJobs])
      ensures route.None? ==>
        freelancers == (if freelancerAnswer.Ok? then freelancerAnswer.value else old(freelancers))
        && projects == (if freelancerAnswer.Ok? && employerAnswer.Ok? then employerAnswer.value else old(projects))
      ensures route.None? ==>
        (notice == Some(LoadFailed) <==> freelancerAnswer.Threw? || employerAnswer.Threw?)
        && (notice.None? <==> freelancerAnswer.Ok? && employerAnswer.Ok?)
      ensures searchQuery == old(searchQuery)
    {
      fetches, notice := [], None;
      var wallet := store.GetItem(WalletAddressKey);
      var role := store.GetItem(UserTypeKey);
      route := GuardRoute(wallet, role);
      if route.Some? {
        return;
      }
      userType := role;
      fetches := fetches + [FreelancerJobs];
      if freelancerAnswer.Threw? {
        notice := Some(LoadFailed);
      } else {
        freelancers := freelancerAnswer.value;
        fetches := fetches + [EmployerJobs];
        if employerAnswer.Threw? {
          notice := Some(LoadFailed);
        } else {
          projects := employerAnswer.value;
        }
      }
      isLoading := false;
    }
  }
}
