/** What the two registration pages share: the session guard, the parsing
    of the comma-separated skills field, and the backend requests they make
    (frontend/app/freelancer/register/page.tsx,
    frontend/app/employer/register/page.tsx). */
module Registration {
  import opened Common
  import opened Text
  import opened Api

  const MarketplaceRoute: string := "/marketplace"
  const SubmitFallback: string := "Failed to create profile. Please try again."

  /** The route the guard of the registration page for `role` sends a
      visitor to: the landing page unless a wallet is stored and the stored
      role is exactly `role`. */
  function GuardRoute(wallet: Option<string>, userType: Option<string>, role: Role): (route: Option<string>)
    ensures route.None? <==> Truthy(wallet) && userType == Some(role.Name())
    ensures route.Some? ==> route.value == "/"
  {
    if !Truthy(wallet) || userType != Some(role.Name()) then Some("/") else None
  }

  /** `skills.split(",").map(s => s.trim())` */
  function ParseSkills(skills: string): (r: seq<string>)
    ensures |r| == Count(skills, ',') + 1
    ensures forall k :: 0 <= k < |r| ==> r[k] == Trim(Split(skills, ',')[k])
  {
    var pieces := Split(skills, ',');
    seq(|pieces|, k requires 0 <= k < |pieces| => Trim(pieces[k]))
  }

  /** Every parsed skill is trimmed and free of commas. */
  lemma ParsedSkillsTrimmed(skills: string, k: nat)
    requires k < |ParseSkills(skills)|
    ensures var s := ParseSkills(skills)[k];
      ',' !in s && (s == [] || (!IsSpace(s[0]) && !IsSpace(s[|s| - 1])))
  {
    var piece := Split(skills, ',')[k];
    assert ',' !in piece;
  }

  /** An empty field gives one empty skill. */
  lemma ParseSkillsEmpty()
    ensures ParseSkills("") == [""]
  {
    assert Split("", ',') == [""];
    assert Trim("") == "";
  }

  /** Skills typed without surrounding blanks come back as they were typed:
      joining them with commas and parsing gives them back. */
  lemma ParseSkillsJoined(skills: seq<string>)
    requires |skills| >= 1
    requires forall k :: 0 <= k < |skills| ==> ',' !in skills[k]
    requires forall k :: 0 <= k < |skills| ==> Trim(skills[k]) == skills[k]
    ensures ParseSkills(Join(skills, ',')) == skills
  {
    SplitJoin(skills, ',');
  }

  /** A request one of the pages sends to the backend. */
  datatype Request =
    | CreateUser(user: User)
    | CreateFreelancerJob(freelancerJob: FreelancerJob)
    | CreateEmployerJob(employerJob: EmployerJob)

  /** The toast a failed submission shows. */
  function SubmitFailed(e: Exception): (n: Notice)
    ensures n.title == "Error" && n.destructive
    ensures n.description == MessageOr(e, SubmitFallback)
  {
    Notice("Error", MessageOr(e, SubmitFallback), true)
  }
}
