/** The employer registration page
    (frontend/app/employer/register/page.tsx): its guard, the two records it
    sends, and the submission handler. */
module EmployerRegister {
  import opened Common
  import opened Numbers
  import opened Api
  import opened Session
  import opened Registration

  /** The form's fields, as typed. */
  datatype Form = Form(
    companyName: string,
    contactPerson: string,
    email: string,
    projectTitle: string,
    projectDescription: string,
    budget: string,
    duration: string,
    skills: string)

  const InitialForm: Form := Form("", "", "", "", "", "", "", "")

  const Posted: Notice := Notice("Project Posted!", "Your project has been successfully posted to the marketplace.", false)

  /** The user record sent first: the contact person as the name, the stored
      wallet, and the employer role. */
  function NewUser(form: Form, wallet: string): (u: User)
    ensures u.userType == Employer.Name() && u.walletAddress == wallet
    ensures u.fullName == form.contactPerson && u.email == form.email && u.id.None?
  {
    User(None, form.contactPerson, wallet, form.email, "employer")
  }

  /** The project sent second: the salary is the reading of the budget typed,
      and the skills are the parsed skills field. */
  function Project(form: Form, userId: int): (job: EmployerJob)
    ensures job.userId == userId && job.id.None?
    ensures job.title == form.projectTitle && job.description == form.projectDescription
    ensures job.salary == ParseFloat(form.budget)
    ensures job.duration == Some(form.duration) && job.skills == Some(ParseSkills(form.skills))
  {
    EmployerJob(None, userId, form.projectTitle, form.projectDescription, ParseFloat(form.budget),
      Some(form.duration), Some(ParseSkills(form.skills)))
  }

  /** The company name is never sent: neither record depends on it. */
  lemma CompanyNameNotSent(form: Form, companyName: string, wallet: string, userId: int)
    ensures NewUser(form.(companyName := companyName), wallet) == NewUser(form, wallet)
    ensures Project(form.(companyName := companyName), userId) == Project(form, userId)
  {
  }

  class Page {
    var walletAddress: string
    var isSubmitting: bool
    var form: Form

    constructor ()
      ensures walletAddress == "" && !isSubmitting && form == InitialForm
    {
      walletAddress := "";
      isSubmitting := false;
      form := InitialForm;
    }

    /** The mount effect: the guard, and the stored wallet taken over. */
    method Mount(store: Store) returns (route: Option<string>)
      modifies this
      ensures route == GuardRoute(store.GetItem(WalletAddressKey), store.GetItem(UserTypeKey), Employer)
      ensures route.None? ==> walletAddress == store.GetItem(WalletAddressKey).value
      ensures route.Some? ==> walletAddress == old(walletAddress)
      ensures isSubmitting == old(isSubmitting) && form == old(form)
    {
      var wallet := store.GetItem(WalletAddressKey);
      var role := store.GetItem(UserTypeKey);
      route := GuardRoute(wallet, role, Employer);
      if route.None? {
        walletAddress := wallet.value;
      }
    }

    /** `handleSubmit()`: creates the user, stores its id, creates the
        project, and goes to the marketplace. `createdUser` and
        `createdProject` are the backend's answers; `requests` are the
        requests actually sent. The created user carries an id, as the
        non-null assertion on it says. */
    method HandleSubmit(store: Store, createdUser: Reply<User>, createdProject: Reply<EmployerJob>)
      returns (requests: seq<Request>, route: Option<string>, notice: Option<Notice>)
      requires createdUser.Ok? ==> createdUser.value.id.Some?
      modifies this, store
      ensures |requests| >= 1 && requests[0] == CreateUser(NewUser(form, walletAddress))
      // The id is stored as soon as the user exists, whatever follows.
      ensures createdUser.Threw? ==> requests == [requests[0]] && store.entries == old(store.entries)
      ensures createdUser.Ok? ==>
        requests == [requests[0], CreateEmployerJob(Project(form, createdUser.value.id.value))]
        && store.entries == old(store.entries)[UserIdKey := IdText(createdUser.value.id)]
      // The marketplace only after both calls.
      ensures route.Some? <==> createdUser.Ok? && createdProject.Ok?
      ensures route.Some? ==> route.value == MarketplaceRoute && notice == Some(Posted)
      ensures createdUser.Threw? ==> notice == Some(SubmitFailed(createdUser.exception))
      ensures createdUser.Ok? && createdProject.Threw? ==> notice == Some(SubmitFailed(createdProject.exception))
      ensures !isSubmitting && walletAddress == old(walletAddress) && form == old(form)
    {
      isSubmitting := true;
      route, notice := None, None;
      requests := [CreateUser(NewUser(form, walletAddress))];
      if createdUser.Threw? {
        notice := Some(SubmitFailed(createdUser.exception));
      } else {
        var user := createdUser.value;
        store.SetItem(UserIdKey, IdText(user.id));
        requests := requests + [CreateEmployerJob(Project(form, user.id.value))];
        if createdProject.Threw? {
          notice := Some(SubmitFailed(createdProject.exception));
        } else {
          notice := Some(Posted);
          route := Some(MarketplaceRoute);
        }
      }
      isSubmitting := false;
    }
  }
}
