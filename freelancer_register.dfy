/** The freelancer registration page
    (frontend/app/freelancer/register/page.tsx): its guard, the two records
    it sends, and the submission handler. */
module FreelancerRegister {
  import opened Common
  import opened Numbers
  import opened Api
  import opened Session
  import opened Registration

  /** The form's fields, as typed. */
  datatype Form = Form(
    name: string,
    email: string,
    title: string,
    bio: string,
    hourlyRate: string,
    skills: string,
    equipment: string,
    experience: string,
    availability: string)

  /** The form's initial values: everything empty, availability full time. */
  const InitialForm: Form := Form("", "", "", "", "", "", "", "", "full-time")

  const Created: Notice := Notice("Profile Created!", "Your freelancer profile has been successfully created.", false)

  /** The user record sent first: the name typed, the stored wallet, and the
      freelancer role. */
  function NewUser(form: Form, wallet: string): (u: User)
    ensures u.userType == Freelancer.Name() && u.walletAddress == wallet
    ensures u.fullName == form.name && u.email == form.email && u.id.None?
  {
    User(None, form.name, wallet, form.email, "freelancer")
  }

  /** The profile sent second: budget and hourly rate are both the one
      reading of the rate typed, and the skills are the parsed skills field. */
  function Profile(form: Form, userId: int): (job: FreelancerJob)
    ensures job.userId == userId && job.id.None?
    ensures job.title == form.title && job.description == form.bio
    ensures job.hourlyRate == Some(job.budget) && job.budget == ParseFloat(form.hourlyRate)
    ensures job.skills == Some(ParseSkills(form.skills))
    ensures job.equipment == Some(form.equipment) && job.experience == Some(form.experience)
    ensures job.availability == Some(form.availability)
  {
    var rate := ParseFloat(form.hourlyRate);
    FreelancerJob(None, userId, form.title, form.bio, rate, Some(ParseSkills(form.skills)), Some(rate),
      Some(form.availability), Some(form.equipment), Some(form.experience))
  }

  class Page {
    var walletAddress: string
    var isSubmitting: bool
    var form: Form

    constructor ()
      ensures walletAddress == "" && !isSubmitting && form == InitialForm
    {
      walletAddress := "";
      isSubmitting := false;
      form := InitialForm;
    }

    /** The mount effect: the guard, and the stored wallet taken over. */
    method Mount(store: Store) returns (route: Option<string>)
      modifies this
      ensures route == GuardRoute(store.GetItem(WalletAddressKey), store.GetItem(UserTypeKey), Freelancer)
      ensures route.None? ==> walletAddress == store.GetItem(WalletAddressKey).value
      ensures route.Some? ==> walletAddress == old(walletAddress)
      ensures isSubmitting == old(isSubmitting) && form == old(form)
    {
      var wallet := store.GetItem(WalletAddressKey);
      var role := store.GetItem(UserTypeKey);
      route := GuardRoute(wallet, role, Freelancer);
      if route.None? {
        walletAddress := wallet.value;
      }
    }

    /** `handleSubmit()`: creates the user, stores its id, creates the
        profile, and goes to the marketplace. `createdUser` and
        `createdProfile` are the backend's answers; `requests` are the
        requests actually sent. The created user carries an id, as the
        non-null assertion on it says. */
    method HandleSubmit(store: Store, createdUser: Reply<User>, createdProfile: Reply<FreelancerJob>)
      returns (requests: seq<Request>, route: Option<string>, notice: Option<Notice>)
      requires createdUser.Ok? ==> createdUser.value.id.Some?
      modifies this, store
      ensures |requests| >= 1 && requests[0] == CreateUser(NewUser(form, walletAddress))
      // The id is stored as soon as the user exists, whatever follows.
      ensures createdUser.Threw? ==> requests == [requests[0]] && store.entries == old(store.entries)
      ensures createdUser.Ok? ==>
        requests == [requests[0], CreateFreelancerJob(Profile(form, createdUser.value.id.value))]
        && store.entries == old(store.entries)[UserIdKey := IdText(createdUser.value.id)]
      // The marketplace only after both creations.
      ensures route.Some? <==> createdUser.Ok? && createdProfile.Ok?
      ensures route.Some? ==> route.value == MarketplaceRoute && notice == Some(Created)
      ensures createdUser.Threw? ==> notice == Some(SubmitFailed(createdUser.exception))
      ensures createdUser.Ok? && createdProfile.Threw? ==> notice == Some(SubmitFailed(createdProfile.exception))
      ensures !isSubmitting && walletAddress == old(walletAddress) && form == old(form)
    {
      isSubmitting := true;
      route, notice := None, None;
      requests := [CreateUser(NewUser(form, walletAddress))];
      if createdUser.Threw? {
        notice := Some(SubmitFailed(createdUser.exception));
      } else {
        var user := createdUser.value;
        store.SetItem(UserIdKey, IdText(user.id));
        requests := requests + [CreateFreelancerJob(Profile(form, user.id.value))];
        if createdProfile.Threw? {
          notice := Some(SubmitFailed(createdProfile.exception));
        } else {
          notice := Some(Created);
          route := Some(MarketplaceRoute);
        }
      }
      isSubmitting := false;
    }
  }
}
