/** The sign-in page (`Login`): two fields, a loading flag and the
    simulated check that runs one second after the form is submitted. */
module Login {
  import opened Prelude

  const DashboardRoute := "/dashboard"

  /** The decision the delayed check takes on the values it captured: the
      dashboard when both fields are filled in, no navigation otherwise. */
  function Decide(email: string, password: string): (target: Option<string>)
    ensures target.Some? <==> email != "" && password != ""
    ensures target.Some? ==> target.value == DashboardRoute
  {
    if email != "" && password != "" then Some(DashboardRoute) else None
  }

  class LoginForm {
    var email: string
    var password: string
    var isLoading: bool
    /** The field values the pending check closed over, while one is
        scheduled. */
    var pending: Option<(string, string)>
    /** Where the page has navigated to, if anywhere. */
    var navigation: Option<string>

    /** A check is pending exactly while the form is loading. */
    ghost predicate Valid()
      reads this
    {
      pending.Some? <==> isLoading
    }

    constructor ()
      ensures Valid()
      ensures email == "" && password == "" && !isLoading
      ensures pending.None? && navigation.None?
    {
      email := "";
      password := "";
      isLoading := false;
      pending := None;
      navigation := None;
    }

    method SetEmail(value: string)
      requires Valid()
      modifies this
      ensures Valid()
      ensures email == value
      ensures password == old(password) && isLoading == old(isLoading)
      ensures pending == old(pending) && navigation == old(navigation)
    {
      email := value;
    }

    method SetPassword(value: string)
      requires Valid()
      modifies this
      ensures Valid()
      ensures password == value
      ensures email == old(email) && isLoading == old(isLoading)
      ensures pending == old(pending) && navigation == old(navigation)
    {
      password := value;
    }

    /** `handleLogin`: the submit button is disabled while loading; a
        submit sets the loading flag and schedules the check on the
        current field values. */
    method Submit()
      requires Valid() && !isLoading
      modifies this
      ensures Valid()
      ensures isLoading
      ensures pending == Some((email, password))
      ensures email == old(email) && password == old(password) && navigation == old(navigation)
    {
      isLoading := true;
      pending := Some((email, password));
    }

    /** The timer firing: navigates to the dashboard when both captured
        values are non-empty, otherwise stays (the error toast); loading
        ends in both cases. */
    method Complete()
      requires Valid() && pending.Some?
      modifies this
      ensures Valid()
      ensures !isLoading && pending.None?
      ensures navigation == (if Decide(old(pending).value.0, old(pending).value.1).Some? then Some(DashboardRoute) else old(navigation))
      ensures email == old(email) && password == old(password)
    {
      var (e, p) := pending.value;
      var target := Decide(e, p);
      if target.Some? {
        navigation := target;
      }
      isLoading := false;
      pending := None;
    }
  }

  /** A submit followed by the timer navigates to the dashboard exactly
      when both fields were filled in at submit time, and the form is
      ready again afterwards. */
  method SubmitAndWait(form: LoginForm)
    requires form.Valid() && !form.isLoading
    modifies form
    ensures form.Valid() && !form.isLoading
    ensures form.navigation == (if old(form.email) != "" && old(form.password) != "" then Some(DashboardRoute) else old(form.navigation))
  {
    form.Submit();
    form.Complete();
  }
}
