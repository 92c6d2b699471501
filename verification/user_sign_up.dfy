/**
 * The user sign-up page: the artist form's name, e-mail and password rules
 * without phone number or city. A validated submission clears only the
 * e-mail and the password; the names stay.
 */
module UserSignUpPage {
  import opened Wrappers
  import RouteValidators
  import opened PageEffects
  import opened FormRules

  const RegistrationFailed := "Registration failed. Try again."

  class UserSignUp {
    var firstName: string
    var lastName: string
    var email: string
    var password: string
    var errors: Errors

    constructor ()
      ensures firstName == "" && lastName == "" && email == "" && password == ""
      ensures errors == map[]
    {
      firstName, lastName, email, password := "", "", "", "";
      errors := map[];
    }

    /** `validate()`: the names, then the e-mail and the password. */
    method Validate() returns (ok: bool)
      modifies this`errors
      ensures errors == AccountErrors(old(firstName), old(lastName), old(email), old(password))
      ensures ok <==> errors == map[]
    {
      var newErrors: Errors := map[];
      newErrors := Report(newErrors, FirstName, RequiredMessage(firstName, FirstNameRequired));
      newErrors := Report(newErrors, LastName, RequiredMessage(lastName, LastNameRequired));
      newErrors := Report(newErrors, Email, EmailMessage(email));
      newErrors := Report(newErrors, Password, PasswordMessage(password));
      errors := newErrors;
      ok := |newErrors.Keys| == 0;
    }

    /**
     * `submitHandler`: only status 200 signs the user in; a failed request
     * replaces the error map by the single `api` entry.
     */
    method Submit(response: Http<AuthData>) returns (effects: seq<Effect>)
      modifies this
      ensures firstName == old(firstName) && lastName == old(lastName)
      ensures var expected := AccountErrors(old(firstName), old(lastName), old(email), old(password));
              if expected != map[] then
                && effects == []
                && errors == expected
                && email == old(email) && password == old(password)
              else
                && effects == [Request(RouteValidators.POST, "/user/register", None)] +
                              SessionEffects(response, 200, false)
                && errors == (if response.Rejected? then map[Api := RegistrationFailed] else map[])
                && email == "" && password == ""
    {
      var ok := Validate();
      if !ok {
        return [];
      }
      effects := [Request(RouteValidators.POST, "/user/register", None)];
      match response {
        case Resolved(status, data) =>
          if status == 200 {
            effects := effects + [SetUser(data.account), StoreToken(data.token), Navigate("/home")];
          }
        case Rejected =>
          errors := map[Api := RegistrationFailed];
      }
      password, email := "", "";
    }
  }
}
