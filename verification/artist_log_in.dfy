/**
 * The artist login page: an e-mail and a password. A failed request
 * replaces the whole error map by one `api` message, and every validated
 * attempt clears both fields.
 */
module ArtistLogInPage {
  import opened Wrappers
  import RouteValidators
  import opened PageEffects
  import opened FormRules

  const LoginFailed := "Invalid email or password"

  class ArtistLogIn {
    var email: string
    var password: string
    var errors: Errors

    constructor ()
      ensures email == "" && password == "" && errors == map[]
    {
      email, password, errors := "", "", map[];
    }

    /** `validate()`: the e-mail, then the password. */
    method Validate() returns (ok: bool)
      modifies this`errors
      ensures errors == CredentialErrors(old(email), old(password))
      ensures ok <==> errors == map[]
    {
      var newErrors: Errors := map[];
      newErrors := Report(newErrors, Email, EmailMessage(email));
      newErrors := Report(newErrors, Password, PasswordMessage(password));
      errors := newErrors;
      ok := |newErrors.Keys| == 0;
    }

    /** `submitHandler`: status 200 signs the artist in. */
    method Submit(response: Http<AuthData>) returns (effects: seq<Effect>)
      modifies this
      ensures var expected := CredentialErrors(old(email), old(password));
              if expected != map[] then
                && effects == []
                && errors == expected
                && email == old(email) && password == old(password)
              else
                && effects == [Request(RouteValidators.POST, "/artist/login", None)] +
                              SessionEffects(response, 200, true)
                && errors == (if response.Rejected? then map[Api := LoginFailed] else map[])
                && email == "" && password == ""
    {
      var ok := Validate();
      if !ok {
        return [];
      }
      effects := [Request(RouteValidators.POST, "/artist/login", None)];
      match response {
        case Resolved(status, data) =>
          if status == 200 {
            effects := effects + [SetArtist(data.account), StoreToken(data.token), Navigate("/home")];
          }
        case Rejected =>
          errors := map[Api := LoginFailed];
      }
      password, email := "", "";
    }
  }
}
