/**
 * The artist sign-up page: six text fields and an error map. Validation
 * fills the error map field by field; submission sends the registration
 * request only when validation passes, and then clears all six fields
 * whatever the answer was.
 */
module ArtistSignUpPage {
  import opened Wrappers
  import RouteValidators
  import opened PageEffects
  import opened FormRules

  const RegistrationFailed := "Registration failed. Try again."

  class ArtistSignUp {
    var firstName: string
    var lastName: string
    var number: string
    var email: string
    var password: string
    var city: string
    var errors: Errors

    constructor ()
      ensures firstName == "" && lastName == "" && number == "" && email == "" && password == "" && city == ""
      ensures errors == map[]
    {
      firstName, lastName, number, email, password, city := "", "", "", "", "", "";
      errors := map[];
    }

    /**
     * `validate()`: each rule in turn may add its field's message to a fresh
     * error map, which is stored; the result says whether it has no keys.
     */
    method Validate() returns (ok: bool)
      modifies this`errors
      ensures errors == ArtistAccountErrors(old(firstName), old(lastName), old(email), old(password), old(number), old(city))
      ensures ok <==> errors == map[]
    {
      var newErrors: Errors := map[];
      newErrors := Report(newErrors, FirstName, RequiredMessage(firstName, FirstNameRequired));
      newErrors := Report(newErrors, LastName, RequiredMessage(lastName, LastNameRequired));
      newErrors := Report(newErrors, Email, EmailMessage(email));
      newErrors := Report(newErrors, Password, PasswordMessage(password));
      newErrors := Report(newErrors, Number, PhoneMessage(number));
      newErrors := Report(newErrors, City, RequiredMessage(city, CityRequired));
      errors := newErrors;
      ok := |newErrors.Keys| == 0;
    }

    /**
     * `submitHandler`, with `response` the outcome of the awaited
     * registration request. Only status 201 signs the artist in.
     */
    method Submit(response: Http<AuthData>) returns (effects: seq<Effect>)
      modifies this
      ensures var expected := ArtistAccountErrors(old(firstName), old(lastName), old(email), old(password),
                                                  old(number), old(city));
              if expected != map[] then
                && effects == []
                && errors == expected
                && firstName == old(firstName) && lastName == old(lastName) && number == old(number)
                && email == old(email) && password == old(password) && city == old(city)
              else
                && effects == [Request(RouteValidators.POST, "/artist/register", None)] +
                              SessionEffects(response, 201, true)
                && errors == (if response.Rejected? then map[Api := RegistrationFailed] else map[])
                && firstName == "" && lastName == "" && number == ""
                && email == "" && password == "" && city == ""
    {
      var ok := Validate();
      if !ok {
        return [];
      }
      effects := [Request(RouteValidators.POST, "/artist/register", None)];
      match response {
        case Resolved(status, data) =>
          if status == 201 {
            effects := effects + [SetArtist(data.account), StoreToken(data.token), Navigate("/home")];
          }
        case Rejected =>
          errors := map[Api := RegistrationFailed];
      }
      password, email, firstName, lastName, number, city := "", "", "", "", "", "";
    }
  }
}
