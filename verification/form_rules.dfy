/**
 * The per-field rules of the pages' `validate()` functions and the error
 * maps they produce, stated against the meaning of each rule: a blank text,
 * the e-mail pattern, a minimum length, the ten-digit phone pattern.
 * Within a field the "required" message takes precedence, and each field
 * carries at most one message because the error map has one entry per key.
 */
module FormRules {
  import opened Wrappers
  import opened JsText
  import opened PageEffects

  const FirstNameRequired := "First name is required"
  const LastNameRequired := "Last name is required"
  const EmailRequired := "Email is required"
  const EmailInvalid := "Enter a valid email"
  const PasswordRequired := "Password is required"
  const PasswordTooShort := "Password must be at least 6 characters"
  const PhoneRequired := "Phone number is required"
  const PhoneInvalid := "Enter a valid 10 digit number"
  const CityRequired := "City is required"
  const TitleRequired := "Title is required"
  const DescriptionRequired := "Description is required"
  const TypeOfArtRequired := "Type of art is required"
  const ImageRequired := "Image upload is required"
  const PriceNotNumber := "Price must be a number"

  /** A field required after trimming: `if (!s.trim()) newErrors[key] = message`. */
  function RequiredMessage(s: string, message: string): Option<string> {
    if Trim(s) == "" then Some(message) else None
  }

  /** The e-mail rule: required, then `^\S+@\S+\.\S+$`. */
  function EmailMessage(email: string): Option<string> {
    if email == "" then Some(EmailRequired)
    else if !TestEmail(email) then Some(EmailInvalid)
    else None
  }

  /** The password rule: required, then at least six characters. */
  function PasswordMessage(password: string): Option<string> {
    if password == "" then Some(PasswordRequired)
    else if |password| < 6 then Some(PasswordTooShort)
    else None
  }

  /** The phone rule: required, then `^\d{10}$`. */
  function PhoneMessage(number: string): Option<string> {
    if number == "" then Some(PhoneRequired)
    else if !PhoneShaped(number) then Some(PhoneInvalid)
    else None
  }

  /** A required text is reported exactly when it is blank. */
  lemma RequiredRule(s: string, message: string)
    ensures RequiredMessage(s, message) == if IsBlank(s) then Some(message) else None
  {
    TrimEmptyIffBlank(s);
  }

  /**
   * The e-mail is reported exactly when it does not have the shape of
   * `^\S+@\S+\.\S+$`; an empty one as required, any other as invalid.
   */
  lemma EmailRule(email: string)
    ensures EmailMessage(email).None? <==> EmailShaped(email)
    ensures EmailMessage(email).Some? ==>
              EmailMessage(email).value == if email == "" then EmailRequired else EmailInvalid
  {
    TestEmailIffShaped(email);
  }

  /**
   * `newErrors[key] = message` when the rule reports a message; the error map
   * as it was otherwise.
   */
  function Report(errors: Errors, key: Field, message: Option<string>): Errors {
    if message.Some? then errors[key := message.value] else errors
  }

  /** The error map of the artist login form: the e-mail, then the password. */
  function CredentialErrors(email: string, password: string): Errors {
    Report(Report(map[], Email, EmailMessage(email)), Password, PasswordMessage(password))
  }

  /** The names, each required after trimming, as both sign-up forms check them first. */
  function NameErrors(firstName: string, lastName: string): Errors {
    Report(Report(map[], FirstName, RequiredMessage(firstName, FirstNameRequired)),
           LastName, RequiredMessage(lastName, LastNameRequired))
  }

  /** The error map of the user sign-up form: both names, then the e-mail and the password. */
  function AccountErrors(firstName: string, lastName: string, email: string, password: string): Errors {
    Report(Report(NameErrors(firstName, lastName), Email, EmailMessage(email)), Password, PasswordMessage(password))
  }

  /** The error map of the artist sign-up form: the user sign-up form's checks, then the phone number and the city. */
  function ArtistAccountErrors(firstName: string, lastName: string, email: string, password: string,
                               number: string, city: string): Errors {
    Report(Report(AccountErrors(firstName, lastName, email, password), Number, PhoneMessage(number)),
           City, RequiredMessage(city, CityRequired))
  }

  /** The form state the art submission form validates. */
  const SubmissionFields := {Title, Description, Image, TypeOfArt, Location, Country, Price}

  /** `if (!s) newErrors[key] = message`: a required field without trimming. */
  function FilledMessage(s: string, message: string): (r: Option<string>)
    ensures r.Some? <==> s == ""
    ensures r.Some? ==> r.value == message
  {
    if s == "" then Some(message) else None
  }

  /** The optional price: an error only for a non-empty text that `isNaN` rejects. */
  function PriceMessage(price: string, isNaN: string -> bool): (r: Option<string>)
    ensures r.Some? <==> price != "" && isNaN(price)
    ensures r.Some? ==> r.value == PriceNotNumber
  {
    if price != "" && isNaN(price) then Some(PriceNotNumber) else None
  }

  /**
   * The error map of the art submission form (`isNaN` is JavaScript's
   * global `isNaN` applied to a string).
   */
  function SubmissionErrors(form: map<Field, string>, isNaN: string -> bool): Errors
    requires SubmissionFields <= form.Keys
  {
    var r := Report(map[], Title, RequiredMessage(form[Title], TitleRequired));
    var r := Report(r, Description, RequiredMessage(form[Description], DescriptionRequired));
    var r := Report(r, TypeOfArt, FilledMessage(form[TypeOfArt], TypeOfArtRequired));
    var r := Report(r, Image, FilledMessage(form[Image], ImageRequired));
    Report(r, Price, PriceMessage(form[Price], isNaN))
  }

  /** Reporting adds the field exactly when the rule gives a message, and leaves every other field alone. */
  lemma ReportEntry(errors: Errors, key: Field, message: Option<string>)
    ensures var r := Report(errors, key, message);
            && (key in r <==> key in errors || message.Some?)
            && (message.Some? ==> r[key] == message.value)
            && (message.None? && key in errors ==> r[key] == errors[key])
            && forall k | k != key :: (k in r <==> k in errors) && (k in errors ==> r[k] == errors[k])
  {
  }

  /** Two rules for two different fields: each touches its own entry only. */
  lemma ReportPair(errors: Errors, first: Field, m1: Option<string>, second: Field, m2: Option<string>)
    requires first != second
    ensures var r := Report(Report(errors, first, m1), second, m2);
            && (forall k | k != first && k != second :: (k in r <==> k in errors) && (k in r ==> r[k] == errors[k]))
            && (first in r <==> first in errors || m1.Some?)
            && (m1.Some? ==> r[first] == m1.value)
            && (second in r <==> second in errors || m2.Some?)
            && (m2.Some? ==> r[second] == m2.value)
  {
    ReportEntry(errors, first, m1);
    ReportEntry(Report(errors, first, m1), second, m2);
  }

  /**
   * The login form: at most an e-mail and a password message; an e-mail
   * message exactly when the e-mail does not have the pattern's shape, a
   * password message exactly when it is shorter than six characters, the
   * "required" message taking precedence; so the form passes exactly when
   * both rules hold.
   */
  lemma CredentialRules(email: string, password: string)
    ensures var r := CredentialErrors(email, password);
            && r.Keys <= {Email, Password}
            && (Email in r <==> !EmailShaped(email))
            && (Password in r <==> |password| < 6)
            && (Email in r ==> r[Email] == if email == "" then EmailRequired else EmailInvalid)
            && (Password in r ==> r[Password] == if password == "" then PasswordRequired else PasswordTooShort)
            && (r == map[] <==> EmailShaped(email) && |password| >= 6)
  {
    EmailRule(email);
    var r := CredentialErrors(email, password);
    if r == map[] {
      assert Email !in r && Password !in r;
    }
  }

  /** Both names: a "required" message for each name that is blank after trimming, and nothing else. */
  lemma NameRules(firstName: string, lastName: string)
    ensures var r := NameErrors(firstName, lastName);
            && r.Keys <= {FirstName, LastName}
            && (FirstName in r <==> IsBlank(firstName))
            && (LastName in r <==> IsBlank(lastName))
            && (FirstName in r ==> r[FirstName] == FirstNameRequired)
            && (LastName in r ==> r[LastName] == LastNameRequired)
  {
    RequiredRule(firstName, FirstNameRequired);
    RequiredRule(lastName, LastNameRequired);
    ReportPair(map[], FirstName, RequiredMessage(firstName, FirstNameRequired),
               LastName, RequiredMessage(lastName, LastNameRequired));
  }

  /**
   * The user sign-up form: the name rules, then the login form's rules for
   * the e-mail and the password, each field reported exactly when its rule
   * fails.
   */
  lemma AccountRules(firstName: string, lastName: string, email: string, password: string)
    ensures var r := AccountErrors(firstName, lastName, email, password);
            && r.Keys <= {FirstName, LastName, Email, Password}
            && (FirstName in r <==> IsBlank(firstName))
            && (LastName in r <==> IsBlank(lastName))
            && (Email in r <==> !EmailShaped(email))
            && (Password in r <==> |password| < 6)
            && (FirstName in r ==> r[FirstName] == FirstNameRequired)
            && (LastName in r ==> r[LastName] == LastNameRequired)
            && (Email in r ==> r[Email] == if email == "" then EmailRequired else EmailInvalid)
            && (Password in r ==> r[Password] == if password == "" then PasswordRequired else PasswordTooShort)
  {
    NameRules(firstName, lastName);
    EmailRule(email);
    ReportPair(NameErrors(firstName, lastName), Email, EmailMessage(email), Password, PasswordMessage(password));
  }

  /** The user sign-up form reports on its own four fields only. */
  lemma AccountKeys(firstName: string, lastName: string, email: string, password: string)
    ensures AccountErrors(firstName, lastName, email, password).Keys <= {FirstName, LastName, Email, Password}
  {
    ReportPair(map[], FirstName, RequiredMessage(firstName, FirstNameRequired),
               LastName, RequiredMessage(lastName, LastNameRequired));
    ReportPair(NameErrors(firstName, lastName), Email, EmailMessage(email), Password, PasswordMessage(password));
  }

  /** The user sign-up form passes exactly when all four rules hold. */
  lemma AccountAccepts(firstName: string, lastName: string, email: string, password: string)
    ensures AccountErrors(firstName, lastName, email, password) == map[] <==>
              !IsBlank(firstName) && !IsBlank(lastName) && EmailShaped(email) && |password| >= 6
  {
    AccountRules(firstName, lastName, email, password);
    var r := AccountErrors(firstName, lastName, email, password);
    if r == map[] {
      assert FirstName !in r && LastName !in r && Email !in r && Password !in r;
    } else {
      var k :| k in r;
      assert k in {FirstName, LastName, Email, Password};
    }
  }

  /**
   * The artist sign-up form: the user sign-up form's entries, then the
   * ten-digit phone number and the city required after trimming.
   */
  lemma ArtistAccountRules(firstName: string, lastName: string, email: string, password: string,
                           number: string, city: string)
    ensures var r := ArtistAccountErrors(firstName, lastName, email, password, number, city);
            var a := AccountErrors(firstName, lastName, email, password);
            && (forall k | k != Number && k != City :: (k in r <==> k in a) && (k in r ==> r[k] == a[k]))
            && (Number in r <==> !PhoneShaped(number))
            && (City in r <==> IsBlank(city))
            && (Number in r ==> r[Number] == if number == "" then PhoneRequired else PhoneInvalid)
            && (City in r ==> r[City] == CityRequired)
  {
    RequiredRule(city, CityRequired);
    ReportPair(AccountErrors(firstName, lastName, email, password),
               Number, PhoneMessage(number), City, RequiredMessage(city, CityRequired));
  }

  /** The artist sign-up form passes exactly when all six rules hold. */
  lemma ArtistAccountAccepts(firstName: string, lastName: string, email: string, password: string,
                             number: string, city: string)
    ensures ArtistAccountErrors(firstName, lastName, email, password, number, city) == map[] <==>
              && !IsBlank(firstName) && !IsBlank(lastName) && EmailShaped(email)
              && |password| >= 6 && PhoneShaped(number) && !IsBlank(city)
  {
    ArtistAccountRules(firstName, lastName, email, password, number, city);
    AccountKeys(firstName, lastName, email, password);
    AccountAccepts(firstName, lastName, email, password);
    var r := ArtistAccountErrors(firstName, lastName, email, password, number, city);
    var a := AccountErrors(firstName, lastName, email, password);
    if r == map[] {
      assert FirstName !in a && LastName !in a && Email !in a && Password !in a;
    } else {
      var k :| k in r;
      assert k in a || k == Number || k == City;
    }
  }

  /**
   * The art submission form: title and description required after
   * trimming, type of art and image only as non-empty strings, the price
   * optional but numeric; it passes exactly when all five rules hold.
   */
  lemma SubmissionRules(form: map<Field, string>, isNaN: string -> bool)
    requires SubmissionFields <= form.Keys
    ensures var r := SubmissionErrors(form, isNaN);
            && r.Keys <= {Title, Description, TypeOfArt, Image, Price}
            && (Title in r <==> IsBlank(form[Title]))
            && (Description in r <==> IsBlank(form[Description]))
            && (TypeOfArt in r <==> form[TypeOfArt] == "")
            && (Image in r <==> form[Image] == "")
            && (Price in r <==> form[Price] != "" && isNaN(form[Price]))
            && (Title in r ==> r[Title] == TitleRequired)
            && (Description in r ==> r[Description] == DescriptionRequired)
            && (TypeOfArt in r ==> r[TypeOfArt] == TypeOfArtRequired)
            && (Image in r ==> r[Image] == ImageRequired)
            && (Price in r ==> r[Price] == PriceNotNumber)
            && (r == map[] <==>
                  && !IsBlank(form[Title]) && !IsBlank(form[Description])
                  && form[TypeOfArt] != "" && form[Image] != ""
                  && (form[Price] == "" || !isNaN(form[Price])))
  {
    RequiredRule(form[Title], TitleRequired);
    RequiredRule(form[Description], DescriptionRequired);
    var r := SubmissionErrors(form, isNaN);
    if r == map[] {
      assert Title !in r && Description !in r && TypeOfArt !in r && Image !in r && Price !in r;
    }
  }
}
