/**
 * The art submission form: seven text fields in one `formData` object, the
 * uploaded image's url and the chosen file. Typing updates one field by
 * spreading; uploading a file writes the returned url into both `imageUrl`
 * and `formData.image`; submitting sends the form only when it validates
 * and a token is stored.
 */
module ArtSubmissionFormPage {
  import opened Wrappers
  import RouteValidators
  import opened PageEffects
  import opened FormRules

  class ArtSubmission {
    var formData: map<Field, string>
    var imageUrl: string
    /** The file picked in the file input (`setFile`), by name. */
    var file: Option<string>
    var errors: Errors

    /** Every field of the initial form state stays present. */
    ghost predicate Valid()
      reads this
    {
      SubmissionFields <= formData.Keys
    }

    constructor ()
      ensures Valid()
      ensures formData == map k | k in SubmissionFields :: ""
      ensures imageUrl == "" && file.None? && errors == map[]
    {
      formData := map k | k in SubmissionFields :: "";
      imageUrl, file, errors := "", None, map[];
    }

    /** The file input's `onChange`: the picked file, or `null` when none is picked. */
    method ChooseFile(picked: Option<string>)
      modifies this`file
      ensures file == picked
      ensures old(Valid()) ==> Valid()
    {
      file := picked;
    }

    /** `handleChange`: the input named `name` now holds `value`. */
    method HandleChange(name: Field, value: string)
      requires Valid()
      modifies this`formData
      ensures Valid()
      ensures formData == Spread(old(formData), name, value)
    {
      formData := Spread(formData, name, value);
    }

    /** `validate()`: title, description, type of art, image, then price. */
    method Validate(isNaN: string -> bool) returns (ok: bool)
      requires Valid()
      modifies this`errors
      ensures errors == SubmissionErrors(old(formData), isNaN)
      ensures ok <==> errors == map[]
    {
      var newErrors: Errors := map[];
      newErrors := Report(newErrors, Title, RequiredMessage(formData[Title], TitleRequired));
      newErrors := Report(newErrors, Description, RequiredMessage(formData[Description], DescriptionRequired));
      newErrors := Report(newErrors, TypeOfArt, FilledMessage(formData[TypeOfArt], TypeOfArtRequired));
      newErrors := Report(newErrors, Image, FilledMessage(formData[Image], ImageRequired));
      newErrors := Report(newErrors, Price, PriceMessage(formData[Price], isNaN));
      errors := newErrors;
      ok := |newErrors.Keys| == 0;
    }

    /**
     * `handleSubmit`, with `stored` the value of `localStorage.getItem("token")`
     * and `response` the outcome of the awaited request. Nothing is sent when
     * validation fails or no token is stored; status 200 leads home.
     */
    method Submit(isNaN: string -> bool, stored: Option<string>, response: Http<()>) returns (effects: seq<Effect>)
      requires Valid()
      modifies this`errors
      ensures errors == SubmissionErrors(old(formData), isNaN)
      ensures errors != map[] || !HasToken(stored) ==> effects == []
      ensures errors == map[] && HasToken(stored) ==>
                effects == [Request(RouteValidators.POST, "/artist/create", stored)] +
                           (if response.Resolved? && response.status == 200 then [Navigate("/home")] else [])
    {
      var ok := Validate(isNaN);
      if !ok {
        return [];
      }
      if !HasToken(stored) {
        return [];
      }
      effects := [Request(RouteValidators.POST, "/artist/create", stored)];
      if response.Resolved? && response.status == 200 {
        effects := effects + [Navigate("/home")];
      }
    }

    /**
     * `handleImageAsFile`, with `url` the `url` of the upload's answer
     * (`None` when the request failed or the answer has none). Without a
     * chosen file nothing happens; a non-empty url becomes both the preview
     * url and the form's image, and every other field keeps its value.
     */
    method Upload(url: Option<string>) returns (effects: seq<Effect>)
      requires Valid()
      modifies this`formData, this`imageUrl
      ensures Valid()
      ensures old(file).None? ==> effects == [] && formData == old(formData) && imageUrl == old(imageUrl)
      ensures old(file).Some? ==> effects == [Request(RouteValidators.POST, "/artist/upload", None)]
      ensures old(file).Some? && url.Some? && url.value != "" ==>
                imageUrl == url.value && formData == Spread(old(formData), Image, url.value)
      ensures url.None? || url.value == "" ==> formData == old(formData) && imageUrl == old(imageUrl)
    {
      if file.None? {
        return [];
      }
      effects := [Request(RouteValidators.POST, "/artist/upload", None)];
      if url.Some? && url.value != "" {
        imageUrl := url.value;
        formData := Spread(formData, Image, url.value);
      }
    }
  }
}
