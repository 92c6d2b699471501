/**
 * The art edit form, working on the shared `listingDetails` object of the
 * listing context. Submitting checks four required fields for falsy values
 * (without trimming) and the stored token before sending the update.
 */
module ArtEditFormPage {
  import opened Wrappers
  import opened Sequences
  import RouteValidators
  import JsText
  import opened PageEffects

  /** The fields `handleSubmit` requires, in the order it lists them. */
  const RequiredListingFields: seq<Field> := [Title, Description, TypeOfArt, Image]

  /** `!listingDetails?.[field]`: absent or empty. */
  predicate Falsy(details: map<Field, string>, field: Field) {
    field !in details || details[field] == ""
  }

  /**
   * The missing fields: the falsy ones among the required fields, in the
   * required fields' order.
   */
  function MissingFields(details: map<Field, string>): (r: seq<Field>)
    ensures IsSubsequence(r, RequiredListingFields)
    ensures forall f :: f in r <==> f in RequiredListingFields && Falsy(details, f)
    ensures r == [] <==> forall i | 0 <= i < |RequiredListingFields| :: !Falsy(details, RequiredListingFields[i])
  {
    var keep := (f: Field) => Falsy(details, f);
    var r := Filter(RequiredListingFields, keep);
    FilterIsSubsequence(RequiredListingFields, keep);
    forall f ensures f in r <==> f in RequiredListingFields && Falsy(details, f) {
      FilterMembers(RequiredListingFields, keep, f);
    }
    r
  }

  /** The alert listing the missing fields by their property names. */
  function MissingAlert(missing: seq<Field>): string {
    "Please fill: " + Join(seq(|missing|, i requires 0 <= i < |missing| => missing[i].Name()), ", ")
  }

  /** Whether a handler sent a request. */
  predicate Requested(effects: seq<Effect>) {
    exists i | 0 <= i < |effects| :: effects[i].Request?
  }

  class ArtEdit {
    var listingDetails: map<Field, string>
    /** The file picked in the file input, by name. */
    var file: Option<string>

    constructor (details: map<Field, string>)
      ensures listingDetails == details && file.None?
    {
      listingDetails, file := details, None;
    }

    /** The file input's `onChange`: the picked file, or `null` when none is picked. */
    method ChooseFile(picked: Option<string>)
      modifies this`file
      ensures file == picked
    {
      file := picked;
    }

    /** `handleChange`: only the named field of `listingDetails` changes. */
    method HandleChange(name: Field, value: string)
      modifies this`listingDetails
      ensures listingDetails == Spread(old(listingDetails), name, value)
    {
      listingDetails := Spread(listingDetails, name, value);
    }

    /**
     * `handleImageAsFile`, with `url` the `url` of the upload's answer
     * (`None` when the request failed or the answer has none). Only `image`
     * changes, and only for a non-empty url; otherwise the upload is
     * reported as failed.
     */
    method Upload(url: Option<string>) returns (effects: seq<Effect>)
      modifies this`listingDetails
      ensures old(file).None? ==> effects == [] && listingDetails == old(listingDetails)
      ensures old(file).Some? && url.Some? && url.value != "" ==>
                && effects == [Request(RouteValidators.POST, "/artist/upload", None)]
                && listingDetails == Spread(old(listingDetails), Image, url.value)
      ensures old(file).Some? && (url.None? || url.value == "") ==>
                && effects == [Request(RouteValidators.POST, "/artist/upload", None), Alert("Image upload failed")]
                && listingDetails == old(listingDetails)
    {
      if file.None? {
        return [];
      }
      effects := [Request(RouteValidators.POST, "/artist/upload", None)];
      if url.Some? && url.value != "" {
        listingDetails := Spread(listingDetails, Image, url.value);
      } else {
        effects := effects + [Alert("Image upload failed")];
      }
    }

    /**
     * `handleSubmit`, with `stored` the stored token and `response` the
     * outcome of the awaited update. It changes no state of its own.
     */
    method Submit(stored: Option<string>, response: Http<()>) returns (effects: seq<Effect>)
      ensures var missing := MissingFields(listingDetails);
              && (missing != [] ==> effects == [Alert(MissingAlert(missing))])
              && (missing == [] && !HasToken(stored) ==> effects == [Alert("Authentication token missing")])
              && (missing == [] && HasToken(stored) ==>
                    && |effects| >= 1
                    && effects[0] == Request(RouteValidators.PUT,
                                             "/artist/update/" + JsText.Interpolate(Lookup(listingDetails, ListingId)),
                                             stored)
                    && effects[1..] == match response
                         case Resolved(status, _) => if status == 200 then [Navigate("/art-details")] else []
                         case Rejected => [Alert("Failed to update art piece")])
      ensures Requested(effects) ==>
                HasToken(stored) && forall f | f in RequiredListingFields :: !Falsy(listingDetails, f)
    {
      var missing := MissingFields(listingDetails);
      if |missing| > 0 {
        return [Alert(MissingAlert(missing))];
      }
      if !HasToken(stored) {
        return [Alert("Authentication token missing")];
      }
      var path := "/artist/update/" + JsText.Interpolate(Lookup(listingDetails, ListingId));
      effects := [Request(RouteValidators.PUT, path, stored)];
      match response {
        case Resolved(status, _) =>
          if status == 200 {
            effects := effects + [Navigate("/art-details")];
          }
        case Rejected =>
          effects := effects + [Alert("Failed to update art piece")];
      }
    }
  }

  /** `details[field]`, absent as `None`. */
  function Lookup(details: map<Field, string>, field: Field): Option<string> {
    if field in details then Some(details[field]) else None
  }
}
