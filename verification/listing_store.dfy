/**
 * The artist and listing collections behind the artist controller, and what
 * each request handler does to them, as functions from the stored state and
 * the request to the new state and the response. The `Controller` class of
 * module ArtistController performs the same steps in place.
 *
 * Every handler is one atomic step. The list of validation errors that the
 * route's validators left on the request (`validationResult(req)`) is an
 * input, as is the artist that the authentication middleware attached
 * (`req.artist`, by id).
 */
module ListingStore {
  import opened Wrappers
  import opened RouteValidators
  import opened Sequences
  import JsText

  type Id = nat

  /**
   * A salted password hash. Hashing is abstract: the digest is determined by
   * the password and the salt, and the salt is drawn outside the model.
   */
  datatype PasswordHash = Digest(secret: string, salt: nat)

  function HashPassword(password: string, salt: nat): PasswordHash {
    Digest(password, salt)
  }

  /** `comparePassword`: hash the candidate with the stored salt and compare. */
  predicate ComparePassword(candidate: string, stored: PasswordHash) {
    HashPassword(candidate, stored.salt) == stored
  }

  /** A signed session token; signing and expiry are not modelled. */
  datatype Token = Token(subject: Id)

  datatype Artist = Artist(
    id: Id,
    firstname: string,
    lastname: Option<string>,
    email: string,
    password: PasswordHash,
    phone: Option<string>,
    profilePic: Option<string>,
    city: string,
    arts: seq<Id>)

  datatype Listing = Listing(
    title: string,
    description: string,
    image: Option<string>,
    location: Option<string>,
    country: Option<string>,
    owner: Id,
    typeOfArt: string,
    price: string)

  /** Artists in insertion order (the order `findOne` scans), listings by id. */
  datatype Db = Db(artists: seq<Artist>, listings: map<Id, Listing>, nextId: nat)

  datatype Payload =
    | Errors(errors: seq<ValidationError>)
    | Message(text: string)
    | Session(artist: Artist, token: Token)
    | ListingPayload(listing: Listing)
    | ArtistRole(artist: Artist)
    | MapFound

  /** A JSON response, or `next(err)`: the error handed to Express's error handler. */
  datatype Reply = Json(status: nat, payload: Payload) | Forwarded {
    /** A JSON response with this status. */
    predicate Is(code: nat) {
      Json? && status == code
    }
  }

  datatype Step = Step(db: Db, reply: Reply)

  const AlreadyExists := "Artist Already Exists"
  const IncorrectCredentials := "Email Or Password Is Incorrect"
  const LoginFirst := "Unauthorized. Please login first."
  const NotFound := "Listing not found"
  const NotYoursToUpdate := "Not authorized to update this listing"
  const NotYoursToDelete := "You are not authorized to delete this Listing"

  /** `findById` over the artists. */
  function FindArtist(artists: seq<Artist>, id: Id): Option<nat> {
    FirstIndex(artists, (a: Artist) => a.id == id, 0)
  }

  /** `findOne({ email })` over the artists. */
  function FindByEmail(artists: seq<Artist>, email: string): Option<nat> {
    FirstIndex(artists, (a: Artist) => a.email == email, 0)
  }

  predicate IsArtist(db: Db, id: Id) {
    FindArtist(db.artists, id).Some?
  }

  /**
   * The store's invariant: ids are below the allocation counter, artist ids
   * and e-mails are unique, and every listing's owner is a stored artist
   * whose `arts` records the listing.
   */
  ghost predicate Consistent(db: Db) {
    && (forall i | 0 <= i < |db.artists| :: db.artists[i].id < db.nextId)
    && (forall id | id in db.listings :: id < db.nextId)
    && (forall i, j | 0 <= i < j < |db.artists| :: db.artists[i].id != db.artists[j].id)
    && (forall i, j | 0 <= i < j < |db.artists| :: db.artists[i].email != db.artists[j].email)
    && (forall id | id in db.listings :: Recorded(db, id))
  }

  /** Listing `id`'s owner is a stored artist whose `arts` holds `id`. */
  ghost predicate Recorded(db: Db, id: Id)
    requires id in db.listings
  {
    var owner := FindArtist(db.artists, db.listings[id].owner);
    owner.Some? && id in db.artists[owner.value].arts
  }

  /** The artist record `registerArtist` builds from a validated body. */
  function NewArtist(id: Id, b: Body, salt: nat): Artist {
    Artist(
      id,
      Text(Get(b, "fullname.firstname")),
      Cast(Get(b, "fullname.lastname")),
      Text(Get(b, "email")),
      HashPassword(Text(Get(b, "password")), salt),
      Cast(Get(b, "phone")),
      OrUndefined(Get(b, "profilePic")),
      Text(Get(b, "city")),
      [])
  }

  /** POST /artist/register. */
  function Register(db: Db, errors: seq<ValidationError>, b: Body, salt: nat): (s: Step)
    ensures errors != [] ==> s == Step(db, Json(400, Errors(errors)))
    ensures errors == [] && FindByEmail(db.artists, Text(Get(b, "email"))).Some? ==>
              s == Step(db, Json(400, Message(AlreadyExists)))
    ensures !s.reply.Is(201) ==> s.db == db
    ensures s.reply.Is(201) ==>
              && s.db.listings == db.listings
              && |s.db.artists| == |db.artists| + 1
              && s.db.artists[..|db.artists|] == db.artists
              && s.reply.payload == Session(s.db.artists[|db.artists|], Token(db.nextId))
    ensures errors == [] && FindByEmail(db.artists, Text(Get(b, "email"))).None? ==>
              && s.reply.Is(201)
              && s.db.nextId == db.nextId + 1
              && |s.db.artists| == |db.artists| + 1
              && var a := s.db.artists[|db.artists|];
                 && a.id == db.nextId
                 && a.email == Text(Get(b, "email"))
                 && ComparePassword(Text(Get(b, "password")), a.password)
                 && a.arts == []
  {
    if errors != [] then Step(db, Json(400, Errors(errors)))
    else if FindByEmail(db.artists, Text(Get(b, "email"))).Some? then
      Step(db, Json(400, Message(AlreadyExists)))
    else
      var artist := NewArtist(db.nextId, b, salt);
      Step(Db(db.artists + [artist], db.listings, db.nextId + 1),
           Json(201, Session(artist, Token(artist.id))))
  }

  /** POST /artist/login. It never changes the store. */
  function Login(db: Db, errors: seq<ValidationError>, b: Body): (r: Reply)
    ensures errors != [] ==> r == Json(400, Errors(errors))
    ensures errors == [] && !r.Is(200) ==> r == Json(400, Message(IncorrectCredentials))
    ensures r.Is(200) ==>
              r.payload.Session? && r.payload.artist in db.artists &&
              r.payload.artist.email == Text(Get(b, "email")) &&
              ComparePassword(Text(Get(b, "password")), r.payload.artist.password) &&
              r.payload.token == Token(r.payload.artist.id)
  {
    if errors != [] then Json(400, Errors(errors))
    else match FindByEmail(db.artists, Text(Get(b, "email")))
      case None => Json(400, Message(IncorrectCredentials))
      case Some(i) =>
        var artist := db.artists[i];
        if !ComparePassword(Text(Get(b, "password")), artist.password) then
          Json(400, Message(IncorrectCredentials))
        else
          Json(200, Session(artist, Token(artist.id)))
  }

  /** The listing `createListing` builds from a validated body. */
  function NewListing(b: Body, owner: Id): Listing {
    Listing(
      Text(Get(b, "title")),
      Text(Get(b, "description")),
      OrUndefined(Get(b, "image")),
      Cast(Get(b, "location")),
      Cast(Get(b, "country")),
      owner,
      Text(Get(b, "typeOfArt")),
      Text(Get(b, "price")))
  }

  /** `a` with `id` appended to its `arts`. */
  function WithArt(a: Artist, id: Id): Artist {
    a.(arts := a.arts + [id])
  }

  /**
   * POST /artist/create. With the requester missing from the store, the
   * listing is still inserted and only the final `save()` of the artist fails.
   */
  function Create(db: Db, requester: Option<Id>, errors: seq<ValidationError>, b: Body): (s: Step)
    ensures requester.None? ==> s == Step(db, Json(401, Message(LoginFirst)))
    ensures requester.Some? && errors != [] ==> s == Step(db, Json(400, Errors(errors)))
    ensures s.reply.Json? && !s.reply.Is(200) ==> s.db == db
    ensures s.reply.Is(200) ==>
              && requester.Some? && s.reply.payload.ListingPayload?
              && s.reply.payload.listing == NewListing(b, requester.value)
              && s.reply.payload.listing.owner == requester.value
              && s.db.listings == db.listings[db.nextId := s.reply.payload.listing]
              && s.db.nextId == db.nextId + 1
              && FindArtist(db.artists, requester.value).Some?
              && var i := FindArtist(db.artists, requester.value).value;
                 && |s.db.artists| == |db.artists|
                 && s.db.artists[i] == WithArt(db.artists[i], db.nextId)
                 && (forall k | 0 <= k < |db.artists| && k != i :: s.db.artists[k] == db.artists[k])
    ensures requester.Some? && errors == [] && IsArtist(db, requester.value) ==> s.reply.Is(200)
  {
    if requester.None? then Step(db, Json(401, Message(LoginFirst)))
    else if errors != [] then Step(db, Json(400, Errors(errors)))
    else
      var listing := NewListing(b, requester.value);
      var id := db.nextId;
      var listings := db.listings[id := listing];
      match FindArtist(db.artists, requester.value)
      case None => Step(Db(db.artists, listings, id + 1), Forwarded)
      case Some(i) =>
        Step(Db(db.artists[i := WithArt(db.artists[i], id)], listings, id + 1),
             Json(200, ListingPayload(listing)))
  }

  /** The listing fields an update body may overwrite. */
  const EditableFields := {"title", "description", "image", "location", "country", "typeOfArt", "price"}

  /**
   * The listing service's update: every editable field present in the body
   * (with a value other than `undefined`) overwrites the stored one. The
   * owner is never taken from the body.
   */
  function ApplyUpdate(l: Listing, b: Body): (r: Listing)
    ensures r.owner == l.owner
    ensures (forall k | k in EditableFields :: Get(b, k) == Absent) ==> r == l
    ensures r.title == if Get(b, "title") != Absent then Text(Get(b, "title")) else l.title
    ensures r.description == if Get(b, "description") != Absent then Text(Get(b, "description")) else l.description
    ensures r.image == if Get(b, "image") != Absent then Cast(Get(b, "image")) else l.image
    ensures r.location == if Get(b, "location") != Absent then Cast(Get(b, "location")) else l.location
    ensures r.country == if Get(b, "country") != Absent then Cast(Get(b, "country")) else l.country
    ensures r.typeOfArt == if Get(b, "typeOfArt") != Absent then Text(Get(b, "typeOfArt")) else l.typeOfArt
    ensures r.price == if Get(b, "price") != Absent then Text(Get(b, "price")) else l.price
  {
    Listing(
      if Get(b, "title") != Absent then Text(Get(b, "title")) else l.title,
      if Get(b, "description") != Absent then Text(Get(b, "description")) else l.description,
      if Get(b, "image") != Absent then Cast(Get(b, "image")) else l.image,
      if Get(b, "location") != Absent then Cast(Get(b, "location")) else l.location,
      if Get(b, "country") != Absent then Cast(Get(b, "country")) else l.country,
      l.owner,
      if Get(b, "typeOfArt") != Absent then Text(Get(b, "typeOfArt")) else l.typeOfArt,
      if Get(b, "price") != Absent then Text(Get(b, "price")) else l.price)
  }

  /** PUT /artist/update/:id. */
  function Update(db: Db, requester: Option<Id>, id: Id, b: Body): (s: Step)
    ensures requester.None? ==> s == Step(db, Json(401, Message(LoginFirst)))
    ensures requester.Some? && id !in db.listings ==> s == Step(db, Json(404, Message(NotFound)))
    ensures requester.Some? && id in db.listings && db.listings[id].owner != requester.value ==>
              s == Step(db, Json(403, Message(NotYoursToUpdate)))
    ensures s.reply.Is(200) <==> requester.Some? && id in db.listings && db.listings[id].owner == requester.value
    ensures s.reply.Is(200) ==>
              && s.reply.payload.ListingPayload?
              && s.db == db.(listings := db.listings[id := s.reply.payload.listing])
              && s.reply.payload.listing == ApplyUpdate(db.listings[id], b)
              && s.reply.payload.listing.owner == db.listings[id].owner
    ensures s.reply.Json?
  {
    if requester.None? then Step(db, Json(401, Message(LoginFirst)))
    else if id !in db.listings then Step(db, Json(404, Message(NotFound)))
    else if db.listings[id].owner != requester.value then Step(db, Json(403, Message(NotYoursToUpdate)))
    else
      var updated := ApplyUpdate(db.listings[id], b);
      Step(db.(listings := db.listings[id := updated]), Json(200, ListingPayload(updated)))
  }

  /**
   * DELETE /artist/delete/:id. A missing id is not answered with 404: the
   * ownership test reads the owner of the `null` that `findById` returned,
   * which throws, and the error goes to `next`.
   */
  function Delete(db: Db, requester: Option<Id>, id: Id): (s: Step)
    ensures requester.None? ==> s == Step(db, Json(401, Message(LoginFirst)))
    ensures requester.Some? && id !in db.listings ==> s == Step(db, Forwarded)
    ensures requester.Some? && id in db.listings && db.listings[id].owner != requester.value ==>
              s == Step(db, Json(401, Message(NotYoursToDelete)))
    ensures s.reply.Is(200) <==>
              requester.Some? && id in db.listings && db.listings[id].owner == requester.value
    ensures s.reply.Is(200) ==>
              && s.reply.payload == ListingPayload(db.listings[id])
              && s.db == db.(listings := db.listings - {id})
  {
    if requester.None? then Step(db, Json(401, Message(LoginFirst)))
    else if id !in db.listings then Step(db, Forwarded)
    else if requester.value != db.listings[id].owner then Step(db, Json(401, Message(NotYoursToDelete)))
    else Step(db.(listings := db.listings - {id}), Json(200, ListingPayload(db.listings[id])))
  }

  /** `req.cookies.token || req.headers.authorization?.split(" ")[1]`. */
  function RequestToken(cookie: Option<string>, authorization: Option<string>): Option<string> {
    if cookie.Some? && cookie.value != "" then cookie
    else if authorization.None? then None
    else JsText.SecondWord(authorization.value)
  }

  /** Without a cookie, the token of a `Bearer <token>` header is the one used. */
  lemma BearerHeaderToken(cookie: Option<string>, token: string)
    requires cookie.None? || cookie == Some("")
    requires ' ' !in token
    ensures RequestToken(cookie, Some("Bearer " + token)) == Some(token)
  {
    JsText.SecondWordOfBearer(token);
  }

  /**
   * GET /artist/loggedIn. `verify` is `jwt.verify` followed by reading the
   * payload's `_id` (`None` when it throws or yields no id). The user branch
   * refers to a model this file never imports, so reaching it throws, and
   * the catch answers 400: no token ever resolves to a user, and the 404
   * branch is dead.
   */
  function LoggedIn(db: Db, cookie: Option<string>, authorization: Option<string>,
                    verify: string -> Option<Id>): (r: Reply)
    ensures r.Is(200) || r.Is(400)
    ensures RequestToken(cookie, authorization) in {None, Some("")} ==>
              r == Json(400, Message("Token Is Not Present"))
    ensures r.Is(200) <==>
              var t := RequestToken(cookie, authorization);
              t.Some? && t.value != "" && verify(t.value).Some? && IsArtist(db, verify(t.value).value)
    ensures r.Is(200) ==> r.payload.ArtistRole? && r.payload.artist in db.artists
    ensures r.Is(200) ==> r.payload.artist.id == verify(RequestToken(cookie, authorization).value).value
  {
    var token := RequestToken(cookie, authorization);
    if token.None? || token.value == "" then Json(400, Message("Token Is Not Present"))
    else match verify(token.value)
      case None => Json(400, Message("err"))
      case Some(subject) =>
        match FindArtist(db.artists, subject)
        case Some(i) => Json(200, ArtistRole(db.artists[i]))
        case None => Json(400, Message("err"))
  }

  /** The geocoding query: the location, then `, ` and the country when the country is non-empty. */
  function LocationQuery(l: Listing): (q: string)
    ensures |q| >= |JsText.Interpolate(l.location)| && q[..|JsText.Interpolate(l.location)|] == JsText.Interpolate(l.location)
    ensures q == JsText.Interpolate(l.location) <==> l.country.None? || l.country == Some("")
    ensures l.country.Some? && l.country.value != "" ==> q[|JsText.Interpolate(l.location)|..] == ", " + l.country.value
  {
    JsText.Interpolate(l.location) + if l.country.Some? && l.country.value != "" then ", " + l.country.value else ""
  }

  /** The geocoding service's answer: it failed, or it sent back a `features` list (maybe missing). */
  datatype GeoResult = GeoThrew | GeoAnswer(featureCount: Option<nat>)

  /** GET /artist/map/:id, with the geocoding service as `geocode`. */
  function MapLookup(db: Db, id: Id, geocode: string -> GeoResult): (r: Reply)
    ensures id !in db.listings ==> r == Json(404, Message(NotFound))
    ensures id in db.listings ==>
              var g := geocode(LocationQuery(db.listings[id]));
              && (g.GeoThrew? ==> r == Json(500, Message("Server Error")))
              && (g.GeoAnswer? ==> (r.Is(400) <==> g.featureCount in {None, Some(0)}))
    ensures r.Is(200) ==> r.payload == MapFound
    ensures id in db.listings ==>
              var g := geocode(LocationQuery(db.listings[id]));
              g.GeoAnswer? && g.featureCount.Some? && g.featureCount.value > 0 ==> r.Is(200)
  {
    if id !in db.listings then Json(404, Message(NotFound))
    else match geocode(LocationQuery(db.listings[id]))
      case GeoThrew => Json(500, Message("Server Error"))
      case GeoAnswer(count) =>
        if count.None? || count == Some(0) then Json(400, Message("Unable to fetch geocode data"))
        else Json(200, MapFound)
  }
}
