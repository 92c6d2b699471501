/**
 * The artist controller's state-changing handlers, performed in place on the
 * stored collections, step by step as the handlers do. Each method is proved
 * to leave the store and to answer exactly as the corresponding function of
 * module ListingStore describes, and to keep the store invariant.
 */
module ArtistController {
  import opened Wrappers
  import opened RouteValidators
  import opened ListingStore
  import StoreProperties

  class Controller {
    var artists: seq<Artist>
    var listings: map<Id, Listing>
    var nextId: nat

    /** The stored collections as one value. */
    function State(): Db
      reads this
    {
      Db(artists, listings, nextId)
    }

    ghost predicate Valid()
      reads this
    {
      Consistent(State())
    }

    constructor ()
      ensures Valid()
      ensures State() == Db([], map[], 0)
    {
      artists, listings, nextId := [], map[], 0;
    }

    /** `registerArtist`; `salt` is the randomness the password hashing draws. */
    method RegisterArtist(errors: seq<ValidationError>, b: Body, salt: nat) returns (reply: Reply)
      requires Valid()
      modifies this
      ensures Valid()
      ensures Step(State(), reply) == Register(old(State()), errors, b, salt)
    {
      StoreProperties.RegisterKeepsConsistent(State(), errors, b, salt);
      ghost var target := Register(State(), errors, b, salt);
      if errors != [] {
        return Json(400, Errors(errors));
      }
      var existing := FindByEmail(artists, Text(Get(b, "email")));
      if existing.Some? {
        return Json(400, Message(AlreadyExists));
      }
      var hash := HashPassword(Text(Get(b, "password")), salt);
      var artist := NewArtist(nextId, b, salt);
      assert artist.password == hash;
      artists := artists + [artist];
      nextId := nextId + 1;
      reply := Json(201, Session(artist, Token(artist.id)));
      assert Step(State(), reply) == target;
    }

    /** `loginArtist`: reads the store and changes nothing. */
    method LoginArtist(errors: seq<ValidationError>, b: Body) returns (reply: Reply)
      ensures reply == Login(State(), errors, b)
    {
      if errors != [] {
        return Json(400, Errors(errors));
      }
      var found := FindByEmail(artists, Text(Get(b, "email")));
      if found.None? {
        return Json(400, Message(IncorrectCredentials));
      }
      var artist := artists[found.value];
      var matched := ComparePassword(Text(Get(b, "password")), artist.password);
      if !matched {
        return Json(400, Message(IncorrectCredentials));
      }
      reply := Json(200, Session(artist, Token(artist.id)));
    }

    /**
     * `createListing`: insert the listing, then push its id onto the
     * requester's `arts` and save the requester.
     */
    method CreateListing(requester: Option<Id>, errors: seq<ValidationError>, b: Body) returns (reply: Reply)
      requires Valid()
      requires requester.Some? ==> IsArtist(State(), requester.value)
      modifies this
      ensures Valid()
      ensures Step(State(), reply) == Create(old(State()), requester, errors, b)
    {
      StoreProperties.CreateKeepsConsistent(State(), requester, errors, b);
      ghost var target := Create(State(), requester, errors, b);
      if requester.None? {
        return Json(401, Message(LoginFirst));
      }
      if errors != [] {
        return Json(400, Errors(errors));
      }
      var listing := NewListing(b, requester.value);
      var id := nextId;
      listings := listings[id := listing];
      nextId := nextId + 1;
      var owner := FindArtist(artists, requester.value);
      if owner.None? {
        return Forwarded;
      }
      var i := owner.value;
      artists := artists[i := artists[i].(arts := artists[i].arts + [id])];
      reply := Json(200, ListingPayload(listing));
      assert Step(State(), reply) == target;
    }

    /** `updateListing`. */
    method UpdateListing(requester: Option<Id>, id: Id, b: Body) returns (reply: Reply)
      requires Valid()
      modifies this
      ensures Valid()
      ensures Step(State(), reply) == Update(old(State()), requester, id, b)
    {
      StoreProperties.UpdateKeepsConsistent(State(), requester, id, b);
      if requester.None? {
        return Json(401, Message(LoginFirst));
      }
      if id !in listings {
        return Json(404, Message(NotFound));
      }
      var listing := listings[id];
      if listing.owner != requester.value {
        return Json(403, Message(NotYoursToUpdate));
      }
      var updated := ApplyUpdate(listing, b);
      listings := listings[id := updated];
      reply := Json(200, ListingPayload(updated));
    }

    /**
     * `deleteListing`. The ownership test dereferences the looked-up listing
     * before checking that it exists, so a missing id ends in `next(err)`.
     */
    method DeleteListing(requester: Option<Id>, id: Id) returns (reply: Reply)
      requires Valid()
      modifies this
      ensures Valid()
      ensures Step(State(), reply) == Delete(old(State()), requester, id)
    {
      StoreProperties.DeleteKeepsConsistent(State(), requester, id);
      if requester.None? {
        return Json(401, Message(LoginFirst));
      }
      var found := if id in listings then Some(listings[id]) else None;
      if found.None? {
        return Forwarded;
      }
      if requester.value != found.value.owner {
        return Json(401, Message(NotYoursToDelete));
      }
      listings := listings - {id};
      reply := Json(200, ListingPayload(found.value));
    }
  }

  /** A client of the controller: a fresh artist registers and then logs in with the same credentials. */
  method RegisterThenLogIn(isEmail: string -> bool, b: Body, salt: nat, email: string, password: string)
    requires Get(b, "email") == Str(email) && Get(b, "password") == Str(password)
    requires RunRules(RegisterRules, b, isEmail) == []
  {
    var c := new Controller();
    var r := c.RegisterArtist(RunRules(RegisterRules, b, isEmail), b, salt);
    assert r.Is(201);
    var login := map["email" := Str(email), "password" := Str(password)];
    StoreProperties.RegisterThenLogin(Db([], map[], 0), b, salt, isEmail, email, password);
    r := c.LoginArtist(RunRules(LoginRules, login, isEmail), login);
    assert r.Is(200) && r.payload.token == Token(0);
  }

  /**
   * A client of the controller: an artist creates a listing; another artist
   * can neither update nor delete it; its owner deletes it, and deleting it
   * again is forwarded to the error handler.
   */
  method OwnerAndStranger(c: Controller, owner: Id, stranger: Id, listing: Body)
    requires c.Valid() && IsArtist(c.State(), owner) && stranger != owner
    modifies c
  {
    var id := c.nextId;
    var r := c.CreateListing(Some(owner), [], listing);
    assert r.Is(200) && c.listings[id].owner == owner;
    r := c.UpdateListing(Some(stranger), id, listing);
    assert r == Json(403, Message(NotYoursToUpdate));
    r := c.DeleteListing(Some(stranger), id);
    assert r == Json(401, Message(NotYoursToDelete));
    r := c.DeleteListing(Some(owner), id);
    assert r.Is(200) && id !in c.listings;
    r := c.DeleteListing(Some(owner), id);
    assert r.Forwarded?;
  }
}
