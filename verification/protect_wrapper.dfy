/**
 * The protecting wrapper's login check, as a transition of the signed-in
 * user, the signed-in artist and the token stored in `localStorage`.
 * Without a token it sends the visitor to the login page; when nobody is
 * signed in it asks the backend who the token belongs to and records the
 * answer; a failed check forgets the token.
 */
module ProtectWrapperPage {
  import opened Wrappers
  import RouteValidators
  import opened PageEffects

  /** The answer of GET /artist/loggedIn as this page reads it. */
  datatype CheckData = CheckData(role: string, user: Option<Account>, artist: Option<Account>)

  class ProtectWrapper {
    var storedToken: Option<string>
    var user: Option<Account>
    var artist: Option<Account>

    /** Nobody is signed in as both a user and an artist. */
    ghost predicate Valid()
      reads this
    {
      !(user.Some? && artist.Some?)
    }

    /** The wrapper as mounted: the stored token and whatever the two shared contexts hold. */
    constructor (token: Option<string>, contextUser: Option<Account>, contextArtist: Option<Account>)
      ensures storedToken == token && user == contextUser && artist == contextArtist
    {
      storedToken, user, artist := token, contextUser, contextArtist;
    }

    /** The effect and its `checkLogin`, with `response` the outcome of the awaited check. */
    method CheckLogin(response: Http<CheckData>) returns (effects: seq<Effect>)
      modifies this
      ensures old(Valid()) ==> Valid()
      ensures !HasToken(old(storedToken)) ==>
                effects == [Navigate("/login")] && unchanged(this)
      ensures HasToken(old(storedToken)) && (old(user).Some? || old(artist).Some?) ==>
                effects == [] && unchanged(this)
      ensures HasToken(old(storedToken)) && old(user).None? && old(artist).None? ==>
                && |effects| >= 1
                && effects[0] == Request(RouteValidators.GET, "/artist/loggedIn", old(storedToken))
                && match response
                   case Rejected =>
                     && effects[1..] == [Navigate("/login")]
                     && storedToken.None? && user.None? && artist.None?
                   case Resolved(status, data) =>
                     && effects[1..] == []
                     && storedToken == old(storedToken)
                     && Valid()
                     && (status == 200 && data.role == "user" ==> user == data.user && artist.None?)
                     && (status == 200 && data.role == "artist" ==> artist == data.artist && user.None?)
                     && (status != 200 || data.role !in {"user", "artist"} ==> user.None? && artist.None?)
    {
      if !HasToken(storedToken) {
        return [Navigate("/login")];
      }
      if user.Some? || artist.Some? {
        return [];
      }
      effects := [Request(RouteValidators.GET, "/artist/loggedIn", storedToken)];
      match response {
        case Resolved(status, data) =>
          if status == 200 {
            if data.role == "user" {
              user := data.user;
              artist := None;
            } else if data.role == "artist" {
              artist := data.artist;
              user := None;
            }
          }
        case Rejected =>
          storedToken := None;
          effects := effects + [Navigate("/login")];
      }
    }
  }
}
