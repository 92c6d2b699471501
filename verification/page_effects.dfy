/**
 * What a page does to the world outside its own state, as values: the
 * requests it sends, what it writes to the shared contexts and to
 * `localStorage`, where it navigates and what it alerts. A page handler
 * returns the effects it performs, in order, and receives the outcome of
 * its awaited request as a parameter.
 */
module PageEffects {
  import opened Wrappers
  import RouteValidators

  /** The account object (`data.artist`, `data.user`) a response carries, kept opaque. */
  type Account = string

  datatype Effect =
    | Request(verb: RouteValidators.Verb, path: string, bearer: Option<string>)
    | SetArtist(artist: Account)
    | SetUser(user: Account)
    | StoreToken(token: string)
    | Navigate(to: string)
    | Alert(text: string)

  /** An awaited `axios` call: it resolved with a status and data, or it threw. */
  datatype Http<T> = Resolved(status: int, data: T) | Rejected

  /** The data of a successful sign-up or login: the account and its token. */
  datatype AuthData = AuthData(account: Account, token: string)

  /** The keys the pages use in their form state and error maps. */
  datatype Field =
    | FirstName | LastName | Email | Password | Number | City
    | Title | Description | Image | TypeOfArt | Location | Country | Price
    | ListingId | Api
  {
    /** The property name in the page's JavaScript object. */
    function Name(): string {
      match this
      case FirstName => "firstName"
      case LastName => "lastName"
      case Email => "email"
      case Password => "password"
      case Number => "number"
      case City => "city"
      case Title => "title"
      case Description => "description"
      case Image => "image"
      case TypeOfArt => "typeOfArt"
      case Location => "location"
      case Country => "country"
      case Price => "price"
      case ListingId => "_id"
      case Api => "api"
    }
  }

  /** A form's error map, from field to message. */
  type Errors = map<Field, string>

  /** `localStorage.getItem("token")` is usable when it is neither `null` nor empty. */
  predicate HasToken(stored: Option<string>) {
    stored.Some? && stored.value != ""
  }

  /**
   * `{ ...prev, [name]: value }`: the named field takes the value and every
   * other field keeps its presence and its value.
   */
  function Spread<K, V>(prev: map<K, V>, name: K, value: V): (r: map<K, V>)
    ensures r.Keys == prev.Keys + {name}
    ensures r[name] == value
    ensures forall k | k in prev && k != name :: r[k] == prev[k]
  {
    prev[name := value]
  }

  /** What a sign-up or login page does with the answer to its request. */
  function SessionEffects(response: Http<AuthData>, success: int, asArtist: bool): (r: seq<Effect>)
    ensures r != [] <==> response.Resolved? && response.status == success
    ensures r != [] ==> r[0] == (if asArtist then SetArtist(response.data.account) else SetUser(response.data.account))
    ensures r != [] ==> r[1..] == [StoreToken(response.data.token), Navigate("/home")]
  {
    if response.Resolved? && response.status == success then
      var d := response.data;
      [if asArtist then SetArtist(d.account) else SetUser(d.account), StoreToken(d.token), Navigate("/home")]
    else []
  }

  /** `names.join(sep)`. */
  function Join(names: seq<string>, sep: string): string {
    if names == [] then ""
    else if |names| == 1 then names[0]
    else names[0] + sep + Join(names[1..], sep)
  }
}
