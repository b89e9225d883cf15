/**
 * What the handlers promise across calls: the signup, login and `/me`
 * sequence, creating a city and reading it back, and what the world
 * listings contain.
 */
module Flows {
  import opened Wrappers
  import opened Ordering
  import opened Store
  import opened Handler

  /**
   * Signing up a new user, signing up again under the same name, logging in
   * with the same password and calling `/me` with that session; `/me` on a
   * session that never logged in is refused.
   */
  method SignUpLoginMe(
    h: Handler, session: Session, name: string, password: string, bcrypt: Credentials, salt: nat)
    returns (signUp: Response, again: Response, login: Response, me: Response, anonymous: Response)
    requires name != "" && password != ""
    requires name !in h.db.users
    requires bcrypt.Sound() && bcrypt.hash(password, salt).Some?
    modifies h.db, session
    ensures signUp == Response(201, NoContent)
    ensures again == Response(409, Text(UsernameTaken))
    ensures login == Response(200, NoContent)
    ensures me == Response(200, MeJson(Me(name)))
    ensures anonymous == Response(401, Text(PleaseLogin))
  {
    var request := Some(LoginRequestBody(name, password));
    signUp := h.SignUp(request, bcrypt, salt, {});
    again := h.SignUp(request, bcrypt, salt, {});
    login := h.Login(session, request, bcrypt, false, {});
    me := UserAuthMiddleware(session, false, GetMe);
    var other := new Session();
    anonymous := UserAuthMiddleware(other, false, GetMe);
  }

  /**
   * Creating a city under a name no row carries yet, then reading it back by
   * name, returns the posted fields under a positive identity.
   */
  method PostThenGet(h: Handler, input: CityInput) returns (posted: Response, got: Response)
    requires h.db.Valid()
    requires forall c :: c in h.db.cities ==> c.name != Some(input.name)
    modifies h.db
    ensures posted.status == 201 && posted.body.CityInputJson?
    ensures posted.body.input == input.(id := posted.body.input.id)
    ensures posted.body.input.id >= 1
    ensures got == Response(200, CityJson(NewRow(input, posted.body.input.id)))
  {
    posted := h.PostCity(Some(input), {});
    got := h.GetCityInfo(input.name, {});
  }

  /**
   * A successful `allCountries` listing has one entry per country, in
   * ascending order, and holds exactly the country names.
   */
  lemma AllCountriesListing(h: Handler, failing: set<StoreCall>, r: Response)
    requires h.ListsAllCountries(failing, r) && r.status == 200
    ensures r.body.NamesJson?
    ensures |r.body.names| == |h.db.countries|
    ensures Ascending(r.body.names)
    ensures multiset(r.body.names) == multiset(CountryNames(h.db.countries))
  {
    SortedNamesAscending(CountryNames(h.db.countries));
    SortedNamesPermutation(CountryNames(h.db.countries));
  }

  /**
   * A successful `allCities` listing for a country code holds, in ascending
   * order, one name per city of that country and no other name.
   */
  lemma AllCitiesListing(h: Handler, code: string, failing: set<StoreCall>, r: Response)
    requires h.ListsCitiesOf(code, failing, r) && r.status == 200
    ensures r.body.NamesJson?
    ensures |r.body.names| == |CitiesIn(h.db.cities, code)|
    ensures Ascending(r.body.names)
    ensures multiset(r.body.names) == multiset(NamedRows(CitiesIn(h.db.cities, code)))
    ensures forall n :: n in r.body.names <==>
      exists c :: c in h.db.cities && c.countryCode == Some(code) && c.name == Some(n)
  {
    var rows := CitiesIn(h.db.cities, code);
    SortedNamesAscending(NamedRows(rows));
    SortedNamesPermutation(NamedRows(rows));
    forall n
      ensures n in r.body.names <==>
        exists c :: c in h.db.cities && c.countryCode == Some(code) && c.name == Some(n)
    {
      assert n in r.body.names <==> n in multiset(NamedRows(rows));
      NamedRowsMembers(rows, n);
    }
  }
}
