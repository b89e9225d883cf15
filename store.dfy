/**
 * The relational store behind the handlers, as an in-memory abstraction:
 * the `users`, `city` and `country` tables, the identity counter of `city`,
 * and one function or method per SQL statement the handlers issue. Whether a
 * statement fails is an input: `failing` is the set of store calls that
 * report an error (other than "no rows") during the request.
 */
module Store {
  import opened Wrappers
  import opened Ordering

  /** A row of `city` as the handlers scan it: every column but ID may be NULL. */
  datatype City = City(
    id: int,
    name: Option<string>,
    countryCode: Option<string>,
    district: Option<string>,
    population: Option<int>)

  /** The body of a city creation request; its fields are plain values. */
  datatype CityInput = CityInput(
    id: int,
    name: string,
    countryCode: string,
    district: string,
    population: int)

  datatype User = User(username: string, hashedPass: string)

  datatype Country = Country(code: string, name: string)

  /** The calls the handlers make into the store, one per statement. */
  datatype StoreCall =
    | SelectCityByName(cityName: string)
    | InsertCityRow
    | ReadLastInsertId
    | CountUsersNamed(username: string)
    | InsertUserRow(username: string)
    | SelectUser(username: string)
    | CountCountries
    | SelectCountryName(offset: nat)
    | SelectCountryCode(countryName: string)
    | CountCitiesIn(code: string)
    | SelectCityName(code: string, offset: nat)
    | SelectCity(code: string, cityName: string)

  /**
   * The outcome of a single-row read: the row, the distinguished "no rows"
   * outcome, or any other store error.
   */
  datatype Lookup<T> = Found(value: T) | NoRows | Failed

  /** What the store answers to `call` when the matching row is `row`. */
  function Answer<T>(call: StoreCall, failing: set<StoreCall>, row: Option<T>): (r: Lookup<T>)
    ensures r.Failed? <==> call in failing
    ensures r.NoRows? <==> call !in failing && row.None?
    ensures r.Found? ==> row == Some(r.value)
  {
    if call in failing then Failed
    else match row
      case None => NoRows
      case Some(v) => Found(v)
  }

  /**
   * The first element of `s` that satisfies `p`: the row a single-row read
   * returns when several rows match (rows are scanned in table order).
   */
  function FirstWhere<T>(s: seq<T>, p: T -> bool): (r: Option<T>)
    ensures r.None? <==> forall i :: 0 <= i < |s| ==> !p(s[i])
    ensures r.Some? ==>
      exists k :: 0 <= k < |s| && s[k] == r.value && p(s[k]) &&
        forall j :: 0 <= j < k ==> !p(s[j])
  {
    if s == [] then None
    else if p(s[0]) then Some(s[0])
    else
      var r := FirstWhere(s[1..], p);
      assert r.Some? ==>
        exists k :: 1 <= k < |s| && s[k] == r.value && p(s[k]) &&
          forall j :: 0 <= j < k ==> !p(s[j]) by {
        if r.Some? {
          var k :| 0 <= k < |s[1..]| && s[1..][k] == r.value && p(s[1..][k]) &&
            forall j :: 0 <= j < k ==> !p(s[1..][j]);
          assert s[k + 1] == r.value;
          assert forall j :: 0 <= j < k + 1 ==> !p(s[j]) by {
            forall j | 0 <= j < k + 1 ensures !p(s[j]) {
              if j > 0 {
                assert s[j] == s[1..][j - 1];
              }
            }
          }
        }
      }
      r
  }

  /** The elements of `s` that satisfy `p`, in order: a WHERE clause. */
  function Where<T(!new)>(s: seq<T>, p: T -> bool): (r: seq<T>)
    ensures |r| <= |s|
    ensures forall x :: x in r <==> x in s && p(x)
  {
    if s == [] then []
    else
      assert s == [s[0]] + s[1..];
      if p(s[0]) then [s[0]] + Where(s[1..], p) else Where(s[1..], p)
  }

  /** The rows of `city` whose CountryCode is `code` (NULL never matches). */
  function CitiesIn(cities: seq<City>, code: string): seq<City>
  {
    Where(cities, (c: City) => c.countryCode == Some(code))
  }

  /** The non-NULL names among `rows`, in order. */
  function NamedRows(rows: seq<City>): (r: seq<string>)
    ensures |r| <= |rows|
    ensures |r| == |rows| <==> forall i :: 0 <= i < |rows| ==> rows[i].name.Some?
  {
    if rows == [] then []
    else
      var rest := NamedRows(rows[1..]);
      assert rows == [rows[0]] + rows[1..];
      assert (forall i :: 0 <= i < |rows| ==> rows[i].name.Some?) <==>
        rows[0].name.Some? && forall i :: 0 <= i < |rows[1..]| ==> rows[1..][i].name.Some?;
      match rows[0].name
      case Some(n) => [n] + rest
      case None => rest
  }

  /** A name is among the non-NULL names of `rows` exactly when some row carries it. */
  lemma {:induction false} NamedRowsMembers(rows: seq<City>, n: string)
    ensures n in NamedRows(rows) <==> exists c :: c in rows && c.name == Some(n)
  {
    if rows != [] {
      NamedRowsMembers(rows[1..], n);
      assert rows == [rows[0]] + rows[1..];
      assert forall c :: c in rows <==> c == rows[0] || c in rows[1..];
    }
  }

  /** The Name column of `country`, in table order. */
  function CountryNames(countries: seq<Country>): (r: seq<string>)
    ensures |r| == |countries|
    ensures forall i :: 0 <= i < |r| ==> r[i] == countries[i].name
  {
    seq(|countries|, i requires 0 <= i < |countries| => countries[i].name)
  }

  /** The row an INSERT of `input` writes: the four columns set, the identity `id`. */
  function NewRow(input: CityInput, id: int): City
  {
    City(id, Some(input.name), Some(input.countryCode), Some(input.district), Some(input.population))
  }

  class Database {
    /** `users`: Username to HashedPass. */
    var users: map<string, string>
    /** `city`, in ascending ID order. */
    var cities: seq<City>
    /** The identity the next inserted `city` row receives. */
    var nextId: int
    /** `country`. */
    var countries: seq<Country>

    /** Identities are positive, below the counter and ascend in table order. */
    ghost predicate Valid()
      reads this
    {
      && 1 <= nextId
      && (forall i :: 0 <= i < |cities| ==> 1 <= cities[i].id < nextId)
      && (forall i, j :: 0 <= i < j < |cities| ==> cities[i].id < cities[j].id)
    }

    constructor (users: map<string, string>, cities: seq<City>, nextId: int, countries: seq<Country>)
      requires 1 <= nextId
      requires forall i :: 0 <= i < |cities| ==> 1 <= cities[i].id < nextId
      requires forall i, j :: 0 <= i < j < |cities| ==> cities[i].id < cities[j].id
      ensures Valid()
      ensures this.users == users && this.cities == cities
      ensures this.nextId == nextId && this.countries == countries
    {
      this.users := users;
      this.cities := cities;
      this.nextId := nextId;
      this.countries := countries;
    }

    /** `SELECT * FROM city WHERE Name=?` */
    function CityNamed(name: string, failing: set<StoreCall>): (r: Lookup<City>)
      reads this
      ensures r.Failed? <==> SelectCityByName(name) in failing
      ensures r.NoRows? <==>
        SelectCityByName(name) !in failing && forall c :: c in cities ==> c.name != Some(name)
      ensures r.Found? ==> r.value in cities && r.value.name == Some(name)
    {
      Answer(SelectCityByName(name), failing, FirstWhere(cities, (c: City) => c.name == Some(name)))
    }

    /** `INSERT INTO city (Name, CountryCode, District, Population) VALUES (...)` */
    method InsertCity(input: CityInput, failing: set<StoreCall>) returns (ok: bool)
      requires Valid()
      modifies this
      ensures Valid()
      ensures ok <==> InsertCityRow !in failing
      ensures ok ==> cities == old(cities) + [NewRow(input, old(nextId))] && nextId == old(nextId) + 1
      ensures !ok ==> cities == old(cities) && nextId == old(nextId)
      ensures users == old(users) && countries == old(countries)
    {
      ok := InsertCityRow !in failing;
      if ok {
        cities := cities + [NewRow(input, nextId)];
        nextId := nextId + 1;
      }
    }

    /** `result.LastInsertId()`: the identity the latest insert received. */
    function LastInsertId(failing: set<StoreCall>): (r: Lookup<int>)
      reads this
      ensures r.Failed? <==> ReadLastInsertId in failing
      ensures r.Found? ==> r.value == nextId - 1
      ensures !r.NoRows?
    {
      Answer(ReadLastInsertId, failing, Some(nextId - 1))
    }

    /** `SELECT COUNT(*) FROM users WHERE Username=?` */
    function UserCount(name: string, failing: set<StoreCall>): (r: Lookup<nat>)
      reads this
      ensures r.Failed? <==> CountUsersNamed(name) in failing
      ensures r.Found? ==> (r.value > 0 <==> name in users)
      ensures !r.NoRows?
    {
      Answer(CountUsersNamed(name), failing, Some(if name in users then 1 else 0))
    }

    /** `INSERT INTO users (Username, HashedPass) VALUES (?, ?)` */
    method InsertUser(name: string, hashedPass: string, failing: set<StoreCall>) returns (ok: bool)
      modifies this
      ensures ok <==> InsertUserRow(name) !in failing
      ensures users == if ok then old(users)[name := hashedPass] else old(users)
      ensures cities == old(cities) && nextId == old(nextId) && countries == old(countries)
    {
      ok := InsertUserRow(name) !in failing;
      if ok {
        users := users[name := hashedPass];
      }
    }

    /** `SELECT * FROM users WHERE username=?` */
    function UserNamed(name: string, failing: set<StoreCall>): (r: Lookup<User>)
      reads this
      ensures r.Failed? <==> SelectUser(name) in failing
      ensures r.NoRows? <==> SelectUser(name) !in failing && name !in users
      ensures r.Found? ==> name in users && r.value == User(name, users[name])
    {
      Answer(SelectUser(name), failing, if name in users then Some(User(name, users[name])) else None)
    }

    /** `select count(*) from country` */
    function CountryTotal(failing: set<StoreCall>): (r: Lookup<nat>)
      reads this
      ensures r.Failed? <==> CountCountries in failing
      ensures r.Found? ==> r.value == |countries|
      ensures !r.NoRows?
    {
      Answer(CountCountries, failing, Some(|countries|))
    }

    /** `select Name from country order by Name asc limit 1 offset ?` */
    function CountryNameAt(offset: nat, failing: set<StoreCall>): (r: Lookup<string>)
      reads this
      ensures r.Failed? <==> SelectCountryName(offset) in failing
      ensures r.NoRows? <==> SelectCountryName(offset) !in failing && |countries| <= offset
      ensures r.Found? ==> offset < |countries| && r.value == SortedNames(CountryNames(countries))[offset]
    {
      var names := SortedNames(CountryNames(countries));
      Answer(SelectCountryName(offset), failing, if offset < |names| then Some(names[offset]) else None)
    }

    /** `select Code from country where Name = ?` */
    function CountryCodeOf(name: string, failing: set<StoreCall>): (r: Lookup<string>)
      reads this
      ensures r.Failed? <==> SelectCountryCode(name) in failing
      ensures r.NoRows? <==>
        SelectCountryCode(name) !in failing && forall c :: c in countries ==> c.name != name
      ensures r.Found? ==> exists c :: c in countries && c.name == name && c.code == r.value
    {
      var row := FirstWhere(countries, (c: Country) => c.name == name);
      Answer(SelectCountryCode(name), failing, if row.Some? then Some(row.value.code) else None)
    }

    /** `select count(*) from city where CountryCode = ?` */
    function CityTotalIn(code: string, failing: set<StoreCall>): (r: Lookup<nat>)
      reads this
      ensures r.Failed? <==> CountCitiesIn(code) in failing
      ensures r.Found? ==> r.value == |CitiesIn(cities, code)|
      ensures !r.NoRows?
    {
      Answer(CountCitiesIn(code), failing, Some(|CitiesIn(cities, code)|))
    }

    /**
     * `select Name from city where CountryCode = ? order by Name asc limit 1 offset ?`.
     * NULL names sort before every other name, and a NULL cannot be scanned
     * into a string: the first offsets, one per NULL name, fail.
     */
    function CityNameAt(code: string, offset: nat, failing: set<StoreCall>): (r: Lookup<string>)
      reads this
      ensures var rows := CitiesIn(cities, code);
        var nulls := |rows| - |NamedRows(rows)|;
        && (r.Failed? <==> SelectCityName(code, offset) in failing || offset < nulls)
        && (r.NoRows? <==> SelectCityName(code, offset) !in failing && |rows| <= offset)
        && (r.Found? ==>
              nulls <= offset < |rows| && r.value == SortedNames(NamedRows(rows))[offset - nulls])
    {
      var rows := CitiesIn(cities, code);
      var named := SortedNames(NamedRows(rows));
      var nulls := |rows| - |named|;
      if SelectCityName(code, offset) in failing || offset < nulls then Failed
      else if offset < |rows| then Found(named[offset - nulls])
      else NoRows
    }

    /** `select * from city where CountryCode = ? AND Name = ?` */
    function CityIn(code: string, name: string, failing: set<StoreCall>): (r: Lookup<City>)
      reads this
      ensures r.Failed? <==> SelectCity(code, name) in failing
      ensures r.NoRows? <==>
        SelectCity(code, name) !in failing &&
        forall c :: c in cities ==> !(c.countryCode == Some(code) && c.name == Some(name))
      ensures r.Found? ==>
        r.value in cities && r.value.countryCode == Some(code) && r.value.name == Some(name)
    {
      Answer(SelectCity(code, name), failing,
             FirstWhere(cities, (c: City) => c.countryCode == Some(code) && c.name == Some(name)))
    }
  }
}
