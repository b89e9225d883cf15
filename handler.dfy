/**
 * The HTTP handlers of the service: each turns the store's answers into a
 * status code and a body, and some of them insert into the store or write
 * the session. Request binding is an input (`None` when the body could not
 * be bound); store, password-hashing and session failures are inputs too.
 */
module Handler {
  import opened Wrappers
  import opened Ordering
  import opened Store

  datatype LoginRequestBody = LoginRequestBody(username: string, password: string)

  datatype Me = Me(username: string)

  /** What a handler writes after the status line. */
  datatype Body =
    | NoContent                       // c.NoContent
    | Text(text: string)              // c.String, plain text
    | Message(message: string)        // echo.NewHTTPError, JSON {"message": ...}
    | CityJson(city: City)
    | CityInputJson(input: CityInput)
    | NamesJson(names: seq<string>)
    | MeJson(me: Me)

  datatype Response = Response(status: int, body: Body)

  const NotFound := Response(404, NoContent)
  const InternalError := Response(500, NoContent)
  const BadRequestBody := "bad request body"
  const EmptyCredentials := "Username or Password is empty"
  const UsernameTaken := "Username is already used"
  const SessionTrouble := "something wrong in getting session"
  const PleaseLogin := "please login"
  const AllCountries := "allCountries"
  const AllCities := "allCities"

  /** What comparing a stored hash with a password can report. */
  datatype VerifyOutcome = Match | Mismatch | Malformed

  /**
   * The salted password hash, seen only through its interface: `hash` gives
   * the stored form of a password under a salt, or `None` when hashing fails;
   * `verify` compares a stored form with a password.
   */
  datatype Credentials = Credentials(
    hash: (string, nat) -> Option<string>,
    verify: (string, string) -> VerifyOutcome)
  {
    /** A password always verifies against its own hash. */
    ghost predicate Sound()
    {
      forall password, salt ::
        hash(password, salt).Some? ==> verify(hash(password, salt).value, password) == Match
    }
  }

  /** Neither field of a signup or login request is empty. */
  predicate Filled(req: LoginRequestBody)
  {
    req.password != "" && req.username != ""
  }

  /** The per-client session; `userName` is its only entry of interest. */
  class Session {
    var userName: Option<string>

    constructor ()
      ensures userName == None
    {
      userName := None;
    }
  }

  /**
   * The authentication gate in front of protected routes: `next` is the
   * protected handler, called with the session's user name.
   */
  function UserAuthMiddleware(session: Session, sessionFault: bool, next: string -> Response): (r: Response)
    reads session
    ensures sessionFault ==> r == Response(500, Text(SessionTrouble))
    ensures !sessionFault && session.userName.None? ==> r == Response(401, Text(PleaseLogin))
    ensures !sessionFault && session.userName.Some? ==> r == next(session.userName.value)
  {
    if sessionFault then Response(500, Text(SessionTrouble))
    else match session.userName
      case None => Response(401, Text(PleaseLogin))
      case Some(name) => next(name)
  }

  /** `GET /me`, given the user name the middleware put into the request. */
  function GetMe(userName: string): Response
  {
    Response(200, MeJson(Me(userName)))
  }

  /**
   * Behind the middleware, `GET /me` succeeds exactly for a session holding
   * a user name, and answers with that name; otherwise it is refused.
   */
  lemma MeAnswersSessionUser(session: Session)
    ensures var r := UserAuthMiddleware(session, false, GetMe);
      && (r.status == 200 <==> session.userName.Some?)
      && (session.userName.Some? ==> r.body == MeJson(Me(session.userName.value)))
      && (session.userName.None? ==> r == Response(401, Text(PleaseLogin)))
  {
  }

  class Handler {
    const db: Database

    constructor (db: Database)
      ensures this.db == db
    {
      this.db := db;
    }

    /** `GET /cities/{cityName}` */
    function GetCityInfo(cityName: string, failing: set<StoreCall>): (r: Response)
      reads db
      ensures r.status == 200 <==>
        SelectCityByName(cityName) !in failing && exists c :: c in db.cities && c.name == Some(cityName)
      ensures r.status == 200 ==>
        r.body.CityJson? && r.body.city in db.cities && r.body.city.name == Some(cityName)
      ensures r.status == 404 <==>
        SelectCityByName(cityName) !in failing && forall c :: c in db.cities ==> c.name != Some(cityName)
      ensures r.status == 500 <==> SelectCityByName(cityName) in failing
      ensures r.status != 200 ==> r.body == NoContent
    {
      match db.CityNamed(cityName, failing)
      case NoRows => NotFound
      case Failed => InternalError
      case Found(city) => Response(200, CityJson(city))
    }

    /** `POST /cities` */
    method PostCity(body: Option<CityInput>, failing: set<StoreCall>) returns (r: Response)
      requires db.Valid()
      modifies db
      ensures db.Valid()
      ensures db.users == old(db.users) && db.countries == old(db.countries)
      ensures body.None? ==> r == Response(400, Message(BadRequestBody))
      ensures body.None? || InsertCityRow in failing ==>
        db.cities == old(db.cities) && db.nextId == old(db.nextId)
      ensures body.Some? && InsertCityRow in failing ==> r == InternalError
      ensures body.Some? && InsertCityRow !in failing ==>
        && db.cities == old(db.cities) + [NewRow(body.value, old(db.nextId))]
        && db.nextId == old(db.nextId) + 1
        && r == if ReadLastInsertId in failing then InternalError
                else Response(201, CityInputJson(body.value.(id := old(db.nextId))))
    {
      if body.None? {
        return Response(400, Message(BadRequestBody));
      }
      var city := body.value;
      var inserted := db.InsertCity(city, failing);
      if !inserted {
        return InternalError;
      }
      var id := db.LastInsertId(failing);
      if !id.Found? {
        return InternalError;
      }
      city := city.(id := id.value);
      return Response(201, CityInputJson(city));
    }

    /** `POST /signup` */
    method SignUp(body: Option<LoginRequestBody>, bcrypt: Credentials, salt: nat, failing: set<StoreCall>)
      returns (r: Response)
      requires bcrypt.Sound()
      modifies db
      ensures db.cities == old(db.cities) && db.nextId == old(db.nextId) && db.countries == old(db.countries)
      ensures body.None? ==> r == Response(400, Message(BadRequestBody))
      ensures body.Some? && !Filled(body.value) ==> r == Response(400, Text(EmptyCredentials))
      ensures body.Some? && Filled(body.value) ==>
        var name := body.value.username;
        var hashed := bcrypt.hash(body.value.password, salt);
        && (CountUsersNamed(name) in failing ==> r == InternalError)
        && (CountUsersNamed(name) !in failing && name in old(db.users) ==>
              r == Response(409, Text(UsernameTaken)))
        && (CountUsersNamed(name) !in failing && name !in old(db.users) ==>
              r == if hashed.None? || InsertUserRow(name) in failing then InternalError
                   else Response(201, NoContent))
      ensures r.status == 201 ==>
        && body.Some?
        && body.value.username !in old(db.users)
        && bcrypt.hash(body.value.password, salt).Some?
        && db.users == old(db.users)[body.value.username := bcrypt.hash(body.value.password, salt).value]
        && bcrypt.verify(db.users[body.value.username], body.value.password) == Match
      ensures r.status != 201 ==> db.users == old(db.users)
    {
      if body.None? {
        return Response(400, Message(BadRequestBody));
      }
      var req := body.value;
      if req.password == "" || req.username == "" {
        return Response(400, Text(EmptyCredentials));
      }
      var count := db.UserCount(req.username, failing);
      if !count.Found? {
        return InternalError;
      }
      if count.value > 0 {
        return Response(409, Text(UsernameTaken));
      }
      var hashedPass := bcrypt.hash(req.password, salt);
      if hashedPass.None? {
        return InternalError;
      }
      var inserted := db.InsertUser(req.username, hashedPass.value, failing);
      if !inserted {
        return InternalError;
      }
      return Response(201, NoContent);
    }

    /** `POST /login` */
    method Login(
      session: Session, body: Option<LoginRequestBody>, bcrypt: Credentials,
      sessionFault: bool, failing: set<StoreCall>)
      returns (r: Response)
      modifies session
      ensures body.None? ==> r == Response(400, Text(BadRequestBody))
      ensures body.Some? && !Filled(body.value) ==> r == Response(400, Text(EmptyCredentials))
      ensures body.Some? && Filled(body.value) ==>
        var name := body.value.username;
        && (SelectUser(name) in failing ==> r == InternalError)
        && (SelectUser(name) !in failing && name !in db.users ==> r == Response(401, NoContent))
        && (SelectUser(name) !in failing && name in db.users ==>
              match bcrypt.verify(db.users[name], body.value.password)
              case Mismatch => r == Response(401, NoContent)
              case Malformed => r == InternalError
              case Match =>
                r == if sessionFault then Response(500, Text(SessionTrouble)) else Response(200, NoContent))
      ensures r.status == 200 ==> body.Some? && session.userName == Some(body.value.username)
      ensures r.status != 200 ==> session.userName == old(session.userName)
    {
      if body.None? {
        return Response(400, Text(BadRequestBody));
      }
      var req := body.value;
      if req.password == "" || req.username == "" {
        return Response(400, Text(EmptyCredentials));
      }
      var user := db.UserNamed(req.username, failing);
      if user.NoRows? {
        return Response(401, NoContent);
      } else if user.Failed? {
        return InternalError;
      }
      var compared := bcrypt.verify(user.value.hashedPass, req.password);
      if compared == Mismatch {
        return Response(401, NoContent);
      } else if compared == Malformed {
        return InternalError;
      }
      if sessionFault {
        return Response(500, Text(SessionTrouble));
      }
      session.userName := Some(req.username);
      return Response(200, NoContent);
    }

    /**
     * `r` answers `GET /world/allCountries/...`: every country name in
     * ascending order, unless a store call fails.
     */
    ghost predicate ListsAllCountries(failing: set<StoreCall>, r: Response)
      reads db
    {
      && (r.status == 200 <==>
            CountCountries !in failing &&
            forall i :: 0 <= i < |db.countries| ==> SelectCountryName(i) !in failing)
      && (r.status == 200 ==> r.body == NamesJson(SortedNames(CountryNames(db.countries))))
      && (r.status != 200 ==> r == InternalError)
    }

    /**
     * `r` answers `GET /world/{country}/allCities` for a country whose code is
     * `code`: the names of its cities in ascending order, unless a store call
     * fails or one of those cities has a NULL name.
     */
    ghost predicate ListsCitiesOf(code: string, failing: set<StoreCall>, r: Response)
      reads db
    {
      var rows := CitiesIn(db.cities, code);
      && (r.status == 200 <==>
            && CountCitiesIn(code) !in failing
            && |NamedRows(rows)| == |rows|
            && forall i :: 0 <= i < |rows| ==> SelectCityName(code, i) !in failing)
      && (r.status == 200 ==> r.body == NamesJson(SortedNames(NamedRows(rows))))
      && (r.status != 200 ==> r == InternalError)
    }

    /**
     * `r` answers `GET /world/{country}/{cityName}` for a country whose code
     * is `code`: a city with both that code and that name, or 404 if there is
     * none.
     */
    ghost predicate ShowsCityOf(code: string, cityName: string, failing: set<StoreCall>, r: Response)
      reads db
    {
      && (r.status == 200 <==>
            SelectCity(code, cityName) !in failing &&
            exists c :: c in db.cities && c.countryCode == Some(code) && c.name == Some(cityName))
      && (r.status == 200 ==>
            r.body.CityJson? && r.body.city in db.cities &&
            r.body.city.countryCode == Some(code) && r.body.city.name == Some(cityName))
      && (r.status == 404 <==>
            SelectCity(code, cityName) !in failing &&
            forall c :: c in db.cities ==> !(c.countryCode == Some(code) && c.name == Some(cityName)))
      && (r.status == 500 <==> SelectCity(code, cityName) in failing)
      && (r.status != 200 ==> r.body == NoContent)
    }

    /** `GET /world/{countryName}/{cityName}` */
    method GetWorld(countryName: string, cityName: string, failing: set<StoreCall>) returns (r: Response)
      ensures countryName == AllCountries ==> ListsAllCountries(failing, r)
      ensures countryName != AllCountries ==>
        var code := db.CountryCodeOf(countryName, failing);
        && (code.Failed? ==> r == InternalError)
        && (code.NoRows? ==> r == NotFound)
        && (code.Found? && cityName == AllCities ==> ListsCitiesOf(code.value, failing, r))
        && (code.Found? && cityName != AllCities ==> ShowsCityOf(code.value, cityName, failing, r))
    {
      if countryName == AllCountries {
        r := ListCountries(failing);
      } else if cityName == AllCities {
        var code := db.CountryCodeOf(countryName, failing);
        if code.NoRows? {
          return NotFound;
        } else if code.Failed? {
          return InternalError;
        }
        r := ListCities(code.value, failing);
      } else {
        var code := db.CountryCodeOf(countryName, failing);
        if code.NoRows? {
          return NotFound;
        } else if code.Failed? {
          return InternalError;
        }
        var cityInfo := db.CityIn(code.value, cityName, failing);
        if cityInfo.NoRows? {
          return NotFound;
        } else if cityInfo.Failed? {
          return InternalError;
        }
        return Response(200, CityJson(cityInfo.value));
      }
    }

    /** The `allCountries` branch of `GetWorld`: one query per offset. */
    method ListCountries(failing: set<StoreCall>) returns (r: Response)
      ensures ListsAllCountries(failing, r)
    {
      var total := db.CountryTotal(failing);
      if total.NoRows? {
        // count(*) always yields one row
        r := NotFound;
        assert false;
        return;
      } else if total.Failed? {
        return InternalError;
      }
      var countries: seq<string> := [];
      var i := 0;
      while i < total.value
        invariant 0 <= i <= total.value == |db.countries|
        invariant forall j :: 0 <= j < i ==> SelectCountryName(j) !in failing
        invariant countries == SortedNames(CountryNames(db.countries))[..i]
      {
        var country := db.CountryNameAt(i, failing);
        match country
        case NoRows =>
          // every offset below the count holds a row
          r := NotFound;
          assert false;
          return;
        case Failed =>
          return InternalError;
        case Found(name) =>
          countries := countries + [name];
        i := i + 1;
      }
      return Response(200, NamesJson(countries));
    }

    /** The `allCities` branch of `GetWorld` once the country code is known. */
    method ListCities(code: string, failing: set<StoreCall>) returns (r: Response)
      ensures ListsCitiesOf(code, failing, r)
    {
      var total := db.CityTotalIn(code, failing);
      if total.NoRows? {
        // count(*) always yields one row
        r := NotFound;
        assert false;
        return;
      } else if total.Failed? {
        return InternalError;
      }
      ghost var rows := CitiesIn(db.cities, code);
      ghost var named := SortedNames(NamedRows(rows));
      ghost var nulls := |rows| - |named|;
      var cities: seq<string> := [];
      var i := 0;
      while i < total.value
        invariant 0 <= i <= total.value == |rows|
        invariant forall j :: 0 <= j < i ==> SelectCityName(code, j) !in failing
        invariant i == 0 || nulls == 0
        invariant cities == named[..i]
      {
        var city := db.CityNameAt(code, i, failing);
        match city
        case NoRows =>
          // every offset below the count holds a row
          r := NotFound;
          assert false;
          return;
        case Failed =>
          return InternalError;
        case Found(name) =>
          cities := cities + [name];
        i := i + 1;
      }
      return Response(200, NamesJson(cities));
    }
  }
}
