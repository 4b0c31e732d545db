/** The account API wrappers: what each returns or raises for each way its
    request can settle, and the query `getUsers` sends. */
module AccountClient {
  import opened Values
  import opened Transport

  const LoginFailed := "Login failed"
  const NetworkError := "Network error occurred"

  /** Users are listed twenty per page. */
  const PageSize := 20

  datatype Endpoint =
    | Signin
    | Signout
    | CheckSession
    | Profile
    | UpdateProfile
    | UploadProfileImage
    | GetUsers
    | UpdateProfilePicture

  /** The wrappers that log and rethrow whatever they caught. */
  predicate Rethrows(e: Endpoint) {
    !e.Signin? && !e.CheckSession?
  }

  function PolicyOf(e: Endpoint): Policy<Json> {
    match e
    case Signin => Translate(LoginFailed, NetworkError, false)
    case CheckSession => Substitute(JNull)
    case _ => Propagate
  }

  /** What the caller of wrapper `e` observes when its request settles with
      `o`. */
  function Call(e: Endpoint, o: Outcome<Json>): (r: Completion<Json>)
    ensures o.Ok? ==> r == Returned(o.data)
    // signin: the server's detail, else a generic login message; anything
    // without a response, setup failures included, is a network error
    ensures e.Signin? && o.Failed? && o.failure.HttpError? ==>
              r == Raised(if Truthy(o.failure.detail) then o.failure.detail.value else LoginFailed)
    ensures e.Signin? && o.Failed? && !o.failure.HttpError? ==> r == Raised(NetworkError)
    // checkSession never throws: any failure reads as "no session"
    ensures e.CheckSession? ==> r.Returned? && (o.Failed? ==> r.value == JNull)
    ensures Rethrows(e) && o.Failed? ==> r == Propagated(o.failure)
  {
    Handle(PolicyOf(e), o)
  }

  /** checkSession is the only account wrapper whose caller never sees an
      error. */
  lemma NeverThrowsIffCheckSession(e: Endpoint)
    ensures (forall f: Failure :: Call(e, Failed(f)).Returned?) <==> e.CheckSession?
  {
    if !e.CheckSession? {
      assert !Call(e, Failed(NoResponse)).Returned?;
    }
  }

  /** checkSession's caller cannot tell a failed check from a server that
      answered `null`. */
  lemma CheckSessionHidesFailure(f: Failure)
    ensures Call(CheckSession, Failed(f)) == Call(CheckSession, Ok(JNull))
  {
  }

  /** Every error signin raises carries a non-empty message. */
  lemma SigninMessageNonEmpty(o: Outcome<Json>)
    ensures Call(Signin, o).Raised? ==> Call(Signin, o).message != ""
  {
  }

  /** A rejected login shows the server's words; an unreachable server shows
      the network message. */
  lemma SigninScenarios()
    ensures Call(Signin, Failed(HttpError(Some("Invalid credentials")))) == Raised("Invalid credentials")
    ensures Call(Signin, Failed(HttpError(Some("")))) == Raised(LoginFailed)
    ensures Call(Signin, Failed(NoResponse)) == Raised(NetworkError)
  {
  }

  /** The page `getUsers` asks for: 1 when the argument is omitted. The
      source applies no bound check. */
  function PageOrDefault(page: Option<int>): int {
    if page.Some? then page.value else 1
  }

  /** The query parameters of `getUsers(page, search)`, in the order they
      are appended. A page at or below zero asks for a negative skip. */
  function UsersQuery(page: Option<int>, search: Option<string>): (q: seq<(string, string)>)
    ensures |q| == if Truthy(search) then 3 else 2
    ensures q[0].0 == "skip" && ParseDecimal(q[0].1) == Some((PageOrDefault(page) - 1) * PageSize)
    ensures q[1] == ("limit", "20")
    ensures Truthy(search) ==> q[2] == ("search", search.value)
    ensures PageOrDefault(page) <= 0 ==> ParseDecimal(q[0].1).Some? && ParseDecimal(q[0].1).value < 0
  {
    var skip := (PageOrDefault(page) - 1) * PageSize;
    DecimalRoundTrip(skip);
    var params := [("skip", Decimal(skip)), ("limit", "20")];
    if Truthy(search) then params + [("search", search.value)] else params
  }

  /** The query determines the page and the search term it was built
      from. */
  lemma UsersQueryDeterminesRequest(p1: Option<int>, s1: Option<string>, p2: Option<int>, s2: Option<string>)
    requires UsersQuery(p1, s1) == UsersQuery(p2, s2)
    ensures PageOrDefault(p1) == PageOrDefault(p2)
    ensures Truthy(s1) <==> Truthy(s2)
    ensures Truthy(s1) ==> s1.value == s2.value
  {
  }

  /** Concrete pages: the default asks from 0, page 3 from 40, page 0 from
      -20. */
  lemma UsersQueryPages()
    ensures ParseDecimal(UsersQuery(None, None)[0].1) == Some(0)
    ensures ParseDecimal(UsersQuery(Some(3), None)[0].1) == Some(40)
    ensures ParseDecimal(UsersQuery(Some(0), Some(""))[0].1) == Some(-20)
    ensures |UsersQuery(Some(0), Some(""))| == 2
  {
  }
}
