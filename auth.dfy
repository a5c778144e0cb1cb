/** `DiscordAuthentication`: authenticating a request by its Discord
    bearer token (finding or creating the talent), and turning token
    exchange results into `Bearer` header values. The calls to Discord are
    inputs: `getUser` stands for `get_user(token)`, and the credentials (or
    the exception message) of `exchange_code` and `refresh_credentials` are
    given directly. */
module Auth {
  import opened Common
  import opened Strings
  import opened TalentModels
  import opened OAuthUtils
  import opened Store
  import opened Managers

  /** The result of `authenticate`: the talent (with no token), None when
      Discord returned no user, AuthenticationFailed with its message, or
      the exception `create_talent` raised, which is not caught. */
  datatype AuthOutcome =
    | Authenticated(talent: Talent)
    | NoUser
    | AuthenticationFailed(message: string)
    | CreateFailed(error: CreateError)

  const MissingHeader := "Authorization header is missing"
  const GetUserFailed := "Error getting user: "

  /** `authenticate(request)`: no Authorization header fails; a failing
      user lookup fails with its message; no user yields None; a known
      user id yields that talent with nothing created; an unknown id goes
      through `create_talent`, which inserts exactly one talent or raises
      with nothing changed. */
  method Authenticate(db: Db, header: Option<string>, getUser: string -> Result<Option<ProviderUser>, string>,
                      localeData: map<string, string>)
    returns (r: AuthOutcome)
    requires db.Valid()
    modifies db
    ensures db.Valid()
    ensures header.None? ==> r == AuthenticationFailed(MissingHeader) && unchanged(db)
    ensures header.Some? && getUser(header.value).Err? ==>
              r == AuthenticationFailed(GetUserFailed + getUser(header.value).error) && unchanged(db)
    ensures header.Some? && getUser(header.value) == Ok(None) ==> r == NoUser && unchanged(db)
    ensures header.Some? && getUser(header.value).Ok? && getUser(header.value).value.Some?
            && getUser(header.value).value.value.id in old(db.talents) ==>
              r == Authenticated(old(db.talents)[getUser(header.value).value.value.id]) && unchanged(db)
    ensures header.Some? && getUser(header.value).Ok? && getUser(header.value).value.Some?
            && getUser(header.value).value.value.id !in old(db.talents) ==>
              var user := getUser(header.value).value.value;
              match TalentFromUser(user, localeData)
              case Err(e) => r == CreateFailed(HelperError(e)) && unchanged(db)
              case Ok(t) =>
                && r == Authenticated(t)
                && db.talents == old(db.talents)[user.id := t]
                && db.visits == old(db.visits) && db.skillRows == old(db.skillRows)
                && db.jobs == old(db.jobs) && db.nextJobId == old(db.nextJobId)
                && db.jobTypeRows == old(db.jobTypeRows)
                && db.experiences == old(db.experiences) && db.reviews == old(db.reviews)
  {
    if header.None? {
      return AuthenticationFailed(MissingHeader);
    }
    match getUser(header.value)
    case Err(message) =>
      return AuthenticationFailed(GetUserFailed + message);
    case Ok(None) =>
      return NoUser;
    case Ok(Some(user)) =>
      if user.id in db.talents {
        return Authenticated(db.talents[user.id]);
      }
      var created := CreateTalent(db, user, localeData);
      match created
      case Ok(t) => r := Authenticated(t);
      case Err(e) => r := CreateFailed(e);
  }

  /** The token part of a `Bearer` header value. */
  function BearerToken(header: string): Option<string>
  {
    if "Bearer " <= header then Some(header[7..]) else None
  }

  /** `f"Bearer {token}"`. */
  function Bearer(token: Option<Json>): (h: string)
    ensures BearerToken(h) == Some(Render(token))
  {
    var h := "Bearer " + Render(token);
    assert h[7..] == Render(token);
    h
  }

  /** `get_access_token(code)` once `exchange_code` has answered: the
      access and refresh tokens as `Bearer` values and `expires_in` as
      given; an exchange error becomes AuthenticationFailed with the same
      message. */
  function GetAccessToken(exchanged: Result<Credentials, string>): (r: Result<(string, string, Option<Json>), string>)
    ensures exchanged.Err? ==> r == Err(exchanged.error)
    ensures exchanged.Ok? ==>
              && r.Ok?
              && BearerToken(r.value.0) == Some(Render(AccessToken(exchanged.value)))
              && BearerToken(r.value.1) == Some(Render(RefreshToken(exchanged.value)))
              && r.value.2 == Lookup(exchanged.value, "expires_in")
  {
    match exchanged
    case Err(message) => Err(message)
    case Ok(credentials) =>
      Ok((Bearer(AccessToken(credentials)), Bearer(RefreshToken(credentials)), Lookup(credentials, "expires_in")))
  }

  /** `refresh_token(token)` once `refresh_credentials` has answered: the
      new access token as a `Bearer` value and `expires_in`; an error
      becomes AuthenticationFailed with the same message. */
  function RefreshAccessToken(refreshed: Result<Credentials, string>): (r: Result<(string, Option<Json>), string>)
    ensures refreshed.Err? ==> r == Err(refreshed.error)
    ensures refreshed.Ok? ==>
              && r.Ok?
              && BearerToken(r.value.0) == Some(Render(AccessToken(refreshed.value)))
              && r.value.1 == Lookup(refreshed.value, "expires_in")
  {
    match refreshed
    case Err(message) => Err(message)
    case Ok(credentials) => Ok((Bearer(AccessToken(credentials)), Lookup(credentials, "expires_in")))
  }
}
