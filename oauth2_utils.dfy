/** The OAuth2 helpers that build strings: random strings, the PKCE S256
    code challenge (section 4.2 of RFC 7636), the Twitter authorization URL,
    the HTTP Basic client-credentials header (section 2 of RFC 7617), the
    Discord avatar URL, the locale-to-language lookup, and token lookups in
    a provider's JSON credentials. */
module OAuthUtils {
  import opened Common
  import opened Strings
  import opened Encoding

  /** The exceptions these helpers raise, with their messages. */
  datatype UtilError =
    | UnicodeEncodeError
    | ValueError(message: string)
    | AttributeError(message: string)

  // ---------------------------------------------------------------------
  // Random strings

  /** The character at position `i` of `string.ascii_letters +
      string.digits`: a-z, then A-Z, then 0-9. */
  function AlphabetChar(i: nat): (c: char)
    requires i < 62
    ensures IsAlphanumeric(c)
  {
    if i < 26 then (97 + i) as char
    else if i < 52 then (65 + i - 26) as char
    else (48 + i - 52) as char
  }

  predicate IsAlphanumeric(c: char)
  {
    'a' <= c <= 'z' || 'A' <= c <= 'Z' || '0' <= c <= '9'
  }

  /** The position of an alphanumeric character in the alphabet. */
  function AlphabetIndex(c: char): (i: nat)
    requires IsAlphanumeric(c)
    ensures i < 62 && AlphabetChar(i) == c
  {
    if 'a' <= c <= 'z' then c as int - 97
    else if 'A' <= c <= 'Z' then c as int - 65 + 26
    else c as int - 48 + 52
  }

  /** `generate_random_string(length)`: `random.choices` picks `length`
      positions in the 62-character alphabet; `draws` are those picks, as
      they come from the random source (each reduced modulo 62). */
  function RandomString(length: nat, draws: seq<nat>): (r: string)
    requires |draws| >= length
    ensures |r| == length
    ensures forall i :: 0 <= i < |r| ==> IsAlphanumeric(r[i])
    ensures forall i :: 0 <= i < |r| ==> r[i] == AlphabetChar(draws[i] % 62)
  {
    seq(length, i requires 0 <= i < length => AlphabetChar(draws[i] % 62))
  }

  /** Every string of letters and digits is a possible result: the random
      strings are exactly the alphanumeric strings of the requested length. */
  lemma RandomStringCovers(s: string)
    requires forall i :: 0 <= i < |s| ==> IsAlphanumeric(s[i])
    ensures exists draws: seq<nat> :: |draws| == |s| && RandomString(|s|, draws) == s
  {
    var draws := seq(|s|, i requires 0 <= i < |s| => AlphabetIndex(s[i]));
    assert RandomString(|s|, draws) == s;
  }

  // ---------------------------------------------------------------------
  // PKCE code challenge

  /** SHA-256, left uninterpreted: any function giving a 32-byte digest. */
  type Sha256 = f: seq<Byte> -> seq<Byte> | forall m :: |f(m)| == 32
    witness (m: seq<Byte>) => seq(32, _ => 0)

  /** `generate_code_challenge(verifier)`: the URL-safe Base64 of the
      SHA-256 of the verifier's UTF-8 bytes, trailing `=` removed. It has
      43 characters from `A-Z a-z 0-9 - _` and no `=`, and re-padding and
      decoding it gives back the digest. */
  function CodeChallenge(verifier: string, sha256: Sha256): (r: string)
    ensures |r| == 43
    ensures '=' !in r
    ensures forall i :: 0 <= i < |r| ==> IsBase64Char(true, r[i])
    ensures Decode(true, RePad(r)) == Some(sha256(Utf8Encode(verifier)))
  {
    var digest := sha256(Utf8Encode(verifier));
    StripPadding(true, digest);
    RePadUnpadded(true, digest);
    DecodeEncode(true, digest);
    var r := RStrip(Encode(true, digest), '=');
    forall i | 0 <= i < |r| ensures r[i] != '=' {
      PadIsNotBase64(true, r[i]);
    }
    r
  }

  /** For an ASCII verifier (a PKCE verifier always is) the challenge is
      the S256 transformation of section 4.2 of RFC 7636:
      BASE64URL(SHA256(ASCII(code_verifier))) without padding. */
  lemma CodeChallengeIsS256(verifier: string, sha256: Sha256)
    requires IsAscii(verifier)
    ensures CodeChallenge(verifier, sha256) == EncodeUnpadded(true, sha256(AsciiBytes(verifier)))
  {
    StripPadding(true, sha256(AsciiBytes(verifier)));
  }

  // ---------------------------------------------------------------------
  // Twitter authorization URL

  const TwitterAuthorizeEndpoint := "https://twitter.com/i/oauth2/authorize"
  const TwitterScope := "users.read%20tweet.read%20offline.access"

  /** `generate_twitter_authorization_url()`: a 64-character verifier and
      a 32-character state from the random source, and the URL carrying
      the client id, redirect URI, scope, state and S256 challenge. The
      client id and redirect URI are the environment settings (None when
      unset, which the f-string renders as "None"); they are not
      URL-encoded. Returns the URL and the verifier. */
  function TwitterAuthorizationUrl(clientId: Option<string>, redirectUri: Option<string>,
                                   verifierDraws: seq<nat>, stateDraws: seq<nat>, sha256: Sha256)
    : (r: (string, string))
    requires |verifierDraws| >= 64 && |stateDraws| >= 32
    ensures |r.1| == 64 && forall i :: 0 <= i < 64 ==> IsAlphanumeric(r.1[i])
    ensures TwitterAuthorizeEndpoint + "?" <= r.0
  {
    var verifier := RandomString(64, verifierDraws);
    var state := RandomString(32, stateDraws);
    var challenge := CodeChallenge(verifier, sha256);
    var url := TwitterAuthorizeEndpoint + "?" + JoinParams(KeyValues(AuthorizationPairs(clientId, redirectUri, state, challenge)));
    (url, verifier)
  }

  /** The parameters of the authorization URL, in order. */
  function AuthorizationPairs(clientId: Option<string>, redirectUri: Option<string>, state: string, challenge: string)
    : seq<(string, string)>
  {
    [("response_type", "code"),
     ("client_id", Show(clientId)),
     ("redirect_uri", Show(redirectUri)),
     ("scope", TwitterScope),
     ("state", state),
     ("code_challenge", challenge),
     ("code_challenge_method", "S256")]
  }

  /** Each pair written `key=value`. */
  function KeyValues(pairs: seq<(string, string)>): (r: seq<string>)
    ensures |r| == |pairs|
    ensures forall i :: 0 <= i < |pairs| ==> r[i] == pairs[i].0 + "=" + pairs[i].1
  {
    seq(|pairs|, i requires 0 <= i < |pairs| => pairs[i].0 + "=" + pairs[i].1)
  }

  /** Query parameters joined by `&`. */
  function JoinParams(ps: seq<string>): string
    requires |ps| >= 1
    decreases |ps|
  {
    if |ps| == 1 then ps[0] else ps[0] + "&" + JoinParams(ps[1..])
  }

  lemma {:induction false} SplitJoinParams(ps: seq<string>)
    requires |ps| >= 1
    requires forall i :: 0 <= i < |ps| ==> '&' !in ps[i]
    ensures SplitOn(JoinParams(ps), '&') == ps
    decreases |ps|
  {
    if |ps| == 1 {
      SplitOnNoSep(ps[0], '&');
    } else {
      SplitJoinParams(ps[1..]);
      SplitOnConcat(ps[0], '&', JoinParams(ps[1..]));
      assert ps == [ps[0]] + ps[1..];
    }
  }

  /** Each `key=value` piece as a pair, split at its first `=`; None when a
      piece has no `=`. */
  function ParsePairs(ps: seq<string>): (r: Option<seq<(string, string)>>)
    ensures r.Some? ==> |r.value| == |ps|
    decreases |ps|
  {
    if |ps| == 0 then Some([])
    else
      match (SplitOnce(ps[0], '='), ParsePairs(ps[1..]))
      case (Some(kv), Some(rest)) => Some([kv] + rest)
      case _ => None
  }

  lemma {:induction false} ParseKeyValues(pairs: seq<(string, string)>)
    requires forall i :: 0 <= i < |pairs| ==> '=' !in pairs[i].0
    ensures ParsePairs(KeyValues(pairs)) == Some(pairs)
    decreases |pairs|
  {
    if |pairs| > 0 {
      ParseKeyValues(pairs[1..]);
      var kv := KeyValues(pairs);
      assert kv[1..] == KeyValues(pairs[1..]);
      SplitOnceConcat(pairs[0].0, '=', pairs[0].1);
      assert kv[0] == pairs[0].0 + ['='] + pairs[0].1;
      assert pairs == [pairs[0]] + pairs[1..];
    }
  }

  /** The query parameters of a URL, as a receiving server reads them: the
      text after the first `?`, split at `&`, each piece split at its first
      `=`. */
  function QueryParams(url: string): Option<seq<(string, string)>>
  {
    match SplitOnce(url, '?')
    case None => None
    case Some((_, query)) => ParsePairs(SplitOn(query, '&'))
  }

  /** The Twitter authorization URL reads back as the seven parameters it
      was built from, in order: the state is the 32-character random
      string, the challenge is the S256 challenge of the returned verifier
      and the method is `S256`. This holds as long as neither the client id
      nor the redirect URI contains `&`, since neither is URL-encoded. */
  lemma TwitterAuthorizationUrlParams(clientId: Option<string>, redirectUri: Option<string>,
                                      verifierDraws: seq<nat>, stateDraws: seq<nat>, sha256: Sha256)
    requires |verifierDraws| >= 64 && |stateDraws| >= 32
    requires Lacks(Show(clientId), '&') && Lacks(Show(redirectUri), '&')
    ensures var (url, verifier) := TwitterAuthorizationUrl(clientId, redirectUri, verifierDraws, stateDraws, sha256);
            QueryParams(url) == Some([
              ("response_type", "code"),
              ("client_id", Show(clientId)),
              ("redirect_uri", Show(redirectUri)),
              ("scope", TwitterScope),
              ("state", RandomString(32, stateDraws)),
              ("code_challenge", CodeChallenge(verifier, sha256)),
              ("code_challenge_method", "S256")])
  {
    var (url, verifier) := TwitterAuthorizationUrl(clientId, redirectUri, verifierDraws, stateDraws, sha256);
    var state := RandomString(32, stateDraws);
    var challenge := CodeChallenge(verifier, sha256);
    var pairs := AuthorizationPairs(clientId, redirectUri, state, challenge);
    NoAmpersand(state, challenge);
    PairsSeparable(clientId, redirectUri, state, challenge);
    EndpointLacksQuery();
    QueryParamsOf(TwitterAuthorizeEndpoint, pairs);
  }

  /** No key of the authorization parameters holds `=` or `&`, and no
      value holds `&`, once the four variable values hold no `&`. */
  lemma PairsSeparable(clientId: Option<string>, redirectUri: Option<string>, state: string, challenge: string)
    requires Lacks(Show(clientId), '&') && Lacks(Show(redirectUri), '&')
    requires Lacks(state, '&') && Lacks(challenge, '&')
    ensures var pairs := AuthorizationPairs(clientId, redirectUri, state, challenge);
            forall i :: 0 <= i < |pairs| ==> Lacks(pairs[i].0, '=') && Lacks(pairs[i].0, '&') && Lacks(pairs[i].1, '&')
  {
    KeysLackSeparators();
    ChallengeKeysLackSeparators();
    FixedValuesLackAmpersand();
  }

  /** `s` holds no `c`. */
  predicate Lacks(s: string, c: char)
  {
    forall i :: 0 <= i < |s| ==> s[i] != c
  }

  lemma EndpointLacksQuery()
    ensures Lacks(TwitterAuthorizeEndpoint, '?')
  {
  }

  lemma KeysLackSeparators()
    ensures Lacks("response_type", '=') && Lacks("response_type", '&')
    ensures Lacks("client_id", '=') && Lacks("client_id", '&')
    ensures Lacks("redirect_uri", '=') && Lacks("redirect_uri", '&')
    ensures Lacks("scope", '=') && Lacks("scope", '&')
    ensures Lacks("state", '=') && Lacks("state", '&')
  {
  }

  lemma ChallengeKeysLackSeparators()
    ensures Lacks("code_challenge", '=') && Lacks("code_challenge", '&')
    ensures Lacks("code_challenge_method", '=') && Lacks("code_challenge_method", '&')
  {
  }

  lemma FixedValuesLackAmpersand()
    ensures Lacks("code", '&') && Lacks(TwitterScope, '&') && Lacks("S256", '&')
  {
  }

  /** A URL built as `endpoint?k1=v1&k2=v2...` reads back as its pairs,
      when the endpoint has no `?`, no key has `=` and nothing has `&`. */
  lemma QueryParamsOf(endpoint: string, pairs: seq<(string, string)>)
    requires |pairs| >= 1 && Lacks(endpoint, '?')
    requires forall i :: 0 <= i < |pairs| ==> Lacks(pairs[i].0, '=') && Lacks(pairs[i].0, '&') && Lacks(pairs[i].1, '&')
    ensures QueryParams(endpoint + "?" + JoinParams(KeyValues(pairs))) == Some(pairs)
  {
    var ps := KeyValues(pairs);
    forall i | 0 <= i < |ps| ensures '&' !in ps[i] {
      assert ps[i] == pairs[i].0 + "=" + pairs[i].1;
    }
    var query := JoinParams(ps);
    assert endpoint + "?" + query == endpoint + ['?'] + query;
    SplitOnceConcat(endpoint, '?', query);
    SplitJoinParams(ps);
    ParseKeyValues(pairs);
  }

  /** Neither a random state nor a challenge holds `&`. */
  lemma NoAmpersand(state: string, challenge: string)
    requires forall i :: 0 <= i < |state| ==> IsAlphanumeric(state[i])
    requires forall i :: 0 <= i < |challenge| ==> IsBase64Char(true, challenge[i])
    ensures Lacks(state, '&') && Lacks(challenge, '&')
  {
    forall i | 0 <= i < |challenge| ensures challenge[i] != '&' {
      assert IsBase64Char(true, challenge[i]);
    }
  }

  // ---------------------------------------------------------------------
  // Twitter client-credentials header

  const FormContentType := "application/x-www-form-urlencoded;charset=UTF-8"

  datatype Headers = Headers(authorization: string, contentType: string)

  /** `get_twitter_request_headers()`: `Basic` and the standard Base64 of
      the ASCII bytes of `client_id:client_secret` (the settings, rendered
      "None" when unset), with the form content type. A non-ASCII setting
      raises UnicodeEncodeError. */
  function TwitterRequestHeaders(clientId: Option<string>, clientSecret: Option<string>)
    : (r: Result<Headers, UtilError>)
    ensures r.Err? <==> !IsAscii(Show(clientId) + ":" + Show(clientSecret))
    ensures r.Err? ==> r.error == UnicodeEncodeError
    ensures r.Ok? ==> r.value.contentType == FormContentType && "Basic " <= r.value.authorization
  {
    match AsciiEncode(Show(clientId) + ":" + Show(clientSecret))
    case None => Err(UnicodeEncodeError)
    case Some(bytes) => Ok(Headers("Basic " + Encode(false, bytes), FormContentType))
  }

  /** How a server reads HTTP Basic credentials (section 2 of RFC 7617):
      drop `Basic `, decode standard Base64, read ASCII, split at the first
      colon into user-id and password. */
  function BasicCredentials(authorization: string): Option<(string, string)>
  {
    if !("Basic " <= authorization) then None
    else
      match Decode(false, authorization[6..])
      case None => None
      case Some(bytes) =>
        if forall i :: 0 <= i < |bytes| ==> bytes[i] < 128 then SplitOnce(AsciiDecode(bytes), ':') else None
  }

  /** The header carries the client id and secret: a server reading it as
      Basic credentials gets both back, provided the client id holds no
      colon (which section 2 of RFC 7617 forbids in a user-id). */
  lemma TwitterHeadersCarryCredentials(clientId: Option<string>, clientSecret: Option<string>)
    requires IsAscii(Show(clientId) + ":" + Show(clientSecret))
    requires ':' !in Show(clientId)
    ensures TwitterRequestHeaders(clientId, clientSecret).Ok?
    ensures BasicCredentials(TwitterRequestHeaders(clientId, clientSecret).value.authorization)
            == Some((Show(clientId), Show(clientSecret)))
  {
    var text := Show(clientId) + ":" + Show(clientSecret);
    var bytes := AsciiEncode(text).value;
    DecodeEncode(false, bytes);
    AsciiRoundTrip(text);
    var h := "Basic " + Encode(false, bytes);
    assert h[6..] == Encode(false, bytes);
    SplitOnceConcat(Show(clientId), ':', Show(clientSecret));
    assert text == Show(clientId) + [':'] + Show(clientSecret);
  }

  // ---------------------------------------------------------------------
  // Discord user records

  /** The fields of a Discord user record the helpers read. `id` is the
      user's snowflake; the others may be absent (None). */
  datatype ProviderUser = ProviderUser(
    id: nat,
    username: Option<string>,
    discriminator: Option<string>,
    globalName: Option<string>,
    avatar: Option<string>,
    locale: Option<string>)

  const AvatarPrefix := "https://cdn.discordapp.com/avatars/"
  const AvatarSuffix := ".webp"
  const MissingAvatar := "Avatar hash is missing from user data"

  /** `get_avatar_url(user)`: ValueError when the avatar hash is missing or
      empty; otherwise the CDN address built from the id and the hash. */
  function AvatarUrl(user: ProviderUser): (r: Result<string, UtilError>)
    ensures r.Err? <==> user.avatar.None? || user.avatar.value == ""
    ensures r.Err? ==> r.error == ValueError(MissingAvatar)
    ensures r.Ok? ==> AvatarPrefix <= r.value
  {
    match user.avatar
    case None => Err(ValueError(MissingAvatar))
    case Some(hash) =>
      if hash == "" then Err(ValueError(MissingAvatar))
      else Ok(AvatarPrefix + NatToString(user.id) + "/" + hash + AvatarSuffix)
  }

  /** Reads a CDN avatar address back into the user id and avatar hash. */
  function ParseAvatarUrl(url: string): Option<(nat, string)>
  {
    if !(AvatarPrefix <= url) then None
    else
      match SplitOnce(url[|AvatarPrefix|..], '/')
      case None => None
      case Some((idText, file)) =>
        match ParseNat(idText)
        case None => None
        case Some(id) =>
          if |file| >= |AvatarSuffix| && file[|file| - |AvatarSuffix|..] == AvatarSuffix
          then Some((id, file[..|file| - |AvatarSuffix|]))
          else None
  }

  /** The avatar URL names exactly the user and the avatar hash it was
      built from (a Discord avatar hash holds no `/`). */
  lemma AvatarUrlRoundTrip(user: ProviderUser)
    requires user.avatar.Some? && user.avatar.value != "" && '/' !in user.avatar.value
    ensures AvatarUrl(user).Ok?
    ensures ParseAvatarUrl(AvatarUrl(user).value) == Some((user.id, user.avatar.value))
  {
    var idText, hash := NatToString(user.id), user.avatar.value;
    var url := AvatarUrl(user).value;
    assert url[|AvatarPrefix|..] == idText + ['/'] + (hash + AvatarSuffix);
    assert '/' !in idText by {
      forall i | 0 <= i < |idText| ensures idText[i] != '/' {
        assert IsDigit(idText[i]);
      }
    }
    SplitOnceConcat(idText, '/', hash + AvatarSuffix);
    ParseNatToString(user.id);
    var file := hash + AvatarSuffix;
    assert file[|file| - |AvatarSuffix|..] == AvatarSuffix;
    assert file[..|file| - |AvatarSuffix|] == hash;
  }

  // ---------------------------------------------------------------------
  // Locale lookup

  /** `get_language_from_locale(locale)` once the locale table is loaded:
      the text before the first comma of the locale's entry. An unknown
      or missing locale raises AttributeError. */
  function LanguageFromLocale(localeData: map<string, string>, locale: Option<string>)
    : (r: Result<string, UtilError>)
    ensures r.Ok? <==> locale.Some? && locale.value in localeData
    ensures r.Ok? ==> ',' !in r.value && r.value <= localeData[locale.value]
    ensures r.Ok? ==> r.value == localeData[locale.value]
                      || localeData[locale.value][|r.value|] == ','
    ensures r.Err? ==> r.error == AttributeError("The locale '" + Show(locale) + "' was not found in the locale data.")
  {
    match locale
    case Some(l) =>
      if l in localeData then Ok(SplitOn(localeData[l], ',')[0])
      else Err(AttributeError("The locale '" + Show(locale) + "' was not found in the locale data."))
    case None => Err(AttributeError("The locale '" + Show(locale) + "' was not found in the locale data."))
  }

  /** An entry `language,rest` gives `language`. */
  lemma LanguageOfEntry(localeData: map<string, string>, locale: string, language: string, rest: string)
    requires ',' !in language
    requires locale in localeData && localeData[locale] == language + "," + rest
    ensures LanguageFromLocale(localeData, Some(locale)) == Ok(language)
  {
    SplitOnConcat(language, ',', rest);
  }

  // ---------------------------------------------------------------------
  // Credentials

  /** A JSON value as `json()` gives it. */
  datatype Json = JStr(s: string) | JInt(n: int) | JBool(b: bool) | JNull

  type Credentials = map<string, Json>

  /** `get_access_token(credentials)`: `credentials.get("access_token")`. */
  function AccessToken(credentials: Credentials): (r: Option<Json>)
    ensures r.Some? <==> "access_token" in credentials
    ensures r.Some? ==> r.value == credentials["access_token"]
  {
    Lookup(credentials, "access_token")
  }

  /** `get_refresh_token(credentials)`: `credentials.get("refresh_token")`. */
  function RefreshToken(credentials: Credentials): (r: Option<Json>)
    ensures r.Some? <==> "refresh_token" in credentials
    ensures r.Some? ==> r.value == credentials["refresh_token"]
  {
    Lookup(credentials, "refresh_token")
  }

  function IntToString(n: int): string
  {
    if n < 0 then "-" + NatToString(-n) else NatToString(n)
  }

  /** How an f-string renders a looked-up JSON value; an absent key (None)
      and a JSON null both render as "None". */
  function Render(v: Option<Json>): (r: string)
    ensures v.Some? && v.value.JStr? ==> r == v.value.s
    ensures v.None? || v == Some(JNull) ==> r == "None"
  {
    match v
    case None => "None"
    case Some(JStr(s)) => s
    case Some(JInt(n)) => IntToString(n)
    case Some(JBool(b)) => if b then "True" else "False"
    case Some(JNull) => "None"
  }
}
