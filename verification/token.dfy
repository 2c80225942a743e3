/** The identity token the tester signs: its claim set and header
    (`generate_api_token` and the key id of the key module). */
module Token {
  import opened Wrappers
  import opened Config

  /** The key id published in the key set and put in every token header. */
  const Kid: string := "gdpr-api-tester-key"

  /** Seconds between issuance and either end of the validity window. */
  const Skew: int := 300

  /** A claim value: a configuration string, a number of seconds, or the scope list. */
  datatype Claim = Text(s: string) | Seconds(n: int) | ScopeList(scopes: seq<string>)

  /** The claims present whatever the scopes are. */
  const StandardClaims: set<string> := {"iss", "sub", "aud", "exp", "iat", "auth_time", "sid", "loa"}

  /** `if scopes:` for `scopes=None` or a list. */
  predicate ScopesGiven(scopes: Option<seq<string>>): (b: bool)
    ensures !b <==> scopes in {None, Some([])}
  {
    scopes.Some? && scopes.value != []
  }

  /** The claim set before the scopes are considered: the configured issuer,
      subject, audience, session and assurance level, and a window of `Skew`
      seconds either side of `now`. */
  function BaseClaims(cfg: AppConfig, now: int): (c: map<string, Claim>)
    ensures c.Keys == StandardClaims
    ensures c["iss"] == Text(cfg.issuer) && c["sub"] == Text(cfg.userUuid)
    ensures c["aud"] == Text(cfg.audience) && c["sid"] == Text(cfg.sid) && c["loa"] == Text(cfg.loa)
    ensures c["exp"] == Seconds(now + Skew)
    ensures c["iat"] == Seconds(now - Skew) && c["auth_time"] == Seconds(now - Skew)
  {
    map[
      "iss" := Text(cfg.issuer),
      "sub" := Text(cfg.userUuid),
      "aud" := Text(cfg.audience),
      "exp" := Seconds(now + Skew),
      "iat" := Seconds(now - Skew),
      "auth_time" := Seconds(now - Skew),
      "sid" := Text(cfg.sid),
      "loa" := Text(cfg.loa)
    ]
  }

  /** The claim set of `generate_api_token(scopes)` issued at Unix time `now`:
      the scope list goes under the configured claim name, replacing a standard
      claim of that name. */
  function Claims(cfg: AppConfig, now: int, scopes: Option<seq<string>>): (c: map<string, Claim>)
    ensures c.Keys == StandardClaims + (if ScopesGiven(scopes) then {cfg.authorizationField} else {})
    ensures ScopesGiven(scopes) ==> c[cfg.authorizationField] == ScopeList(scopes.value)
    ensures forall k :: k in StandardClaims && !(ScopesGiven(scopes) && k == cfg.authorizationField) ==>
      c[k] == BaseClaims(cfg, now)[k]
  {
    var claims := BaseClaims(cfg, now);
    if ScopesGiven(scopes) then claims[cfg.authorizationField := ScopeList(scopes.value)] else claims
  }

  /** The token header: the key id passed as `headers` and the algorithm passed as
      `algorithm`. Members the signing library adds on its own are left out. */
  function Header(): (h: map<string, string>)
    ensures h.Keys == {"kid", "alg"} && h["kid"] == Kid && h["alg"] == "RS256"
  {
    map["kid" := Kid, "alg" := "RS256"]
  }

  /** Unless the scope claim is stored under a time claim's name, the token is valid
      from 300 seconds before issuance to 300 seconds after: a 600-second window
      containing `now`, with `auth_time` equal to `iat`. */
  lemma ValidityWindow(cfg: AppConfig, now: int, scopes: Option<seq<string>>)
    requires !ScopesGiven(scopes) || cfg.authorizationField !in {"exp", "iat", "auth_time"}
    ensures var c := Claims(cfg, now, scopes);
      && c["exp"].Seconds? && c["iat"].Seconds? && c["auth_time"] == c["iat"]
      && c["exp"].n - c["iat"].n == 600
      && c["iat"].n <= now <= c["exp"].n
  {
  }

  /** Giving scopes adds the authorization claim and changes nothing else; no
      scopes, or an empty list, leaves it out entirely. */
  lemma ScopesOnlyAddAuthorization(cfg: AppConfig, now: int, scopes: Option<seq<string>>)
    ensures !ScopesGiven(scopes) ==> Claims(cfg, now, scopes) == Claims(cfg, now, None)
    ensures ScopesGiven(scopes) ==>
      Claims(cfg, now, scopes) == Claims(cfg, now, None)[cfg.authorizationField := ScopeList(scopes.value)]
  {
  }

  /** Two issuances from the same configuration and scopes differ only in the
      time claims, which move by exactly the time between them. */
  lemma ReissueShiftsOnlyTimes(cfg: AppConfig, t1: int, t2: int, scopes: Option<seq<string>>)
    requires !ScopesGiven(scopes) || cfg.authorizationField !in {"exp", "iat", "auth_time"}
    ensures var c1, c2 := Claims(cfg, t1, scopes), Claims(cfg, t2, scopes);
      && c1.Keys == c2.Keys
      && (forall k :: k in c1 && k !in {"exp", "iat", "auth_time"} ==> c1[k] == c2[k])
      && c2["exp"].n - c1["exp"].n == t2 - t1
      && c2["iat"].n - c1["iat"].n == t2 - t1
      && c2["auth_time"].n - c1["auth_time"].n == t2 - t1
  {
  }
}
