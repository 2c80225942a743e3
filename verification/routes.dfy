/** The OIDC simulator's two documents: the discovery document (section 3 of
    OpenID Connect Discovery 1.0) and the JWK Set (section 5 of RFC 7517). */
module Routes {
  import opened Wrappers
  import opened Json
  import opened Token

  /** Python's `s.endswith("/")`. */
  predicate EndsWithSlash(s: string): (b: bool)
    ensures b <==> |s| >= 1 && s[|s| - 1..] == "/"
  {
    |s| > 0 && s[|s| - 1] == '/'
  }

  /** The `jwks_uri` advertised for an issuer. */
  function JwksUri(issuer: string): (uri: string)
    ensures |uri| - |issuer| == (if EndsWithSlash(issuer) then 4 else 5)
    ensures uri[..|issuer|] == issuer
    ensures |uri| >= 5 && uri[|uri| - 5..] == "/jwks"
  {
    issuer + (if !EndsWithSlash(issuer) then "/" else "") + "jwks"
  }

  /** The number of places where two slashes stand side by side. */
  function DoubleSlashes(s: string): nat {
    if |s| < 2 then 0
    else (if s[0] == '/' && s[1] == '/' then 1 else 0) + DoubleSlashes(s[1..])
  }

  lemma {:induction false} DoubleSlashesAppend(a: string, b: string)
    requires |a| > 0 && |b| > 0
    ensures DoubleSlashes(a + b) ==
      DoubleSlashes(a) + DoubleSlashes(b) + (if a[|a| - 1] == '/' && b[0] == '/' then 1 else 0)
  {
    if |a| == 1 {
      assert (a + b)[1..] == b;
    } else {
      assert (a + b)[1..] == a[1..] + b;
      DoubleSlashesAppend(a[1..], b);
    }
  }

  /** The slash between issuer and `jwks` is added only when missing, so the
      `jwks_uri` has no double slash beyond those already in the issuer. */
  lemma JwksUriAddsNoDoubleSlash(issuer: string)
    ensures DoubleSlashes(JwksUri(issuer)) == DoubleSlashes(issuer)
  {
    if |issuer| == 0 {
      assert JwksUri(issuer) == "/jwks";
    } else if EndsWithSlash(issuer) {
      DoubleSlashesAppend(issuer, "jwks");
    } else {
      assert JwksUri(issuer) == issuer + "/jwks";
      assert DoubleSlashes("/jwks") == 0 by {
        assert "/jwks"[1..] == "jwks";
        assert "jwks"[1..] == "wks";
      }
      DoubleSlashesAppend(issuer, "/jwks");
    }
  }

  /** An issuer with or without its trailing slash advertises the same key set. */
  lemma TrailingSlashIrrelevant(issuer: string)
    requires !EndsWithSlash(issuer)
    ensures JwksUri(issuer) == JwksUri(issuer + "/")
  {
  }

  /** `handle_openid_configuration`: the issuer and where its keys are. */
  function DiscoveryDocument(issuer: string): (doc: Json)
    ensures doc.Obj? && DistinctKeys(doc.members)
    ensures Keys(doc.members) == {"issuer", "jwks_uri"}
    ensures Get(doc.members, "issuer") == Some(Str(issuer))
    ensures Get(doc.members, "jwks_uri") == Some(Str(JwksUri(issuer)))
  {
    var ms := [("issuer", Str(issuer)), ("jwks_uri", Str(JwksUri(issuer)))];
    KeysCons(ms);
    KeysCons(ms[1..]);
    Obj(ms)
  }

  /** The public key's JWK members after `key_data.update({"kid": kid})`. */
  function PublishedKey(publicKey: Members): (jwk: Members)
    ensures Get(jwk, "kid") == Some(Str(Kid))
    ensures forall k :: k != "kid" ==> Get(jwk, k) == Get(publicKey, k)
    ensures Keys(jwk) == Keys(publicKey) + {"kid"}
  {
    UpdateKeys(publicKey, "kid", Str(Kid));
    Update(publicKey, "kid", Str(Kid))
  }

  /** `handle_jwks`: the published key as the only entry of `keys`. */
  function JwkSet(publicKey: Members): (doc: Json)
    ensures doc.Obj? && Keys(doc.members) == {"keys"}
    ensures var keys := Field(doc.members, "keys");
      && keys.Arr? && |keys.elems| == 1
      && keys.elems[0] == Obj(PublishedKey(publicKey))
  {
    var ms := [("keys", Arr([Obj(PublishedKey(publicKey))]))];
    KeysCons(ms);
    Obj(ms)
  }

  /** The published key keeps the key's members in their order, with only the
      `kid` value replaced (or `kid` appended), and stays a valid JWK object. */
  lemma PublishedKeyKeepsMembers(publicKey: Members)
    requires DistinctKeys(publicKey)
    ensures var jwk := PublishedKey(publicKey);
      && DistinctKeys(jwk)
      && |jwk| >= |publicKey|
      && (forall i :: 0 <= i < |publicKey| ==> jwk[i].0 == publicKey[i].0)
      && (forall i :: 0 <= i < |publicKey| && publicKey[i].0 != "kid" ==> jwk[i] == publicKey[i])
  {
    UpdateKeepsKeysDistinct(publicKey, "kid", Str(Kid));
    if "kid" in Keys(publicKey) {
      UpdateInPlace(publicKey, "kid", Str(Kid));
    } else {
      UpdateAppends(publicKey, "kid", Str(Kid));
    }
  }

  /** Tokens name the key the key set publishes. */
  lemma TokenNamesPublishedKey(publicKey: Members)
    ensures Field(JwkSet(publicKey).members, "keys").elems[0] == Obj(PublishedKey(publicKey))
    ensures Get(PublishedKey(publicKey), "kid") == Some(Str(Header()["kid"]))
  {
  }
}
