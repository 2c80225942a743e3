# GDPR API tester — a Dafny model of its decision logic

The GDPR API tester plays two roles against a Profile back-end's GDPR API. It
simulates an OIDC identity provider that signs identity tokens and publishes its
key. It also acts as a client that sends GDPR query and delete requests and
explains how the Profile back-end would read the answers. This project models,
as pure Dafny functions, the decisions that code makes:

- `Json` — JSON values as Python's `json` module yields them, with Python
  truthiness and the `dict` operations used (`get`, `keys`, `update`, iteration).
- `ErrorContract` — `is_valid_gdpr_api_errors`. It checks that a 403/500 body
  carries an `errors` list of `{code, message}` entries. The result has three
  values: `Accept` (returns `True`), `Reject` (returns `False`) and `Raise`
  (the `AttributeError` that escapes when an iterated element is not a dict).
- `Explanations` — `get_query_explanation` and `get_delete_explanation`. Each
  returns a verdict record: the status, the headline outcome, the
  "(errors are [NOT] in the correct format)" line, and what is appended after
  it. Raising is modelled too.
- `Token` — the claim set built by `generate_api_token`, the token header, and
  the key id `gdpr-api-tester-key`.
- `UrlTemplate` — `get_gdpr_url`. It implements Python's
  `string.Template.safe_substitute` for the placeholders `profile_id` and
  `user_uuid`, and falls back to `urljoin` when substitution changed nothing.
- `Routes` — the discovery document (section 3 of OpenID Connect Discovery
  1.0) and the JWK Set (section 5 of RFC 7517), whose single key has its `kid`
  (section 4.5 of RFC 7517) replaced.
- `Config` holds the configuration strings the code reads. `Wrappers` holds
  `Option` and the exception-carrying `Result`.

## Behaviour of the code that differs from a strict reading

The model follows the code as written in every one of these cases:

- The validator accepts an `errors` value that iterates over nothing: `[]`,
  `""` or `{}`. It also accepts a message text that is the empty string. See
  `VacuousErrorsAccepted` and `EmptyTextAccepted`.
- The validator rejects an empty `message` object, because `not {}` holds.
- A non-empty string or object `errors`, or an array whose first failing entry
  is not a dict, raises `AttributeError` instead of returning `False`. The
  exception is not caught in `get_delete_explanation`, so the whole explanation
  raises. See `RaisesIff` and `DeleteVerdict`.
- A query answered 200 counts as a success for every JSON value, including
  `null`, `""` and `[]`. Only text that does not parse is a failure.
- The query explanation treats 403 as an unknown status. The delete
  explanation explains it as a denial.
- `jwks_uri` adds a slash only when the issuer lacks one. Any `//` already in
  the issuer stays, such as the one in `https://`. So the proved property is
  that `jwks_uri` contains no double slash beyond the issuer's own.
- The `urljoin` fallback fires when substitution left the template unchanged.
  That is not the same as "the template held no placeholder". A template whose
  only `$` is `$$` is unescaped and never joined, and a placeholder whose value
  equals its own text triggers the fallback.

## Model

| member | source | states |
|---|---|---|
| `Json.Truthy` | gdpr_api_tester/main.py:101 | a value is falsy exactly when it is `None`, `False`, `0`, `""`, `[]` or `{}` |
| `Json.Keys` | gdpr_api_tester/main.py:116 | the key set holds exactly the keys of the object's members |
| `Json.Field` | gdpr_api_tester/main.py:105 | `d.get(k)` is `None` for an absent key, and otherwise the value stored under `k` |
| `Json.Get` | gdpr_api_tester/main.py:105 | `dict.get` finds nothing exactly when the key is absent, and any value it finds is stored under that key |
| `Json.Update` | gdpr_api_tester/routes.py:29-33 | after `update({k: v})` the key `k` holds `v`, and every other key reads as before |
| `Json.UpdateKeys` | gdpr_api_tester/routes.py:29-33 | `update` adds its key to the key set and removes none |
| `Json.UpdateAppends` | gdpr_api_tester/routes.py:29-33 | a key not yet present is appended after the existing members |
| `Json.UpdateInPlace` | gdpr_api_tester/routes.py:29-33 | an existing key keeps its position, the length stays the same, and members under other keys are untouched |
| `Json.UpdateKeepsKeysDistinct` | gdpr_api_tester/routes.py:29-33 | a dict with distinct keys still has distinct keys after `update` |
| `Json.Iterate` | gdpr_api_tester/main.py:109-115 | `iter` fails on `None`, booleans and numbers; a list yields its elements, a string its one-character strings, an object its keys |
| `ErrorContract.CheckTexts` | gdpr_api_tester/main.py:123-125 | the message loop never raises and passes exactly when every key is non-empty and every value is a string |
| `ErrorContract.CheckEntry` | gdpr_api_tester/main.py:115-125 | one entry raises exactly when it is not a dict, and passes exactly when it has exactly the keys `code` and `message`, a non-empty string `code` and a conforming message |
| `ErrorContract.CheckEntries` | gdpr_api_tester/main.py:115-127 | the loop accepts exactly when every entry conforms, and raises exactly when a non-dict entry comes before any rejected one |
| `ErrorContract.AllConformingCons` | gdpr_api_tester/main.py:115-125 | a list conforms exactly when its first entry and the rest of the list conform |
| `ErrorContract.FailsFirstCons` | gdpr_api_tester/main.py:115-125 | a list fails first on a non-dict exactly when its head is not a dict, or its head conforms and the rest fails first on a non-dict |
| `ErrorContract.IsValidErrors` | gdpr_api_tester/main.py:100-112 | a falsy or non-object body is rejected, and so is a missing, `null`, boolean or numeric `errors` |
| `ErrorContract.AcceptedIff` | gdpr_api_tester/main.py:100-127 | a body is accepted exactly when `errors` is present and is an array of conforming entries, an empty string or an empty object |
| `ErrorContract.RaisesIff` | gdpr_api_tester/main.py:104-116 | the validator raises exactly when `errors` is a non-empty string, a non-empty object, or an array whose first failing entry is not a dict |
| `ErrorContract.NonIterableErrorsRejected` | gdpr_api_tester/main.py:104-112 | a missing, `null`, boolean or numeric `errors` is rejected, never raised on |
| `ErrorContract.EntryWithoutMessageRejected` | gdpr_api_tester/main.py:114-117 | when all entries are dicts, one entry without `message` makes the validator return `False` |
| `ErrorContract.StrictlyConformingAccepted` | gdpr_api_tester/main.py:114-127 | every body with a non-empty list of entries that have non-empty code, locale keys and texts is accepted |
| `ErrorContract.EmptyTextEntry` | gdpr_api_tester/main.py:123-125 | an entry whose only message text is `""` passes the validator's entry checks but not the strict ones |
| `ErrorContract.VacuousErrorsAccepted` | gdpr_api_tester/main.py:109-127 | an empty array, empty string or empty object `errors` is accepted though it is not strictly conforming |
| `ErrorContract.EmptyTextAccepted` | gdpr_api_tester/main.py:123-125 | an entry whose message text is `""` is accepted though it is not strictly conforming |
| `ErrorContract.EntryKeys` | gdpr_api_tester/main.py:114-116 | a `{code, message}` object has exactly the expected key set |
| `ErrorContract.ExampleAccepted` | gdpr_api_tester/main.py:114-127 | `{"errors":[{"code":"E1","message":{"en":"bad"}}]}` is accepted |
| `ErrorContract.ExampleEmptyCode` | gdpr_api_tester/main.py:118-119 | an entry whose `code` is `""` is rejected |
| `ErrorContract.ExampleEmptyMessage` | gdpr_api_tester/main.py:120-121 | an entry whose `message` is `{}` is rejected |
| `ErrorContract.ExampleStringErrors` | gdpr_api_tester/main.py:109-116 | `{"errors": "not-a-list"}` raises instead of being rejected |
| `Explanations.StatusTable` | gdpr_api_tester/main.py:74-97 | the table explains exactly 400, 401, 403, 404 and 500, each with its own text; 403 is the denial and 500 the unexpected error |
| `Explanations.QueryVerdict` | gdpr_api_tester/main.py:130-170 | a 200 answer is a success exactly when the body parsed and a failure otherwise; another status gets its table text, except that 403 and statuses not in the table are unknown; the parsed body or else the raw text is appended |
| `Explanations.DeleteVerdict` | gdpr_api_tester/main.py:173-226 | the explanation raises exactly when a 403/500 body is malformed JSON or makes the validator raise; a 204 answer is only the deleted or deletable headline; any other status gets its table text, or is unknown when not in the table |
| `Explanations.DryRunOnlyRewordsDeletion` | gdpr_api_tester/main.py:179-193 | the dry-run flag changes nothing but the 204 headline ("can be deleted" against "has been deleted") |
| `Explanations.DeleteBodyReadOnlyOnDenialOrError` | gdpr_api_tester/main.py:195-226 | for any status other than 403 and 500 the body is ignored, nothing is appended and nothing raises |
| `Explanations.DeleteFormatFollowsValidator` | gdpr_api_tester/main.py:200-222 | on 403/500 with JSON the format line says "correct" exactly when the validator accepts, and the body is appended |
| `Explanations.NonJsonBodyIsNoContent` | gdpr_api_tester/main.py:200-224 | a body that is not JSON gets the "No content" line and no format judgement |
| `Explanations.InterpretersShareTheTable` | gdpr_api_tester/main.py:157-198 | both interpreters read a status through the same table, except that the query calls 403 unknown while the delete calls it a denial |
| `Explanations.ListedStatusesExplained` | gdpr_api_tester/main.py:157-198 | 400, 401 and 404 get the validation, credentials and not-found texts from both interpreters, 500 the unexpected-error text from the query, and a delete answered 200 is an unknown status |
| `Explanations.EmptyQueryAnswerFails` | gdpr_api_tester/main.py:145-155 | a 200 answer with an empty body is a failure and shows the empty raw content |
| `Explanations.AnyJsonQueryAnswerSucceeds` | gdpr_api_tester/main.py:138-149 | a 200 answer is a success for every parsed JSON value |
| `Explanations.StrictErrorsOnDenialAreCorrect` | gdpr_api_tester/main.py:200-209 | a 403 with strictly conforming errors is reported as a denial with correctly formatted errors |
| `Explanations.MissingMessageOnDenialIsIncorrect` | gdpr_api_tester/main.py:200-215 | a 403 whose entries are all dicts but one lacks `message` is reported as incorrectly formatted |
| `Token.ScopesGiven` | gdpr_api_tester/main.py:64 | `if scopes:` fails exactly for `None` and the empty list |
| `Token.BaseClaims` | gdpr_api_tester/main.py:54-63 | issuer, subject, audience, session id and assurance level are copied from the configuration, and the time claims sit 300 seconds either side of `now` |
| `Token.Claims` | gdpr_api_tester/main.py:53-65 | the claim names are the eight standard ones plus the authorization field exactly when scopes are truthy; that field holds the scopes, and every other claim keeps its standard value |
| `Token.Header` | gdpr_api_tester/main.py:67-69 | the header names the key `gdpr-api-tester-key` and the RS256 algorithm |
| `Token.ValidityWindow` | gdpr_api_tester/main.py:53-60 | `exp - iat` is 600, `iat <= now <= exp`, and `auth_time` equals `iat`, unless the scopes overwrite a time claim |
| `Token.ScopesOnlyAddAuthorization` | gdpr_api_tester/main.py:64-65 | falsy scopes leave the claims as without scopes; truthy scopes only set the authorization field |
| `Token.ReissueShiftsOnlyTimes` | gdpr_api_tester/main.py:53-63 | two issuances differ only in `exp`, `iat` and `auth_time`, each moved by the time between them |
| `UrlTemplate.IdentifierLen` | gdpr_api_tester/main.py:42 | the placeholder name is the longest leading run matching `[_A-Za-z][_A-Za-z0-9]*` |
| `UrlTemplate.NextPiece` | gdpr_api_tester/main.py:42 | each match of the template pattern is a non-empty prefix of the text, spelled by the piece it yields |
| `UrlTemplate.Scan` | gdpr_api_tester/main.py:36-42 | the pieces the template is read as spell the template back exactly, and each piece is well formed |
| `UrlTemplate.UrlMapping` | gdpr_api_tester/main.py:37-40 | the substitution mapping has exactly `profile_id` and `user_uuid`, bound to the configured values |
| `UrlTemplate.SubstitutePlainPrefix` | gdpr_api_tester/main.py:42 | text before the first `$` passes through substitution unchanged |
| `UrlTemplate.SubstituteWithoutDelimiter` | gdpr_api_tester/main.py:42 | a template without `$` is its own substitution |
| `UrlTemplate.SubstituteBraced` | gdpr_api_tester/main.py:42 | `${name}` becomes the name's value, or stays verbatim when the name is unknown |
| `UrlTemplate.SubstituteNamed` | gdpr_api_tester/main.py:42 | `$name` not followed by a name character becomes the name's value, or stays verbatim when unknown |
| `UrlTemplate.Render` | gdpr_api_tester/main.py:42 | an escape renders as `$`, a known name as its value, and anything else as written |
| `UrlTemplate.RenderAll` | gdpr_api_tester/main.py:42 | when no piece is an escape or a known name, the rendered pieces spell exactly what was read |
| `UrlTemplate.SafeSubstitute` | gdpr_api_tester/main.py:42 | with no `$$` and no known placeholder, `safe_substitute` returns the template unchanged |
| `UrlTemplate.SubstituteStray` | gdpr_api_tester/main.py:42 | a `$` that starts no escape, name or closed braced name, as in `$1`, `${x` or `${}`, is kept verbatim |
| `UrlTemplate.SubstituteEscape` | gdpr_api_tester/main.py:42 | after text without `$`, `$$` becomes a single `$` and substitution carries on with the rest of the template |
| `UrlTemplate.GdprUrl` | gdpr_api_tester/main.py:35-47 | the unsubstituted template is returned only when `urljoin` gives it back; any address other than the joined one is the substitution, and differs from the template; a substitution that changed the template is what is returned |
| `UrlTemplate.GdprUrlFallsBack` | gdpr_api_tester/main.py:44-45 | with no escape and no known placeholder, the address is `urljoin(template, PROFILE_ID)` |
| `UrlTemplate.GdprUrlReplacesPlaceholder` | gdpr_api_tester/main.py:36-47 | a single `profile_id` or `user_uuid` placeholder, bare or braced, is replaced by its value, unless the value equals the placeholder text, when the fallback applies |
| `UrlTemplate.EscapeOnlyTemplateIsNotJoined` | gdpr_api_tester/main.py:42-47 | every template whose only `$` is one `$$` is unescaped and not joined with the profile id |
| `Routes.EndsWithSlash` | gdpr_api_tester/routes.py:12 | `endswith("/")` holds exactly when the last character is `/` |
| `Routes.JwksUri` | gdpr_api_tester/routes.py:10-14 | `jwks_uri` starts with the issuer, ends with `/jwks`, and adds 4 characters when the issuer ends in `/` and 5 otherwise |
| `Routes.JwksUriAddsNoDoubleSlash` | gdpr_api_tester/routes.py:10-14 | `jwks_uri` has exactly as many `//` as the issuer |
| `Routes.TrailingSlashIrrelevant` | gdpr_api_tester/routes.py:10-14 | issuer `X` and `X/` give the same `jwks_uri` when `X` does not end in `/` |
| `Routes.DiscoveryDocument` | gdpr_api_tester/routes.py:16-19 | the discovery document has exactly the keys `issuer` and `jwks_uri`, with the issuer unchanged |
| `Routes.PublishedKey` | gdpr_api_tester/routes.py:28-33 | the published key's `kid` is `gdpr-api-tester-key`, and every other member reads as in the public key |
| `Routes.JwkSet` | gdpr_api_tester/routes.py:35 | the key set has only the member `keys`, holding exactly one key, the published key |
| `Routes.PublishedKeyKeepsMembers` | gdpr_api_tester/routes.py:28-33 | the published key keeps the public key's members in order with distinct keys, and changes only the `kid` value |
| `Routes.TokenNamesPublishedKey` | gdpr_api_tester/rsa_key.py:43 | the key set's `kid` is the `kid` every token header carries |

## Left out

- Key management in `gdpr_api_tester/rsa_key.py` is left out: reading and writing the PEM file and generating the RSA key are I/O and cryptography. A malformed PEM file raises, because only `FileNotFoundError` and `PermissionError` are caught. Only the key id is modelled.
- JWT signing and serialisation (`jwt.encode`) is left out because it is a foreign cryptographic library. Only the claims and the header's own members are modelled. Header members that the library adds are not modelled.
- `make_gdpr_api_request` is left out: the HTTP call, its 10-second timeout, query parameters and printing are network I/O.
- `read_command`, `run` and `main` are left out: the interactive shell, the stop event, the web server and configuration changes are I/O. `config.py` is not part of this model. Configuration values are plain strings in `Config.AppConfig`.
- `urljoin` is a function parameter of `GdprUrl`. Relative reference resolution (section 5.2 of RFC 3986) is not modelled.
- Colour codes, exact explanation wording and `json.dumps` pretty-printing are represented by tags.
- `json.dumps` never returns empty text, so the model assumes the dumped body is non-empty exactly when parsing succeeded.
- aiohttp route matching, `web.json_response` serialisation and `response.json()` are library behaviour and are not modelled. The delete body is given as a `DeleteBody` variant: wrong content type, malformed JSON, or a decoded value. An empty body with a JSON content type decodes to `null`.
- JSON parsing itself is not modelled. The query body carries `json.loads`'s result. `NaN`/`Infinity` literals, duplicate keys (where the last one wins) and deep-nesting `RecursionError` are not modelled. Numbers are reals, because only whether a number is zero matters.
- Wall-clock time is the parameter `now`. It stands for `int(time.time())`.
- `UrlTemplate.GdprUrlReplacesPlaceholder`: proved only for templates with one placeholder and no other `$`. Templates with several placeholders are covered by `SafeSubstitute`'s definition, not by a lemma.
