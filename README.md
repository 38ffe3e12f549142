# Dispatch core plugins, modelled in Dafny

This project models the built-in plugins of Dispatch, an incident-response platform
(`src/dispatch/plugins/dispatch_core/plugin.py`), and proves properties of that model:

- **Authentication providers.** The basic provider reads `Authorization: Bearer <token>`,
  decodes the token with the configured secret and returns its `email` claim; a decoding
  failure becomes a 401 carrying the decoder's message. The PKCE/IAP provider decodes the
  `x-goog-iap-jwt-assertion` header with a signing key and turns every decoding failure into
  the same 401 detail, "Could not validate credentials" (module `Auth`).
- **The IAP key cache** (`get_iap_key`). On a hit the cached key is returned. On a miss the
  key file is fetched once: a status other than 200 is an error, otherwise the cache is
  replaced by the fetched map and the key is looked up again (module `KeyCache`, class
  `IapKeyCache`).
- **The internal ticket plugin.** It names the ticket `dispatch-<incident id>` and links it
  under the UI's `/incidents/` path; its update is a no-op (module `Tickets`).
- **The document resolver.** It routes a request built from the incident's description,
  priority and type, and returns the recommended documents (modules `Routing`, `DocumentResolver`).
- **The participant resolver.** It routes the incident, then resolves each recommended
  service contact in order. For each one it finds the contact plugin registered for the
  contact's type, asks it for an email, and gets or creates the individual with that email
  in the database session. It appends the individual to the recommendation, and commits
  once after the loop (modules `Individuals`, `ParticipantResolver`).

Module `Text` holds the Python string behaviour these rely on: `str.split()`,
`str.partition(" ")` and `str(int)` with its inverse. Module `Wrappers` holds `Option` and `Result`.

Collaborators the plugins only call are parameters of the model:
- the JWT decoder is a `Decoder` function from a token and a key to claims or an error message;
- the key endpoint's HTTP response is an input to each key lookup;
- the routing service is a function from a routing request to a recommendation;
- the plugin registry is a map from slug to a resolver (external id to email or error);
- the Dispatch UI URL and the JWT secret are arguments.

Modelling choices that follow `plugin.py`:
- The routing request holds singleton lists of the one priority and the one type
  (plugin.py:229-230 and 256-257).
- The participant resolver passes the attribute maps (`__dict__`) of the incident type and
  priority, while the document resolver passes the values themselves. So `RouteRequest` is
  generic in its context entries.
- An unregistered contact type surfaces as whatever the registry raises. The model names
  this `PluginNotFound` and asserts only that it stops the resolution before any commit.
- The key cache lives on a function object in the code (plugin.py:113). Here it is a
  separate object, created empty; the IAP provider is given the key directly (see Left out).

## Model

| member | source | states |
|---|---|---|
| `Auth.SchemeParam` | src/dispatch/plugins/dispatch_core/plugin.py:48 | A missing or empty header gives an empty scheme and parameter; otherwise the text before the first space and the text after it. |
| `Auth.BearerWords` | src/dispatch/plugins/dispatch_core/plugin.py:48-52 | When the scheme is "bearer", the header's whitespace-separated words are the scheme followed by the parameter's words, so `split()[1]` is the first word of the parameter. |
| `Auth.ClaimsOutcome` | src/dispatch/plugins/dispatch_core/plugin.py:58 | Decoded claims give the `email` claim when present, and an error otherwise. |
| `Auth.BasicCurrentUser` | src/dispatch/plugins/dispatch_core/plugin.py:46-58 | No identity and no error exactly when there is no non-empty bearer header (scheme compared case-insensitively). A bearer header with no token is the malformed-header error. Otherwise a decoding failure of the token is a 401 whose detail is the decoder's message, and a success returns the email claim. |
| `Auth.IapCurrentUser` | src/dispatch/plugins/dispatch_core/plugin.py:91-111 | No scheme check. An absent assertion header is its own error. Any decoding failure is a 401 with the fixed detail "Could not validate credentials". A success returns the email claim. The result is never "no identity". |
| `Auth.IapRejectionIsOpaque` | src/dispatch/plugins/dispatch_core/plugin.py:147-163 | Two decoders that fail for different reasons give the IAP provider the same outcome. |
| `Auth.BasicRejectionIsDetailed` | src/dispatch/plugins/dispatch_core/plugin.py:54-57 | Two decoders that fail with different messages give the basic provider different errors. |
| `Auth.BearerTokenExample` | src/dispatch/plugins/dispatch_core/plugin.py:47-52 | `BeArEr  t0k` yields the token `t0k`: case-insensitive scheme, repeated spaces skipped. |
| `Auth.SchemeWithoutTokenExample` | src/dispatch/plugins/dispatch_core/plugin.py:52 | The header `Bearer` alone is the malformed-header error. |
| `Auth.OtherSchemeExample` | src/dispatch/plugins/dispatch_core/plugin.py:49-50 | A `Basic` header yields no identity and no error, whatever the decoder would say. |
| `KeyCache.KeyLookup` | src/dispatch/plugins/dispatch_core/plugin.py:70-89 | A hit (present and non-empty) returns the cached key with no fetch and no cache change. A miss fetches exactly once. A non-200 response fails and leaves the cache unchanged. A 200 response replaces the cache with the fetched map and returns its key, or fails with "not found" when the key is absent or empty. A returned key is always held by the resulting cache, and the cache is either kept or replaced, never merged. |
| `KeyCache.LookupMemoizes` | src/dispatch/plugins/dispatch_core/plugin.py:74-89 | After a key has been returned, asking for it again is a hit with no fetch, whatever the endpoint would answer. |
| `KeyCache.NotFoundRefetches` | src/dispatch/plugins/dispatch_core/plugin.py:84-88 | After a "not found", the next lookup of that key fetches again. |
| `KeyCache.IapKeyCache.constructor` | src/dispatch/plugins/dispatch_core/plugin.py:113 | The cache starts empty, with no fetches. |
| `KeyCache.IapKeyCache.GetKey` | src/dispatch/plugins/dispatch_core/plugin.py:126-145 | Returns what `KeyLookup` returns, leaves the cache `KeyLookup` leaves, and counts one fetch exactly on a miss. |
| `Text.Split` | src/dispatch/plugins/dispatch_core/plugin.py:52 | Every word `split()` yields is non-empty and free of whitespace. |
| `Text.SplitAtSpace` | src/dispatch/plugins/dispatch_core/plugin.py:52 | For every string, splitting at any whitespace character gives the words before it followed by the words after it. Together with `Text.SplitWord` (a whitespace-free non-empty string is one word), this pins `split()` to the maximal non-whitespace runs, in order. |
| `Text.ParseIntToString` | src/dispatch/plugins/dispatch_core/plugin.py:185 | Reading back the decimal form `str(n)` of any integer gives `n`. |
| `Tickets.Create` | src/dispatch/plugins/dispatch_core/plugin.py:175-190 | The resource id is "dispatch-" followed by the incident id, and the incident id can be read back from it. The web link is the UI URL, "/incidents/" and the resource id. The type is "dispatch-internal-ticket". |
| `Tickets.CreateSeparatesIncidents` | src/dispatch/plugins/dispatch_core/plugin.py:185-188 | Different incidents get different resource ids and different web links. |
| `Routing.BuildRequest` | src/dispatch/plugins/dispatch_core/plugin.py:226-235 | The request's text is the description; its priorities and types are singleton lists of the one priority and type; it has no terms. |
| `Routing.Recommendation.constructor` | src/dispatch/plugins/dispatch_core/plugin.py:263 | The recommendation object holds the routing service's documents, service contacts, individual contacts and team contacts. |
| `DocumentResolver.Get` | src/dispatch/plugins/dispatch_core/plugin.py:222-237 | Returns the documents that routing recommends for the request (description, [priority], [type], no terms), and nothing else. |
| `DocumentResolver.GetDependsOnlyOnDocuments` | src/dispatch/plugins/dispatch_core/plugin.py:236-237 | Two routing services that recommend the same documents for that request give the same answer. |
| `Individuals.GetOrCreate` | src/dispatch/plugins/dispatch_core/plugin.py:272-274 | The store afterwards is the old store with the email bound to the returned individual. An existing row is returned unchanged with the store untouched. A new row gets the next id. |
| `Individuals.GetOrCreateValid` | src/dispatch/plugins/dispatch_core/plugin.py:272-274 | Get-or-create keeps every row filed under its own email with distinct ids, and returns an individual with the email asked for. |
| `Individuals.GetOrCreateIdempotent` | src/dispatch/plugins/dispatch_core/plugin.py:272-274 | A second get-or-create of the same email returns the same individual and changes nothing. |
| `Individuals.Session.GetOrCreateIndividual` | src/dispatch/plugins/dispatch_core/plugin.py:272-274 | The session's rows change as `GetOrCreate` says; nothing is committed. |
| `Individuals.Session.Commit` | src/dispatch/plugins/dispatch_core/plugin.py:277 | The session's rows become the committed ones, and the commit count goes up by one. |
| `ParticipantResolver.ResolveAll` | src/dispatch/plugins/dispatch_core/plugin.py:267-275 | A successful resolution yields exactly one individual per service contact. |
| `ParticipantResolver.ResolveAllRows` | src/dispatch/plugins/dispatch_core/plugin.py:267-275 | Every contact resolves, and the individual appended for it is the resulting store's row for its email. Rows that existed before are untouched. |
| `ParticipantResolver.ResolveAllValid` | src/dispatch/plugins/dispatch_core/plugin.py:272-274 | Resolution keeps the store valid: one row per email, filed under that email, with distinct ids. |
| `ParticipantResolver.ResolveAllEntries` | src/dispatch/plugins/dispatch_core/plugin.py:267-275 | The k-th appended individual carries the email that the plugin for the k-th contact's type returns for its external id. |
| `ParticipantResolver.ResolveAllKeys` | src/dispatch/plugins/dispatch_core/plugin.py:272-275 | The store gains rows for exactly the resolved emails. |
| `ParticipantResolver.SameEmailSameIndividual` | src/dispatch/plugins/dispatch_core/plugin.py:270-275 | Two contacts that resolve to the same email are appended as the same individual: the list has two entries, the store has one row. |
| `ParticipantResolver.ResolveAllSucceeds` | src/dispatch/plugins/dispatch_core/plugin.py:267-275 | Resolution succeeds exactly when every contact's plugin is registered and returns an email. |
| `ParticipantResolver.ResolveAllFirstFailure` | src/dispatch/plugins/dispatch_core/plugin.py:267-270 | A failed resolution reports the error of the first contact that does not resolve. |
| `ParticipantResolver.PrefixFailure` | src/dispatch/plugins/dispatch_core/plugin.py:267-270 | A failure among the first contacts is the failure of the whole loop. |
| `ParticipantResolver.FailsAtIsFailure` | src/dispatch/plugins/dispatch_core/plugin.py:267-275 | If the contacts before contact `n` resolve and contact `n` does not, the whole resolution fails with contact `n`'s error. |
| `ParticipantResolver.FailsAtUnique` | src/dispatch/plugins/dispatch_core/plugin.py:267-275 | Resolution stops at one contact only, with one error, so the failure states of the loop and of `get` are determined. |
| `ParticipantResolver.LdapScenario` | src/dispatch/plugins/dispatch_core/plugin.py:267-275 | The contact {ldap, svc42}, with a directory that maps svc42 to a@x.com, yields against an empty store one new individual for a@x.com and one row. |
| `ParticipantResolver.RepeatedContactScenario` | src/dispatch/plugins/dispatch_core/plugin.py:267-275 | The same contact twice yields the same individual twice and a single row. |
| `ParticipantResolver.UnregisteredSecondContactScenario` | src/dispatch/plugins/dispatch_core/plugin.py:267-270 | An unregistered second contact fails the whole resolution, although the first one resolved. |
| `ParticipantResolver.ResolveServiceContacts` | src/dispatch/plugins/dispatch_core/plugin.py:267-275 | On success the loop appends, in place, exactly the individuals `ResolveAll` yields and leaves the store `ResolveAll` leaves. On failure it returns the error of the contact where resolution stops; the recommendation has been extended, and the session's rows updated, by exactly the contacts before that one. It never commits. |
| `ParticipantResolver.Get` | src/dispatch/plugins/dispatch_core/plugin.py:249-278 | The session's rows stay valid (one row per email, distinct ids). On success: commits exactly once, makes the resolved store the committed one, and returns the routed individual contacts extended by the resolved individuals, each carrying the email of its contact, with the team contacts unchanged. On any failure: returns the error of the contact where resolution stops, commits nothing, and leaves in the session the uncommitted rows of the contacts before that one. |

`Tickets.Update` models `update` (plugin.py:192-210): it takes the ticket id and the
optional fields, returns the unit value and has no state to change. Beyond its signature
there is nothing to state, so it has no row.

## Left out

- JWT decoding and signature checking belong to the `jose` library and are not part of this model. The decoder is a parameter, and claims are a map from string to string.
- FastAPI's `get_authorization_scheme_param` and the Starlette header map are not part of this model. `SchemeParam` follows the helper's behaviour (falsy value, then partition at the first space). Headers are a map keyed by lower-case name.
- `Auth.BasicCurrentUser`: the scheme is compared by folding ASCII letters only, not by Python's full Unicode `lower()`. No non-ASCII character lower-cases to a single letter of "bearer", so the two comparisons agree.
- `Auth.IapCurrentUser`: the source passes the function object `get_iap_key` as the key (lines 104 and 156) instead of calling it with the token's key id. The model takes the key as a parameter and does not model reading the key id from the token header.
- `Auth.IapCurrentUser`: with the assertion header absent, the source hands `None` to the decoder, which then fails with an error that is not a JWT error. The model reports this as the separate `MissingAssertion` error.
- The source does not load as written: line 124 uses `get_iap_key` before the IAP class defines it, and `get_iap_key` refers to itself as a global name. The model captures only the cache protocol of lines 74-89 (and 130-145). The two identical providers are modelled once.
- The key endpoint's HTTP call is not modelled. Each lookup gets the response as an input. Its headers and text are opaque strings. The model assumes that a 200 response's body decodes to a JSON object of strings: a body that does not parse (`resp.json()` raising at line 84) and a JSON value that is not an object (one that becomes the cache at line 85 and makes `.get` raise at line 86 and on every later call) are not modelled. Error messages are modelled as their ingredients, not as formatted text.
- Sharing the key cache between concurrent requests is not modelled.
- `route_service.get` (rule matching and scoring), `plugins.get` (the registry) and `individual_service.get_or_create` are not part of this model. They are a function, a map, and a lookup-then-insert into the session's rows that does not commit by itself. The registry's behaviour on a missing slug is modelled only as an error that stops the loop.
- `RouteRequest(**route_in)` validation is not part of this model; the request is built directly.
- Database transactions, rollback and concurrent sessions are not modelled. The commit is a ghost snapshot of the session's rows plus a ghost counter. After a failure the session's uncommitted rows are whatever the loop had inserted.
- `log.debug` calls are left out; logging has no effect on results.
