# API key manager: admin gate and management endpoints

This project models the request-facing core of the API key manager's HTTP
service (`api.py`) and proves properties of it.

- **The admin gate** (`verify_admin_access`) decides whether a caller may use
  the key-management endpoints. It looks at two strings: the
  `ADMIN_ALLOWED_IPS` setting and the caller's host. A setting that strips to
  `*` admits everybody. A setting whose comma-separated entries are all blank
  (the empty default included) admits only `127.0.0.1`, `localhost` and
  `::1`, which is meant for local development. Any other setting admits
  exactly the hosts equal to one of its stripped, non-blank entries. Everyone
  else gets HTTP 403.
- **The management endpoints** (`create_key`, `list_keys`, `revoke_key`) each
  run behind the gate. Each turns the outcome of an opaque back-end call into
  a response from a closed set, besides the gate's 403:
  - `create_key` answers 201 with the new key.
  - `list_keys` answers 200 with the key list and its count.
  - `revoke_key` answers 200 with a confirmation message, or 404 when
    revocation found nothing.
  - Any `Exception` caught by `except Exception` gives 500.
  - The one exception to that: `revoke_key` passes an `HTTPException` raised
    by its back-end through with that exception's own code and detail.

Files:

- `text.dfy` (module `Text`) defines Python's `str.strip()` and
  `str.split(sep)`, with their characterising lemmas. `Strip` removes exactly
  the characters for which `str.isspace()` holds: the ASCII whitespace
  0x09-0x0D and 0x1C-0x20, and the Unicode spaces and separators. `Split` is
  pinned down by lemmas: joining the pieces gives back the string, no piece
  holds the separator, and splitting undoes joining.
- `admin_gate.dfy` (module `AdminGate`) defines the gate as written (`Gate`)
  and a policy stated on the characters of the setting (`AdminPolicy`). It
  proves that the two agree, then proves the gate's behaviour case by case.
- `handlers.dfy` (module `Handlers`) defines the back-end outcome
  (`Returned`, `RaisedHttp`, `Raised`), the three handlers, the gate guard in
  front of them, and lemmas about the responses.

The setting and the caller's host are plain parameters. The back-end result
is a parameter too: it stands for what the call would have done.

Where the code does more than its own comments say, the model follows the
code:

- The comment at api.py:58 speaks of the setting being `"*"`. The test at
  api.py:59 compares after `strip()`, so `" * "` admits everybody too.
- The comment at api.py:64 speaks of no addresses being configured. The test
  at api.py:65 asks whether every comma-separated entry is blank, so `",,"`
  and `" , "` count as unconfigured as well.
- `create_key` and `list_keys` catch every `Exception`, an `HTTPException`
  included, and answer 500 (api.py:93-95, 107-109). Only `revoke_key`
  re-raises an `HTTPException` unchanged (api.py:123-124).

## Model

| member | source | states |
|---|---|---|
| `AdminGate.Gate` | api.py:49-75 | the decision written branch by branch as in the source; it has no contract of its own, and whom it admits is stated by `AdminGate.GateMatchesPolicy` |
| `Text.Strip` | api.py:59 | `str.strip()`: the result is no longer than the input and neither starts nor ends with whitespace |
| `Text.StripShape` | api.py:59 | the input is whitespace, then the stripped text, then whitespace |
| `Text.StripPadded` | api.py:69 | stripping removes exactly the whitespace around a text that has no whitespace at its ends |
| `Text.StripIdempotent` | api.py:69 | stripping twice gives the same result as stripping once |
| `Text.StripEmptyIff` | api.py:65 | `ip.strip()` is falsy (empty) exactly when `ip` is all whitespace |
| `Text.StripChars` | api.py:59 | stripping never introduces a character |
| `Text.Split` | api.py:62 | `str.split(",")` always yields at least one piece |
| `Text.JoinSplit` | api.py:62 | joining the pieces of a split with the separator gives back the string, and no piece holds a separator |
| `Text.SplitJoin` | api.py:62 | splitting a join of separator-free pieces gives back those pieces, so the split is the only such list |
| `Text.SplitCount` | api.py:62 | a split has one more piece than there are separators |
| `AdminGate.AnyNonBlank` | api.py:65 | `any(ip.strip() for ip in entries)` holds exactly when some entry strips to a non-empty string |
| `AdminGate.StrippedNonBlank` | api.py:69 | the comprehension's result is no longer than its input and holds no empty string |
| `AdminGate.StrippedNonBlankMembers` | api.py:69 | a string is in the comprehension exactly when it is non-empty and some entry strips to it |
| `AdminGate.GateMatchesPolicy` | api.py:49-75 | the gate admits a caller exactly when the setting is a lone `*` padded by whitespace, or the setting is only separators and whitespace and the caller is a loopback name, or the caller equals a non-empty stripped entry; otherwise it raises 403 |
| `AdminGate.WildcardShape` | api.py:59-60 | `setting.strip() == "*"` holds exactly when the setting is one `*` with only whitespace around it |
| `AdminGate.UnconfiguredShape` | api.py:62-65 | "no entry is non-blank" holds exactly when the setting holds only commas and whitespace |
| `AdminGate.SplitAllSpace` | api.py:62-65 | every piece of the comma split is all whitespace exactly when every character is a comma or whitespace |
| `AdminGate.WildcardAdmitsAll` | api.py:59-60 | a wildcard setting admits every caller, before any entry is looked at |
| `AdminGate.WildcardStandsAlone` | api.py:59 | a setting with two non-whitespace characters is never the wildcard |
| `AdminGate.WildcardInListIsNotWildcard` | api.py:59-75 | `"*,10.0.0.1"` is a list: it admits `10.0.0.1` and the literal host `*`, and denies `8.8.8.8` |
| `AdminGate.ListedAdmits` | api.py:69-75 | a non-empty host equal to some stripped entry is admitted |
| `AdminGate.EmptyHostOnlyByWildcard` | api.py:69-75 | blank entries name nobody: the empty host is admitted exactly when the setting is the wildcard |
| `AdminGate.PaddedEntriesMatch` | api.py:62-75 | `" 1.2.3.4 , 5.6.7.8"` admits `1.2.3.4` and `5.6.7.8`, since entries are compared after stripping |
| `AdminGate.UnconfiguredAdmitsLoopback` | api.py:65-66 | with every entry blank, `127.0.0.1`, `localhost` and `::1` are admitted |
| `AdminGate.UnconfiguredDeniesOthers` | api.py:65-73 | with every entry blank, every other host is denied with 403 |
| `AdminGate.ConfiguredMeansListed` | api.py:65-75 | outside the wildcard, with some entry non-blank, a host (loopback included) is admitted exactly when it is listed |
| `AdminGate.UnlistedDenied` | api.py:69-73 | outside the wildcard, a host that matches no stripped entry is denied, unless it is a loopback name and nothing is configured |
| `AdminGate.LoopbackDeniedWhenConfigured` | api.py:65-73 | with `"10.0.0.1"` configured, `127.0.0.1` is denied |
| `AdminGate.OnlySeparatorsAdmitLoopbackOnly` | api.py:62-73 | the setting `",,"` admits exactly the three loopback names |
| `AdminGate.EmptySettingDevelopmentMode` | api.py:55-73 | the default empty setting admits `127.0.0.1` and denies `8.8.8.8` |
| `Handlers.CreateKey` | api.py:86-95 | the response succeeds with 201 and the generated key exactly when the back-end returned; any `Exception`, `HTTPException` included, gives 500 with `str(e)` as detail |
| `Handlers.ListKeys` | api.py:104-109 | the response succeeds with 200 exactly when the back-end returned; its keys are the returned ones and its count is their number; any `Exception` gives 500 |
| `Handlers.RevokeKey` | api.py:118-127 | success (200 and the confirmation message) exactly when the back-end returned true; false gives 404 "API Key não encontrada"; an `HTTPException` passes through with its code and detail; any other `Exception` gives 500 |
| `Handlers.Guarded` | api.py:70-79 | a caller the gate denies gets 403 with the denial detail; an admitted caller gets the handler's response |
| `Handlers.CreateEndpoint` | api.py:78-95 | `Guarded` around `CreateKey`: 201 with the generated key exactly when the gate admits the caller and the back-end returned; otherwise 403 with the gate's detail for a denied caller, or 500 with `str(e)` for an admitted one |
| `Handlers.ListEndpoint` | api.py:97-109 | `Guarded` around `ListKeys`: 200 with the returned keys and their count exactly when the gate admits the caller and the back-end returned; otherwise 403 for a denied caller, or 500 for an admitted one |
| `Handlers.RevokeEndpoint` | api.py:111-127 | `Guarded` around `RevokeKey`: 200 with the confirmation exactly when the gate admits the caller and the key was revoked; a denied caller gets 403 whatever the back-end did; for an admitted caller, a key not found gives 404, a back-end `HTTPException` passes through with its own code and detail, and any other `Exception` gives 500 with `str(e)` |
| `Handlers.HttpExceptionPassesOnlyThroughRevoke` | api.py:93-127 | a back-end `HTTPException` keeps its code in revoke but becomes 500 in create and list |
| `Handlers.RevokeNotFoundIff` | api.py:119-124 | revoke answers 404 exactly when nothing was revoked or the back-end itself raised a 404 |
| `Handlers.ClosedStatusSet` | api.py:78-127 | create answers 201, 403 or 500; list answers 200, 403 or 500; revoke answers 200, 403, 404 or 500, or a code its back-end raised |
| `Handlers.DeniedIgnoresBackEnd` | api.py:78-79 | a denied caller gets the same 403 from every endpoint, whatever the back-end would have done |
| `Handlers.SuccessNeedsAdmission` | api.py:78-127 | no management endpoint succeeds for a caller the admin policy does not admit |
| `Handlers.ListingCountIsLength` | api.py:105-106 | a successful listing carries exactly the returned keys and `count == len(keys)` |

## Left out

- Reading `ADMIN_ALLOWED_IPS` from the environment (with `""` as default) and `request.client.host` from the request: both are parameters. A request without client information is out of scope.
- `generate_api_key`, `get_api_keys`, `revoke_api_key` and `get_api_key`: their source (`src/security.py`) is not part of this model. Key generation, hashing, storage, expiry and the per-key IP allowlist are not modelled. Each call appears only as its outcome: a returned value, an `HTTPException`, or another `Exception`.
- The text of `str(e)`: it is an opaque string carried by the outcome.
- Exceptions that are not an `Exception` (a `BaseException` such as `asyncio.CancelledError`): `except Exception` does not catch them, so they leave every handler uncaught. `Raised` stands only for an `Exception`; the uncaught case is not modelled.
- Handlers.RevokeKey: an `HTTPException` raised by the back-end keeps its status code and detail, but its `headers` are not modelled.
- Handlers.ListKeys: `len(keys)` is taken of a sequence. A back-end that returned something without a length would raise `TypeError`, which the handler turns into 500; that case is not modelled.
- Handlers.RevokeKey: the back-end result is a boolean. Python's truthiness of non-boolean results is not modelled.
- Request and response validation by pydantic (`APIKeyRequest`, `RevokeRequest`, the defaults of `expires_days` and `allowed_ips`): the handlers only forward these fields to the opaque back-end.
- Logging of errors, async/await scheduling, and the FastAPI routing that maps paths and verbs to handlers.
- App construction, `lifespan`, `load_dotenv`, uvicorn start-up and the `/status` endpoint: framework wiring with no decision in it.
- `src/init_db.py` (database connection and connection test): I/O plumbing with no logic to model.
- The gate's `True` return value is modelled as `Allow`, and its 403 raise as `Deny403`. The gate has no way to return a false value, so `GateResult` has no constructor for it.
