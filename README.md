# yahoo-group-archiver request layer and photo selector, in Dafny

This project models two parts of the Yahoo Groups archiver.

- **`get_best_photoinfo`** (utils.py, module `PhotoUtils`) picks the best rendition of a photo.
  - It builds a rank table `tn < sn < hr < or` (0..3) and lowers excluded types to -1.
  - It scans the records and keeps a running `best`. A record of equal or higher rank replaces `best`.
  - It returns `None` when the winner has rank -1.
- **`YahooGroupsAPI`** (yahoogroupsapi.py, module `GroupsApi`) is the request layer. The model covers:
  - the endpoint registry `API_VERSIONS`;
  - dispatch of endpoint names through `__getattr__`;
  - URI construction in `get_json` and its 200-only success check;
  - the 400-retry loop in `download_file`;
  - the object state set by `__init__` and `set_warc_writer`.

  The network is a parameter. `get_json` takes a function from request to response. `download_file` takes a function from the attempt number (0, 1, …) to the response of that GET.
- Module `Text` holds the Python string built-ins the URI builder uses: `"/".join` and `str()` of an integer. It also defines `Split`, splitting on `/`. The builder never calls it; it exists as the inverse of `Join`, for the round-trip lemmas.

Exceptions are values of `Result`'s `Failure` side:
- `PhotoUtils.PyError`: `IndexError`, and `KeyError(key)` naming the missing key.
- `GroupsApi.ApiError`: `AttributeError`, `KeyError`, `HttpError(status)`, `JsonError`, `ImportError`, `NameError`, `TypeError`.

The model follows the code, including these behaviours:
- A record of unknown type is skipped when the scan visits it (lines 15-17), the first record included. But `best` starts at the first record, so an unknown first type is then looked up in the rank table at line 18 or 20 and raises `KeyError`. See Findings.
- `set_warc_writer(None)` when warcio failed to import first sets `ww` to `None` and then raises `NameError`, because `capture_http` is undefined at line 59. It does not leave the object unchanged.
- `download_file` only raises for 4xx and 5xx statuses (`raise_for_status`), not for every non-2xx status. A 3xx passes.
- `__init__` installs the cookie jar only when it is truthy. An empty jar is ignored.
- `exclude` is never mutated, so the shared default list cannot carry state from one call to the next. `ExclusionsOnlyOfKnownTypes` shows the result depends only on which known types are excluded.

## Model

| member | source | states |
|---|---|---|
| `PhotoUtils.BuildRankTable` | utils.py:6-11 | the table has exactly the keys tn, sn, hr, or; a key named in `exclude` has rank -1, every other key keeps its rank 0..3; unknown names in `exclude` add nothing |
| `PhotoUtils.BestPhotoInfo` | utils.py:4-23 | what the call returns or raises: `IndexError` on an empty list; otherwise the scan from the first record (one `Step` per record, lines 15-19), then the rank -1 test of lines 20-23; its meaning is proved in the lemmas below |
| `PhotoUtils.GetBestPhotoInfo` | utils.py:4-23 | the loop (start at the first record, skip unknown types, replace on `>=`, fail on the missing keys) returns or raises exactly what `BestPhotoInfo` defines |
| `PhotoUtils.ScanWinner` | utils.py:13-19 | from a known `best`, over records that all have a type, the scan succeeds with a known record of maximal rank, not below the start, that is the last record of its rank (or the start itself when every later record ranks below it) |
| `PhotoUtils.SelectionErrors` | utils.py:13-20 | the call fails exactly when the list is empty (`IndexError`), a record lacks `photoType`, or the first record's type is unknown; a known first record with a missing `photoType` later gives `KeyError('photoType')`; an unknown first type `t` with all types present gives `KeyError(t)` |
| `PhotoUtils.ScanFailsOnMissingType` | utils.py:14-15 | from a known `best`, any record without `photoType` makes the scan raise `KeyError('photoType')` |
| `PhotoUtils.ScanFromUnknownFails` | utils.py:15-20 | when `best` has an unknown type, the scan either keeps `best` or raises a `KeyError` for `photoType` or for `best`'s type; with every type present it never raises for `photoType` |
| `PhotoUtils.SelectedIsBest` | utils.py:13-23 | a returned record is an element of the input, of a known type that is not excluded, with the highest rank among the known-typed records |
| `PhotoUtils.SelectedIsLastOfItsRank` | utils.py:18-19 | ties go to the later record: no known-typed record after the returned one has the same or a higher rank |
| `PhotoUtils.NoneIffAllExcluded` | utils.py:9-21 | on success, `None` is returned exactly when every record of a known type has an excluded type |
| `PhotoUtils.ExclusionsOnlyOfKnownTypes` | utils.py:6-11 | two exclusion lists naming the same known types give the same rank table and the same result; names that are not rendition types, order and repetition have no effect |
| `PhotoUtils.UnknownRecordSkipped` | utils.py:15-17 | deleting a record of unknown type that is not the first one leaves the result unchanged |
| `PhotoUtils.ScanSkip` | utils.py:15-17 | a scan is unchanged by deleting any record whose type is not in the rank table |
| `PhotoUtils.UnknownFirstRecordIsFatal` | utils.py:13-20 | `[xx, hr]` raises `KeyError('xx')` in the code, while the corrected selection returns the `hr` record |
| `PhotoUtils.KnownOnly` | utils.py:15-17 | keeps exactly the records of a known rendition type |
| `PhotoUtils.KnownOnlyKeepsOrder` | utils.py:14-17 | the kept records stay in input order, with their repetitions: filtering `a + b` gives the filtered `a` followed by the filtered `b` |
| `PhotoUtils.BestPhotoInfoSkippingUnknown` | utils.py:13-23 | the corrected selection: a missing list element or `photoType` fails as in the code; with no known-typed record there is no suitable rendition; otherwise it is the code's selection over the known-typed records only |
| `PhotoUtils.ScanKnownOnly` | utils.py:14-19 | over records that all have a type, scanning only the known-typed ones gives the same result |
| `PhotoUtils.SkippingUnknownSelectsBest` | utils.py:13-23 | the corrected selection never fails on typed input; it agrees with the code wherever the code succeeds; its result is a known, non-excluded input record of maximal rank, and the last record of that rank; it returns `None` exactly when every known record is excluded |
| `Text.Join` | yahoogroupsapi.py:99 | `"/".join(parts)`: the parts with one `/` between each two; `SplitJoin` and `JoinSplit` prove it is undone by splitting on `/` |
| `Text.SplitJoin` | yahoogroupsapi.py:99 | splitting the `/`-joined parts on `/` gives back the parts when none contains `/` |
| `Text.JoinSplit` | yahoogroupsapi.py:99 | joining the pieces of any string split on `/` gives back the string |
| `Text.Decimal` | yahoogroupsapi.py:94 | `str(n)` of a natural number is a non-empty string of decimal digits with no leading zero unless `n` is 0 |
| `Text.DecimalRoundTrip` | yahoogroupsapi.py:94 | reading the digits of `str(n)` back gives `n` |
| `GroupsApi.Str` | yahoogroupsapi.py:94 | `str()` of an integer path part contains no `/`, so it fills exactly one URI segment |
| `GroupsApi.Strs` | yahoogroupsapi.py:94 | `map(str, parts)` has one string per part, in order |
| `GroupsApi.VersionsArePlain` | yahoogroupsapi.py:26-38 | every registered endpoint version is `v1` or `v2` |
| `GroupsApi.EndpointUri` | yahoogroupsapi.py:93-99 | the URI `get_json` builds: base, version, `groups`, group, the target (empty for `HackGroupInfo`) and `str` of each part, joined with `/`; `EndpointUriSegments` proves the segment layout |
| `GroupsApi.NamesArePlain` | yahoogroupsapi.py:26-38 | every registered endpoint name is non-empty and contains no `/`, so it fills exactly one URI segment |
| `GroupsApi.PathSegments` | yahoogroupsapi.py:93-99 | for any base, `/`-joining base, version, `groups`, group, name and the stringified parts gives the base, `/`, and a rest that splits back into exactly those segments, when none contains `/` |
| `GroupsApi.EndpointUriSegments` | yahoogroupsapi.py:93-99 | the URI is the base, `/`, then segments version, `groups`, group, endpoint name, and `str` of each part in order; the name segment is empty exactly for `HackGroupInfo` and is the target otherwise |
| `GroupsApi.RaisesForStatus` | yahoogroupsapi.py:81 | `raise_for_status()` raises exactly for 4xx and 5xx statuses; used after the retry loop and at line 103 |
| `GroupsApi.JsonOutcome` | yahoogroupsapi.py:102-106 | a value is returned exactly when the status is 200, the body is a JSON object and it has `ygData`, and the value is that field; every other status (3xx included) is an `HTTPError` carrying the status; a 200 without `ygData` is a `KeyError` |
| `GroupsApi.RedirectIsError` | yahoogroupsapi.py:101-105 | a 3xx is not raised by `raise_for_status` but is still an error for `get_json` |
| `GroupsApi.GetAttr` | yahoogroupsapi.py:61-69 | a name yields an endpoint call exactly when it is a key of `API_VERSIONS`, bound to that name as target; any other name is `AttributeError` |
| `GroupsApi.YahooGroupsApi.constructor` | yahoogroupsapi.py:46-52 | `group` is the argument; headers are exactly `{'Referer': BASE_URI}`; cookies are the supplied jar when it is given and not empty, otherwise a fresh empty jar; no WARC writer and the dummy context |
| `GroupsApi.YahooGroupsApi.SetWarcWriter` | yahoogroupsapi.py:54-59 | a writer with warcio missing raises `ImportError` and changes nothing; `None` with warcio missing clears `ww`, keeps the context and raises `NameError`; otherwise `ww` is the argument and the context is `capture_http` |
| `GroupsApi.YahooGroupsApi.GetJson` | yahoogroupsapi.py:90-110 | options naming `self` or `target` raise `TypeError` when the call is bound, before anything is sent; otherwise an unregistered target raises `KeyError` and sends nothing; otherwise exactly one GET of the endpoint URI is sent, with the options as query parameters, no redirects and a 15-second timeout, and the outcome is `JsonOutcome` of its response, re-raised unchanged |
| `GroupsApi.YahooGroupsApi.CallEndpoint` | yahoogroupsapi.py:61-69 | an unregistered name raises `AttributeError` and sends no request; for a registered one, options naming `self` or `target` raise `TypeError` with no request, and any other options send one GET of that endpoint's URI with the options and return `JsonOutcome` of the response |
| `GroupsApi.ClashesWithGetJson` | yahoogroupsapi.py:90 | the options that give `get_json` a second value for `self` or `target` (the stub from line 69 binds `target` too), so that the call raises `TypeError` |
| `GroupsApi.RejectedDownloadKeyword` | yahoogroupsapi.py:71-75 | the keyword arguments that make the download call or its GET raise `TypeError`: `self` or `url` again, `stream` or `verify` (passed by the GET itself), and any keyword outside those `Session.request` takes, `method` among them |
| `GroupsApi.YahooGroupsApi.DownloadFile` | yahoogroupsapi.py:71-88 | `args` the call or its GET rejects (`RejectedDownloadKeyword`) raise `TypeError` with no GET; otherwise 1 to 6 streaming GETs of the URL; every GET but the last got status 400; the last got a status other than 400 or was the sixth; 5 seconds slept per retry; the last response is raised for 4xx/5xx, else its body is returned (no file) or written to the file; a 400 surfaces only after all 6 GETs |

## Left out

- The network itself is left out: `requests.Session`, TLS verification against the bundled certificate chain, following redirects, and the timeout. They are replaced by the `server` parameter. Each recorded request carries the `stream`, `allow_redirects` and `timeout` settings the GET runs with when no keyword argument overrides them.
- Exceptions raised by `Session.get` itself (connection errors, timeouts) are not modelled.
- WARC capture is not modelled. `capture_http` and `dummy_contextmanager` wrapping each call are foreign context managers. Only the `http_context` and `ww` fields are modelled, not what gets recorded.
- `time.sleep(5)` is a counted no-op: `DownloadFile` reports the seconds slept.
- `GroupsApi.YahooGroupsApi.DownloadFile`: the body written to a file is given whole. The 4096-byte chunking by `iter_content` is library behaviour and is not modelled.
- The keywords `Session.request` accepts (`RequestKeywords`) are taken from the requests library's signature; the requests library is not part of this model.
- `GroupsApi.YahooGroupsApi.DownloadFile`: an `allow_redirects` or `timeout` entry in `args` changes the real GET. The recorded request keeps the library defaults (redirects followed, no timeout) in its flags; the override appears only in its `options` map. Keyword values are opaque strings.
- `r.json()` is an abstract parse result: a string-to-string map, or `None` when the body is not a JSON object. JSON values are opaque strings.
- Logging calls (utils.py:5,16; yahoogroupsapi.py:40,56,77,108-109) are diagnostics only and are not modelled.
- Normal attribute lookup comes before `__getattr__` in Python. `GetAttr` covers only names that are not ordinary attributes of the object.
- `str()` is modelled for integer and string path parts only.
- `GroupsApi.Str`: a `StrPart` stands for a byte string or ASCII text, which Python 2's `str()` returns unchanged. `str()` of a `unicode` part with non-ASCII characters raises `UnicodeEncodeError`; that error path is not modelled.
- URI building follows Python 2 (`map` returns a list). Under Python 3, line 94 raises `TypeError`; that is not modelled.
- The cookie jar is a value. The model does not capture that the session shares the caller's jar by reference, or cookies set by responses.
- `warcio_failed` is fixed when the module is imported. It is the `warcioFailed` parameter of `SetWarcWriter`.

## Findings

| source | as written | input that shows it | evidently intended | confidence | as-written member | corrected member |
|---|---|---|---|---|---|---|
| utils.py:13-20 | `best` starts at the first record even when its type is unknown; the rank lookup at line 18 (or line 20) then raises `KeyError` | `[{'photoType': 'xx'}, {'photoType': 'hr'}]` raises `KeyError('xx')` | unknown types are logged and skipped wherever they stand, so the `hr` record is returned | high; not executed | `PhotoUtils.UnknownFirstRecordIsFatal` | `PhotoUtils.SkippingUnknownSelectsBest` |
