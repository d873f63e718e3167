# eero_tracker in Dafny

This project models `eero_tracker`, a Home Assistant device tracker for eero
mesh Wi-Fi routers, and proves properties of that model. The tracker keeps a
session token from the eero cloud API in a file. On each poll it fetches the
account (cached for an hour), then the device list of every network. It
reports the MAC addresses of the connected (and, by default, wireless)
devices that pass the allow-list, along with a MAC-to-name map and a
MAC-to-attributes map.

Modules:

- `Wrappers`: `Option`, `Result` and `Outcome`.
- `Strings`: the Python string operations the tracker relies on: `split`,
  `join`, `replace('\n', '')`, `strip`, `lower`, decimal digits.
- `Urls`: `id_from_url`, and the `/networks/(\d+)` search that gives a network
  its numeric ID.
- `Api`:
  - the records the API returns;
  - the `{meta, data}` envelope check (`_parse_response`);
  - the errors a call can end with: a client error with status and message,
    a connection failure, a malformed payload, a failed file write, and the
    undefined-name error of the legacy scanner;
  - the HTTP client. Its network is a script of replies answered in order,
    and `sent` logs every request.
- `Storage`: the session file and the `CookieStore` that writes every new
  token through to it.
- `EeroClient`: `Eero` of `custom_components/eero_tracker/eero.py`.
  `eero_tracker_instantiate.py` (lines 11-72) holds a copy of it with the
  same methods. That file's `Client._parse_response` (line 93) compares
  codes with `is not` where `eero.py` (line 90) uses `!=`; the model reads
  both as `!=`.
- `Instantiate`: the device dump that `eero_tracker_instantiate.py` runs when
  a session already exists.
- `Polling`: the pure rules shared by the scanners, each used as the
  specification of the methods that implement it:
  - the allow-list parsing;
  - the interval floor;
  - the one-hour account cache;
  - the device filter;
  - the three per-poll results.
- `Tracker`: `EeroDeviceScanner` of
  `custom_components/eero_tracker/device_tracker.py`, as a class with the
  scanner's fields.
- `LegacyTracker`: the older `EeroDeviceScanner` of
  `custom_components/device_tracker/eero_tracker.py`.

How the model is written:

- Each Python exception becomes an `Err`/`Fail` value, and the methods carry
  it to the caller as the Python code does.
- The network is a script of replies. Each scanner method that sends
  requests is proved equal to a function of the state before the call and
  the replies still to come. The function gives the result, the requests
  sent with their cookies, the replies consumed, the session and the
  session file. These functions are:
  - `RefreshedEffect`/`RefreshedAttempt`/`RefreshedExchange` for `_refreshed`;
  - `Visit` and `NetworkLoop` for the network loop;
  - `UpdateEffect`/`UpdateAttempt` for `_update_info`;
  - `DumpRun` for the dump.
- The results are specified by `Polling.Poll` over the device lists that
  function fetched. The new scanner's `_update_info` leaves
  `Poll(AllDevices(fetched))`, or the old results when the account fetch
  raised. The legacy scanner leaves the kept MACs of the fetched lists.
- Lemmas about those functions state what the polls promise:
  - requests go only to the account, the refresh endpoint and the device
    paths of the networks the filter selects (`UpdatePaths`);
  - a poll that ends without raising fetched one device list per selected
    network, each carried by a reply of the script (`UpdatePass`);
  - when the server answers every request, the exact request sequence and
    the lists kept (`UpdateAnswered`, `DumpAnswered`);
  - the account cache sends no account request within the hour
    (`UpdateCached`, `TwoPollsWithinHour`);
  - after a successful stale fetch, the cache holds the answer stamped with
    the poll's time (`StalePollFetches`).

Where the code and its documentation disagree, the model follows the code.
The documented MAC allow-list is case-insensitive. In the code, the
configured MACs are lower-cased but each device's MAC is compared as
reported, so an upper-case MAC is never tracked while an allow-list is set.
`Polling.UpperCaseMacNeverTracked` proves this. Likewise, the setting
`only_macs: " "` gives the allow-list `{""}`, which tracks nothing
(`Polling.BlankPieceKept`, `Polling.BlankAllowListTracksNothing`).

The legacy scanner documents `only_macs` as comma-separated
(`custom_components/device_tracker/eero_tracker.py:11`) but splits it on
'.' (line 58). Two MACs written as documented form one allow-list entry,
and no MAC without a comma is tracked (`Polling.LegacyCommaListTracksNoMac`).

The legacy scanner's `_refreshed` logs client errors other than the
expired-session one through a name it never defines. Any such error therefore
ends as a `NameError`, and the model keeps this
(`LegacyTracker.RefreshedAttemptSpec`).

## Model

| member | source | states |
|---|---|---|
| Api.ParseResponse | custom_components/eero_tracker/eero.py:87-93 | a response is accepted exactly when `meta.code` is 200 or 201; otherwise the error carries that code and `meta.error`, or "" when absent; an accepted response yields `data`, or "" when absent |
| Api.SessionExpiredIff | custom_components/eero_tracker/device_tracker.py:188-190 | a response asks for a refresh exactly when its code is 401 and its `meta.error` is exactly "error.session.refresh" |
| Api.Receive | custom_components/eero_tracker/eero.py:95-101 | a request with no answer raises a connection error, a body that is not JSON raises, and an answer is checked by the envelope rule; only an answer can succeed |
| Api.GetUserToken | custom_components/eero_tracker/device_tracker.py:197-198 | `response.get('user_token')` answers for a dict (None when the key is missing) and raises for every other payload |
| Api.IndexUserToken | custom_components/eero_tracker/eero.py:47-49 | `response['user_token']` succeeds exactly on a dict holding the key, with its value; an earlier error passes through unchanged |
| Api.DevicesPathOfUrl | custom_components/eero_tracker/device_tracker.py:229-232 | the devices request for a URL ending in `/<digits>` goes to `networks/<digits>/devices` |
| Api.Client.Request | custom_components/eero_tracker/eero.py:95-101 | one request logs its call, consumes exactly one reply of the script and yields that reply's checked outcome |
| Urls.IdFromUrlFinds | custom_components/eero_tracker/device_tracker.py:219-227 | an ID found is a non-empty digit string that is the whole input or follows its last `/` at the end (before a final newline), and none is found exactly when there is no such digit string |
| Urls.IdOfDigits | custom_components/eero_tracker/device_tracker.py:222-224 | a digit string is its own ID, with or without a trailing newline |
| Urls.IdOfUrl | custom_components/eero_tracker/device_tracker.py:225-227 | a URL ending in `/<digits>` has those digits as its ID, whatever precedes them |
| Urls.FirstMarkerFinds | custom_components/eero_tracker/device_tracker.py:132 | the search finds the leftmost `/networks/` followed by a digit, and finds nothing when none occurs |
| Urls.NetworkIdFound | custom_components/eero_tracker/device_tracker.py:132-133 | a network gets an ID exactly when its URL contains `/networks/` followed by a digit |
| Urls.NetworkIdOfUrl | custom_components/eero_tracker/device_tracker.py:132-133 | the number written after the first `/networks/` is read back exactly, whatever non-digit text follows |
| Urls.NetworkIdOfApiPath | custom_components/eero_tracker/device_tracker.py:132-133 | the API's own network URLs `/2.2/networks/<n>` give the ID `n` |
| Strings.Split | custom_components/eero_tracker/device_tracker.py:63 | `split` gives at least one piece and no piece contains the separator |
| Strings.JoinSplit | custom_components/eero_tracker/device_tracker.py:63 | splitting loses nothing: joining the pieces gives back the input |
| Strings.SplitJoin | custom_components/eero_tracker/device_tracker.py:63 | pieces free of the separator, once joined, split back into exactly those pieces |
| Strings.Remove | custom_components/eero_tracker/device_tracker.py:95 | removing newlines leaves none and changes a string without newlines not at all |
| Strings.RemoveIsConcatOfSplit | custom_components/eero_tracker/device_tracker.py:95 | removing a character is the same as splitting on it and concatenating the pieces |
| Strings.Strip | custom_components/eero_tracker/device_tracker.py:63 | `strip` leaves no whitespace at either end, and gives "" exactly when the input is all whitespace |
| Strings.Lower | custom_components/eero_tracker/device_tracker.py:63 | `lower` keeps the length, maps each character on its own, leaves no upper-case letter and changes nothing else |
| Strings.LowerIdempotent | custom_components/eero_tracker/device_tracker.py:63 | lower-casing twice is lower-casing once |
| Strings.LowerKeepsEnds | custom_components/eero_tracker/device_tracker.py:63 | lower-casing a stripped string leaves it stripped |
| Strings.DecimalRoundTrip | custom_components/eero_tracker/device_tracker.py:133 | `int()` of a number's decimal digits gives back that number |
| Storage.SessionFile.Read | custom_components/eero_tracker/device_tracker.py:92-98 | reading yields the file's contents, or nothing when it cannot be read |
| Storage.SessionFile.Write | custom_components/eero_tracker/device_tracker.py:211-212 | a write succeeds exactly when the file is writable, and then the file holds the text; a failed write changes nothing |
| Storage.CookieStore.constructor | custom_components/eero_tracker/eero.py:104-113 | the token is the file's contents verbatim, or none when the file cannot be read |
| Storage.CookieStore.SetCookie | custom_components/eero_tracker/eero.py:119-123 | the in-memory token takes the new value even when the write-through fails; the file takes it only when writable, and a failed write raises |
| EeroClient.Eero.CookieDict | custom_components/eero_tracker/eero.py:14-22 | the cookie is empty exactly when no token is held, and otherwise is `s` = the token alone |
| EeroClient.Eero.Login | custom_components/eero_tracker/eero.py:24-28 | one `login` post with the identifier, whose `user_token` is the result; the session is untouched |
| EeroClient.Eero.LoginVerify | custom_components/eero_tracker/eero.py:30-35 | one `login/verify` post with the code and the pending token as cookie; on success the token becomes the session and is written through; an error leaves the session as it was |
| EeroClient.Eero.LoginRefresh | custom_components/eero_tracker/eero.py:47-49 | one `login/refresh` post with the current cookie; a missing `user_token` raises and changes nothing, otherwise the new token becomes the session and is written through |
| EeroClient.Eero.RefreshAndRetry | custom_components/eero_tracker/eero.py:41-49 | returns, sends and leaves exactly what `RetryExchange` gives for the cookie, file and replies before the call: the refresh, then one more attempt with the new token as cookie; a missing token or a failed write ends it with that error and no retry |
| EeroClient.Eero.Refreshed | custom_components/eero_tracker/eero.py:37-45 | returns, sends and leaves exactly what `RefreshedExchange` gives for the cookie, file and replies before the call |
| EeroClient.RetryExchangeSpec | custom_components/eero_tracker/eero.py:41-49 | the refresh with the stored cookie; a missing token raises with cookie and file unchanged; a token is stored even when the write-through fails, which raises; exactly when a token came and was written, one retry with it as cookie, whose outcome stands; a success was a reply of the script |
| EeroClient.RefreshedExchangeSpec | custom_components/eero_tracker/eero.py:37-45 | one to three requests, the first the action with the stored cookie; any outcome but the expired-session error stands unchanged, errors re-raised, with nothing else sent; that error leads to the refresh and then a retry with the new cookie, whose outcome stands; requests go only to the action's path or the refresh path; a success was a reply of the script |
| Instantiate.DumpLines | eero_tracker_instantiate.py:158-160 | one line per wireless, connected device, in order |
| Instantiate.DumpLinesAppend | eero_tracker_instantiate.py:158-160 | the lines of two lists in a row are the lines of the first followed by those of the second |
| Instantiate.DumpLinesMembers | eero_tracker_instantiate.py:158-160 | a line is printed exactly when some wireless, connected device prints as it |
| Instantiate.PrintDevices | eero_tracker_instantiate.py:158-160 | the inner loop prints exactly the dump lines of the list |
| Instantiate.DumpNetwork | eero_tracker_instantiate.py:155-160 | the result, the session, the file and the network are those of `refreshed` on the network's devices request from the state before the call, a payload that is not a list raising; a list prints exactly its dump lines, anything else prints nothing |
| Instantiate.Dump | eero_tracker_instantiate.py:151-160 | ends, and leaves the session, file and network, exactly as `DumpRun` gives from the state before the call; the lines printed are the dump lines of every list it fetched, in fetch order, also when a later request raises |
| Instantiate.LoopPaths | eero_tracker_instantiate.py:154-155 | the dump's network loop uses one reply per request and asks only for session refreshes and the device lists of the networks it was given |
| Instantiate.LoopCount | eero_tracker_instantiate.py:154-155 | a loop that ends without raising fetched one device list per network |
| Instantiate.LoopAnswered | eero_tracker_instantiate.py:154-155 | when each device request is answered with a list, the loop sends one request per network, in order, with the stored cookie, and keeps exactly those lists |
| Instantiate.DumpPaths | eero_tracker_instantiate.py:153-155 | the first request is the account with the stored cookie; one reply per request; requests go only to the account, session refreshes and the device lists of the networks of the account it got |
| Instantiate.DumpPass | eero_tracker_instantiate.py:153-155 | a dump that ends without raising got an account and one device list per network of it |
| Instantiate.DumpAccountAnswered | eero_tracker_instantiate.py:153-154 | an account answer costs one request and leads to the loop over its networks |
| Instantiate.DumpAnswered | eero_tracker_instantiate.py:151-160 | when the account and every device request are answered, the dump sends the account request and then one per network in order, and ends with exactly those lists |
| Polling.Normalize | custom_components/eero_tracker/device_tracker.py:63 | a configured entry is stripped at both ends and, when lower-cased, holds no upper-case letter |
| Polling.NormalizeKeepsOut | custom_components/eero_tracker/device_tracker.py:63 | normalizing an entry introduces no character other than a lower-case letter |
| Polling.AllowListEntry | custom_components/eero_tracker/device_tracker.py:63 | every allow-list entry is stripped, holds no separator, and is lower-case in the new scanner |
| Polling.EmptyConfigNoAllowList | custom_components/eero_tracker/device_tracker.py:31 | the default empty setting gives an empty allow-list, which lets every MAC through |
| Polling.AllowListOfJoin | custom_components/eero_tracker/device_tracker.py:63 | a setting written as normal-form MACs joined by the separator yields exactly those MACs |
| Polling.AllowListOfOne | custom_components/eero_tracker/device_tracker.py:63 | a non-empty setting without a separator is an allow-list of its one normalized entry |
| Polling.LegacyAllowListOfOne | custom_components/device_tracker/eero_tracker.py:58 | a legacy setting without '.' is one allow-list entry: the whole setting, stripped, case kept |
| Polling.LegacyCommaListTracksNoMac | custom_components/device_tracker/eero_tracker.py:58 | two MACs written comma-separated, as the module documents, make one entry, and no device whose MAC has no comma is tracked |
| Polling.SplitBlank | custom_components/eero_tracker/device_tracker.py:63 | a lone blank splits into itself |
| Polling.NormalizeBlank | custom_components/eero_tracker/device_tracker.py:63 | a blank entry normalizes to "" |
| Polling.BlankPieceKept | custom_components/eero_tracker/device_tracker.py:63-64 | the setting " " survives the empty-piece test and makes the non-empty allow-list {""} |
| Polling.EffectiveInterval | custom_components/eero_tracker/device_tracker.py:80-87 | the interval is never under 25 seconds: the configured one when at least 25, otherwise 25 |
| Polling.NoRefetchWithinHour | custom_components/eero_tracker/device_tracker.py:122 | within an hour of a fetch no poll fetches the account again |
| Polling.RefetchAfterHour | custom_components/eero_tracker/device_tracker.py:122-125 | among polls in time order, a poll an hour or more after the previous poll always fetches the account |
| Polling.CacheScenario | custom_components/eero_tracker/device_tracker.py:122-125 | the first poll fetches, a poll within the hour does not, and a poll an hour or more later fetches again |
| Polling.KeptMembers | custom_components/eero_tracker/device_tracker.py:148-160 | exactly the devices of the list that pass the connected, wireless and allow-list tests are kept |
| Polling.KeptAppend | custom_components/eero_tracker/device_tracker.py:148 | filtering two lists in a row is filtering each and concatenating |
| Polling.Macs | custom_components/eero_tracker/device_tracker.py:177 | the reported MACs are the devices' MACs, one each, in order |
| Polling.MacsAppend | custom_components/eero_tracker/device_tracker.py:177 | the MACs of two lists in a row are the MACs of each, concatenated |
| Polling.TrackedMacsMembers | custom_components/eero_tracker/device_tracker.py:148-177 | a MAC is reported exactly when some device passing the filters has it |
| Polling.UpperCaseMacNeverTracked | custom_components/eero_tracker/device_tracker.py:158-160 | while an allow-list is set, a device whose MAC has an upper-case letter is never tracked |
| Polling.BlankAllowListTracksNothing | custom_components/eero_tracker/device_tracker.py:159 | with the setting " ", no device with a MAC is tracked |
| Polling.RecordedAppend | custom_components/eero_tracker/device_tracker.py:148-174 | recording two lists in a row is recording the first, then the second |
| Polling.RecordedLastWriter | custom_components/eero_tracker/device_tracker.py:169-174 | the entry for a MAC is the value of the last kept device with that MAC and a value |
| Polling.RecordedUntouched | custom_components/eero_tracker/device_tracker.py:169-174 | a MAC that no kept device writes keeps its entry, or its absence, as it was |
| Polling.RecordedKeys | custom_components/eero_tracker/device_tracker.py:162-177 | a fresh map has an entry exactly for the MACs that some kept device writes, and each of these MACs is reported |
| Polling.LastWriterExists | custom_components/eero_tracker/device_tracker.py:169-174 | when some kept device writes a MAC, a last one does |
| Polling.HostnameFallback | custom_components/eero_tracker/device_tracker.py:163-170 | a kept device without a usable nickname is named by its non-empty hostname, unless a later device names the same MAC |
| Polling.NameValue | custom_components/eero_tracker/device_tracker.py:163-170 | a device gives a name exactly when its nickname is usable (non-empty and not "None") or its hostname is non-empty; the name is never empty, and a usable nickname wins |
| Polling.NicknamePreferred | custom_components/eero_tracker/device_tracker.py:163-170 | a kept device with a usable nickname is named by it, unless a later device names the same MAC |
| Polling.SourceRecorded | custom_components/eero_tracker/device_tracker.py:172-174 | a kept device with a non-empty `source` has it as its MAC's attributes, unless a later device gives the same MAC attributes; a null or empty `source` records nothing |
| Polling.AllDevicesSnoc | custom_components/eero_tracker/device_tracker.py:131-143 | the devices of one more fetched list come after those already fetched |
| Polling.FoldStep | custom_components/eero_tracker/device_tracker.py:141-143 | the poll over one more fetched list extends the previous results by that list alone |
| Polling.AsDeviceList | custom_components/device_tracker/eero_tracker.py:90-93 | a fetched payload is kept exactly when it is a device list; an error or a list passes through unchanged, anything else raises |
| Tracker.RefreshToken | custom_components/eero_tracker/device_tracker.py:197-201 | the refresh yields a new session exactly for a dict with a non-empty `user_token`; an error passes through |
| Tracker.Swallowed | custom_components/eero_tracker/device_tracker.py:186-193 | a client error becomes "no result" (None); every other error propagates; a success keeps its payload |
| Tracker.RetryEffectSpec | custom_components/eero_tracker/device_tracker.py:188-214 | after an expired session: the refresh with the old cookie; an error from it ends with no retry and nothing changed; otherwise exactly one retry with the cookie of that moment (the new token, or the old one when none came), whose outcome stands; the session changes only to a non-empty token, the file only to it and only when writable; a payload was a reply of the script |
| Tracker.RefreshedEffectSpec | custom_components/eero_tracker/device_tracker.py:184-193 | one to three requests, the first the action with the session cookie; any outcome but the expired-session error ends it with nothing else sent, a client error becoming None; that error leads to the refresh and then a retry with the cookie of that moment, whose outcome stands; requests go only to the action's path or the refresh path; a payload was a reply of the script |
| Tracker.DevicesOutcome | custom_components/eero_tracker/device_tracker.py:141-143 | a device list is kept exactly when the fetch succeeded with a list payload, and it is that payload; an error passes through; a swallowed error (None) or any other payload raises |
| Tracker.SelectedNetworksMembers | custom_components/eero_tracker/device_tracker.py:131-138 | a network is polled exactly when it is the account's, its URL gives an ID, and the filter is empty or lists that ID |
| Tracker.AccountNotSelectedPath | custom_components/eero_tracker/device_tracker.py:229-232 | no devices path of a polled network is the account path |
| Tracker.LoopPaths | custom_components/eero_tracker/device_tracker.py:131-143 | the network loop uses one reply per request and asks only for session refreshes and the device lists of the networks the filter selects |
| Tracker.LoopCount | custom_components/eero_tracker/device_tracker.py:131-143 | a loop that ends without raising fetched one device list per selected network |
| Tracker.LoopServed | custom_components/eero_tracker/device_tracker.py:131-143 | the loop only appends to the lists already fetched, and each list it adds is a device list that a reply of the script carried |
| Tracker.LoopMissingId | custom_components/eero_tracker/device_tracker.py:132-133 | a network whose URL has no `/networks/<digits>` makes the loop raise, whatever precedes it |
| Tracker.VisitSkipped | custom_components/eero_tracker/device_tracker.py:136-138 | a network outside the filter is skipped with no request and nothing changed |
| Tracker.VisitAnswered | custom_components/eero_tracker/device_tracker.py:141-143 | a selected network whose request is answered with a list costs one request with the session cookie and keeps that list |
| Tracker.LoopAnswered | custom_components/eero_tracker/device_tracker.py:131-143 | when every URL gives an ID and each device request is answered with a list, the loop sends one request per selected network, in order, with the session cookie, and keeps exactly those lists |
| Tracker.UpdatePaths | custom_components/eero_tracker/device_tracker.py:117-145 | a poll uses one reply per request and asks only for the account, session refreshes and the device lists of the selected networks of the account it ends with |
| Tracker.UpdateCached | custom_components/eero_tracker/device_tracker.py:122-125 | within the hour a poll keeps the cached account and its timestamp and sends no account request |
| Tracker.StalePollFetches | custom_components/eero_tracker/device_tracker.py:122-125 | a stale poll's first request is the account with the session cookie; when it succeeds the cache holds its answer, stamped with the poll's time |
| Tracker.TwoPollsWithinHour | custom_components/eero_tracker/device_tracker.py:122-125 | after a stale poll whose account fetch succeeds, a second poll within the hour reuses that account and timestamp and sends no account request |
| Tracker.UpdatePass | custom_components/eero_tracker/device_tracker.py:117-145 | a poll that ends without raising cleared its results, holds an account, and fetched one list per selected network, each a device list that a reply of the script carried |
| Tracker.UpdateAnswered | custom_components/eero_tracker/device_tracker.py:117-145 | a stale poll whose account and device requests are all answered caches the account with the poll's time, sends the account request and then one per selected network in order, and keeps exactly those lists |
| Tracker.EeroDeviceScanner.constructor | custom_components/eero_tracker/device_tracker.py:57-98 | the allow-list, network filter, wireless flag and floored interval from the configuration; the session from the file with newlines removed, none when unreadable; empty results and cache |
| Tracker.EeroDeviceScanner.CookieDict | custom_components/eero_tracker/device_tracker.py:179-182 | the cookie is `s` = the session alone |
| Tracker.EeroDeviceScanner.DeviceName | custom_components/eero_tracker/device_tracker.py:109-111 | a name exactly for a MAC of the name map, and it is that entry |
| Tracker.EeroDeviceScanner.ExtraAttributes | custom_components/eero_tracker/device_tracker.py:113-115 | attributes exactly for a MAC of the attribute map, and they are that entry |
| Tracker.EeroDeviceScanner.LoginRefresh | custom_components/eero_tracker/device_tracker.py:195-214 | one refresh post with the session cookie; a missing or empty token changes nothing and raises nothing; otherwise the session changes first and the file only when writable, a failed write being logged, not raised |
| Tracker.EeroDeviceScanner.RefreshAndRetry | custom_components/eero_tracker/device_tracker.py:190-191 | returns, sends and leaves exactly what `Tracker.RetryEffect` gives for the state before the call, and changes no result or cache |
| Tracker.EeroDeviceScanner.Refreshed | custom_components/eero_tracker/device_tracker.py:184-193 | returns, sends and leaves exactly what `Tracker.RefreshedEffect` gives for the state before the call, and changes no result or cache |
| Tracker.EeroDeviceScanner.UpdateTrackedDevices | custom_components/eero_tracker/device_tracker.py:147-177 | appends the MAC of each kept device in order, and records the name and attributes of each kept device that has them, the last device winning |
| Tracker.EeroDeviceScanner.RefreshAccount | custom_components/eero_tracker/device_tracker.py:122-125 | a fresh cache sends nothing and changes nothing; a stale one runs `_refreshed` on the account from the state before the call: an error is returned with the cache untouched, otherwise the cache holds the result stamped with now; the results never change |
| Tracker.EeroDeviceScanner.FetchDevices | custom_components/eero_tracker/device_tracker.py:229-232 | the outcome, session, file and network are those of `_refreshed` on the network's devices request from the state before the call, narrowed by `Tracker.DevicesOutcome`; results and cache unchanged |
| Tracker.EeroDeviceScanner.FoldDevices | custom_components/eero_tracker/device_tracker.py:141-143 | folding one more fetched list keeps the results equal to `Polling.Poll` over every list fetched so far |
| Tracker.EeroDeviceScanner.VisitNetwork | custom_components/eero_tracker/device_tracker.py:131-143 | one iteration moves the loop's state exactly one network on, as `Tracker.Visit` gives, and keeps the results equal to `Polling.Poll` over the lists fetched |
| Tracker.EeroDeviceScanner.PollNetworks | custom_components/eero_tracker/device_tracker.py:131-143 | ends, and leaves the session, file and network, exactly as `Tracker.NetworkLoop` gives from the state before the loop; the results are `Polling.Poll` over the lists it fetched |
| Tracker.EeroDeviceScanner.UpdateInfo | custom_components/eero_tracker/device_tracker.py:117-145 | ends, and leaves the session, file, network, account and timestamp, exactly as `Tracker.UpdateEffect` gives from the state before the call; the results are `Polling.Poll` over the lists it fetched once cleared, or as they were when the account fetch raised |
| Tracker.EeroDeviceScanner.ScanDevices | custom_components/eero_tracker/device_tracker.py:100-107 | without a session returns [] and sends and changes nothing; otherwise polls as `Tracker.UpdateEffect` gives and returns the present-MAC list, or the poll's error; every MAC with a name or attributes is in the list |
| LegacyTracker.RetryAttemptSpec | custom_components/device_tracker/eero_tracker.py:119-128 | after an expired session: the refresh with the old cookie; a missing token raises with nothing changed; a token becomes the session even when the write raises; exactly when the write succeeds, one retry with the new token, whose outcome stands; a success was a reply of the script |
| LegacyTracker.RefreshedAttemptSpec | custom_components/device_tracker/eero_tracker.py:113-122 | one to three requests, the first the action with the session cookie; any outcome but the expired-session error ends it, a client error becoming an undefined-name error; that error leads to the refresh and a retry with the new token; a client error is returned only after a refresh; requests go only to the action's path or the refresh path |
| LegacyTracker.LoopPaths | custom_components/device_tracker/eero_tracker.py:89-99 | the network loop uses one reply per request and asks only for session refreshes and the device lists of the networks it was given |
| LegacyTracker.LoopCount | custom_components/device_tracker/eero_tracker.py:89-99 | a loop that ends without raising fetched one device list per network |
| LegacyTracker.LoopServed | custom_components/device_tracker/eero_tracker.py:89-99 | the loop only appends to the lists already fetched, and each list it adds is a device list that a reply of the script carried |
| LegacyTracker.VisitAnswered | custom_components/device_tracker/eero_tracker.py:90-93 | a network whose request is answered with a list costs one request with the session cookie and keeps that list |
| LegacyTracker.LoopAnswered | custom_components/device_tracker/eero_tracker.py:89-99 | when each device request is answered with a list, the loop sends one request per network, in order, with the session cookie, and keeps exactly those lists |
| LegacyTracker.UpdatePaths | custom_components/device_tracker/eero_tracker.py:85-101 | the first request is the account with the session cookie; one reply per request; requests go only to the account, session refreshes and the device lists of the account's networks; an account that is polled was a reply of the script |
| LegacyTracker.UpdatePass | custom_components/device_tracker/eero_tracker.py:85-101 | a poll that ends without raising cleared the list, got an account, and fetched one list per network of it, each a device list that a reply of the script carried |
| LegacyTracker.UpdateAnswered | custom_components/device_tracker/eero_tracker.py:85-101 | when the account and every device request are answered, the poll sends the account request and then one per network in order, and keeps exactly those lists |
| LegacyTracker.EeroDeviceScanner.constructor | custom_components/device_tracker/eero_tracker.py:54-71 | an interval under 25 seconds leaves the scanner without a session and the file unread; otherwise the session is the file with newlines removed; the allow-list splits on '.' and keeps case |
| LegacyTracker.EeroDeviceScanner.CookieDict | custom_components/device_tracker/eero_tracker.py:103-105 | the cookie is `s` = the session alone |
| LegacyTracker.EeroDeviceScanner.DeviceName | custom_components/device_tracker/eero_tracker.py:82-83 | no device has a name |
| LegacyTracker.EeroDeviceScanner.LoginRefresh | custom_components/device_tracker/eero_tracker.py:124-128 | one refresh post; a missing token raises and changes nothing; otherwise the token becomes the session, then the file is written and a failed write raises |
| LegacyTracker.EeroDeviceScanner.RefreshAndRetry | custom_components/device_tracker/eero_tracker.py:119-120 | returns, sends and leaves exactly what `LegacyTracker.RetryAttempt` gives for the state before the call, and leaves the list alone |
| LegacyTracker.EeroDeviceScanner.Refreshed | custom_components/device_tracker/eero_tracker.py:113-122 | returns, sends and leaves exactly what `LegacyTracker.RefreshedAttempt` gives for the state before the call, and leaves the list alone |
| LegacyTracker.EeroDeviceScanner.FetchDevices | custom_components/device_tracker/eero_tracker.py:142-143 | the outcome, session, file and network are those of `_refreshed` on the network's devices request from the state before the call, a payload that is not a list raising; the list unchanged |
| LegacyTracker.EeroDeviceScanner.AppendTracked | custom_components/device_tracker/eero_tracker.py:93-99 | appends the MAC of each wireless, connected device on the allow-list, in order |
| LegacyTracker.EeroDeviceScanner.FoldDevices | custom_components/device_tracker/eero_tracker.py:93-99 | folding one more fetched list keeps the list equal to the kept MACs of every list fetched so far |
| LegacyTracker.EeroDeviceScanner.VisitNetwork | custom_components/device_tracker/eero_tracker.py:89-99 | one iteration moves the loop's state exactly one network on, as `LegacyTracker.Visit` gives, and keeps the list equal to the kept MACs of the lists fetched |
| LegacyTracker.EeroDeviceScanner.PollNetworks | custom_components/device_tracker/eero_tracker.py:89-99 | ends, and leaves the session, file and network, exactly as `LegacyTracker.NetworkLoop` gives from the state before the loop; the list is the kept MACs of the lists it fetched |
| LegacyTracker.EeroDeviceScanner.UpdateInfo | custom_components/device_tracker/eero_tracker.py:85-101 | ends, and leaves the session, file and network, exactly as `LegacyTracker.UpdateAttempt` gives from the state before the call; the list is the kept MACs of the lists it fetched once cleared, or as it was when the account fetch raised |
| LegacyTracker.EeroDeviceScanner.ScanDevices | custom_components/device_tracker/eero_tracker.py:74-80 | without a session returns [] and sends and changes nothing; otherwise polls as `LegacyTracker.UpdateAttempt` gives and returns the list, or the poll's error; every reported MAC is on a non-empty allow-list |

## Left out

- HTTP and JSON: requests and replies are values. The network is a script of
  replies, and the wire format, URLs, headers and timeouts are not modelled.
  A reply that is not JSON, or a payload of a shape the code indexes
  wrongly, becomes a `Malformed` error.
- Payload shapes: the model knows the account, device-list, token and ""
  payloads. Other JSON values, and an empty dict used as a device list, are
  not modelled.
- A JSON `null` `user_token` is not distinguished from a missing key.
- Logging, `print`, the command line and `input()` of
  `eero_tracker_instantiate.py`: the login branch of its `__main__` is
  covered by `EeroClient.Eero.Login` and `EeroClient.Eero.LoginVerify`
  without the prompts. The dump's lines are returned instead of printed.
- The module-level `CookieStore('eero.session')` and `Eero(session)` are
  left out. So are `get_scanner`, the platform schemas and `config_flow.py`.
- Clock: `time.time()` is a parameter `now`, taken once per poll. Intervals
  are whole seconds rather than `timedelta`.
- Character classes: `\d` and `[0-9]` are ASCII digits and `lower()` folds
  ASCII letters only. The model has no Unicode case folding.
- A failed write is modelled as leaving the file as it was. Python's `w+`
  mode may have truncated it already.
- The `_parse_response` of the legacy scanner (line 147) and of
  `eero_tracker_instantiate.py` (line 93) compare codes with `is not`. It is
  modelled as `!=`, which is what CPython does for small integers.
- `json.loads(json.dumps(devices))` is modelled as the identity.
- Device records are taken to carry every key the code indexes (`mac`,
  `nickname`, `hostname`, `source`, `wireless`, `connected`); a `None` field
  is a JSON `null`. The `KeyError` that a record lacking one of those keys
  would raise part-way through a device list, after earlier devices were
  recorded or printed, is not modelled.
- The legacy `_login` is never called and is not modelled.
