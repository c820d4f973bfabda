# stocker client core in Dafny

This project models the logic of the stocker mobile inventory client that can
be stated precisely:

- the normalisers that turn server replies into item, warehouse, item-detail
  and stock-entry records;
- the builders of query parameters and form bodies for the item and
  stock-entry endpoints, and the mapping of a failed delete to an error result;
- the access-token cell, and the axios interceptors around it: the bearer
  header, the single-flight token refresh, and the retry-once rule on HTTP 401;
- the token generation rule: the credential guard, the null and throw
  outcomes, and the expiry arithmetic;
- the user slice reducer with its selectors;
- the QR login handler: field extraction by regular expression, and the
  all-five-fields-or-reject decision with its effects.

Server replies, the clock (`Date.now()`), the environment credentials and the
decoded QR text enter as plain values. JavaScript values are modelled by
`Js.Json`, with `Js.Any = Option<Json>`, where `None` is `undefined`. The
operators `?.`, `??`, `||`, truthiness, `String()` and `String.prototype.trim`
are written out in module `Js`.

Where the source updates state in place, the model keeps that form:

- the token cell is `Tokens.TokenStore`;
- the refresh flag and waiter queue are `Http.RefreshCoordinator`;
- the request config the interceptors mutate is `Http.RequestConfig`;
- the Immer draft of the user slice is `UserSlice.UserDraft`;
- `URLSearchParams` is `Form.SearchParams`;
- the persistent key-value store of the login screen is `Login.Storage`.

Each of their methods is proved to follow a pure specification: `Http.Step`,
`UserSlice.Reduce`, or an explicit new state. The properties are proved about
those specifications.

The single-flight refresh is a sequential machine over three events: a caller
asks for a refresh, the generator succeeds with a result, or it fails.
Concurrency reduces to the order in which these events arrive.

Files: `js.dfy` (JavaScript values, `trim`, decimal text), `form.dfy`
(form bodies), `normalize.dfy`, `items.dfy`, `fetchitems.dfy`,
`warehouses.dfy`, `tokenstore.dfy`, `auth.dfy`, `http.dfy`, `userslice.dfy`,
`login.dfy`.

Four behaviours of the code are easy to misread; the model states them as
the code has them:

- The base URL taken from a login QR code keeps its port and path. Only the
  whole text after `API: ` is taken, up to the end of the decoded text. Nothing
  is stripped. `Login.ExampleKeepsPortAndPath` shows this for the text
  `…API: https://host:443/api/method/x`, whose base URL is that whole URL.
- `generateToken` does not check the HTTP status. Any reply whose text parses
  as JSON is read for `data.access_token`; any other reply throws.
- A 401 from the token endpoint cannot start a refresh: `generateToken` uses
  `fetch`, not the axios instance that carries the interceptors.
- `normalizeItemsFromResponse` exists twice, in lib/api.ts and
  lib/api/items.ts, with identical logic. It is modelled once, as module
  `Normalize`, and the rows below cite both copies.

## Model

| member | source | states |
|---|---|---|
| Js.TrimSpec | lib/api/items.ts:27 | `trim()` yields a contiguous slice of its input: everything cut away on either side is ECMAScript white space, and the result neither starts nor ends with white space |
| Js.TrimIdempotent | lib/api/items.ts:27 | trimming an already trimmed string changes nothing |
| Js.NonBlankIff | lib/api.ts:19 | `s && s.trim().length > 0` holds exactly when `s` has a character that is not white space |
| Js.DecimalRoundTrip | lib/api/items.ts:105 | the decimal text `String(n)` of every integer reads back as that integer |
| Form.LookupFirst | lib/api/items.ts:102-109 | in a form body, a name's value is the value of its first occurrence |
| Form.LookupAbsent | lib/api/items.ts:109 | a name that no field carries has no value in the body |
| Form.SearchParams.constructor | lib/api/items.ts:62 | a new form body holds no pairs |
| Form.SearchParams.Append | lib/api/items.ts:63-70 | `append` adds exactly the given pair at the end and keeps all earlier pairs in order |
| Items.ListItemsParams | lib/api/items.ts:25-27 | `warehouse` is sent exactly when `warehouse_id` is not blank, as the trimmed (and still non-blank) string; no other parameter is sent |
| Items.StockEntriesParams | lib/api/items.ts:127-129 | the same rule for the optional `warehouse` argument |
| Items.ItemByBarcodeParams | lib/api/items.ts:188-191 | `barcode` and `warehouse` are each sent independently, exactly when non-blank, trimmed |
| Items.ItemDetailFromResponse | lib/api/items.ts:193-195 | the result is null exactly when `json.data` is falsy |
| Items.ItemDetailCopiesFields | lib/api/items.ts:196-202 | the detail record carries exactly the five keys `item_id`, `item_name`, `uom`, `total_qty`, `shelf_qty` present in `data`, with their values unchanged, and nothing else |
| Items.StockEntriesFromResponse | lib/api/items.ts:131-133 | `json.data` unchanged when it is an array, the empty list otherwise |
| Items.NormalizedItemsByWarehouse | lib/api/items.ts:245-248 | the list response normalised with no preferred barcode: one output per raw item in order, each with the no-preference display UOM |
| Items.CreateStockEntryBody | lib/api/items.ts:101-109 | the body is `item_id`, `uom`, `qty`, `warehouse`, `barcode`, `shelf` in that order, then `date_time` only when present and non-empty; `qty` reads back as the payload quantity |
| Items.CreateBodyFacts | lib/api/items.ts:102-109 | the field names of the create body in order, the `qty` round trip, and the absence of `date_time` when not given |
| Items.UpdateStockEntryBody | lib/api/items.ts:61-70 | exactly eight fields in the order `entry_id`, `warehouse`, `barcode`, `shelf`, `date`, `item_code`, `uom`, `qty`; `qty` is `String(qty)`, reading back as the number when it is one |
| Items.UpdateBodyFacts | lib/api/items.ts:62-70 | the update body's field names in order, its `qty` value, and the `qty` round trip for a numeric quantity |
| Items.DeleteStockEntryRequest | lib/api/items.ts:140-155 | the call throws "deleteStockEntry requires entry_id" exactly for an empty id; otherwise the request goes to the delete path with `{entry_id}` as its body |
| Items.DeleteOutcomes | lib/api/items.ts:140-165 | the call throws exactly for an empty id, whatever the server would answer; a reply without data becomes `{status:'error', message:'No response data from server'}`; a reply with data is passed through |
| Items.DeleteFailureMessage | lib/api/items.ts:166-175 | a failed request yields `{status:'error', message}` with the server's message if truthy, else the error's message if non-empty, else "Failed to delete entry"; the message is never falsy |
| Items.DeleteStockEntryOutcome | lib/api/items.ts:157-175 | a reply with truthy data resolves to that data unchanged; a reply without data, and every failed request, resolve to an object with exactly the keys `status` and `message`, `status` being `"error"` |
| Normalize.GroupSourcePriority | lib/api/items.ts:219-222 | groups come from `data` unless null or undefined, else from `message`, else none; a non-array source yields no items |
| Normalize.NormalizeItemsFromResponse | lib/api.ts:60-86 | on success there is one output per flattened raw item, in order, each carrying its raw item, which is never null |
| Normalize.FlattenLength | lib/api.ts:62-64 | the number of flattened items is the total over the groups whose `items` is an array |
| Normalize.FlattenAppend | lib/api.ts:63 | flattening distributes over concatenation, so item order follows group order |
| Normalize.FlattenSingle | lib/api/items.ts:221 | a group contributes exactly its `items` array, or nothing when that is not an array |
| Normalize.NormalizeAllSpec | lib/api/items.ts:224-242 | one output per raw item in order, each with its raw item, the copied `item_code`, `item_name`, `description`, `qty` defaulting to 0, and its display UOM |
| Normalize.NormalizeAllFails | lib/api/items.ts:224-242 | normalisation throws exactly when the callback throws for some item |
| Normalize.NormalizeLength | lib/api.ts:61-66 | the output length equals the total number of items over array-valued groups; a non-array source yields `[]`; `raw` is the original item, in order |
| Normalize.FindFirstMatch | lib/api/items.ts:227 | `find` returns the first entry whose trimmed barcode equals the target |
| Normalize.FindNoMatch | lib/api/items.ts:227 | `find` yields undefined when no entry's barcode matches |
| Normalize.FindThrows | lib/api/items.ts:227 | `find` throws at the first entry whose barcode is a truthy non-string, reached before any match |
| Normalize.FindByBarcode | lib/api/items.ts:227 | a found entry is an entry of the list whose trimmed barcode equals the target; a throw comes from some entry whose barcode is a truthy non-string |
| Normalize.DisplayUom | lib/api.ts:67-75 | only a truthy preferred barcode can make it throw; an item whose `uom` is not an array has no display UOM; a display UOM is the `uom` of some entry of the item's `uom` array |
| Normalize.UomFromMatchingBarcode | lib/api.ts:68-72 | with a preferred barcode, the display UOM is the truthy UOM of the first entry whose trimmed barcode equals the trimmed preferred barcode |
| Normalize.UomFromFirstEntry | lib/api.ts:73-75 | without a preference, or with no matching entry, the display UOM is the first entry's UOM |
| Normalize.UomAbsent | lib/api/items.ts:226-232 | an item whose `uom` is not a non-empty array has no display UOM |
| Normalize.BlankPreferenceMatchesMissingBarcode | lib/api/items.ts:226-227 | every non-empty preferred barcode made only of white space is truthy, trims to "", and so selects the first entry with no barcode when every earlier entry has a non-blank string barcode |
| Normalize.UomFalsyMatchFallsBack | lib/api.ts:70-75 | when the matching entry exists but its `uom` is falsy, the display UOM falls back to the first entry's `uom` |
| FetchItems.GetItemsRequest | lib/api.ts:17-32 | `barcode` is queried exactly when non-blank, trimmed; `Authorization` is `Bearer <token>` exactly for a truthy token and absent otherwise; the guest cookie and form content type are always sent |
| FetchItems.GetItemsOutcome | lib/api.ts:33-39 | the call throws exactly when the response is not ok or its body is not JSON; otherwise it yields the parsed body |
| FetchItems.FailureCarriesStatus | lib/api.ts:33-36 | the message of a non-ok response holds the decimal HTTP status right after `getItems failed: `, and it reads back as that status |
| FetchItems.NormalizedItemsUseQueriedBarcode | lib/api.ts:88-91 | `getNormalizedItems` prefers the barcode it queried with: each item's display UOM is the one its rule gives for that barcode, in raw order |
| FetchItems.GetNormalizedItems | lib/api.ts:88-91 | a failed or non-JSON response makes the call throw; a result has one item per raw item of the response body |
| Warehouses.SourcePriority | lib/api/warehouses.ts:13-14 | the list comes from `data`, else `message`, else is empty; a non-array source yields no warehouses |
| Warehouses.SelectLength | lib/api/warehouses.ts:14-20 | the output is never longer than the input, and equally long exactly when every entry is kept |
| Warehouses.SelectAppend | lib/api/warehouses.ts:15-20 | selection distributes over concatenation: output order follows input order |
| Warehouses.SelectMembership | lib/api/warehouses.ts:16-20 | a warehouse is in the output exactly when some kept input entry maps to it |
| Warehouses.StringFieldCoercion | lib/api/warehouses.ts:18-19 | a missing or null field becomes "", a string is copied, a number becomes its decimal text |
| Warehouses.KeepRule | lib/api/warehouses.ts:16-20 | an entry is kept exactly when it is truthy and has a truthy `warehouse_id` or `warehouse_name`; a kept entry comes out with its two strings |
| Warehouses.GetWarehouses | lib/api/warehouses.ts:10-21 | a source that is not an array yields `[]`; otherwise the output is no longer than the source and holds only selected entries of it |
| Tokens.Stored | lib/http/tokenStore.ts:3-5 | the cell never holds ""; a non-empty token is kept, and "" or null become null |
| Tokens.StoredIdempotent | lib/http/tokenStore.ts:4 | storing a stored value again changes nothing |
| Tokens.TokenStore.constructor | lib/http/tokenStore.ts:1 | the cell starts null |
| Tokens.TokenStore.SetAccessToken | lib/http/tokenStore.ts:3-5 | the cell holds `token \|\| null` afterwards |
| Tokens.TokenStore.GetAccessToken | lib/http/tokenStore.ts:7-9 | getting returns the cell's content and changes nothing |
| Tokens.SetThenGet | lib/http/tokenStore.ts:3-9 | setting a non-empty token and then getting returns that token |
| Auth.TokenRequestBody | lib/api/auth.ts:19-32 | no request is built exactly when a credential is empty; otherwise the body is `api_key`, `api_secret`, `app_key` in that order |
| Auth.MissingCredentialsYieldNull | lib/api/auth.ts:19-26 | with a credential missing the result is null, whatever the reply would have been |
| Auth.NonJsonThrows | lib/api/auth.ts:54-60 | a reply that is not JSON makes the call throw, never yield null, and the message carries the reply text |
| Auth.GrantCarriesAccessToken | lib/api/auth.ts:62-71 | with a JSON reply the result is null exactly when `data.access_token` is missing or empty; otherwise its token is that access token |
| Auth.ExpiryArithmetic | lib/api/auth.ts:63-71 | `expires_at` is the current time in whole seconds, rounded down, plus `expires_in` (0 when missing) minus 30 |
| Auth.GenerateToken | lib/api/auth.ts:15-72 | the call throws exactly when the credentials are present and the reply is not JSON; a grant requires all three credentials and carries the reply's non-empty `data.access_token` |
| Http.WithAuthorization | lib/http/api.ts:17-18 | the headers gain `Authorization: Bearer <token>`; all other headers are kept |
| Http.AttachToken | lib/http/api.ts:14-19 | with a token in the store the request carries `Bearer <token>`; with none its headers are unchanged |
| Http.StepKeepsInv | lib/http/api.ts:28-54 | no caller waits unless a refresh is in flight, and the store never holds "", after every event |
| Http.Step | lib/http/api.ts:31-54 | the generator is called exactly for a request while idle; exactly the completions settle; the flag is set after requests and clear after completions; a request keeps the token and only appends to the queue; a completion empties the queue and answers every waiter |
| Http.RequestWhileRefreshing | lib/http/api.ts:32-35 | a request during a refresh does not call the generator; it appends exactly that caller to the queue |
| Http.CompletionSettlesEveryone | lib/http/api.ts:38-53 | after a completion the flag is clear and the queue empty; every waiter, in order, gets the initiator's outcome: the new token (null without `access_token`), stored, on success; the error, with the store cleared, on failure |
| Http.SingleFlight | lib/http/api.ts:31-54 | over any run of events, the generator is called at most once more than it completes, and never again while a refresh is in flight |
| Http.SingleFlightExact | lib/http/api.ts:31-54 | over a run in which the generator only completes while it is running, calls plus the initial flag equal completions plus the final flag |
| Http.ConcurrentRefreshesShareOneCall | lib/http/api.ts:31-54 | N callers asking from idle cause exactly one generator call; on completion all N share one outcome, and the machine is idle with an empty queue |
| Http.RefreshCoordinator.Request | lib/http/api.ts:32-36 | entering `refreshAccessToken` updates the flag and the queue as `Step` prescribes |
| Http.RefreshCoordinator.SettleQueue | lib/http/api.ts:43 | every pending waiter, in queue order, is paired with the same outcome |
| Http.RefreshCoordinator.GeneratorSucceeded | lib/http/api.ts:38-45 | the in-place success path follows `Step` |
| Http.RefreshCoordinator.GeneratorFailed | lib/http/api.ts:46-53 | the in-place failure path follows `Step` |
| Http.BeginRetry | lib/http/api.ts:62-63 | a refresh starts exactly for a 401 on an unmarked request, and the mark is set before it |
| Http.OnError | lib/http/api.ts:62-75 | a request is resent only for a 401 on an unmarked request whose refresh yields a non-empty token; afterwards it is marked exactly when it was marked before or the status was 401 |
| Http.FinishRetry | lib/http/api.ts:65-75 | the request is resent as `Bearer <newToken>` exactly when the refresh yields a non-empty token; otherwise the error is rejected with headers untouched |
| Http.HandleResponseError | lib/http/api.ts:59-76 | the interceptor's decision and mark follow `OnError`; on a resend the refresh yielded a token and the request carries `Authorization: Bearer <token>` with its other headers kept |
| Http.RetriedAtMostOnce | lib/http/api.ts:62-75 | however many error responses a request gets, it is resent at most once; a non-401 error is never resent and leaves the mark alone |
| Http.MarkedNeverResent | lib/http/api.ts:62 | a request already marked is never resent |
| UserSlice.InitialStateIsEmpty | redux/Slices/UserSlice.ts:14-22 | every field starts null except `isWfh`, which starts false |
| UserSlice.Reduce | redux/Slices/UserSlice.ts:27-50 | `REVERT_ALL` yields the initial state, actions of other slices change nothing, and a setter leaves every field but its own unchanged |
| UserSlice.SelectorsObserveOwnSetter | redux/Slices/UserSlice.ts:64-70 | each selector reads its setter's payload after that setter, the initial value after `REVERT_ALL`, and its previous value after any other action |
| UserSlice.SetterFrame | redux/Slices/UserSlice.ts:29-49 | each setter writes its payload into its own field and leaves every other field unchanged |
| UserSlice.SettersCompose | redux/Slices/UserSlice.ts:29-49 | a second write to the same field wins; writes to different fields commute |
| UserSlice.RevertAllResets | redux/Slices/UserSlice.ts:27 | `REVERT_ALL` yields the initial state from any state; actions of other slices change nothing |
| UserSlice.RevertAllAfterAnything | redux/Slices/UserSlice.ts:27 | whatever was dispatched before, a final `REVERT_ALL` leaves the initial state |
| UserSlice.BaseUrlPersists | redux/Slices/UserSlice.ts:38-40 | `selectBaseUrl` returns the last `setBaseUrl` payload for as long as no later action writes it or resets the slice |
| UserSlice.EmployeeCodeAbsentWithoutDetails | redux/Slices/UserSlice.ts:69 | `selectEmployeeCode` is undefined when `userDetails` is null or undefined |
| UserSlice.UserDraft.Dispatch | redux/Slices/UserSlice.ts:27-50 | the in-place reducers update the draft as `Reduce` prescribes |
| UserSlice.UserDraft.SetBaseUrl | redux/Slices/UserSlice.ts:38-40 | the in-place `setBaseUrl` follows `Reduce` |
| UserSlice.UserDraft.constructor | redux/Slices/UserSlice.ts:14-22 | a new draft holds the initial state |
| UserSlice.UserDraft.SetUsername | redux/Slices/UserSlice.ts:29-31 | the in-place `setUsername` follows `Reduce` |
| UserSlice.UserDraft.SetFullname | redux/Slices/UserSlice.ts:32-34 | the in-place `setFullname` follows `Reduce` |
| UserSlice.UserDraft.SetUserDetails | redux/Slices/UserSlice.ts:35-37 | the in-place `setUserDetails` follows `Reduce` |
| UserSlice.UserDraft.SetFileid | redux/Slices/UserSlice.ts:41-43 | the in-place `setFileid` follows `Reduce` |
| UserSlice.UserDraft.SetIsWfh | redux/Slices/UserSlice.ts:44-46 | the in-place `setIsWfh` follows `Reduce` |
| UserSlice.UserDraft.SetQrCodeData | redux/Slices/UserSlice.ts:47-49 | the in-place `setQrCodeData` follows `Reduce` |
| UserSlice.UserDraft.Revert | redux/Slices/UserSlice.ts:27 | the in-place `REVERT_ALL` follows `Reduce` |
| Login.LeftmostMatchSpec | app/login.tsx:33-37 | the search finds a position exactly when the pattern matches at or after the start, and the first such position |
| Login.CaptureShape | app/login.tsx:33-37 | a capture is the literal's tail followed by a maximal non-empty run of the class; the anchored pattern's run reaches the end |
| Login.MatchSpec | app/login.tsx:33-37 | a pattern matches exactly when it matches somewhere; the captured text is the leftmost capture |
| Login.ParseQr | app/login.tsx:33-47 | an accepted text yields a full name that is already trimmed; the captures themselves are characterised by `Login.ParsedFields` and `Login.AcceptsIffAllFive` |
| Login.ParsedFields | app/login.tsx:41-47 | the five parsed fields are the five captures, the full name trimmed |
| Login.AcceptsIffAllFive | app/login.tsx:40 | the QR text is accepted exactly when each of the five patterns matches somewhere in it |
| Login.FieldCharacters | app/login.tsx:33-35 | `company` is the maximal word-character run of the leftmost `Company: ` match; `employeeCode` holds only word characters and `-`; `userId` only word characters, `@`, `.` and `-` |
| Login.FullNameIsTrimmedLine | app/login.tsx:36 | `fullName` is the trimmed rest of the line after the leftmost `Full_Name: `; that rest holds no line terminator |
| Login.ApiRunsToEnd | app/login.tsx:37 | the API value starts with `https://`, holds no line terminator, and is a suffix of the decoded text |
| Login.ApiOnLastLine | app/login.tsx:37 | when `API: https://` opens the last line, the captured value is `https://` and the whole rest of the line |
| Login.FiveLinesAccepted | app/login.tsx:33-47 | a text of the five labelled lines, the API line last, is accepted, with its API value running to the end |
| Login.ExampleKeepsPortAndPath | app/login.tsx:37 | the example QR text yields the base URL `https://host:443/api/method/x`: port and path are kept |
| Login.HandleQrCodeData | app/login.tsx:30-72 | a decode failure shows the error alert, a rejected text the invalid alert, and neither stores nor dispatches; an accepted one stores `baseUrl` and `userToken`, dispatches the four actions, and navigates home |
| Login.Storage.constructor | app/login.tsx:50-51 | the store starts empty |
| Login.Storage.SetItem | app/login.tsx:50-51 | `setItem` maps the key to the value and keeps every other key |
| Login.AfterLoginState | app/login.tsx:52-62 | after the four dispatches, the slice holds `fullName`, `userId`, the API URL and `{company, employeeCode, fullName, api}` |
| Login.ApiStoredUnchanged | app/login.tsx:47-60 | the stored `baseUrl`, the `setBaseUrl` payload and `userDetails.api` are all the captured text unchanged |
| Login.EmployeeCodeLostAsWritten | redux/Slices/UserSlice.ts:69 | after a login, `selectEmployeeCode` as written yields undefined |
| Login.EmployeeCodeAfterLogin | app/login.tsx:56-61 | after a login, the corrected selector yields the scanned employee code |

## Left out

- Network I/O: requests are built as values, and replies enter as values.
  This covers the axios and `fetch` transport and the resent request's own
  response (`API(original)`).
- Promise scheduling: the refresh is a sequence of events, and each event is
  handled atomically, as in JavaScript's single thread.
- Console logging: this includes the masked token printed by the request
  interceptor.
- `URLSearchParams.toString()` and URL percent-encoding: bodies and queries
  are kept as ordered name/value pairs or as maps.
- Non-integer numbers: numbers are integers, so `String(n)` of a fraction,
  of exponent notation and of `NaN` is not modelled.
- `Number(expires_in)` applied to a value that is not a number: the token
  reply follows its declared type. `expires_in` is a number or absent, and
  `access_token` is a string or absent.
- `listItems`, `createStockEntry` and `updateStockEntry` return `res.data`
  unchanged. Only their requests are modelled.
- An error reaching the response interceptor without a request config:
  every modelled request has one. In the source, `original._retry = true`
  would throw a `TypeError` instead of rejecting the original error.
- Storage failures on the login screen: a failing `AsyncStorage.setItem`
  is not modelled. In the source it would show the error alert after a
  partial write.
- base64 decoding: it enters as its result, `None` when it throws.
- Navigation and alerts: these are returned as an `Effect` value.
- The screens, the camera, the styles, the Redux store wiring and the build
  configuration are not part of this model.
- Strings are sequences of Unicode characters. UTF-16 surrogate pairs are
  not distinguished, and `\w` is the ASCII word class, as in JavaScript
  without the `u` flag.
- FetchItems.GetItemsOutcome: when the body is not JSON, the error is the
  fixed text "SyntaxError" rather than the engine's message.
- Tokens.TokenStore.SetAccessToken: the setter's declared parameter type
  is kept. A non-string truthy value is not modelled.

## Findings

| source | as written | input that shows it | evidently intended | confidence | as-written member | corrected member |
|---|---|---|---|---|---|---|
| redux/Slices/UserSlice.ts:69 | `selectEmployeeCode` reads `userDetails.employee_code`, but the login screen stores the code as `employeeCode` (app/login.tsx:56-61), and the settings screen reads `userDetails.employeeCode` | any accepted QR text, e.g. one with `Employee_Code: E1`: afterwards `selectEmployeeCode` yields undefined instead of `"E1"` | read `userDetails?.employeeCode` | not executed; high, since no code in the repository writes `employee_code` | Login.EmployeeCodeLostAsWritten (over UserSlice.SelectEmployeeCode) | Login.EmployeeCodeAfterLogin (over UserSlice.SelectEmployeeCodeCorrected) |
