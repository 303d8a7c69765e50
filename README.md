# Graph Explorer: history sidebar and three store reducers

This project models four pieces of the Microsoft Graph Explorer front end
in Dafny and proves what they promise.

- **The history sidebar** (`History.tsx`) does several things:
  - It formats a day as `YYYY-MM-DD`.
  - It filters the request history by the search text.
  - It labels every entry "today", "yesterday" or "older" with a running label that is never reset.
  - It sorts the entries and groups them by category. Each group has a start index and a count.
  - It deletes a whole category after a confirmation dialog.
  - It builds the query that viewing or re-running an entry sends.
  - The component's state (`groupedList`, `hideDialog`, `category`) is the class `History.HistoryView`.
- **The `auth` slice** (`auth.slice.ts`) holds three things: a token flag, a pending flag and the consented scopes.
  - It has four reducers.
  - It has the scope merge rule `validateConsentedScopes`.
  - It has the two-step `signOut` sequence.
- **The `autoComplete` slice** (`autocomplete.slice.ts`) is a fetch that is idle, loading, succeeded or failed.
  - It holds the data of a success and the error of a failure.
  - Its fetch thunk chooses the resources and the context it hands to the suggestion service.
- **The `queryRunnerStatus` reducer** is a pure switch over action types.
  - Some action types replace the status.
  - Four action types clear it.
  - All other action types keep it.

The `auth` and `autoComplete` slices are each modelled twice (the pure `queryRunnerStatus` reducer is a function only):
- A value datatype with a reducer function `Reduce(state, action)`. The lemmas are stated about this function.
- A class with the same fields, whose methods update them in place. Each method ensures that the new state is `Reduce` of the old one.

The modules are:
- `Types`: shared record shapes.
- `Reducers`: dispatching a sequence of actions to a reducer.
- `JsStrings`: the JavaScript string operations used, which are `String(n)`, `toLowerCase` and `includes`.
- `History`
- `Auth`
- `Autocomplete`
- `QueryRunnerStatus`

## Model

| member | source | states |
|---|---|---|
| JsStrings.NatToString | src/app/views/sidebar/history/History.tsx:63-66 | the decimal text of a number: only digits, reads back as the number, one character exactly below 10, no leading zero otherwise |
| JsStrings.IntToString | src/app/views/sidebar/history/History.tsx:66 | interpolating an integer gives its shortest decimal text: at least one digit, exactly one below 10, no leading zero unless the number is 0, digits that read back as the number, after a minus sign when it is negative |
| JsStrings.Lower | src/app/views/sidebar/history/History.tsx:50-54 | `toLowerCase` keeps the length, leaves no capital letter, keeps every other character and turns each capital into its lower-case letter |
| JsStrings.LowerIdempotent | src/app/views/sidebar/history/History.tsx:53-54 | lower-casing twice is lower-casing once |
| JsStrings.Includes | src/app/views/sidebar/history/History.tsx:88-93 | `includes` holds exactly when the text occurs as a contiguous slice; the empty text occurs everywhere |
| History.PadTwo | src/app/views/sidebar/history/History.tsx:62-65 | the zero padding of a month or day; its contract is stated by `History.PadTwoDigits` |
| History.FormatDate | src/app/views/sidebar/history/History.tsx:60-67 | `formatDate`; its contract is stated by `History.FormatDateRoundTrip`, `History.FormatDateInjective` and `History.FormatDateShape` |
| History.PadTwoDigits | src/app/views/sidebar/history/History.tsx:62-65 | a month or day below 100 becomes exactly two digits that read back as the number |
| History.FormatDateRoundTrip | src/app/views/sidebar/history/History.tsx:60-67 | `formatDate` output reads back as the year, `getMonth()` and the day; the month is written one higher, and month and day are zero-padded |
| History.FormatDateInjective | src/app/views/sidebar/history/History.tsx:60-67 | two different days never format to the same text |
| History.FormatDateShape | src/app/views/sidebar/history/History.tsx:60-67 | for a four-digit year the result is `YYYY-MM-DD`: ten characters with dashes at positions 4 and 7 |
| History.UrlMatches | src/app/views/sidebar/history/History.tsx:52-55 | the search test on one entry; `History.SearchFilter` and `History.SearchMatchesLowerCase` state what it keeps |
| History.SearchFilter | src/app/views/sidebar/history/History.tsx:52-55 | the filter keeps an entry exactly when its lower-cased url includes the keyword, and never adds entries |
| History.SearchMatchesLowerCase | src/app/views/sidebar/history/History.tsx:50-54 | the double lower-casing of the url amounts to matching the lower-cased url against the lower-cased search text |
| History.SearchFilterAppend | src/app/views/sidebar/history/History.tsx:52-55 | the filter distributes over concatenation, so kept entries stay in their original order |
| History.SearchFilterMultiset | src/app/views/sidebar/history/History.tsx:52-55 | each matching entry is kept as many times as it occurs; non-matching entries are dropped |
| History.NextLabel | src/app/views/sidebar/history/History.tsx:83-94 | the label after one entry; `History.LabelFromStep` and `History.LabelledRunningLabel` state it |
| History.LabelFrom | src/app/views/sidebar/history/History.tsx:83-96 | the labelling pass from a starting label; `History.LabelFromShape` and `History.LabelFromStep` state it |
| History.Labelled | src/app/views/sidebar/history/History.tsx:74-96 | the labelled entries `getItems` returns before sorting; `History.LabelledKeepsEntries`, `History.LabelledRunningLabel`, `History.LabelledCategories` and `History.LabelledOlderIff` state it |
| History.LabelFromShape | src/app/views/sidebar/history/History.tsx:88-96 | the labelling pass keeps the length and changes only each entry's category |
| History.LabelFromStep | src/app/views/sidebar/history/History.tsx:88-94 | entry `i` gets the running label after the label of entry `i-1`, or after the starting label when `i` is 0 |
| History.LabelledKeepsEntries | src/app/views/sidebar/history/History.tsx:74-96 | `getItems` before sorting returns every input entry in input order, each with only its category set |
| History.LabelledRunningLabel | src/app/views/sidebar/history/History.tsx:83-94 | an entry created today is labelled "today"; otherwise one created yesterday is "yesterday"; any other entry inherits the label before it, and "older" first |
| History.LabelledCategories | src/app/views/sidebar/history/History.tsx:77-94 | every entry is labelled with one of the three category texts |
| History.LabelledOlderIff | src/app/views/sidebar/history/History.tsx:83-94 | labels are sticky: an entry is "older" exactly when neither it nor any earlier entry was dated today or yesterday |
| History.GetItems | src/app/views/sidebar/history/History.tsx:69-98 | the loop with its running `date` yields the labelled entries, sorted by the given `'-createdAt'` ordering |
| History.FirstOccurrencesMembers | src/app/views/sidebar/history/History.tsx:110-111 | the distinct categories in first-occurrence order are exactly the categories that occur |
| History.FirstOccurrencesDistinct | src/app/views/sidebar/history/History.tsx:110-111 | the distinct categories contain no repeats |
| History.GroupsFrom | src/app/views/sidebar/history/History.tsx:109-122 | the grouping loop from position `i`; `History.GroupsFromNewNames`, `History.GroupsFromSum` and `History.GroupsFromFields` state it |
| History.GroupsOf | src/app/views/sidebar/history/History.tsx:109-122 | the groups of a list; `History.GroupsFollowFirstOccurrence` and `History.GroupsPartitionEntries` state it |
| History.GroupsFromNewNames | src/app/views/sidebar/history/History.tsx:109-122 | the groups still to come are named by the categories that are new to the `map`, in list order |
| History.NewNamesComplete | src/app/views/sidebar/history/History.tsx:109-122 | when the `map` holds exactly the categories seen so far, the remaining new names complete the first occurrences |
| History.GroupsFromSum | src/app/views/sidebar/history/History.tsx:112-120 | the counts of the groups still to come add up to the number of entries whose category has no group yet |
| History.GroupsFromFields | src/app/views/sidebar/history/History.tsx:105-119 | each group still to come has key equal to name, is not collapsed, counts its category's entries and starts after the groups before it |
| History.GroupsFollowFirstOccurrence | src/app/views/sidebar/history/History.tsx:105-122 | one group per distinct category, in order of first occurrence, with no name repeated; a name appears exactly when some entry has that category; each group is expanded, keyed by its name and counts its entries |
| History.GroupsPartitionEntries | src/app/views/sidebar/history/History.tsx:106-120 | a group's `startIndex` is the sum of the counts of the groups before it, and all counts add up to the number of entries |
| History.OnViewQuery | src/app/views/sidebar/history/History.tsx:338-363 | what viewing an entry dispatches; `History.ViewQueryStatus` states it |
| History.ViewQueryStatus | src/app/views/sidebar/history/History.tsx:338-363 | viewing dispatches only when there are actions; it reports `ok` and a success message exactly when the status is below 300, and carries the entry's status text and duration; it shows the stored response, and loads the entry's body, verb and headers with the parsed url and version |
| History.OnRunQuery | src/app/views/sidebar/history/History.tsx:310-328 | what re-running an entry dispatches; `History.RunQueryBody` states it |
| History.RunQueryBody | src/app/views/sidebar/history/History.tsx:310-328 | re-running dispatches only when there are actions; a GET sends an empty object as its body and any other verb sends the stored body; the url, verb, headers and version come from the entry |
| History.HistoryView.constructor | src/app/views/sidebar/history/History.tsx:25-35 | no items, no groups, the dialog hidden and no category chosen; the groups are those of the items |
| History.HistoryView.GenerateGroupedList | src/app/views/sidebar/history/History.tsx:100-130 | the state becomes the sorted labelled entries and their groups as `GroupsOf` describes them, so the list is grouped; the dialog state is unchanged |
| History.HistoryView.SearchValueChanged | src/app/views/sidebar/history/History.tsx:48-58 | the list is regrouped from the entries the lower-cased search text keeps |
| History.HistoryView.ShowDialog | src/app/views/sidebar/history/History.tsx:282-284 | the dialog is shown for the chosen category; the list is unchanged |
| History.HistoryView.CloseDialog | src/app/views/sidebar/history/History.tsx:286-288 | the dialog is hidden and the category is cleared; the list is unchanged |
| History.HistoryView.DeleteHistoryCategory | src/app/views/sidebar/history/History.tsx:290-302 | with actions, the items of the chosen category are handed over for removal, and nothing is handed over without actions; when the chosen category names a group, as many entries are handed over as that group counts; afterwards the dialog is closed, the category cleared and the list still grouped |
| History.ItemsInCategory | src/app/views/sidebar/history/History.tsx:294 | the entries of one category; `History.DeletedEntriesAreTheCategory` and `History.ItemsInCategoryAppend` state it |
| History.DeletedEntriesAreTheCategory | src/app/views/sidebar/history/History.tsx:294 | the entries handed over are exactly the listed entries of the chosen category, each as often as it is listed |
| History.ItemsInCategoryAppend | src/app/views/sidebar/history/History.tsx:294 | selecting a category distributes over concatenation, so the entries handed over keep their list order |
| Auth.InitialStateSignedOut | src/app/services/slices/auth.slice.ts:16-22 | the initial state has no token, nothing pending and no scopes, and it is the only such state |
| Auth.Reduce | src/app/services/slices/auth.slice.ts:28-43 | the four reducers; `Auth.ReduceEffects`, `Auth.ReducePreservesPendingHasToken`, `Auth.ReduceIdempotent`, `Auth.SignOutSuccessAbsorbs` and `Auth.ScopesCommuteWithToken` state them |
| Auth.ReduceEffects | src/app/services/slices/auth.slice.ts:28-43 | a token success sets token and clears pending; setting pending sets both; both keep the scopes; a sign-out success resets everything; storing scopes replaces them and keeps the token flags |
| Auth.ReducePreservesPendingHasToken | src/app/services/slices/auth.slice.ts:28-43 | every reducer keeps the invariant "pending implies token" |
| Auth.ReduceAllPendingHasToken | src/app/services/slices/auth.slice.ts:16-43 | no sequence of actions from such a state, the initial one included, breaks "pending implies token" |
| Auth.ReduceIdempotent | src/app/services/slices/auth.slice.ts:28-43 | dispatching any action twice in a row is the same as dispatching it once |
| Auth.SignOutSuccessAbsorbs | src/app/services/slices/auth.slice.ts:32-36 | a sign-out success after any action gives the initial state |
| Auth.ScopesCommuteWithToken | src/app/services/slices/auth.slice.ts:28-43 | storing scopes and the two token actions can be dispatched in either order |
| Auth.SignOutSuccessLast | src/app/services/slices/auth.slice.ts:32-36 | any sequence that ends in a sign-out success leaves the slice signed out |
| Auth.SignOutSignsOut | src/app/services/slices/auth.slice.ts:50-62 | the `signOut` sequence (pending, then sign-out success) leaves the initial state from any state |
| Auth.LogoutFor | src/app/services/slices/auth.slice.ts:55-59 | the logout route of `signOut`; `Auth.LogoutForMode` states it |
| Auth.LogoutForMode | src/app/services/slices/auth.slice.ts:55-59 | `signOut` logs out by redirect exactly in complete mode, and by pop-up otherwise |
| Auth.ValidateConsentedScopes | src/app/services/slices/auth.slice.ts:64-74 | the scope merge rule; `Auth.ValidateMissingArgument`, `Auth.ValidateAllPresent` and `Auth.ValidateKeepsResponseIff` state it |
| Auth.ValidateMissingArgument | src/app/services/slices/auth.slice.ts:66-68 | a missing argument hands the consent response through unchanged |
| Auth.ValidateAllPresent | src/app/services/slices/auth.slice.ts:69-73 | with every argument present, the result has as many scopes as the consented and requested ones together; it is either the response or those scopes, consented first |
| Auth.ValidateKeepsResponseIff | src/app/services/slices/auth.slice.ts:69-73 | the response is kept exactly when its length is the expected one; contents are never compared |
| Auth.ConsentSucceeded | src/app/services/slices/auth.slice.ts:80-85 | the success path of `consentToScopes`, with the scopes read before the await as a separate argument; `Auth.ConsentSucceededState` and `Auth.ConsentAfterSignOutRestoresScopes` state it |
| Auth.ConsentSucceededState | src/app/services/slices/auth.slice.ts:80-85 | after a successful consent the token is held, nothing is pending, and the scopes are the response or the concatenation of the scopes read before the await and the requested ones, by length |
| Auth.ConsentAfterSignOutRestoresScopes | src/app/services/slices/auth.slice.ts:80-85 | a sign-out that completes during the await does not keep the scopes cleared: on a length mismatch the scopes read before the await come back, followed by the requested ones |
| Auth.AuthSlice.constructor | src/app/services/slices/auth.slice.ts:16-22 | the slice starts in the initial state |
| Auth.AuthSlice.GetAuthTokenSuccess | src/app/services/slices/auth.slice.ts:28-31 | the fields change as the reducer function says |
| Auth.AuthSlice.SignOutSuccess | src/app/services/slices/auth.slice.ts:32-36 | the fields change as the reducer function says |
| Auth.AuthSlice.SetAuthenticationPending | src/app/services/slices/auth.slice.ts:37-40 | the fields change as the reducer function says |
| Auth.AuthSlice.GetConsentedScopesSuccess | src/app/services/slices/auth.slice.ts:41-43 | the fields change as the reducer function says |
| Auth.AuthSlice.SignOut | src/app/services/slices/auth.slice.ts:50-62 | it logs out by the mode's route and ends signed out, as pending followed by sign-out success |
| Auth.AuthSlice.SignIn | src/app/services/slices/auth.slice.ts:117-119 | signing in is a token success |
| Auth.AuthSlice.StoreScopes | src/app/services/slices/auth.slice.ts:121-123 | storing scopes makes them the consented ones |
| Autocomplete.Reduce | src/app/services/slices/autocomplete.slice.ts:43-59 | the three extra reducers; `Autocomplete.ReduceEffects`, `Autocomplete.ReducePreservesCoherent`, `Autocomplete.ReduceAllError` and `Autocomplete.ReduceAllData` state them |
| Autocomplete.ReduceEffects | src/app/services/slices/autocomplete.slice.ts:43-59 | the action alone fixes the status; data is the fulfilled result and is cleared otherwise; pending and fulfilled clear the error; a rejection overwrites the error only when it has a payload |
| Autocomplete.InitialStateCoherent | src/app/services/slices/autocomplete.slice.ts:31-35 | the initial state is idle with no data and no error |
| Autocomplete.ReducePreservesCoherent | src/app/services/slices/autocomplete.slice.ts:43-59 | every case keeps "no data while idle, loading or failed; an error only when failed" |
| Autocomplete.ReduceAllCoherent | src/app/services/slices/autocomplete.slice.ts:31-59 | no run of actions from the initial state shows data while loading or failed, or an error unless failed |
| Autocomplete.ReduceAllError | src/app/services/slices/autocomplete.slice.ts:46-58 | the error after a run is the payload of the latest rejection that had one, unless a pending or fulfilled came after it |
| Autocomplete.ReduceAllData | src/app/services/slices/autocomplete.slice.ts:45-55 | the data after a run is the result of the last action when that was a success, and null otherwise |
| Autocomplete.SelectResources | src/app/services/slices/autocomplete.slice.ts:16 | the resources chosen for a version; `Autocomplete.SelectResourcesIff` states it |
| Autocomplete.SelectResourcesIff | src/app/services/slices/autocomplete.slice.ts:16 | resources are passed exactly when the version has an entry; the emptiness test never changes the outcome |
| Autocomplete.ContextOrDefault | src/app/services/slices/autocomplete.slice.ts:11 | the destructuring default of the context; `Autocomplete.ContextDefault` states it |
| Autocomplete.ContextDefault | src/app/services/slices/autocomplete.slice.ts:11 | the context is `'paths'` when none is given, and the given one otherwise |
| Autocomplete.SuggestionRequestFor | src/app/services/slices/autocomplete.slice.ts:11-23 | the arguments of the suggestion request; `Autocomplete.SuggestionRequestFields` states them |
| Autocomplete.SuggestionRequestFields | src/app/services/slices/autocomplete.slice.ts:11-23 | the suggestion service gets the caller's url and version, the base url, the defaulted context and the version's resources if any |
| Autocomplete.AutocompleteSlice.constructor | src/app/services/slices/autocomplete.slice.ts:31-35 | the slice starts idle with no data and no error |
| Autocomplete.AutocompleteSlice.Pending | src/app/services/slices/autocomplete.slice.ts:43-47 | the fields change as the reducer function says |
| Autocomplete.AutocompleteSlice.Fulfilled | src/app/services/slices/autocomplete.slice.ts:48-52 | the fields change as the reducer function says |
| Autocomplete.AutocompleteSlice.Rejected | src/app/services/slices/autocomplete.slice.ts:53-59 | the fields change as the reducer function says, and the error is set only when there is a payload |
| QueryRunnerStatus.Reduce | src/app/services/reducers/query-runner-status-reducers.ts:7-24 | the switch reducer; `QueryRunnerStatus.ReduceOutcome`, `QueryRunnerStatus.ChangesOnlyOnKnownTypes`, `QueryRunnerStatus.ReplacingIgnoresState`, `QueryRunnerStatus.ReduceIdempotent`, `QueryRunnerStatus.ReduceDefined` and `QueryRunnerStatus.ReduceAllLatest` state it |
| QueryRunnerStatus.InitialStateIsEmptyObject | src/app/services/reducers/query-runner-status-reducers.ts:7-22 | with no state yet and an ignored action, the state becomes the empty object |
| QueryRunnerStatus.ReduceOutcome | src/app/services/reducers/query-runner-status-reducers.ts:8-23 | a status action yields its payload; a consent error yields its response; the four clearing actions yield null; any other action keeps a defined state |
| QueryRunnerStatus.ChangesOnlyOnKnownTypes | src/app/services/reducers/query-runner-status-reducers.ts:21-22 | a defined state changes only on one of the six known action types |
| QueryRunnerStatus.ReplacingIgnoresState | src/app/services/reducers/query-runner-status-reducers.ts:9-20 | the six known action types give a result that does not depend on the state |
| QueryRunnerStatus.ReduceIdempotent | src/app/services/reducers/query-runner-status-reducers.ts:7-24 | dispatching any action twice in a row is the same as dispatching it once |
| QueryRunnerStatus.ReduceDefined | src/app/services/reducers/query-runner-status-reducers.ts:7-24 | the reducer yields undefined only when a replacing action carried undefined |
| QueryRunnerStatus.ReduceAllLatest | src/app/services/reducers/query-runner-status-reducers.ts:7-24 | after a non-empty run, the state is whatever the latest known action set, or the starting state defaulted to the empty object when every action was of another type; an empty run leaves the state as it was |

## Left out

- Rendering in `History.tsx` is left out because it is UI framework code. This covers the row and column markup, the group headers, the dialog markup, `render`, and `connect`/`mapStateToProps`.
- The lifecycle hooks `componentDidMount` and `componentDidUpdate` are left out. They only call `generateGroupedList` on the `history` prop.
- `deleteQuery` is left out because it only forwards one entry to the `removeHistoryItem` action.
- The wall clock is left out:
  - `new Date()` and `setDate` are not modelled.
  - The formatted dates of today and yesterday are parameters (`History.DayStamps`).
  - `formatDate` is modelled on the year, the month index and the day that `Date` would return.
- `dynamicSort` and `history-utils` are not part of this model. The `'-createdAt'` ordering is a function parameter of `History.HistoryView.GenerateGroupedList` and `History.GetItems`.
- `parseSampleUrl` is not part of this model. Its result is a parameter (`History.ParsedUrl`).
- The translated category texts are parameters (`History.CategoryTexts`), and i18n lookups are not modelled.
- History.GetItems: the source assigns `category` to the entries of the `history` prop in place. The model builds relabelled copies, so it does not capture aliasing with the caller's list.
- History.FormatDateRoundTrip: the read-back covers years from 0 on. A negative year is formatted with a leading `-` (`JsStrings.IntToString` states this), but `History.ParseDate` does not read it back.
- JsStrings.Lower: only the ASCII letters `A`–`Z` are mapped. Unicode case mapping is not modelled.
- Dispatching is modelled by its outcome, not as calls:
  - The actions `setSampleQuery`, `runQuery`, `viewHistoryItem`, `setQueryResponseStatus` and `bulkRemoveHistoryItems` are modelled by the values handed to them (`History.OnViewQuery`, `History.OnRunQuery`, `History.HistoryView.DeleteHistoryCategory`).
  - `props.actions` being present or absent is the `hasActions` parameter.
- Async thunks and library calls are modelled only by their effect on reducer state:
  - `consentToScopes` is modelled only on its success path (`Auth.ConsentSucceeded`): the token success, then the scopes validated against those read from the store before the consent was awaited. Actions dispatched during the await are represented only by the state they leave.
  - Not modelled: its profile refresh, its status messages, its error path, `fetchAllPrincipalGrants`, the authentication wrapper's `logOut`/`logOutPopUp` calls, and `suggestions.getSuggestions`.
  - `rejectWithValue` is modelled only as the rejection payload.
- Permission revocation is left out: `permissions-action-creator.ts` is not part of this model.
- Immer draft mechanics are not modelled. Each reducer is a transition from old state to new state.
- The values of the action constants in `redux-constants` are not part of this model:
  - The known types are datatype constructors, assumed distinct from each other and from every other tag.
  - A missing `type` behaves like any other unknown tag.
- JavaScript values are modelled with these limits:
  - Autocomplete.Reduce: the rejection payload is tested for presence (`Some`/`None`). Falsy non-null payloads such as `0` or `""` are not distinguished.
  - The fulfilled payload may be null. It is stored as an `Option`.
  - QueryRunnerStatus.Reduce: payloads and responses are either a status record, `null`, `undefined` or the empty object. No other JSON values are modelled.
- Autocomplete.ContextOrDefault: a context of `null` is not distinguished from a missing one. The destructuring default applies only to `undefined`, but the model treats both as absent.
- Auth.AuthSlice.GetConsentedScopesSuccess: the payload is always a list. The `undefined` that `validateConsentedScopes` can pass through when the response has no scopes is not modelled as a state.
