# Hooks and authentication forms, modelled in Dafny

This project models the sequential rules inside a React front end. It covers:

- seven hooks: the keyboard-shortcut parser and matcher, the pagination cursor, the window-size breakpoint classifier, the URL cache and request lifecycle of `useFetch`, the online-status state machine, `useLocalStorage`, and the two-key user/token store of `useAuth`;
- the `handleSubmit` logic of the registration, password-reset and login forms.

Each network call is an input: the outcome of the request, given to the operation that awaits it. Each React state cell is a field, and each `setState` is an immediate assignment. `localStorage` is a class holding a `map<string, string>`.

Modules, one per file:

- `Wrappers`: the `Option` type.
- `Text`: the string built-ins the hooks call (`toLowerCase`, `split`, `trim`, integer rendering), each with an inverse or shape lemma. `Join` is there only as the inverse of `split`; no hook calls it.
- `Http`: the outcome of a request and its error messages.
- `KeyboardShortcut`, `PaginatedQuery`, `WindowSize`, `Fetch`, `OnlineStatus`, `BrowserStorage`, `LocalStorage`, `Auth`: one per hook.
- `Alerts`: the `detail` record and the four alert slots.
- `AuthForms`: the three forms.

## Model

| member | source | states |
|---|---|---|
| Text.LowerChar | packages/core-hooks/src/system/useKeyboardShortcut.ts:28 | lower-casing leaves no upper-case letter, fixes every other character, and maps each capital to the letter at the same offset |
| Text.Lower | packages/core-hooks/src/system/useKeyboardShortcut.ts:28 | lower-casing keeps the length, lower-cases each character in place, and leaves no upper-case letter |
| Text.LowerIdempotent | packages/core-hooks/src/system/useKeyboardShortcut.ts:34 | lower-casing twice is lower-casing once |
| Text.LowerSpacedPlus | packages/core-hooks/src/system/useKeyboardShortcut.ts:34 | lower-casing keeps white space and '+' where they are |
| Text.Split | packages/core-hooks/src/system/useKeyboardShortcut.ts:34 | `split` gives one more piece than there are separators in the string |
| Text.SplitShape | packages/core-hooks/src/system/useKeyboardShortcut.ts:34 | `split` yields at least one piece and no piece contains the separator |
| Text.JoinSplit | packages/core-hooks/src/system/useKeyboardShortcut.ts:34 | joining the pieces with the separator gives back the original string |
| Text.SplitJoin | packages/core-hooks/src/system/useKeyboardShortcut.ts:34 | `split` inverts joining: splitting a join of separator-free pieces gives back the pieces |
| Text.SplitFree | packages/core-hooks/src/system/useKeyboardShortcut.ts:34 | a string without the separator is one piece |
| Text.SplitAppendSep | packages/core-hooks/src/system/useKeyboardShortcut.ts:34 | a separator between two strings cuts exactly there |
| Text.SplitAppendFree | packages/core-hooks/src/system/useKeyboardShortcut.ts:34 | separator-free text appended to a string extends its last piece |
| Text.SplitPrependFree | packages/core-hooks/src/system/useKeyboardShortcut.ts:34 | separator-free text prepended to a string extends its first piece |
| Text.TrimStartShape | packages/core-hooks/src/system/useKeyboardShortcut.ts:34 | trimming the start keeps a suffix, drops only white space and leaves no white space at the front |
| Text.TrimEndShape | packages/core-hooks/src/system/useKeyboardShortcut.ts:34 | trimming the end keeps a prefix, drops only white space and leaves no white space at the back |
| Text.Trim | packages/core-hooks/src/system/useKeyboardShortcut.ts:34 | `trim` keeps a contiguous slice of its input, drops only white space before and after it, and the slice neither starts nor ends with white space |
| Text.TrimPadded | packages/core-hooks/src/system/useKeyboardShortcut.ts:34 | `trim` ignores white space added on either side |
| Text.NatToString | packages/core-hooks/src/api/usePaginatedQuery.ts:42 | a natural number renders as a non-empty string of digits without a leading zero |
| Text.IntToString | packages/core-hooks/src/api/usePaginatedQuery.ts:42 | an integer renders as digits, with a leading '-' exactly when it is negative |
| Text.ParseIntToString | packages/core-hooks/src/api/usePaginatedQuery.ts:42 | reading back a rendered integer gives the same integer |
| Http.HttpErrorMessage | packages/core-hooks/src/api/useFetch.ts:58-60 | the HTTP error message is "HTTP error! status: " followed by the status, which reads back from the message |
| KeyboardShortcut.TrimAllAt | packages/core-hooks/src/system/useKeyboardShortcut.ts:34 | trimming every part trims each part in place |
| KeyboardShortcut.HasIff | packages/core-hooks/src/system/useKeyboardShortcut.ts:36-47 | a modifier requirement is set exactly when some part names that modifier, wherever it stands |
| KeyboardShortcut.LastTargetIsLast | packages/core-hooks/src/system/useKeyboardShortcut.ts:48-50 | every non-modifier part overwrites the target, so the last one wins |
| KeyboardShortcut.LastTargetAllModifiers | packages/core-hooks/src/system/useKeyboardShortcut.ts:39-51 | a shortcut made only of modifiers has the empty target key |
| KeyboardShortcut.ModifierAliases | packages/core-hooks/src/system/useKeyboardShortcut.ts:42-47 | "ctrl", "control", "cmd" and "meta" are interchangeable, and so are "alt" and "option" |
| KeyboardShortcut.Parse | packages/core-hooks/src/system/useKeyboardShortcut.ts:34-51 | a modifier is required exactly when some trimmed, lower-cased part names it; the target is never a modifier word, and it is one of the parts or "" |
| KeyboardShortcut.ParseExample | packages/core-hooks/src/system/useKeyboardShortcut.ts:34-51 | "Ctrl + Shift + K" asks for Ctrl and Shift, not Alt, and the key "k" |
| KeyboardShortcut.ParseIgnoresCase | packages/core-hooks/src/system/useKeyboardShortcut.ts:34 | a shortcut parses like its lower-cased form |
| KeyboardShortcut.SpacesAroundPlusIgnored | packages/core-hooks/src/system/useKeyboardShortcut.ts:34 | white space around a '+' does not change the parts ("Ctrl + K" is "Ctrl+K") |
| KeyboardShortcut.ParseParts | packages/core-hooks/src/system/useKeyboardShortcut.ts:36-51 | the part-by-part loop yields exactly the requirements the parts state |
| KeyboardShortcut.Matches | packages/core-hooks/src/system/useKeyboardShortcut.ts:53-58 | only a lower-case target can match, and a shortcut without Ctrl never matches with Ctrl or Meta held |
| KeyboardShortcut.ModifiersMatchExactly | packages/core-hooks/src/system/useKeyboardShortcut.ts:29-31 | an extra pressed modifier blocks a match, and Meta counts as Ctrl |
| KeyboardShortcut.ParseAllAt | packages/core-hooks/src/system/useKeyboardShortcut.ts:33-34 | the k-th parsed shortcut is the parse of the k-th string |
| KeyboardShortcut.ParseShortcutAt | packages/core-hooks/src/system/useKeyboardShortcut.ts:33-51 | parsing one shortcut as the handler does agrees with its meaning |
| KeyboardShortcut.FirstMatch | packages/core-hooks/src/system/useKeyboardShortcut.ts:33-65 | the scan returns the first matching shortcut in list order, or none when no shortcut matches |
| KeyboardShortcut.ShortcutListener.constructor | packages/core-hooks/src/system/useKeyboardShortcut.ts:15-16 | the options default to `preventDefault` false and `enabled` true |
| KeyboardShortcut.ShortcutListener.SetCallback | packages/core-hooks/src/system/useKeyboardShortcut.ts:18-20 | a new callback replaces the one in the ref |
| KeyboardShortcut.ShortcutListener.HandleKeyDown | packages/core-hooks/src/system/useKeyboardShortcut.ts:22-66 | a disabled hook does nothing; otherwise the first match in the list (a single string counts as a one-element list) gets the event, at most one callback runs, and `preventDefault` is called only on a match with the option set |
| PaginatedQuery.PageUrl | packages/core-hooks/src/api/usePaginatedQuery.ts:41-42 | the URL starts with the base URL, then has '&' exactly when the base already has a '?' (and '?' otherwise), then the page query |
| PaginatedQuery.FieldReadsBack | packages/core-hooks/src/api/usePaginatedQuery.ts:42 | a `name=<int>` query field reads back its integer |
| PaginatedQuery.PageQueryFields | packages/core-hooks/src/api/usePaginatedQuery.ts:42 | the appended query splits at its one '&' into the page field and the page-size field |
| PaginatedQuery.PageQueryReadsBack | packages/core-hooks/src/api/usePaginatedQuery.ts:42 | the page and the page size read back from the query unchanged |
| PaginatedQuery.PageUrlReadsBack | packages/core-hooks/src/api/usePaginatedQuery.ts:41-42 | the URL is the base URL, then '&' if the base has a '?' (else '?'), then a query from which page and page size read back |
| PaginatedQuery.CeilDiv | packages/core-hooks/src/api/usePaginatedQuery.ts:54 | the quotient is the least q with n <= q * d, which is `Math.ceil(n / d)` |
| PaginatedQuery.PageCount | packages/core-hooks/src/api/usePaginatedQuery.ts:54 | a non-zero `total_pages` wins, then a non-zero `totalPages`; otherwise the least page count that holds `total`, or the number of items when `total` is 0 |
| PaginatedQuery.PageCountFromItems | packages/core-hooks/src/api/usePaginatedQuery.ts:54 | with no count and no total, the pages hold every item with less than one page to spare, and there are no pages exactly when there are no items |
| PaginatedQuery.PaginatedQuery.constructor | packages/core-hooks/src/api/usePaginatedQuery.ts:28-34 | the hook starts on `initialPage` (default 1), with one page, no data, no error, not loading, and page size 10 by default |
| PaginatedQuery.PaginatedQuery.HasNextPage | packages/core-hooks/src/api/usePaginatedQuery.ts:99 | on an existing page there is a next page exactly when this is not the last page; a single page has none |
| PaginatedQuery.PaginatedQuery.HasPrevPage | packages/core-hooks/src/api/usePaginatedQuery.ts:100 | on an existing page there is a previous page exactly when this is not the first page; a single page has none |
| PaginatedQuery.PaginatedQuery.NextPage | packages/core-hooks/src/api/usePaginatedQuery.ts:72-76 | the page goes up by exactly one when there is a next page (`page < totalPages`), and otherwise stays; `1 <= page <= totalPages` is preserved |
| PaginatedQuery.PaginatedQuery.PrevPage | packages/core-hooks/src/api/usePaginatedQuery.ts:78-82 | the page goes down by exactly one when there is a previous page (`page > 1`), and otherwise stays; the range invariant is preserved |
| PaginatedQuery.PaginatedQuery.GoToPage | packages/core-hooks/src/api/usePaginatedQuery.ts:84-88 | the page jumps only to an existing page, which establishes the range invariant; an out-of-range page changes nothing |
| PaginatedQuery.PaginatedQuery.FetchData | packages/core-hooks/src/api/usePaginatedQuery.ts:36-66 | the current page's URL is requested; success replaces the items and the page count and clears the error; a non-ok response or a throw records the error and keeps the data and the count; loading is off afterwards |
| WindowSize.GetBreakpoint | packages/core-hooks/src/data/useWindowSize.ts:66-71 | the class is the first one whose threshold is strictly above the width, in the order mobile, tablet, desktop; otherwise wide |
| WindowSize.BreakpointIntervals | packages/core-hooks/src/data/useWindowSize.ts:66-71 | with ascending thresholds each class is exactly the half-open interval between two thresholds |
| WindowSize.BreakpointMonotone | packages/core-hooks/src/data/useWindowSize.ts:66-71 | with ascending thresholds a wider window never falls in a narrower class |
| WindowSize.DefaultBoundaries | packages/core-hooks/src/data/useWindowSize.ts:24-28 | under 640/768/1024, a width equal to a threshold goes to the next class up |
| WindowSize.NoWindowIsMobile | packages/core-hooks/src/data/useWindowSize.ts:35-38 | without a window the size is 0 by 0, which is mobile under a positive threshold |
| WindowSize.Report | packages/core-hooks/src/data/useWindowSize.ts:73-82 | the report carries the size and its breakpoint, and each flag holds exactly when the breakpoint is its class |
| WindowSize.ExactlyOneFlag | packages/core-hooks/src/data/useWindowSize.ts:78-82 | exactly one of the four flags is set |
| Fetch.FreshHit | packages/core-hooks/src/api/useFetch.ts:35-37 | a hit needs caching on and an entry for the URL younger than `staleTime`, and it is that entry's data; anything else is a miss |
| Fetch.StoredResultIsHit | packages/core-hooks/src/api/useFetch.ts:35-37 | a stored entry is a hit exactly while `now - timestamp < staleTime` |
| Fetch.NoStaleTimeNoHit | packages/core-hooks/src/api/useFetch.ts:35 | with `staleTime <= 0` the cache is never consulted |
| Fetch.StoreKeepsOtherHits | packages/core-hooks/src/api/useFetch.ts:65-67 | storing under one URL does not change another URL's hit |
| Fetch.AbortLast | packages/core-hooks/src/api/useFetch.ts:45-47 | aborting marks the latest controller and keeps every other flag |
| Fetch.Settle | packages/core-hooks/src/api/useFetch.ts:58-77 | a result replaces the data and clears the error; an HTTP failure or a throw keeps the data and records its message; an abort records nothing and reports nothing |
| Fetch.Store | packages/core-hooks/src/api/useFetch.ts:65-67 | only a result, with caching on, is stored, under its URL with its completion time; every other URL keeps its entry and no other key appears |
| Fetch.FetchedResultIsHit | packages/core-hooks/src/api/useFetch.ts:35-67 | a fetched result is served from the cache to a later fetch of the same URL until it goes stale |
| Fetch.FetchHook.constructor | packages/core-hooks/src/api/useFetch.ts:23-29 | `staleTime` defaults to 0 and `enabled` to true; no data, no error, not loading, no controller |
| Fetch.FetchHook.FetchData | packages/core-hooks/src/api/useFetch.ts:31-81 | no URL or disabled: nothing changes; a fresh cache hit sets the data without a request; otherwise the previous request is aborted, one request is made, the cache is written only for a result with caching on, and loading is off afterwards; at most one controller stays live |
| Fetch.FetchHook.StartRequest | packages/core-hooks/src/api/useFetch.ts:45-51 | the previous controller is aborted, a new live one is added, loading is on and the error cleared |
| Fetch.FetchHook.Cleanup | packages/core-hooks/src/api/useFetch.ts:86-90 | the effect's cleanup aborts the latest request, leaving none live |
| Fetch.FetchHook.Rerender | packages/core-hooks/src/api/useFetch.ts:81-91 | new options first clean up the old effect |
| OnlineStatus.InitialStatus | packages/core-hooks/src/system/useOnlineStatus.ts:26-29 | the hook starts offline only when a navigator exists and reports offline |
| OnlineStatus.ProbeVerdict | packages/core-hooks/src/system/useOnlineStatus.ts:32-44 | the probe says online exactly when there is no navigator or the HEAD request completed, whatever its status |
| OnlineStatus.Transition | packages/core-hooks/src/system/useOnlineStatus.ts:56-60 | `onOnline` fires only going from offline to online, `onOffline` only the other way, and nothing when the status is unchanged |
| OnlineStatus.TransitionsAlternate | packages/core-hooks/src/system/useOnlineStatus.ts:56-60 | two successive changes fire the two callbacks in turn |
| OnlineStatus.OnlineStatus.constructor | packages/core-hooks/src/system/useOnlineStatus.ts:26-29 | the status starts as the navigator's flag, or online without a navigator, and not checking |
| OnlineStatus.OnlineStatus.CheckOnlineStatus | packages/core-hooks/src/system/useOnlineStatus.ts:31-48 | returns the probe's verdict; `isChecking` is off afterwards, and untouched without a navigator |
| OnlineStatus.OnlineStatus.ForceCheck | packages/core-hooks/src/system/useOnlineStatus.ts:50-61 | the status becomes the verdict and only a real transition fires a callback; the last callback fired keeps agreeing with the status |
| OnlineStatus.OnlineStatus.HandleOnline | packages/core-hooks/src/system/useOnlineStatus.ts:66-69 | online, and `onOnline` fires unconditionally |
| OnlineStatus.OnlineStatus.HandleOffline | packages/core-hooks/src/system/useOnlineStatus.ts:71-74 | offline, and `onOffline` fires unconditionally |
| BrowserStorage.Storage.GetItem | packages/core-hooks/src/auth/useAuth.ts:58 | `getItem` returns the stored string, or nothing for an absent key |
| BrowserStorage.Storage.SetItem | packages/core-hooks/src/data/useLocalStorage.ts:41 | `setItem` changes exactly one key |
| BrowserStorage.Storage.RemoveItem | packages/core-hooks/src/data/useLocalStorage.ts:51 | `removeItem` deletes exactly one key |
| LocalStorage.ReadStored | packages/core-hooks/src/data/useLocalStorage.ts:26-34 | a present, non-empty entry that deserializes gives its deserialized value; an absent or empty entry, or one that fails to deserialize, gives the default |
| LocalStorage.WrittenValueReadsBack | packages/core-hooks/src/data/useLocalStorage.ts:26-41 | with a serializer and deserializer that round-trip a value to a non-empty string, a hook mounted after the value was written starts with it |
| LocalStorage.RemovedValueReadsDefault | packages/core-hooks/src/data/useLocalStorage.ts:26-53 | after removal a newly mounted hook starts from its default |
| LocalStorage.LocalStorageHook.constructor | packages/core-hooks/src/data/useLocalStorage.ts:20-34 | the initial value is the deserialized entry when it is present and non-empty and parses, and the default otherwise; syncing is on by default |
| LocalStorage.LocalStorageHook.SetStoredValue | packages/core-hooks/src/data/useLocalStorage.ts:36-47 | the state takes the new value, or the updater applied to the current one, and the storage then holds its serialization under the hook's key only |
| LocalStorage.LocalStorageHook.RemoveValue | packages/core-hooks/src/data/useLocalStorage.ts:49-56 | the key, and only it, leaves the storage, and the state returns to the default |
| LocalStorage.LocalStorageHook.HandleStorageChange | packages/core-hooks/src/data/useLocalStorage.ts:58-69 | a storage event is taken only with syncing on, for this key, with a new value that deserializes; removals, other keys and bad values leave the state as it was |
| LocalStorage.SyncedWrite | packages/core-hooks/src/data/useLocalStorage.ts:36-64 | when one tab writes a value and another receives the event, both hold the value |
| Auth.LoadedUser | packages/core-hooks/src/auth/useAuth.ts:25-30 | a user is loaded exactly when both keys hold non-empty text and the user text parses, and it is the parse of that text |
| Auth.SetAuthUser | packages/core-hooks/src/auth/useAuth.ts:45-49 | writes the user's JSON under "auth_user" and the token under "auth_token" |
| Auth.ClearAuthUser | packages/core-hooks/src/auth/useAuth.ts:51-55 | removes both keys |
| Auth.GetAuthToken | packages/core-hooks/src/auth/useAuth.ts:57-59 | returns the stored token, or nothing |
| Auth.SetThenToken | packages/core-hooks/src/auth/useAuth.ts:45-59 | after `setAuthUser` the token and the user read back, and no other key has changed |
| Auth.SetThenLoad | packages/core-hooks/src/auth/useAuth.ts:25-47 | a user stored with a non-empty token is loaded back on the next mount; with an empty token no user is loaded |
| Auth.ClearThenNothing | packages/core-hooks/src/auth/useAuth.ts:51-59 | after `clearAuthUser` there is no token and no user to load, and no other key has changed |
| Auth.AuthState.constructor | packages/core-hooks/src/auth/useAuth.ts:20-21 | no user, and loading |
| Auth.AuthState.Load | packages/core-hooks/src/auth/useAuth.ts:23-40 | the stored user becomes the state only when both entries are non-empty and the user parses; a parse failure is swallowed; loading ends either way; from a signed-out state the hook is signed in exactly when a stored user loads |
| Auth.MountAfterSignIn | packages/core-hooks/src/auth/useAuth.ts:23-47 | mounting after `setAuthUser` with a non-empty token gives an authenticated user |
| Alerts.Shown.With | src/components/auth/LoginForm.tsx:43-56 | showing a message sets exactly its slot |
| Alerts.Only | src/components/auth/RegisterForm.tsx:32-39 | cleared slots with one message show exactly that message, alone |
| Alerts.NamedSlotNames | src/components/auth/RegisterForm.tsx:56-71 | a `type` names a slot exactly when it is that slot's name |
| Alerts.ResponseSlot | src/components/auth/LoginForm.tsx:41-57 | a response detail goes to error, warning or success exactly when its type names that slot; anything else, "info" included, goes to info |
| Alerts.ThrownSlot | src/components/auth/LoginForm.tsx:63-80 | a thrown detail goes to info, warning or success exactly when its type names that slot; anything else, "error" included, goes to error |
| Alerts.RoutingsDifferOnUnknownTypes | src/components/auth/ResetPassword.tsx:90-116 | response and thrown details route alike on the four known types; an unknown type goes to info for a response and to error for a thrown detail |
| Alerts.OutcomeAlerts | src/components/auth/LoginForm.tsx:41-83 | a settled call leaves at most one alert, and no alert at all exactly for a resolved response without a detail |
| Alerts.OutcomeAlertsShape | src/components/auth/LoginForm.tsx:41-83 | the detail's message is shown in the slot its type routes to; a thrown value without a detail shows its message, or the form's fallback when it has none, in the error slot alone; a response without detail shows nothing |
| Alerts.AlertSlots.Clear | src/components/auth/LoginForm.tsx:31-34 | all four slots empty |
| Alerts.AlertSlots.Show | src/components/auth/LoginForm.tsx:44-56 | one slot takes the message and the others keep theirs |
| Alerts.AlertSlots.ShowOutcome | src/components/auth/LoginForm.tsx:41-83 | the slots show what the call's outcome calls for |
| AuthForms.RegisterProblem | src/components/auth/RegisterForm.tsx:38-47 | the mismatch message exactly when the passwords differ; the too-short message exactly when they match and are under 8 characters |
| AuthForms.ResetProblem | src/components/auth/ResetPassword.tsx:49-62 | the missing-token message exactly without a token; with a token, too short exactly under 8 characters, and a mismatch exactly for long enough passwords that differ |
| AuthForms.RegisterProblemMeaning | src/components/auth/RegisterForm.tsx:38-47 | registration goes ahead exactly for matching passwords of at least 8 characters; otherwise one of the two messages is reported |
| AuthForms.ResetProblemMeaning | src/components/auth/ResetPassword.tsx:49-62 | a reset goes ahead exactly with a non-empty token and matching passwords of at least 8 characters |
| AuthForms.ChecksOrderedDifferently | src/components/auth/RegisterForm.tsx:38-47 | registration reports a mismatch before a short password; the reset form reports the short password first |
| AuthForms.SuccessReadings | src/components/auth/LoginForm.tsx:60-77 | a thrown success detail is a success to the reset and login forms but only a message to registration; login calls `onSuccess` even for a resolved response whose detail is an error |
| AuthForms.SuccessAlertMeansSuccessDetail | src/components/auth/ResetPassword.tsx:72-114 | a shown success alert always comes from a success detail |
| AuthForms.RegisterForm.constructor | src/components/auth/RegisterForm.tsx:18-28 | empty fields and slots, not loading |
| AuthForms.RegisterForm.Edit | src/components/auth/RegisterForm.tsx:103-108 | the inputs set the form fields |
| AuthForms.RegisterForm.HandleSubmit | src/components/auth/RegisterForm.tsx:30-101 | the slots are cleared first and at most one is set afterwards; a failed check shows its error without a request; otherwise the outcome is shown, only a resolved success clears the four fields and calls `onSuccess`, and loading ends |
| AuthForms.ResetPasswordForm.constructor | src/components/auth/ResetPassword.tsx:18-26 | the token is the prop, or empty |
| AuthForms.ResetPasswordForm.TakeTokenFromUrl | src/components/auth/ResetPassword.tsx:28-39 | without a token prop the URL token is taken when present, and the missing-token error is shown otherwise |
| AuthForms.ResetPasswordForm.Edit | src/components/auth/ResetPassword.tsx:178-197 | the inputs set the password fields |
| AuthForms.ResetPasswordForm.HandleSubmit | src/components/auth/ResetPassword.tsx:41-124 | token, length and match are checked in that order, the first failure is shown without a request; a success detail, resolved or thrown, clears both password fields and schedules `onSuccess`; at most one slot is set and loading ends |
| AuthForms.LoginForm.constructor | src/components/auth/LoginForm.tsx:19-28 | empty fields and slots, not loading |
| AuthForms.LoginForm.Edit | src/components/auth/LoginForm.tsx:89-94 | the inputs set the form fields |
| AuthForms.LoginForm.HandleSubmit | src/components/auth/LoginForm.tsx:29-87 | no validation; the outcome is shown in at most one slot, `onSuccess` is called for every resolved response and for a thrown success detail, and loading ends |

## Left out

- Network I/O, `AbortController` internals and JSON response parsing: each request is an input outcome.
- The module does not capture asynchrony or interleaving between hooks.
- React scheduling is left out: state batching, stale closures, dependency lists and effect ordering. Every `setState` is an immediate assignment.
- Only the fields the handlers read are modelled. The rendered markup, and the `dispatchEvent(new Event('storage'))` signal of `setAuthUser`/`clearAuthUser`, are left out. That signal carries no key, so `LocalStorage.LocalStorageHook.HandleStorageChange` ignores it (its contract covers an absent event key).
- Timers are left out: the resize debounce of `useWindowSize`, the ping interval of `useOnlineStatus` (each tick is a `ForceCheck` call), and the three-second delay before the reset form's `onSuccess`, which is counted as scheduled.
- `Date.now()` is a parameter. `JSON.stringify`, `JSON.parse`, the `localStorage` serializer and deserializer, and `callbackRef.current` are abstract functions or identities.
- Text.LowerChar: lower-cases ASCII letters only, not the full Unicode case mapping of `toLowerCase`.
- Text.TrimStartShape, Text.TrimEndShape, Text.Trim, Text.TrimPadded: the white space `trim` removes is taken to be the ASCII white space (space, tab, line feed, carriage return, vertical tab, form feed) plus NBSP (U+00A0) and the BOM (U+FEFF). JavaScript's `trim` also strips U+1680, U+2000 to U+200A, U+202F, U+205F and U+3000, and the line terminators U+2028 and U+2029. The model keeps those characters, and so do `Text.TrimEndShape`, `Text.Trim` and `Text.TrimPadded`.
- AuthForms.RegisterProblemMeaning, AuthForms.RegisterProblem, AuthForms.ResetProblem, AuthForms.ResetProblemMeaning, AuthForms.ChecksOrderedDifferently, AuthForms.RegisterForm.HandleSubmit and AuthForms.ResetPasswordForm.HandleSubmit: lengths count Unicode scalar values, not the UTF-16 code units of `.length`, so a character outside the Basic Multilingual Plane counts once; four emoji pass the 8-character check in the source and fail it here.
- PaginatedQuery.PaginatedQuery.FetchData:
  - the response body comes with its item list already chosen; the `items || data || results || result` chain is left out;
  - the numeric fields are integers, with 0 standing for absent;
  - the page size must be positive; 0 would give `Infinity` or `NaN`;
  - this hook never aborts, so an abort outcome is excluded.
- PaginatedQuery.PaginatedQuery.NextPage: `1 <= page <= totalPages` is shown to be preserved by navigation only. The hook does not keep it in general: `initialPage` is unchecked, and a fetch may set `totalPages` to 0 or to a count below the current page.
- WindowSize.GetBreakpoint: widths are integers; fractional `innerWidth` values are not modelled.
- PaginatedQuery.PaginatedQuery.GoToPage: pages are integers. The source accepts any number for `goToPage`, for `initialPage` and for `pageSize` (`goToPage(2.5)` passes the range check and requests `page=2.5`). `PaginatedQuery.PaginatedQuery.constructor` likewise takes integer `initialPage` and `pageSize` only.
- Text.IntToString: renders every integer as plain decimal digits. JavaScript's template literal switches to exponent notation from 1e21 up, which the model does not follow.
- LocalStorage.LocalStorageHook.constructor: a `getItem` that throws (storage unavailable) is not modelled.
- LocalStorage.LocalStorageHook.SetStoredValue: a `setItem` that throws (a quota error) is not modelled; in the source the state is updated and the storage is left unchanged. An updater that throws is not modelled either; in the source the throw is caught and both the state and the storage stay as they were. A serializer failure after the state update is modelled: it leaves the storage unchanged.
- LocalStorage.LocalStorageHook.RemoveValue: a `removeItem` that throws is not modelled; in the source the throw skips the reset to the default.
- Auth.AuthState.Load: a stored user whose JSON text is `null` is treated as any parsed value.
- Fetch.Settle, PaginatedQuery.PaginatedQuery.FetchData, AuthForms.RegisterForm.HandleSubmit, AuthForms.ResetPasswordForm.HandleSubmit, AuthForms.LoginForm.HandleSubmit: callbacks are assumed not to throw. In the source, `onSuccess` runs inside the `try` of `LoginForm` and `RegisterForm` (LoginForm.tsx:60, RegisterForm.tsx:61). `useFetch` and `usePaginatedQuery` call `onSuccess` the same way (useFetch.ts:69-70, usePaginatedQuery.ts:56-58). A throwing callback would reach the `catch`, set an error as well and keep the new data. `Fetch.Settle`, `PaginatedQuery.PaginatedQuery.FetchData`, `AuthForms.RegisterForm.HandleSubmit`, `AuthForms.ResetPasswordForm.HandleSubmit` and `AuthForms.LoginForm.HandleSubmit` promise the outcome for callbacks that return normally. So do the at-most-one-alert and no-error-on-success clauses of those members.
- Thrown values that are `null` or `undefined` are not modelled; in the forms, reading `err.detail` on them would itself throw.
- The forms' `onLoginClick`, `onRegisterClick`, `onForgotPasswordClick` and `onBackToLogin` callbacks are left out; they only switch views.
