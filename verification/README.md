# Employee onboarding: wizard and lookup state machines

A Dafny model of the two components of the employee-onboarding UI that hold real
logic.

- **`employeeLookup`** resolves an employee key (the `Employee_ID__c` business
  key) to a record id with a GraphQL query. It then fetches the record's Name,
  Branch and Role fields and dispatches `lookupresult` events: FOUND, NOT_FOUND
  or ERROR.
- **`onboardingWizard`** owns the search box and the key it binds to the lookup.
  It also holds the record and employee it displays, a message with an
  info/error variant, and a subscription to the employee-created message
  channel.

Every handler is a pure function from the current state and the handler's input
to the next state and the events it dispatched. The platform's asynchronous
callbacks are explicit inputs, and lemmas range over arbitrary sequences of them.
The platform services become opaque input data:

- the GraphQL result becomes `IdLookupResponse`;
- the `getRecord` result becomes `RecordResponse`;
- the message-service subscription handle becomes `Subscription`.

Modules:

- `Wrappers`: `Option`, standing for a JavaScript value that may be `undefined`
  or `null`.
- `JsString`: `String.prototype.trim` over the ECMAScript whitespace and
  line-terminator code points, plus string truthiness (`x || ''`, `!x`). `Trim`
  is proved equal to an independent description (`TrimmedAt`: blank ends cut off,
  kept part not starting or ending with whitespace).
- `EmployeeLookup`: `wiredIdLookup`, `wiredEmployee`, `emitResult`, the
  `variables` getter, and the state `employeeId`, `loading`, `recordId` and
  `lastEmittedRecordId`. Also `Run`, which drives an arbitrary input sequence.
- `OnboardingWizard`: every handler, the `hasEmployee` and `isSearchDisabled`
  getters, and `connectedCallback`/`disconnectedCallback` returning the
  message-service calls they make.
- `Onboarding`: the two composed. After each wizard handler, the lookup's
  `employeeId` property follows the wizard's `employeeId`. Each event the lookup
  dispatches goes to `handleLookupResult`, in order. A broadcast reaches the
  wizard only while it holds a subscription, because the message handler is
  registered by `subscribe` (onboardingWizard.js:22-27) and removed by
  `unsubscribe` (onboardingWizard.js:32).

Where the code behaves differently from what its comments and names suggest, the model follows the code:

- A key change does not reset the lookup by itself. The reset (`loading`,
  `recordId`, `lastEmittedRecordId`) happens in the query wire's callback
  (employeeLookup.js:34-37), which the platform calls after the `variables`
  change. Until then, a field-fetch callback for the previously resolved id still
  emits FOUND naming that id (`KeyChangeKeepsPreviousId`).
- One terminal event per lookup cycle holds for FOUND, and for cycles whose
  query failed or matched nothing. Field-fetch errors are not deduplicated: every
  error callback while an id is held emits ERROR
  (`FetchErrorsAreNotDeduplicated`). A field-fetch callback carrying neither data
  nor an error emits nothing.
- A query callback carrying neither data nor an error falls into the NOT_FOUND
  branch, because the edges default to `[]`.
- On its own, the wizard stores whatever a FOUND event carries. A record id and
  an employee are displayed together only because the lookup never emits a FOUND
  without both (`EmployeeLookup.WellFormed`, `Onboarding.RunKeepsConsistent`).

## Model

| member | source | states |
|---|---|---|
| JsString.StartIndex | onboardingWizard.js:69 | scanning from a position, the index reached is the first non-whitespace character (or the end) and everything skipped is whitespace |
| JsString.EndIndex | onboardingWizard.js:69 | scanning back from an end, everything dropped is whitespace and the new end follows a non-whitespace character (or meets the start) |
| JsString.TrimIsTrimmedAt | onboardingWizard.js:69 | `trim` cuts off only whitespace at both ends and keeps a middle that neither starts nor ends with whitespace |
| JsString.TrimmedAtIsTrim | onboardingWizard.js:69 | conversely, any such cut of a string is what `trim` returns, so `Trim` is the unique function with that description |
| JsString.TrimEmptyIffBlank | onboardingWizard.js:50-52 | a string trims to the empty string exactly when every character is whitespace |
| JsString.TrimIdempotent | onboardingWizard.js:38 | trimming an already trimmed id changes nothing |
| EmployeeLookup.EmitResult | employeeLookup.js:87-95 | `loading` becomes false, nothing else in the state changes, and exactly one event is dispatched whose detail is the status together with every payload field |
| EmployeeLookup.WiredIdLookup | employeeLookup.js:34-54 | the state is reset first, so the duplicate guard is re-armed; a query error emits exactly one ERROR with the access message and holds no id; a result without a first-edge id emits exactly one NOT_FOUND naming the key in the query variables and holds no id; otherwise the first edge's id is stored, nothing is emitted and loading continues; an id is held afterwards exactly in the last case |
| EmployeeLookup.WiredEmployee | employeeLookup.js:60-81 | with no id held the callback changes nothing and emits nothing; FOUND is emitted exactly when the guard is armed and data arrived, and it names the held id, carries the fetched fields and disarms the guard; ERROR with the field-level-security message is emitted exactly when an id is held and the callback carries an error; the held id never changes; a callback that emits nothing (no id, a suppressed duplicate, neither data nor error) leaves the whole state unchanged, while one that emits clears `loading` and moves `lastEmittedRecordId` to the held id only for FOUND |
| EmployeeLookup.FoundAtMostOncePerCycle | employeeLookup.js:68-79 | over any sequence of inputs, the FOUND events number at most the query callbacks (plus one if the guard started armed): at most one FOUND per lookup cycle |
| EmployeeLookup.CycleKeepsRecordId | employeeLookup.js:60-79 | between query callbacks the held id does not change, every event is well-formed, and each FOUND names the held id |
| EmployeeLookup.FoundExactlyOnceWhenDelivered | employeeLookup.js:68-79 | between query callbacks, FOUND is emitted exactly once if the guard was armed and some field fetch delivered data, and never otherwise, however many times the fetch calls back |
| EmployeeLookup.NoIdIgnoresFetches | employeeLookup.js:60-61 | with no id held, any sequence of field-fetch callbacks leaves the state unchanged and emits nothing |
| EmployeeLookup.FailedCycleEmitsOnce | employeeLookup.js:39-50 | a cycle whose query errored or matched nothing emits exactly its one ERROR or NOT_FOUND, whatever field-fetch callbacks or key changes follow |
| EmployeeLookup.CycleFoundsAtMostOnce | employeeLookup.js:34-79 | a whole cycle started by a query callback emits at most one FOUND, and exactly one when the query resolved an id and some fetch delivered data |
| EmployeeLookup.FetchErrorsAreNotDeduplicated | employeeLookup.js:63-66 | while an id is held, the ERROR events number exactly the field-fetch error callbacks |
| EmployeeLookup.ResolutionForgetsPreviousCycle | employeeLookup.js:34-37 | the query callback's outcome depends only on the key and the response, never on what an earlier cycle left behind |
| EmployeeLookup.KeyChangeKeepsPreviousId | employeeLookup.js:30-37 | a key change alone does not re-arm or clear anything, so a fetch callback before the new query callback still emits FOUND for the previous id |
| OnboardingWizard.SearchDisabledIffBlank | onboardingWizard.js:50-52 | search is disabled exactly when the draft is absent or all whitespace |
| OnboardingWizard.HandleEmployeeIdDraftChange | onboardingWizard.js:62-66 | the draft becomes the input's value and the message is cleared to info; the key, the displayed result and the subscription are untouched |
| OnboardingWizard.HandleSearch | onboardingWizard.js:68-86 | any previous result is cleared; a blank draft gives an empty key and the error message "Please enter an Employee ID."; otherwise the key is the trimmed draft with an empty info message; the error branch is taken exactly when `isSearchDisabled` holds, and the key is empty exactly then |
| OnboardingWizard.SearchKeyIsTrimmed | onboardingWizard.js:69-85 | the key handed to the lookup never has whitespace at either end |
| OnboardingWizard.SearchIdempotent | onboardingWizard.js:68-86 | searching twice without editing gives the state one search gives |
| OnboardingWizard.SearchForgetsPreviousResult | onboardingWizard.js:68-86 | a search's outcome depends only on the draft (and the untouched subscription), so no stale result survives it |
| OnboardingWizard.HandleLookupResult | onboardingWizard.js:88-104 | FOUND stores the event's record id and employee and clears the message; anything else, including a missing detail, clears both and shows an error with the event's message, or "Employee lookup failed." when that is missing or empty; an error message is never empty; the draft, key and subscription are untouched |
| OnboardingWizard.HandleReset | onboardingWizard.js:107-114 | every field returns to its initial value (onboardingWizard.js:6-13); only the subscription is kept; afterwards nothing is displayed and search is disabled |
| OnboardingWizard.HandleDone | onboardingWizard.js:117-120 | done produces exactly the state reset produces |
| OnboardingWizard.ResetThenDone | onboardingWizard.js:107-120 | reset followed by done, or by a second reset, gives the state one reset gives |
| OnboardingWizard.HandleEmployeeCreatedMessage | onboardingWizard.js:37-43 | a missing message, missing id or blank id leaves the state unchanged; otherwise the draft becomes the trimmed id and the state is the one a search of that draft gives, keyed by the trimmed id with nothing displayed |
| OnboardingWizard.BroadcastIsSearchOfRawId | onboardingWizard.js:37-43 | apart from the draft, a broadcast gives the state a search of the untrimmed id would give |
| OnboardingWizard.ConnectedCallback | onboardingWizard.js:19-28 | with a subscription held nothing happens and no subscribe call is made; otherwise exactly one subscribe call is made and its handle is held |
| OnboardingWizard.DisconnectedCallback | onboardingWizard.js:30-35 | afterwards no subscription is held; exactly the held handle is unsubscribed, and no call is made when none was held |
| OnboardingWizard.LifecycleCallbacksIdempotent | onboardingWizard.js:19-35 | a second disconnect is a no-op, and a connect while subscribed does not resubscribe |
| OnboardingWizard.SubscriptionsBalance | onboardingWizard.js:19-35 | over any sequence of mounts and unmounts, subscriptions taken equal subscriptions released plus the change in what is held, so no subscription leaks |
| Onboarding.RunKeepsConsistent | onboardingWizard.js:88-104 | over any interleaving of user actions, broadcasts, mounts and wire callbacks, a record id and an employee are displayed together or not at all, a displayed id is non-empty, an error always has text, and the lookup stays bound to the wizard's key |
| Onboarding.HasEmployeeIffShown | onboardingWizard.js:46-48 | in a consistent app, `hasEmployee` holds exactly when an employee is displayed |
| Onboarding.ReachableHasEmployeeIffShown | onboardingWizard.js:46-48 | in every state reachable from the initial one, `hasEmployee` holds exactly when an employee is displayed, and record id and employee are set together |
| Onboarding.UnsubscribedIgnoresBroadcast | onboardingWizard.js:19-35 | with no subscription held, a broadcast changes nothing |
| Onboarding.BroadcastAfterUnmountIgnored | onboardingWizard.js:30-35 | after an unmount, a broadcast changes nothing, whatever id it carries |
| Onboarding.BroadcastThenLookupShowsEmployee | onboardingWizard.js:37-104 | while subscribed, a broadcast of a non-blank id, a query resolving it and a field fetch delivering the record leave the wizard keyed by the trimmed id, showing that record id and its fetched employee with no message |
| Onboarding.UnmatchedKeyShowsNotFound | employeeLookup.js:44-50 | a query callback without a first-edge id makes the wizard show "No employee found for ID: " followed by its key, with nothing displayed |

## Left out

- employeeCreator.js, employeeSummary.js and simpleOnboardingTest.js are not part of this model. They consist of platform calls (`publish`, toasts, form `submit`/`reset`) and URL templates, with no state logic.
- The GraphQL query text, `getRecord`, the `subscribe`/`unsubscribe` calls and `MessageContext` are platform APIs. Their results are inputs to the model. `subscribe` always returns a handle.
- `messageClass`, rendering and re-render scheduling are not modelled. Callback interleaving is an arbitrary input sequence, not concurrency.
- The component template is not part of this model. The composition binds the lookup to the wizard's key after every wizard handler and does not model whether the template hides the lookup while the key is empty.
- Input values that are neither strings nor absent are out of scope. Examples are a number for `event.target.value` or a broadcast `employeeId` that is not a string. JavaScript truthiness is modelled for strings only.
- Dafny's `string` is a sequence of Unicode scalar values, so JavaScript strings containing lone UTF-16 surrogates cannot be represented. `Trim` agrees with JavaScript's `trim` on well-formed strings.
- The lookup's `employeeId` is always a string in the model. The component's `@api employeeId` is `undefined` until a parent sets it, and a NOT_FOUND before that would read "No employee found for ID: undefined". The wizard always binds a string (initially `''`).
- `getFieldValue` is modelled as a lookup of the field's API name in the fetched record. Field values are strings or absent.
- EmployeeLookup.Variables carries no contract of its own. The `variables` getter (employeeLookup.js:83-85) is stated through `WiredIdLookup`'s NOT_FOUND message, which names `Variables(s).empId`.
