/** The `onboardingWizard` component as a pure state machine.

    The wizard owns the search box (the draft key), the key it hands to the lookup
    component, the resolved record and employee it displays, a message with its
    severity, and its subscription to the employee-created message channel. Each
    handler is a function from the current state (and the handler's input) to the
    next state. */
module OnboardingWizard {
  import opened Wrappers
  import JsString
  import L = EmployeeLookup

  const ENTER_ID_MESSAGE: string := "Please enter an Employee ID."
  const LOOKUP_FAILED_MESSAGE: string := "Employee lookup failed."

  datatype Variant = Info | Error

  /** The handle `subscribe` returns; opaque to the wizard. */
  datatype Subscription = Subscription(id: nat)

  /** A message on the employee-created channel: `{ employeeId, recordId }`, either
      of which may be missing. */
  datatype BroadcastMessage = BroadcastMessage(employeeId: Option<string>, recordId: Option<string>)

  /** The component's fields. `employeeIdDraft` is what the search box holds (any
      value the input reports, possibly `undefined`); `employeeId` is the key the
      lookup component is bound to. */
  datatype WizardState = WizardState(
    employeeIdDraft: Option<string>,
    employeeId: string,
    employeeRecordId: Option<L.RecordId>,
    employee: Option<L.Employee>,
    message: string,
    messageVariant: Variant,
    subscription: Option<Subscription>)

  /** The field initialisers of a freshly created wizard. */
  function Initial(): WizardState {
    WizardState(Some(""), "", None, None, "", Info, None)
  }

  /** The trimmed draft: `(employeeIdDraft || '').trim()`. */
  function TrimmedDraft(s: WizardState): string {
    JsString.Trim(JsString.OrEmpty(s.employeeIdDraft))
  }

  /** The `hasEmployee` getter. */
  predicate HasEmployee(s: WizardState) {
    s.employee.Some? && JsString.Truthy(s.employeeRecordId)
  }

  /** The `isSearchDisabled` getter. */
  predicate IsSearchDisabled(s: WizardState) {
    TrimmedDraft(s) == ""
  }

  /** Search is disabled exactly when the draft is absent or all whitespace. */
  lemma SearchDisabledIffBlank(s: WizardState)
    ensures IsSearchDisabled(s) <==> JsString.IsBlank(JsString.OrEmpty(s.employeeIdDraft))
  {
    JsString.TrimEmptyIffBlank(JsString.OrEmpty(s.employeeIdDraft));
  }

  /** `handleEmployeeIdDraftChange`: editing the search box. */
  function HandleEmployeeIdDraftChange(s: WizardState, value: Option<string>): (r: WizardState)
    ensures r.employeeIdDraft == value
    ensures r.message == "" && r.messageVariant == Info
    // the key, the displayed result and the subscription are untouched
    ensures r.employeeId == s.employeeId
    ensures r.employee == s.employee && r.employeeRecordId == s.employeeRecordId
    ensures r.subscription == s.subscription
  {
    s.(employeeIdDraft := value, message := "", messageVariant := Info)
  }

  /** `handleSearch`: submitting the draft. */
  function HandleSearch(s: WizardState): (r: WizardState)
    // no stale result survives a search, whichever branch is taken
    ensures r.employee == None && r.employeeRecordId == None
    ensures r.employeeIdDraft == s.employeeIdDraft && r.subscription == s.subscription
    // a blank draft: validation error and no key
    ensures IsSearchDisabled(s) ==>
              r.employeeId == "" && r.messageVariant == Error && r.message == ENTER_ID_MESSAGE
    // otherwise the trimmed draft becomes the key and the message is cleared
    ensures !IsSearchDisabled(s) ==>
              r.employeeId == TrimmedDraft(s) && r.message == "" && r.messageVariant == Info
    // the error branch is taken exactly when the search button is disabled, and the
    // key is empty exactly then
    ensures r.messageVariant == Error <==> IsSearchDisabled(s)
    ensures r.employeeId == "" <==> IsSearchDisabled(s)
  {
    var value := TrimmedDraft(s);
    var cleared := s.(employee := None, employeeRecordId := None, message := "", messageVariant := Info);
    if value == "" then
      cleared.(messageVariant := Error, message := ENTER_ID_MESSAGE, employeeId := "")
    else
      cleared.(employeeId := value)
  }

  /** The key a search hands to the lookup never has whitespace at either end. */
  lemma SearchKeyIsTrimmed(s: WizardState)
    ensures JsString.Trim(HandleSearch(s).employeeId) == HandleSearch(s).employeeId
  {
    JsString.TrimIdempotent(JsString.OrEmpty(s.employeeIdDraft));
  }

  /** Searching again without editing the draft changes nothing. */
  lemma SearchIdempotent(s: WizardState)
    ensures HandleSearch(HandleSearch(s)) == HandleSearch(s)
  {
  }

  /** A search forgets everything but the draft and the subscription: two states
      that agree on those search to the same state. */
  lemma SearchForgetsPreviousResult(s: WizardState, t: WizardState)
    requires s.employeeIdDraft == t.employeeIdDraft && s.subscription == t.subscription
    ensures HandleSearch(s) == HandleSearch(t)
  {
  }

  /** `handleLookupResult`: the lookup component's event, whose detail may be
      missing (`event.detail || {}`). */
  function HandleLookupResult(s: WizardState, detail: Option<L.ResultDetail>): (r: WizardState)
    // the draft, the key and the subscription are untouched
    ensures r.employeeIdDraft == s.employeeIdDraft && r.employeeId == s.employeeId
    ensures r.subscription == s.subscription
    // FOUND: the record and employee are stored and the message cleared
    ensures detail.Some? && detail.value.status == L.Found ==>
              && r.employeeRecordId == detail.value.recordId
              && r.employee == detail.value.employee
              && r.message == "" && r.messageVariant == Info
    // anything else: nothing displayed, an error with the event's message or the
    // generic fallback
    ensures !(detail.Some? && detail.value.status == L.Found) ==>
              && r.employeeRecordId == None && r.employee == None
              && r.messageVariant == Error
              && r.message == JsString.Or(if detail.Some? then detail.value.message else None, LOOKUP_FAILED_MESSAGE)
    // an error is never shown without text
    ensures r.messageVariant == Error ==> r.message != ""
  {
    if detail.Some? && detail.value.status == L.Found then
      s.(employeeRecordId := detail.value.recordId, employee := detail.value.employee,
         message := "", messageVariant := Info)
    else
      var message := if detail.Some? then detail.value.message else None;
      s.(employeeRecordId := None, employee := None, messageVariant := Error,
         message := JsString.Or(message, LOOKUP_FAILED_MESSAGE))
  }

  /** `handleReset`: every field back to its initial value; the subscription is
      not a field the reset touches. */
  function HandleReset(s: WizardState): (r: WizardState)
    ensures r == Initial().(subscription := s.subscription)
    ensures !HasEmployee(r) && IsSearchDisabled(r)
  {
    s.(employeeIdDraft := Some(""), employeeId := "", employeeRecordId := None, employee := None,
       message := "", messageVariant := Info)
  }

  /** `handleDone`: currently the same as a reset. */
  function HandleDone(s: WizardState): (r: WizardState)
    ensures r == Initial().(subscription := s.subscription)
    ensures r == HandleReset(s)
  {
    HandleReset(s)
  }

  /** Resetting twice, or a reset followed by done, gives the state one reset
      gives. */
  lemma ResetThenDone(s: WizardState)
    ensures HandleDone(HandleReset(s)) == HandleReset(s)
    ensures HandleReset(HandleReset(s)) == HandleReset(s)
  {
  }

  /** `payload?.employeeId` for a message that may itself be missing. */
  function CreatedEmployeeId(payload: Option<BroadcastMessage>): Option<string> {
    if payload.Some? then payload.value.employeeId else None
  }

  /** `handleEmployeeCreatedMessage`: a message on the employee-created channel. */
  function HandleEmployeeCreatedMessage(s: WizardState, payload: Option<BroadcastMessage>): (r: WizardState)
    ensures var id := JsString.Trim(JsString.OrEmpty(CreatedEmployeeId(payload)));
            && (id == "" ==> r == s)
            && (id != "" ==>
                  && r.employeeIdDraft == Some(id)
                  && r == HandleSearch(s.(employeeIdDraft := Some(id)))
                  && r.employeeId == id
                  && r.employee == None && r.employeeRecordId == None
                  && r.message == "" && r.messageVariant == Info)
  {
    var id := JsString.Trim(JsString.OrEmpty(CreatedEmployeeId(payload)));
    if id == "" then
      s
    else
      JsString.TrimIdempotent(JsString.OrEmpty(CreatedEmployeeId(payload)));
      HandleSearch(s.(employeeIdDraft := Some(id)))
  }

  /** The message a search of the raw id would display is the one the broadcast
      displays; only the draft differs (trimmed versus as sent). */
  lemma BroadcastIsSearchOfRawId(s: WizardState, payload: Option<BroadcastMessage>)
    requires !JsString.IsBlank(JsString.OrEmpty(CreatedEmployeeId(payload)))
    ensures var raw := HandleSearch(s.(employeeIdDraft := Some(JsString.OrEmpty(CreatedEmployeeId(payload)))));
            HandleEmployeeCreatedMessage(s, payload) == raw.(employeeIdDraft := HandleEmployeeCreatedMessage(s, payload).employeeIdDraft)
  {
    JsString.TrimEmptyIffBlank(JsString.OrEmpty(CreatedEmployeeId(payload)));
  }

  /** A call made on the message service. */
  datatype BusCall = Subscribe(subscribed: Subscription) | Unsubscribe(released: Subscription)

  /** A lifecycle callback's outcome: the next state and the message-service calls
      made. */
  datatype Lifecycle = Lifecycle(state: WizardState, calls: seq<BusCall>)

  /** `connectedCallback`: subscribes unless a subscription is already held.
      `handle` is the handle `subscribe` returns. */
  function ConnectedCallback(s: WizardState, handle: Subscription): (r: Lifecycle)
    ensures r.state.subscription.Some?
    ensures s.subscription.Some? ==> r == Lifecycle(s, [])
    ensures s.subscription.None? ==>
              r.calls == [Subscribe(handle)] && r.state == s.(subscription := Some(handle))
  {
    if s.subscription.Some? then Lifecycle(s, [])
    else Lifecycle(s.(subscription := Some(handle)), [Subscribe(handle)])
  }

  /** `disconnectedCallback`: releases the subscription if one is held. */
  function DisconnectedCallback(s: WizardState): (r: Lifecycle)
    ensures r.state == s.(subscription := None)
    ensures s.subscription.Some? ==> r.calls == [Unsubscribe(s.subscription.value)]
    ensures s.subscription.None? ==> r.calls == []
  {
    if s.subscription.Some? then
      Lifecycle(s.(subscription := None), [Unsubscribe(s.subscription.value)])
    else
      Lifecycle(s, [])
  }

  /** A second disconnect is a no-op, and a second connect does not resubscribe. */
  lemma LifecycleCallbacksIdempotent(s: WizardState, handle: Subscription, handle': Subscription)
    ensures var d := DisconnectedCallback(s).state; DisconnectedCallback(d) == Lifecycle(d, [])
    ensures var c := ConnectedCallback(s, handle).state; ConnectedCallback(c, handle') == Lifecycle(c, [])
  {
  }

  datatype LifecycleInput = Connect(handle: Subscription) | Disconnect

  function ApplyLifecycle(s: WizardState, input: LifecycleInput): Lifecycle {
    match input
    case Connect(handle) => ConnectedCallback(s, handle)
    case Disconnect => DisconnectedCallback(s)
  }

  /** Any sequence of mounts and unmounts, with the message-service calls made. */
  function RunLifecycle(s: WizardState, inputs: seq<LifecycleInput>): Lifecycle
    decreases |inputs|
  {
    if inputs == [] then Lifecycle(s, [])
    else
      var first := ApplyLifecycle(s, inputs[0]);
      var rest := RunLifecycle(first.state, inputs[1..]);
      Lifecycle(rest.state, first.calls + rest.calls)
  }

  function Subscribes(calls: seq<BusCall>): nat {
    if calls == [] then 0 else (if calls[0].Subscribe? then 1 else 0) + Subscribes(calls[1..])
  }

  function Unsubscribes(calls: seq<BusCall>): nat {
    if calls == [] then 0 else (if calls[0].Unsubscribe? then 1 else 0) + Unsubscribes(calls[1..])
  }

  function Held(s: WizardState): nat {
    if s.subscription.Some? then 1 else 0
  }

  lemma {:induction false} BusCallCountsAppend(a: seq<BusCall>, b: seq<BusCall>)
    ensures Subscribes(a + b) == Subscribes(a) + Subscribes(b)
    ensures Unsubscribes(a + b) == Unsubscribes(a) + Unsubscribes(b)
  {
    if a == [] {
      assert a + b == b;
    } else {
      assert (a + b)[1..] == a[1..] + b;
      BusCallCountsAppend(a[1..], b);
    }
  }

  /** No subscription leaks: over any sequence of mounts and unmounts, every
      subscription taken is released unless it is still held at the end. */
  lemma {:induction false} SubscriptionsBalance(s: WizardState, inputs: seq<LifecycleInput>)
    ensures var r := RunLifecycle(s, inputs);
            Held(s) + Subscribes(r.calls) == Held(r.state) + Unsubscribes(r.calls)
    decreases |inputs|
  {
    if inputs != [] {
      var first := ApplyLifecycle(s, inputs[0]);
      var rest := RunLifecycle(first.state, inputs[1..]);
      SubscriptionsBalance(first.state, inputs[1..]);
      BusCallCountsAppend(first.calls, rest.calls);
    }
  }
}
