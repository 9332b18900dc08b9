/** The `employeeLookup` component as a pure state machine.

    The component turns an employee key (the `Employee_ID__c` business key) into
    one `lookupresult` event in two stages: a GraphQL query resolves the key to a
    record id, then a `getRecord` fetch loads the Name, Branch and Role fields of
    that record. Both platform wires call back asynchronously and may call back
    again on re-evaluation; each callback is an input here, and each handler
    returns the next state together with the events it dispatched. */
module EmployeeLookup {
  import opened Wrappers
  import JsString

  /** Record id assigned by the platform; opaque to the component. */
  type RecordId = string

  const NAME_FIELD: string := "Name"
  const BRANCH_FIELD: string := "Branch__c"
  const ROLE_FIELD: string := "Role__c"

  const QUERY_FAILED_MESSAGE: string := "Lookup query failed. Check object/field access."
  const NOT_FOUND_PREFIX: string := "No employee found for ID: "
  const FIELDS_FAILED_MESSAGE: string :=
    "Employee fields could not be loaded. Check field-level security."

  /** The `{ name, branch, role }` view built from the fetched fields; a field the
      fetch did not return is `undefined`. */
  datatype Employee = Employee(name: Option<string>, branch: Option<string>, role: Option<string>)

  datatype Status = Found | NotFound | Error

  /** The optional part of an event's detail, as passed to `emitResult`. */
  datatype Payload = Payload(recordId: Option<RecordId>, employee: Option<Employee>, message: Option<string>)

  /** The detail of one `lookupresult` event: `{ status, ...payload }`. */
  datatype ResultDetail = ResultDetail(
    status: Status,
    recordId: Option<RecordId>,
    employee: Option<Employee>,
    message: Option<string>)

  /** The variables the GraphQL query is issued with. */
  datatype QueryVariables = QueryVariables(empId: string)

  /** One element of the query's edge list; `id` is `edge?.node?.Id`. */
  datatype Edge = Edge(id: Option<string>)

  /** The `{ data, error }` argument of the query wire. `edges` is
      `data?.uiapi?.query?.Employee__c?.edges`, absent when any step of that path
      is; `error` is whether the error value is truthy. */
  datatype IdLookupResponse = IdLookupResponse(edges: Option<seq<Edge>>, error: bool)

  /** A record as `getRecord` returns it: the field values by API name. */
  datatype RecordData = RecordData(fields: map<string, string>)

  /** The `{ data, error }` argument of the `getRecord` wire. */
  datatype RecordResponse = RecordResponse(data: Option<RecordData>, error: bool)

  /** The component's fields: the `employeeId` input property, `loading`, the
      resolved `recordId` and the duplicate guard `lastEmittedRecordId`. */
  datatype LookupState = LookupState(
    employeeId: string,
    loading: bool,
    recordId: Option<RecordId>,
    lastEmittedRecordId: Option<RecordId>)

  /** A handler's outcome: the next state and the events dispatched, in order. */
  datatype Step = Step(state: LookupState, events: seq<ResultDetail>)

  /** A freshly created component with the given input property. */
  function Init(employeeId: string): LookupState {
    LookupState(employeeId, true, None, None)
  }

  /** The `variables` getter: the query is parameterised by the key alone. */
  function Variables(s: LookupState): QueryVariables {
    QueryVariables(s.employeeId)
  }

  /** `getFieldValue(data, field)`. */
  function GetFieldValue(data: RecordData, field: string): Option<string> {
    if field in data.fields then Some(data.fields[field]) else None
  }

  function EmployeeOf(data: RecordData): Employee {
    Employee(GetFieldValue(data, NAME_FIELD), GetFieldValue(data, BRANCH_FIELD), GetFieldValue(data, ROLE_FIELD))
  }

  /** `edges[0]?.node?.Id` over `edges || []`: only the first edge is consulted. */
  function FirstEdgeId(edges: Option<seq<Edge>>): Option<string> {
    match edges
    case None => None
    case Some(es) => if es == [] then None else es[0].id
  }

  /** The payload carried by an event's detail. */
  function PayloadOf(d: ResultDetail): Payload {
    Payload(d.recordId, d.employee, d.message)
  }

  /** `emitResult(status, payload)`: clears `loading` and dispatches one event whose
      detail is the status spread together with the payload. */
  function EmitResult(s: LookupState, status: Status, payload: Payload): (r: Step)
    ensures r.state.loading == false
    ensures r.state.(loading := s.loading) == s
    ensures |r.events| == 1 && r.events[0].status == status && PayloadOf(r.events[0]) == payload
  {
    Step(s.(loading := false), [ResultDetail(status, payload.recordId, payload.employee, payload.message)])
  }

  /** An event the wizard can rely on: a FOUND event names a non-empty record id
      and carries an employee; any other event carries neither. */
  predicate WellFormed(d: ResultDetail) {
    if d.status == Found then JsString.Truthy(d.recordId) && d.employee.Some?
    else d.recordId.None? && d.employee.None?
  }

  /** The duplicate guard will let the next field fetch through: an id is held and
      no FOUND has been emitted for it yet. */
  predicate Armed(s: LookupState) {
    JsString.Truthy(s.recordId) && s.lastEmittedRecordId != s.recordId
  }

  /** A field-fetch callback that reaches the FOUND branch (when an id is held). */
  predicate Delivers(resp: RecordResponse) {
    !resp.error && resp.data.Some?
  }

  /** `wiredIdLookup`: the query wire's callback. */
  function WiredIdLookup(s: LookupState, resp: IdLookupResponse): (r: Step)
    // the state is always reset first and the duplicate guard re-armed
    ensures r.state.employeeId == s.employeeId
    ensures r.state.lastEmittedRecordId == None
    ensures |r.events| <= 1
    ensures forall i :: 0 <= i < |r.events| ==> WellFormed(r.events[i]) && r.events[i].status != Found
    // a failed query: one ERROR, no id
    ensures resp.error ==>
              && r.events == [ResultDetail(Error, None, None, Some(QUERY_FAILED_MESSAGE))]
              && r.state.recordId == None && !r.state.loading
    // no first-edge id: one NOT_FOUND naming the current key
    ensures !resp.error && !JsString.Truthy(FirstEdgeId(resp.edges)) ==>
              && r.events == [ResultDetail(NotFound, None, None, Some(NOT_FOUND_PREFIX + Variables(s).empId))]
              && r.state.recordId == None && !r.state.loading
    // an id: stored, nothing emitted, still loading
    ensures !resp.error && JsString.Truthy(FirstEdgeId(resp.edges)) ==>
              && r.events == []
              && r.state.recordId == FirstEdgeId(resp.edges) && r.state.loading
    // an id is held exactly when the query succeeded with a first-edge id
    ensures Armed(r.state) <==> !resp.error && JsString.Truthy(FirstEdgeId(resp.edges))
  {
    var reset := s.(loading := true, recordId := None, lastEmittedRecordId := None);
    if resp.error then
      EmitResult(reset, Error, Payload(None, None, Some(QUERY_FAILED_MESSAGE)))
    else
      var id := FirstEdgeId(resp.edges);
      if !JsString.Truthy(id) then
        EmitResult(reset, NotFound, Payload(None, None, Some(NOT_FOUND_PREFIX + s.employeeId)))
      else
        Step(reset.(recordId := id), [])
  }

  /** `wiredEmployee`: the field-fetch wire's callback. */
  function WiredEmployee(s: LookupState, resp: RecordResponse): (r: Step)
    // the key and the held id never change here
    ensures r.state.employeeId == s.employeeId && r.state.recordId == s.recordId
    // no id held: the callback is ignored entirely
    ensures !JsString.Truthy(s.recordId) ==> r == Step(s, [])
    ensures |r.events| <= 1
    ensures forall i :: 0 <= i < |r.events| ==> WellFormed(r.events[i])
    // FOUND exactly when the guard is armed and data arrived; it names the held id
    // and disarms the guard
    ensures (exists i :: 0 <= i < |r.events| && r.events[i].status == Found) <==> Armed(s) && Delivers(resp)
    ensures Armed(s) && Delivers(resp) ==>
              && r.events[0].recordId == s.recordId
              && r.events[0].employee == Some(EmployeeOf(resp.data.value))
              && !Armed(r.state)
    // the error path is not guarded: every error callback with an id held reports
    ensures (exists i :: 0 <= i < |r.events| && r.events[i].status == Error) <==>
              JsString.Truthy(s.recordId) && resp.error
    ensures JsString.Truthy(s.recordId) && resp.error ==>
              r.events[0].message == Some(FIELDS_FAILED_MESSAGE)
    // the guard is only ever disarmed by a FOUND
    ensures Armed(s) && !Delivers(resp) ==> Armed(r.state)
    ensures !Armed(s) ==> !Armed(r.state)
    // a callback that emits nothing (no id, a suppressed duplicate, neither data nor
    // error) leaves the state as it was; one that emits clears `loading`, and only a
    // FOUND moves the guard to the held id
    ensures r.events == [] ==> r.state == s
    ensures |r.events| == 1 ==>
              && !r.state.loading
              && r.state.lastEmittedRecordId ==
                   (if r.events[0].status == Found then s.recordId else s.lastEmittedRecordId)
              && r.state.(loading := s.loading, lastEmittedRecordId := s.lastEmittedRecordId) == s
  {
    if !JsString.Truthy(s.recordId) then
      Step(s, [])
    else if resp.error then
      EmitResult(s, Error, Payload(None, None, Some(FIELDS_FAILED_MESSAGE)))
    else if resp.data.Some? then
      if s.lastEmittedRecordId == s.recordId then
        Step(s, [])
      else
        var s' := s.(lastEmittedRecordId := s.recordId);
        EmitResult(s', Found, Payload(s.recordId, Some(EmployeeOf(resp.data.value)), None))
    else
      Step(s, [])
  }

  /** The inputs the component reacts to: its parent setting the `employeeId`
      property, and the two wires calling back. */
  datatype LookupInput =
    | KeyChanged(key: string)
    | IdLookupCallback(idResponse: IdLookupResponse)
    | RecordCallback(recordResponse: RecordResponse)

  /** One input. A key change only updates the property: the reset happens when the
      query wire calls back for the new variables. */
  function Apply(s: LookupState, input: LookupInput): Step {
    match input
    case KeyChanged(key) => Step(s.(employeeId := key), [])
    case IdLookupCallback(resp) => WiredIdLookup(s, resp)
    case RecordCallback(resp) => WiredEmployee(s, resp)
  }

  /** An arbitrary sequence of inputs, with the events dispatched in order. */
  function Run(s: LookupState, inputs: seq<LookupInput>): Step
    decreases |inputs|
  {
    if inputs == [] then
      Step(s, [])
    else
      var first := Apply(s, inputs[0]);
      var rest := Run(first.state, inputs[1..]);
      Step(rest.state, first.events + rest.events)
  }

  /** How many of `events` have status `st`. */
  function Count(events: seq<ResultDetail>, st: Status): nat {
    if events == [] then 0
    else (if events[0].status == st then 1 else 0) + Count(events[1..], st)
  }

  /** How many inputs are query callbacks, each of which starts a new cycle. */
  function Cycles(inputs: seq<LookupInput>): nat {
    if inputs == [] then 0
    else (if inputs[0].IdLookupCallback? then 1 else 0) + Cycles(inputs[1..])
  }

  /** How many inputs are field-fetch callbacks carrying an error. */
  function FetchErrors(inputs: seq<LookupInput>): nat {
    if inputs == [] then 0
    else (if inputs[0].RecordCallback? && inputs[0].recordResponse.error then 1 else 0)
         + FetchErrors(inputs[1..])
  }

  /** No query callback arrives: the inputs all belong to the current cycle. */
  predicate WithinCycle(inputs: seq<LookupInput>) {
    forall i :: 0 <= i < |inputs| ==> !inputs[i].IdLookupCallback?
  }

  /** Some field-fetch callback among the inputs reaches the FOUND branch. */
  predicate SomeDelivery(inputs: seq<LookupInput>) {
    exists i :: 0 <= i < |inputs| && inputs[i].RecordCallback? && Delivers(inputs[i].recordResponse)
  }

  function Potential(s: LookupState): nat {
    if Armed(s) then 1 else 0
  }

  lemma {:induction false} CountAppend(a: seq<ResultDetail>, b: seq<ResultDetail>, st: Status)
    ensures Count(a + b, st) == Count(a, st) + Count(b, st)
  {
    if a != [] {
      assert (a + b)[1..] == a[1..] + b;
      CountAppend(a[1..], b, st);
    } else {
      assert a + b == b;
    }
  }

  /** Count agrees with the existence of an event of that status. */
  lemma {:induction false} CountPositive(events: seq<ResultDetail>, st: Status)
    ensures Count(events, st) > 0 <==> exists i :: 0 <= i < |events| && events[i].status == st
  {
    if events != [] {
      CountPositive(events[1..], st);
      if Count(events[1..], st) > 0 {
        var i :| 0 <= i < |events[1..]| && events[1..][i].status == st;
        assert events[i + 1].status == st;
      }
      if exists i :: 0 <= i < |events| && events[i].status == st {
        var i :| 0 <= i < |events| && events[i].status == st;
        if i > 0 {
          assert events[1..][i - 1].status == st;
        }
      }
    }
  }

  /** A single handler emits FOUND only while the guard is armed, and disarms it. */
  lemma StepFoundBound(s: LookupState, input: LookupInput)
    ensures var r := Apply(s, input);
            Count(r.events, Found) + Potential(r.state)
            <= Potential(s) + (if input.IdLookupCallback? then 1 else 0)
  {
    var r := Apply(s, input);
    assert |r.events| <= 1;
    CountPositive(r.events, Found);
    if |r.events| == 1 {
      assert r.events == [r.events[0]];
      assert Count(r.events, Found) == (if r.events[0].status == Found then 1 else 0);
    }
  }

  /** Over ANY sequence of inputs, the number of FOUND events is bounded by the
      number of query callbacks (plus one if the guard was armed at the start):
      at most one FOUND per lookup cycle. */
  lemma {:induction false} FoundAtMostOncePerCycle(s: LookupState, inputs: seq<LookupInput>)
    ensures var r := Run(s, inputs);
            Count(r.events, Found) + Potential(r.state) <= Potential(s) + Cycles(inputs)
    decreases |inputs|
  {
    if inputs != [] {
      var first := Apply(s, inputs[0]);
      var rest := Run(first.state, inputs[1..]);
      StepFoundBound(s, inputs[0]);
      FoundAtMostOncePerCycle(first.state, inputs[1..]);
      CountAppend(first.events, rest.events, Found);
    }
  }

  /** Within one cycle the held id does not change, and every event is
      well-formed; a FOUND event names the held id. */
  lemma {:induction false} CycleKeepsRecordId(s: LookupState, inputs: seq<LookupInput>)
    requires WithinCycle(inputs)
    ensures Run(s, inputs).state.recordId == s.recordId
    ensures forall i :: 0 <= i < |Run(s, inputs).events| ==> WellFormed(Run(s, inputs).events[i])
    ensures forall i :: 0 <= i < |Run(s, inputs).events| && Run(s, inputs).events[i].status == Found ==>
              Run(s, inputs).events[i].recordId == s.recordId
    decreases |inputs|
  {
    if inputs != [] {
      var first := Apply(s, inputs[0]);
      assert !inputs[0].IdLookupCallback?;
      CycleKeepsRecordId(first.state, inputs[1..]);
      var rest := Run(first.state, inputs[1..]);
      assert Run(s, inputs).events == first.events + rest.events;
    }
  }

  /** Within one cycle, FOUND is emitted exactly once when the guard was armed and
      some field fetch delivered data, and never otherwise. */
  lemma {:induction false} FoundExactlyOnceWhenDelivered(s: LookupState, inputs: seq<LookupInput>)
    requires WithinCycle(inputs)
    ensures Count(Run(s, inputs).events, Found) == if Armed(s) && SomeDelivery(inputs) then 1 else 0
    ensures SomeDelivery(inputs) && JsString.Truthy(s.recordId) ==> !Armed(Run(s, inputs).state)
    ensures !SomeDelivery(inputs) ==> Armed(Run(s, inputs).state) == Armed(s)
    decreases |inputs|
  {
    if inputs != [] {
      var first := Apply(s, inputs[0]);
      var rest := Run(first.state, inputs[1..]);
      assert WithinCycle(inputs[1..]) by {
        forall i | 0 <= i < |inputs[1..]| ensures !inputs[1..][i].IdLookupCallback? {
          assert inputs[1..][i] == inputs[i + 1];
        }
      }
      FoundExactlyOnceWhenDelivered(first.state, inputs[1..]);
      CountAppend(first.events, rest.events, Found);
      CountPositive(first.events, Found);
      assert |first.events| <= 1;
      if |first.events| == 1 {
        assert first.events == [first.events[0]];
      }
      var hit := inputs[0].RecordCallback? && Delivers(inputs[0].recordResponse);
      if SomeDelivery(inputs[1..]) {
        var i :| 0 <= i < |inputs[1..]| && inputs[1..][i].RecordCallback? && Delivers(inputs[1..][i].recordResponse);
        assert inputs[i + 1] == inputs[1..][i];
        assert SomeDelivery(inputs);
      }
      if hit {
        assert SomeDelivery(inputs);
      }
      if SomeDelivery(inputs) && !hit {
        var i :| 0 <= i < |inputs| && inputs[i].RecordCallback? && Delivers(inputs[i].recordResponse);
        assert i > 0;
        assert inputs[1..][i - 1] == inputs[i];
        assert SomeDelivery(inputs[1..]);
      }
    }
  }

  /** With no id held, any number of field-fetch callbacks are all ignored. */
  lemma {:induction false} NoIdIgnoresFetches(s: LookupState, inputs: seq<LookupInput>)
    requires !JsString.Truthy(s.recordId)
    requires forall i :: 0 <= i < |inputs| ==> inputs[i].RecordCallback?
    ensures Run(s, inputs) == Step(s, [])
    decreases |inputs|
  {
    if inputs != [] {
      assert inputs[0].RecordCallback?;
      NoIdIgnoresFetches(s, inputs[1..]);
    }
  }

  /** A cycle whose query failed or matched nothing ends with exactly the one event
      the query callback emitted, whatever field-fetch callbacks or key changes
      follow. */
  lemma {:induction false} FailedCycleEmitsOnce(s: LookupState, resp: IdLookupResponse, inputs: seq<LookupInput>)
    requires resp.error || !JsString.Truthy(FirstEdgeId(resp.edges))
    requires WithinCycle(inputs)
    ensures var first := WiredIdLookup(s, resp);
            && |first.events| == 1
            && first.events[0].status == (if resp.error then Error else NotFound)
            && Run(first.state, inputs).events == []
  {
    var first := WiredIdLookup(s, resp);
    IdleCycleIsSilent(first.state, inputs);
  }

  lemma {:induction false} IdleCycleIsSilent(s: LookupState, inputs: seq<LookupInput>)
    requires !JsString.Truthy(s.recordId)
    requires WithinCycle(inputs)
    ensures Run(s, inputs).events == []
    ensures !JsString.Truthy(Run(s, inputs).state.recordId)
    decreases |inputs|
  {
    if inputs != [] {
      var first := Apply(s, inputs[0]);
      assert !inputs[0].IdLookupCallback?;
      assert first.events == [] && first.state.recordId == s.recordId;
      assert WithinCycle(inputs[1..]) by {
        forall i | 0 <= i < |inputs[1..]| ensures !inputs[1..][i].IdLookupCallback? {
          assert inputs[1..][i] == inputs[i + 1];
        }
      }
      IdleCycleIsSilent(first.state, inputs[1..]);
    }
  }

  /** A whole cycle started by a query callback: at most one FOUND; exactly one
      when the query resolved an id and some field fetch delivered data. */
  lemma CycleFoundsAtMostOnce(s: LookupState, resp: IdLookupResponse, inputs: seq<LookupInput>)
    requires WithinCycle(inputs)
    ensures var first := WiredIdLookup(s, resp);
            var events := first.events + Run(first.state, inputs).events;
            Count(events, Found) <= 1
            && (Count(events, Found) == 1 <==>
                  !resp.error && JsString.Truthy(FirstEdgeId(resp.edges)) && SomeDelivery(inputs))
  {
    var first := WiredIdLookup(s, resp);
    var rest := Run(first.state, inputs);
    FoundExactlyOnceWhenDelivered(first.state, inputs);
    CountAppend(first.events, rest.events, Found);
    CountPositive(first.events, Found);
  }

  /** While an id is held, every field-fetch error callback reports again: errors
      are not deduplicated. */
  lemma {:induction false} FetchErrorsAreNotDeduplicated(s: LookupState, inputs: seq<LookupInput>)
    requires JsString.Truthy(s.recordId)
    requires forall i :: 0 <= i < |inputs| ==> inputs[i].RecordCallback?
    ensures Count(Run(s, inputs).events, Error) == FetchErrors(inputs)
    decreases |inputs|
  {
    if inputs != [] {
      var first := Apply(s, inputs[0]);
      var rest := Run(first.state, inputs[1..]);
      assert inputs[0].RecordCallback?;
      FetchErrorsAreNotDeduplicated(first.state, inputs[1..]);
      CountAppend(first.events, rest.events, Error);
      CountPositive(first.events, Error);
      assert |first.events| <= 1;
      if |first.events| == 1 {
        assert first.events == [first.events[0]];
      }
    }
  }

  /** The query callback's outcome does not depend on anything a previous cycle
      left behind: only the key and the response matter. */
  lemma ResolutionForgetsPreviousCycle(s: LookupState, t: LookupState, resp: IdLookupResponse)
    requires s.employeeId == t.employeeId
    ensures WiredIdLookup(s, resp) == WiredIdLookup(t, resp)
  {
  }

  /** A key change alone does not disarm the guard: until the query calls back for
      the new key, a field fetch for the previously resolved id still emits FOUND
      naming that id. */
  lemma KeyChangeKeepsPreviousId(s: LookupState, key: string, data: RecordData)
    requires Armed(s)
    ensures var r := Run(s, [KeyChanged(key), RecordCallback(RecordResponse(Some(data), false))]);
            r.events == [ResultDetail(Found, s.recordId, Some(EmployeeOf(data)), None)]
            && r.state.employeeId == key
  {
    var inputs := [KeyChanged(key), RecordCallback(RecordResponse(Some(data), false))];
    var s1 := Apply(s, inputs[0]).state;
    assert Armed(s1);
    var second := WiredEmployee(s1, inputs[1].recordResponse);
    assert inputs[1..][1..] == [];
    assert Run(s1, inputs[1..]) == Step(second.state, second.events + []);
  }
}
