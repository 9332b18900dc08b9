/** The wizard and the lookup component wired together: the wizard's `employeeId`
    field is bound to the lookup's `employeeId` property, and every `lookupresult`
    event the lookup dispatches is handed to the wizard's `handleLookupResult`.
    User actions, broadcast messages, mounting and the two wire callbacks arrive
    in an arbitrary order. */
module Onboarding {
  import opened Wrappers
  import JsString
  import L = EmployeeLookup
  import W = OnboardingWizard

  datatype App = App(wizard: W.WizardState, lookup: L.LookupState)

  datatype Input =
    | DraftChanged(value: Option<string>)
    | SearchClicked
    | ResetClicked
    | DoneClicked
    | Broadcast(payload: Option<W.BroadcastMessage>)
    | Mounted(handle: W.Subscription)
    | Unmounted
    | QueryArrived(idResponse: L.IdLookupResponse)
    | RecordArrived(recordResponse: L.RecordResponse)

  function Initial(): App {
    App(W.Initial(), L.Init(W.Initial().employeeId))
  }

  /** After a wizard handler, the lookup's property follows the wizard's key. */
  function Bind(w: W.WizardState, l: L.LookupState): App {
    App(w, L.Apply(l, L.KeyChanged(w.employeeId)).state)
  }

  /** The wizard handling the lookup's events, in the order they were dispatched. */
  function Deliver(w: W.WizardState, events: seq<L.ResultDetail>): W.WizardState
    decreases |events|
  {
    if events == [] then w else Deliver(W.HandleLookupResult(w, Some(events[0])), events[1..])
  }

  function Step(a: App, input: Input): App {
    match input
    case DraftChanged(value) => Bind(W.HandleEmployeeIdDraftChange(a.wizard, value), a.lookup)
    case SearchClicked => Bind(W.HandleSearch(a.wizard), a.lookup)
    case ResetClicked => Bind(W.HandleReset(a.wizard), a.lookup)
    case DoneClicked => Bind(W.HandleDone(a.wizard), a.lookup)
    case Broadcast(payload) =>
      // the message handler is registered only while a subscription is held
      if a.wizard.subscription.Some? then Bind(W.HandleEmployeeCreatedMessage(a.wizard, payload), a.lookup)
      else a
    case Mounted(handle) => Bind(W.ConnectedCallback(a.wizard, handle).state, a.lookup)
    case Unmounted => Bind(W.DisconnectedCallback(a.wizard).state, a.lookup)
    case QueryArrived(resp) =>
      var r := L.WiredIdLookup(a.lookup, resp);
      App(Deliver(a.wizard, r.events), r.state)
    case RecordArrived(resp) =>
      var r := L.WiredEmployee(a.lookup, resp);
      App(Deliver(a.wizard, r.events), r.state)
  }

  function Run(a: App, inputs: seq<Input>): App
    decreases |inputs|
  {
    if inputs == [] then a else Run(Step(a, inputs[0]), inputs[1..])
  }

  /** The wizard's display is coherent: a record id and an employee are shown
      together or not at all, a shown record id is non-empty, an error always has
      text, and the lookup is bound to the wizard's key. */
  predicate Consistent(a: App) {
    && (a.wizard.employee.Some? <==> a.wizard.employeeRecordId.Some?)
    && (a.wizard.employeeRecordId.Some? ==> JsString.Truthy(a.wizard.employeeRecordId))
    && (a.wizard.messageVariant == W.Error ==> a.wizard.message != "")
    && a.lookup.employeeId == a.wizard.employeeId
  }

  lemma InitialConsistent()
    ensures Consistent(Initial())
  {
  }

  /** Handing well-formed lookup events to the wizard keeps its display coherent. */
  lemma {:induction false} DeliverKeepsDisplayCoherent(w: W.WizardState, events: seq<L.ResultDetail>)
    requires forall i :: 0 <= i < |events| ==> L.WellFormed(events[i])
    requires w.employee.Some? <==> w.employeeRecordId.Some?
    requires w.employeeRecordId.Some? ==> JsString.Truthy(w.employeeRecordId)
    requires w.messageVariant == W.Error ==> w.message != ""
    ensures var r := Deliver(w, events);
            && (r.employee.Some? <==> r.employeeRecordId.Some?)
            && (r.employeeRecordId.Some? ==> JsString.Truthy(r.employeeRecordId))
            && (r.messageVariant == W.Error ==> r.message != "")
            && r.employeeId == w.employeeId
    decreases |events|
  {
    if events != [] {
      var w' := W.HandleLookupResult(w, Some(events[0]));
      assert L.WellFormed(events[0]);
      DeliverKeepsDisplayCoherent(w', events[1..]);
    }
  }

  lemma StepKeepsConsistent(a: App, input: Input)
    requires Consistent(a)
    ensures Consistent(Step(a, input))
  {
    match input
    case QueryArrived(resp) =>
      var r := L.WiredIdLookup(a.lookup, resp);
      DeliverKeepsDisplayCoherent(a.wizard, r.events);
    case RecordArrived(resp) =>
      var r := L.WiredEmployee(a.lookup, resp);
      DeliverKeepsDisplayCoherent(a.wizard, r.events);
    case _ =>
  }

  /** Whatever the interleaving of user actions, broadcasts, mounts and wire
      callbacks, the wizard's display stays coherent. */
  lemma {:induction false} RunKeepsConsistent(a: App, inputs: seq<Input>)
    requires Consistent(a)
    ensures Consistent(Run(a, inputs))
    decreases |inputs|
  {
    if inputs != [] {
      StepKeepsConsistent(a, inputs[0]);
      RunKeepsConsistent(Step(a, inputs[0]), inputs[1..]);
    }
  }

  /** In a coherent app, `hasEmployee` holds exactly when an employee is shown. */
  lemma HasEmployeeIffShown(a: App)
    requires Consistent(a)
    ensures W.HasEmployee(a.wizard) <==> a.wizard.employee.Some?
  {
  }

  /** From the initial app, any run of inputs leaves a display in which
      `hasEmployee` holds exactly when an employee is shown. */
  lemma ReachableHasEmployeeIffShown(inputs: seq<Input>)
    ensures var a := Run(Initial(), inputs);
            (W.HasEmployee(a.wizard) <==> a.wizard.employee.Some?)
            && (a.wizard.employee.Some? <==> a.wizard.employeeRecordId.Some?)
  {
    InitialConsistent();
    RunKeepsConsistent(Initial(), inputs);
  }

  /** Without a subscription, broadcasts do not reach the wizard. */
  lemma UnsubscribedIgnoresBroadcast(a: App, payload: Option<W.BroadcastMessage>)
    requires a.wizard.subscription.None?
    ensures Step(a, Broadcast(payload)) == a
  {
  }

  /** After an unmount, a broadcast changes nothing, whatever it names. */
  lemma BroadcastAfterUnmountIgnored(a: App, payload: Option<W.BroadcastMessage>)
    ensures var u := Step(a, Unmounted); Step(u, Broadcast(payload)) == u
  {
  }

  /** End to end, while subscribed: a broadcast naming a non-blank employee id, a
      query callback resolving it to a record id, and a field fetch delivering that
      record leave the wizard showing that record and its employee, keyed by the
      trimmed id, with no message. */
  lemma BroadcastThenLookupShowsEmployee(
    a: App, payload: Option<W.BroadcastMessage>, edges: Option<seq<L.Edge>>, data: L.RecordData)
    requires Consistent(a) && a.wizard.subscription.Some?
    requires !JsString.IsBlank(JsString.OrEmpty(W.CreatedEmployeeId(payload)))
    requires JsString.Truthy(L.FirstEdgeId(edges))
    ensures var r := Run(a, [
                       Broadcast(payload),
                       QueryArrived(L.IdLookupResponse(edges, false)),
                       RecordArrived(L.RecordResponse(Some(data), false))]);
            && r.wizard.employeeId == JsString.Trim(JsString.OrEmpty(W.CreatedEmployeeId(payload)))
            && r.lookup.employeeId == r.wizard.employeeId
            && r.wizard.employeeRecordId == L.FirstEdgeId(edges)
            && r.wizard.employee == Some(L.EmployeeOf(data))
            && r.wizard.message == ""
            && r.wizard.messageVariant == W.Info
            && W.HasEmployee(r.wizard)
  {
    var x := Broadcast(payload);
    var y := QueryArrived(L.IdLookupResponse(edges, false));
    var z := RecordArrived(L.RecordResponse(Some(data), false));
    RunThree(a, x, y, z);
    JsString.TrimEmptyIffBlank(JsString.OrEmpty(W.CreatedEmployeeId(payload)));
    var a1 := Step(a, x);
    var a2 := ResolvedQueryStep(a1, edges);
    FetchAfterResolutionStep(a2, edges, data);
  }

  /** A query callback resolving an id leaves the wizard as it was and arms the
      lookup's guard. */
  lemma ResolvedQueryStep(a: App, edges: Option<seq<L.Edge>>) returns (r: App)
    requires JsString.Truthy(L.FirstEdgeId(edges))
    ensures r == Step(a, QueryArrived(L.IdLookupResponse(edges, false)))
    ensures r.wizard == a.wizard && r.lookup.employeeId == a.lookup.employeeId
    ensures r.lookup.recordId == L.FirstEdgeId(edges) && L.Armed(r.lookup)
  {
    r := Step(a, QueryArrived(L.IdLookupResponse(edges, false)));
    assert L.WiredIdLookup(a.lookup, L.IdLookupResponse(edges, false)).events == [];
  }

  /** The first field fetch after a resolution shows the fetched employee. */
  lemma FetchAfterResolutionStep(a: App, edges: Option<seq<L.Edge>>, data: L.RecordData)
    requires L.Armed(a.lookup) && a.lookup.recordId == L.FirstEdgeId(edges)
    ensures var r := Step(a, RecordArrived(L.RecordResponse(Some(data), false)));
            && r.wizard == a.wizard.(employeeRecordId := L.FirstEdgeId(edges),
                                     employee := Some(L.EmployeeOf(data)),
                                     message := "", messageVariant := W.Info)
            && r.lookup.employeeId == a.lookup.employeeId
  {
    var r := L.WiredEmployee(a.lookup, L.RecordResponse(Some(data), false));
    var e := L.ResultDetail(L.Found, L.FirstEdgeId(edges), Some(L.EmployeeOf(data)), None);
    assert r.events == [e];
    DeliverOne(a.wizard, e);
  }

  lemma RunThree(a: App, x: Input, y: Input, z: Input)
    ensures Run(a, [x, y, z]) == Step(Step(Step(a, x), y), z)
  {
    var inputs := [x, y, z];
    assert inputs[1..] == [y, z] && inputs[1..][1..] == [z] && inputs[1..][1..][1..] == [];
    assert Run(a, inputs) == Run(Step(a, x), [y, z]);
    assert Run(Step(a, x), [y, z]) == Run(Step(Step(a, x), y), [z]);
    assert Run(Step(Step(a, x), y), [z]) == Run(Step(Step(Step(a, x), y), z), []);
  }

  lemma DeliverOne(w: W.WizardState, e: L.ResultDetail)
    ensures Deliver(w, [e]) == W.HandleLookupResult(w, Some(e))
  {
    assert [e][1..] == [];
  }

  /** A query callback that finds no record makes the wizard show the lookup's
      not-found message naming the key it is bound to, with nothing displayed. */
  lemma UnmatchedKeyShowsNotFound(a: App, edges: Option<seq<L.Edge>>)
    requires Consistent(a)
    requires !JsString.Truthy(L.FirstEdgeId(edges))
    ensures var r := Step(a, QueryArrived(L.IdLookupResponse(edges, false)));
            && r.wizard.employee == None && r.wizard.employeeRecordId == None
            && r.wizard.messageVariant == W.Error
            && r.wizard.message == L.NOT_FOUND_PREFIX + a.wizard.employeeId
  {
    var r := L.WiredIdLookup(a.lookup, L.IdLookupResponse(edges, false));
    var e := L.ResultDetail(L.NotFound, None, None, Some(L.NOT_FOUND_PREFIX + a.lookup.employeeId));
    assert r.events == [e];
    DeliverOne(a.wizard, e);
  }
}
