/**
 * Sessions of the root component: sequences of events, each handled with
 * the session values of the render it fired from, and what holds across
 * every such sequence.
 */
module Traces {
  import opened Types
  import opened Handlers

  /** The callbacks the component wires into its children, and its own timer. */
  datatype Event =
    | Navigate(target: NavTarget)      // Header onViewChange (App.tsx:106)
    | LoginSucceeded                   // Login onLoginSuccess, inline form or modal (App.tsx:89, 120)
    | EditRequested(product: Product)  // ProductList onEditProduct (App.tsx:99)
    | DeleteRequested(id: int)         // ProductList onDeleteProduct (App.tsx:99)
    | DeleteConfirmed                  // delete modal's Delete button (App.tsx:130)
    | FormSubmitted                    // AdminDashboard onFormSubmit (App.tsx:96)
    | FormCancelled                    // AdminDashboard onCancel (App.tsx:96)
    | CartOpened                       // Header onCartToggle (App.tsx:107)
    | CartClosed                       // CartView onClose (App.tsx:113)
    | LoginClicked                     // Header onLoginClick (App.tsx:108)
    | LoginModalClosed                 // login modal's onClose (App.tsx:117)
    | DeleteModalClosed                // delete modal's onClose and Cancel (App.tsx:125, 129)
    | RestoreFired                     // the oldest timer of a confirmed delete (App.tsx:65)

  datatype Step = Step(auth: Auth, event: Event)

  function Apply(s: AppState, step: Step): AppState {
    match step.event
    case Navigate(target) => ViewChange(s, step.auth, target)
    case LoginSucceeded => LoginSuccess(s, step.auth)
    case EditRequested(p) => EditProduct(s, p)
    case DeleteRequested(id) => DeleteRequest(s, id)
    case DeleteConfirmed => DeleteConfirm(s, step.auth)
    case FormSubmitted => AdminFormSubmit(s)
    case FormCancelled => AdminFormCancel(s)
    case CartOpened => SetCartOpen(s, true)
    case CartClosed => SetCartOpen(s, false)
    case LoginClicked => SetLoginModalOpen(s, true)
    case LoginModalClosed => SetLoginModalOpen(s, false)
    case DeleteModalClosed => CloseDeleteModal(s)
    case RestoreFired => Tick(s)
  }

  /** The state after handling `steps` in order. */
  function Run(s: AppState, steps: seq<Step>): AppState
    decreases |steps|
  {
    if steps == [] then s else Run(Apply(s, steps[0]), steps[1..])
  }

  // ---------------------------------------------------------------------
  // The deletion log

  /** The ids of the delete requests in `steps`. */
  function RequestedIds(steps: seq<Step>): set<int>
    decreases |steps|
  {
    if steps == [] then {}
    else (if steps[0].event.DeleteRequested? then {steps[0].event.id} else {}) + RequestedIds(steps[1..])
  }

  /** How many delete requests `steps` holds. */
  function RequestCount(steps: seq<Step>): nat
    decreases |steps|
  {
    if steps == [] then 0
    else (if steps[0].event.DeleteRequested? then 1 else 0) + RequestCount(steps[1..])
  }

  /** A deletion call the guard of `handleDeleteConfirm` lets through for a product asked for. */
  predicate Requested(c: DeleteCall, recorded: Option<int>, ids: set<int>) {
    c.id != 0 && c.token != "" && (recorded == Some(c.id) || c.id in ids)
  }

  /** One deletion still armed: a truthy product id is recorded. */
  function Armed(s: AppState): nat {
    if IdTruthy(s.productToDelete) then 1 else 0
  }

  /**
   * One event: the log only grows, a call it adds passes the guard for the
   * product recorded before it, and the product it leaves recorded is the
   * one recorded before or the one it asked to delete.
   */
  lemma ApplyDeleteCalls(s: AppState, step: Step)
    ensures |s.deleteCalls| <= |Apply(s, step).deleteCalls|
    ensures Apply(s, step).deleteCalls[..|s.deleteCalls|] == s.deleteCalls
    ensures forall k :: |s.deleteCalls| <= k < |Apply(s, step).deleteCalls| ==>
      Requested(Apply(s, step).deleteCalls[k], s.productToDelete, {})
    ensures Apply(s, step).productToDelete.Some? ==>
      Apply(s, step).productToDelete == s.productToDelete
      || step.event == DeleteRequested(Apply(s, step).productToDelete.value)
  {
    match step.event
    case DeleteConfirmed =>
    case DeleteRequested(id) =>
    case _ =>
  }

  /**
   * The log only grows, and every call added over a session deletes a
   * non-zero id with a non-empty token, for the product recorded at the
   * start or for one the session asked to delete.
   */
  lemma {:induction false} RunDeleteCallsRequested(s: AppState, steps: seq<Step>)
    ensures |s.deleteCalls| <= |Run(s, steps).deleteCalls|
    ensures Run(s, steps).deleteCalls[..|s.deleteCalls|] == s.deleteCalls
    ensures forall k :: |s.deleteCalls| <= k < |Run(s, steps).deleteCalls| ==>
      Requested(Run(s, steps).deleteCalls[k], s.productToDelete, RequestedIds(steps))
    decreases |steps|
  {
    if steps != [] {
      var s1 := Apply(s, steps[0]);
      var r := Run(s1, steps[1..]);
      assert Run(s, steps) == r;
      ApplyDeleteCalls(s, steps[0]);
      RunDeleteCallsRequested(s1, steps[1..]);
      var ids := RequestedIds(steps);
      assert RequestedIds(steps[1..]) <= ids;
      assert s1.productToDelete.Some? ==>
        s1.productToDelete == s.productToDelete || s1.productToDelete.value in ids;
      assert r.deleteCalls[..|s.deleteCalls|] == s.deleteCalls by {
        assert r.deleteCalls[..|s1.deleteCalls|] == s1.deleteCalls;
        assert r.deleteCalls[..|s.deleteCalls|] == r.deleteCalls[..|s1.deleteCalls|][..|s.deleteCalls|];
      }
      forall k | |s.deleteCalls| <= k < |r.deleteCalls|
        ensures Requested(r.deleteCalls[k], s.productToDelete, ids)
      {
        if k < |s1.deleteCalls| {
          assert r.deleteCalls[k] == r.deleteCalls[..|s1.deleteCalls|][k] == s1.deleteCalls[k];
        }
      }
    }
  }

  /**
   * One event adds a call only by disarming the recorded deletion, and arms
   * one only as a request. This relies on a confirmation being one step: in
   * the component the recorded id stays set until the awaited call resolves.
   */
  lemma ApplyDeleteCallsBounded(s: AppState, step: Step)
    ensures |Apply(s, step).deleteCalls| + Armed(Apply(s, step))
      <= |s.deleteCalls| + Armed(s) + (if step.event.DeleteRequested? then 1 else 0)
  {
    match step.event
    case DeleteConfirmed =>
    case DeleteRequested(id) =>
    case _ =>
  }

  /**
   * Each deletion call spends one request: over a session, the calls added
   * plus the deletion left armed never exceed what was armed at the start
   * plus the requests made. In particular a second confirmation without a
   * new request calls nothing. This holds in the model, where a confirmation
   * is one step; in the component a second click on Delete while the first
   * call is awaited issues the call again.
   */
  lemma {:induction false} RunDeleteCallsBounded(s: AppState, steps: seq<Step>)
    ensures |Run(s, steps).deleteCalls| + Armed(Run(s, steps))
      <= |s.deleteCalls| + Armed(s) + RequestCount(steps)
    decreases |steps|
  {
    if steps != [] {
      var s1 := Apply(s, steps[0]);
      assert Run(s, steps) == Run(s1, steps[1..]);
      assert RequestCount(steps) == (if steps[0].event.DeleteRequested? then 1 else 0) + RequestCount(steps[1..]);
      ApplyDeleteCallsBounded(s, steps[0]);
      RunDeleteCallsBounded(s1, steps[1..]);
    }
  }

  /**
   * After a confirmation, a second one with no request in between calls
   * nothing, in the model, where the first confirmation is one step that
   * clears the recorded id.
   */
  lemma ConfirmTwiceCallsOnce(s: AppState, first: Auth, second: Auth)
    ensures DeleteConfirm(DeleteConfirm(s, first), second).deleteCalls == DeleteConfirm(s, first).deleteCalls
  {
  }

  // ---------------------------------------------------------------------
  // The product being edited

  /** No restore pending, and a product is edited only on the admin view. */
  predicate Quiet(s: AppState) {
    s.pendingRestores == [] && EditingOnAdmin(s)
  }

  /** Every confirmed deletion is followed at once by its timer, before any other event. */
  predicate Settled(steps: seq<Step>) {
    forall i :: 0 <= i < |steps| && steps[i].event == DeleteConfirmed ==>
      i + 1 < |steps| && steps[i + 1].event == RestoreFired
  }

  /** A single event other than a deletion confirmation keeps a quiet state quiet. */
  lemma ApplyKeepsQuiet(s: AppState, step: Step)
    requires Quiet(s) && step.event != DeleteConfirmed
    ensures Quiet(Apply(s, step))
  {
  }

  /** A deletion confirmation followed by its restore keeps a quiet state quiet. */
  lemma ConfirmThenRestoreKeepsQuiet(s: AppState, auth: Auth)
    requires Quiet(s)
    ensures Quiet(Tick(DeleteConfirm(s, auth)))
    ensures Tick(DeleteConfirm(s, auth)).view == s.view
  {
  }

  /**
   * Over a session in which every confirmed deletion's timer fires before
   * the next event, a product is edited only on the admin view, whatever
   * the events and session values.
   */
  lemma {:induction false} SettledRunKeepsEditingOnAdmin(s: AppState, steps: seq<Step>)
    requires Quiet(s) && Settled(steps)
    ensures Quiet(Run(s, steps))
    decreases |steps|
  {
    if steps != [] {
      if steps[0].event == DeleteConfirmed {
        assert steps[1].event == RestoreFired;
        var s2 := Apply(Apply(s, steps[0]), steps[1]);
        ConfirmThenRestoreKeepsQuiet(s, steps[0].auth);
        assert Run(s, steps) == Run(s2, steps[2..]) by {
          assert steps[1..][0] == steps[1];
          assert steps[1..][1..] == steps[2..];
        }
        assert Settled(steps[2..]) by {
          forall i | 0 <= i < |steps[2..]| && steps[2..][i].event == DeleteConfirmed
            ensures i + 1 < |steps[2..]| && steps[2..][i + 1].event == RestoreFired
          {
            assert steps[i + 2] == steps[2..][i];
          }
        }
        SettledRunKeepsEditingOnAdmin(s2, steps[2..]);
      } else {
        ApplyKeepsQuiet(s, steps[0]);
        assert Settled(steps[1..]) by {
          forall i | 0 <= i < |steps[1..]| && steps[1..][i].event == DeleteConfirmed
            ensures i + 1 < |steps[1..]| && steps[1..][i + 1].event == RestoreFired
          {
            assert steps[i + 1] == steps[1..][i];
          }
        }
        SettledRunKeepsEditingOnAdmin(Apply(s, steps[0]), steps[1..]);
      }
    }
  }

  /** Every session that starts on first render and keeps each confirmation settled edits only on the admin view. */
  lemma SettledSessionEditsOnAdmin(steps: seq<Step>)
    requires Settled(steps)
    ensures EditingOnAdmin(Run(Initial(), steps))
  {
    SettledRunKeepsEditingOnAdmin(Initial(), steps);
  }

  /**
   * Without the settling, the invariant fails. From the first render, a
   * deletion confirmed on the product list followed by an edit before its
   * timer fires leaves the product being edited on the product-list view,
   * because the timer restores the view read at the confirmation. (A
   * deletion confirmed on the admin view queues the admin view, and the edit
   * stays on it.)
   */
  lemma RestoreRaceLeavesEditOffAdmin(p: Product)
    ensures !EditingOnAdmin(Run(Initial(), RaceSteps(p)))
  {
    var steps := RaceSteps(p);
    var a := steps[0].auth;
    var s1 := DeleteRequest(Initial(), 7);
    var s2 := DeleteConfirm(s1, a);
    var s3 := EditProduct(s2, p);
    var s4 := Tick(s3);
    assert Run(Initial(), steps) == Run(s1, steps[1..]);
    assert Run(s1, steps[1..]) == Run(s2, steps[2..]);
    assert Run(s2, steps[2..]) == Run(s3, steps[3..]);
    assert Run(s3, steps[3..]) == Run(s4, steps[4..]);
    assert s4.view == ProductsView && s4.editingProduct == Some(p);
  }

  /** An admin asks to delete product 7, confirms, opens `p` for editing, and the timer fires. */
  function RaceSteps(p: Product): seq<Step> {
    var a := Auth(true, Some(Admin), false, Some("t"));
    [Step(a, DeleteRequested(7)), Step(a, DeleteConfirmed), Step(a, EditRequested(p)), Step(a, RestoreFired)]
  }

  // ---------------------------------------------------------------------
  // Views no handler assigns, and the role gate

  /** The view is not the login view and no timer will restore it. */
  predicate OffLogin(s: AppState) {
    s.view != LoginView && LoginView !in s.pendingRestores
  }

  /** One event never assigns the login view. */
  lemma ApplyStaysOffLogin(s: AppState, step: Step)
    requires OffLogin(s)
    ensures OffLogin(Apply(s, step))
  {
    if s.pendingRestores != [] {
      assert s.pendingRestores[0] in s.pendingRestores;
      assert forall v :: v in s.pendingRestores[1..] ==> v in s.pendingRestores;
    }
    match step.event
    case Navigate(t) =>
    case DeleteConfirmed =>
    case RestoreFired =>
    case _ =>
  }

  /** No handler assigns the login view, so a session that is off it stays off it. */
  lemma {:induction false} RunStaysOffLogin(s: AppState, steps: seq<Step>)
    requires OffLogin(s)
    ensures OffLogin(Run(s, steps))
    decreases |steps|
  {
    if steps != [] {
      ApplyStaysOffLogin(s, steps[0]);
      RunStaysOffLogin(Apply(s, steps[0]), steps[1..]);
    }
  }

  /** The login view is declared but never reached from the first render. */
  lemma LoginViewUnreachable(steps: seq<Step>)
    ensures Run(Initial(), steps).view != LoginView
  {
    RunStaysOffLogin(Initial(), steps);
  }

  /**
   * A step that can put the admin view in place: a navigation or login
   * success under an ADMIN role, or an edit request, which checks no role.
   */
  predicate GrantsAdmin(step: Step) {
    step.event.EditRequested?
    || (IsAdmin(step.auth) && (step.event == Navigate(NavAdmin) || step.event == LoginSucceeded))
  }

  /** The view is not the admin view and no timer will restore it. */
  predicate OffAdmin(s: AppState) {
    s.view != AdminView && AdminView !in s.pendingRestores
  }

  /** One event that grants nothing keeps a session off the admin view. */
  lemma ApplyStaysOffAdmin(s: AppState, step: Step)
    requires OffAdmin(s) && !GrantsAdmin(step)
    ensures OffAdmin(Apply(s, step))
  {
    if s.pendingRestores != [] {
      assert s.pendingRestores[0] in s.pendingRestores;
      assert forall v :: v in s.pendingRestores[1..] ==> v in s.pendingRestores;
    }
    match step.event
    case Navigate(t) =>
    case LoginSucceeded =>
    case DeleteConfirmed =>
    case RestoreFired =>
    case _ =>
  }

  /**
   * A session off the admin view stays off it unless some step is an admin
   * navigating there or logging in, or an edit request.
   */
  lemma {:induction false} RunStaysOffAdmin(s: AppState, steps: seq<Step>)
    requires OffAdmin(s)
    requires forall i :: 0 <= i < |steps| ==> !GrantsAdmin(steps[i])
    ensures OffAdmin(Run(s, steps))
    decreases |steps|
  {
    if steps != [] {
      ApplyStaysOffAdmin(s, steps[0]);
      assert forall i :: 0 <= i < |steps[1..]| ==> steps[1..][i] == steps[i + 1];
      RunStaysOffAdmin(Apply(s, steps[0]), steps[1..]);
    }
  }

  /** The edit request reaches the admin dashboard for a signed-in customer. */
  lemma EditRequestBypassesRoleGate(s: AppState, p: Product)
    ensures ScreenFor(false, true, Apply(s, Step(Auth(true, Some(Customer), false, None), EditRequested(p))).view)
      == AdminDashboardScreen
  {
  }

  // ---------------------------------------------------------------------
  // One-event properties

  /** `handleLoginSuccess` twice is `handleLoginSuccess` once. */
  lemma LoginSuccessIdempotent(s: AppState, auth: Auth)
    ensures LoginSuccess(LoginSuccess(s, auth), auth) == LoginSuccess(s, auth)
  {
  }

  /** Submitting and cancelling the admin form leave the same state, and each is idempotent. */
  lemma FormSubmitIsCancel(s: AppState)
    ensures AdminFormSubmit(s) == AdminFormCancel(s)
    ensures AdminFormSubmit(AdminFormSubmit(s)) == AdminFormSubmit(s)
    ensures AdminFormCancel(AdminFormCancel(s)) == AdminFormCancel(s)
  {
  }

  /** Editing a product and then cancelling the form returns to the product list with nothing edited. */
  lemma EditThenCancel(s: AppState, p: Product)
    ensures AdminFormCancel(EditProduct(s, p)).view == ProductsView
    ensures AdminFormCancel(EditProduct(s, p)).editingProduct == None
  {
  }

  /**
   * Cancelling the delete modal keeps the product recorded, so "a product is
   * recorded for deletion only while the modal is open" does not hold.
   */
  lemma CancelKeepsProductToDelete(s: AppState, id: int)
    ensures var r := CloseDeleteModal(DeleteRequest(s, id));
      r.productToDelete == Some(id) && !r.isDeleteModalOpen
  {
  }

  /**
   * A confirmation whose guard fails (no id, id 0, no token or an empty
   * token) calls nothing and leaves the view alone.
   */
  lemma FalsyConfirmCallsNothing(s: AppState, auth: Auth)
    requires !IdTruthy(s.productToDelete) || !TokenTruthy(auth.token)
    ensures DeleteConfirm(s, auth).deleteCalls == s.deleteCalls
    ensures DeleteConfirm(s, auth).view == s.view
  {
  }

  /** Once every timer has fired, a confirmed deletion leaves the view as it was at the confirmation. */
  lemma ConfirmedDeleteRestoresView(s: AppState, auth: Auth)
    requires DeleteFires(s, auth)
    ensures Drain(DeleteConfirm(s, auth)).view == s.view
  {
  }
}
