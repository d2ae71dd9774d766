# Storefront root component: view and modal state machine

This project models `AppContent`, the root component of a small storefront
front end. The component owns a few pieces of state:

- which view is shown: the product list, the admin panel or the login view;
- whether the cart panel is open;
- whether the login-required modal is open;
- whether the delete-confirmation modal is open;
- the product being edited, if any;
- the product id chosen for deletion, if any.

Its event handlers switch between views, open and close the modals, send
deletions to the product service, and choose the main screen from the
session values.

- `types.dfy`, module `Types`: `Option`, `Role` and `Product` (types.ts).
- `handlers.dfy`, module `Handlers`: the state as a value (`AppState`), one
  transition function per handler, the deferred restore (`Tick`, `Drain`)
  and the screen choice (`ScreenFor`).
- `component.dfy`, module `Component`: class `AppContent`. Its fields are the
  state hooks. Each handler and inline callback is a method that updates the
  fields in place. Each method is proved to produce exactly the state the
  matching `Handlers` function computes. `SessionScenarios` is a client that
  walks through two sessions. In the first, the login-success step reads the
  visitor's session values. Its callback belongs to the render before the
  login, so the view stays on the product list.
- `traces.dfy`, module `Traces`: a session is a sequence of events (`Run`).
  Its lemmas state the deletion log's properties, views that no handler
  assigns and the role gate over every session. The edited-product invariant
  holds over every session in which each confirmation's timer fires before
  the next event.

Modelling decisions:

- **Session values are inputs.** `isAuthenticated`, `role`, `isLoading` and
  `token` come from the authentication context. Each handler takes them as
  an `Auth` argument, as they were at the render the callback came from.
  `role` is an `Option<Role>`, because there is no role while nobody is
  signed in.
- **Truthiness.** `handleDeleteConfirm` tests both values for JavaScript
  truthiness. A product id of `0` counts as absent (`IdTruthy`), and so do a
  missing or empty token (`TokenTruthy`).
- **Deferred restore.** The `setTimeout(() => setView(view), 0)` in
  `handleDeleteConfirm` is a separate step. A confirmed deletion appends the
  view it read on entry to the queue `pendingRestores`. `Tick` (the class
  method `FireRestore`) runs the oldest entry. It is a queue because two
  confirmations can leave two timers pending.
- **The awaited deletion is one step.** The call is recorded in the ghost
  log `deleteCalls` before the view is switched to the product list. This
  follows the `await` at App.tsx:61.

Facts about the code that the model follows:

- `handleDeleteConfirm` awaits `deleteProduct` (App.tsx:61) before it
  switches the view, closes the modal and clears the recorded id.
- The delete modal's Cancel and onClose (App.tsx:125, 129) only close the
  modal, so `productToDelete` stays set (`CancelKeepsProductToDelete`).
- `handleLoginSuccess` reads `role` from the closure of its render
  (App.tsx:44), so the role is an argument of each step.

## Model

| member | source | states |
|---|---|---|
| Handlers.ViewChange | App.tsx:31-39 | a non-admin asking for the admin view gets only the login modal, with view and edited product kept; any other request sets the view to the target and drops the edited product; no cart, delete or log field changes; the result is on the admin view only if the role is ADMIN or it already was there; keeps EditingOnAdmin |
| Handlers.LoginSuccess | App.tsx:41-47 | the login modal is closed; the view becomes admin exactly when the role is ADMIN and is otherwise unchanged; the edited product and every other field are untouched; keeps EditingOnAdmin |
| Handlers.EditProduct | App.tsx:49-52 | from any state, the product is being edited on the admin view and nothing else changes; the result satisfies EditingOnAdmin whatever the role |
| Handlers.DeleteRequest | App.tsx:54-57 | the id is recorded and the delete modal opens; nothing else changes |
| Handlers.DeleteConfirm | App.tsx:59-69 | in the model, where a confirmation is one step whose call completes: when the id and the token are truthy, exactly one call (id, token) is appended to the log, the view becomes the product list and a restore of the entry view is queued; otherwise the log, view and queue are unchanged; in every case the modal is closed and the recorded id cleared, and the edited product, cart and login modal are untouched |
| Handlers.Tick | App.tsx:65 | with nothing queued nothing changes; otherwise the view becomes the oldest queued view and that entry is removed; no other field changes |
| Handlers.Drain | App.tsx:65 | after every queued restore has run the queue is empty and the view is the last view queued (or unchanged if none); no other field changes |
| Handlers.AdminFormSubmit | App.tsx:71-74 | nothing is edited and the view is the product list; no other field changes |
| Handlers.AdminFormCancel | App.tsx:76-79 | nothing is edited and the view is the product list; no other field changes |
| Handlers.SetCartOpen | App.tsx:107-113 | the cart flag takes the given value (open from the header, closed from the cart panel); no other field changes |
| Handlers.SetLoginModalOpen | App.tsx:108-117 | the login-modal flag takes the given value (open from the header, closed from the modal); no other field changes |
| Handlers.CloseDeleteModal | App.tsx:123-129 | the delete modal closes and the recorded id is kept; no other field changes |
| Handlers.ScreenFor | App.tsx:81-100 | Loading iff the session is loading; Login iff not loading, not authenticated and not on the product list; AdminDashboard iff not loading, authenticated and on the admin view; ProductList iff not loading and either on the product list or authenticated on the login view |
| Component.AppContent.constructor | App.tsx:20-29 | the first render shows the product list with nothing open, edited, recorded, queued or logged |
| Component.AppContent.HandleViewChange | App.tsx:31-39 | the fields end as ViewChange of the old fields |
| Component.AppContent.HandleLoginSuccess | App.tsx:41-47 | the fields end as LoginSuccess of the old fields |
| Component.AppContent.HandleEditProduct | App.tsx:49-52 | the fields end as EditProduct of the old fields |
| Component.AppContent.HandleDeleteRequest | App.tsx:54-57 | the fields end as DeleteRequest of the old fields |
| Component.AppContent.HandleDeleteConfirm | App.tsx:59-69 | the fields and the ghost call log end as DeleteConfirm of the old ones |
| Component.AppContent.FireRestore | App.tsx:65 | the fields end as Tick of the old fields |
| Component.AppContent.HandleAdminFormSubmit | App.tsx:71-74 | the fields end as AdminFormSubmit of the old fields |
| Component.AppContent.HandleAdminFormCancel | App.tsx:76-79 | the fields end as AdminFormCancel of the old fields |
| Component.AppContent.OpenCart | App.tsx:107 | only the cart flag changes, to open |
| Component.AppContent.CloseCart | App.tsx:113 | only the cart flag changes, to closed |
| Component.AppContent.OpenLoginModal | App.tsx:108 | only the login-modal flag changes, to open |
| Component.AppContent.CloseLoginModal | App.tsx:117 | only the login-modal flag changes, to closed |
| Component.AppContent.CloseDeleteModal | App.tsx:125-129 | only the delete-modal flag changes, to closed |
| Component.AppContent.RenderedScreen | App.tsx:81-100 | the screen rendered from the current view and the session values is the one ScreenFor chooses |
| Traces.ApplyDeleteCalls | App.tsx:54-69 | one event only appends to the deletion log; a call it appends has a non-zero id recorded before the event and a non-empty token; the id it leaves recorded is the old one or the one it requested |
| Traces.RunDeleteCallsRequested | App.tsx:54-69 | over any session the log only grows, and every call added has a non-zero id and a non-empty token, for the id recorded at the start or one the session requested |
| Traces.RunDeleteCallsBounded | App.tsx:54-69 | in the model, where a confirmation is one step: over any session, the calls added plus the deletion left armed never exceed the deletion armed at the start plus the number of delete requests |
| Traces.ApplyDeleteCallsBounded | App.tsx:54-69 | in the model, where a confirmation is one step: one event adds a call only by disarming the recorded deletion, and arms a deletion only when it is a request |
| Traces.ConfirmTwiceCallsOnce | App.tsx:59-69 | in the model, where a confirmation is one step: a second confirmation with no new request adds nothing to the log |
| Traces.ApplyKeepsQuiet | App.tsx:31-129 | with no restore queued, every event except a delete confirmation keeps EditingOnAdmin and the empty queue |
| Traces.ConfirmThenRestoreKeepsQuiet | App.tsx:59-69 | a confirmation followed by its timer keeps EditingOnAdmin and the empty queue, and returns to the view at the confirmation |
| Traces.SettledRunKeepsEditingOnAdmin | App.tsx:31-129 | over any session where each confirmation's timer fires before the next event, EditingOnAdmin and the empty queue are preserved |
| Traces.SettledSessionEditsOnAdmin | App.tsx:20-129 | every such session from the first render edits a product only on the admin view |
| Traces.RestoreRaceLeavesEditOffAdmin | App.tsx:49-65 | from the first render, a deletion confirmed on the product list followed by an edit before its timer fires leaves the product being edited on the product-list view |
| Traces.ApplyStaysOffLogin | App.tsx:16-129 | no single event assigns the login view or queues a restore of it |
| Traces.RunStaysOffLogin | App.tsx:16-129 | no handler assigns the login view: a session that is off it and has no restore of it queued stays so |
| Traces.LoginViewUnreachable | App.tsx:16-129 | no session from the first render reaches the login view |
| Traces.ApplyStaysOffAdmin | App.tsx:31-129 | one event that is neither an edit request nor an admin navigating or logging in keeps the session off the admin view |
| Traces.RunStaysOffAdmin | App.tsx:31-129 | a session off the admin view stays off it unless an ADMIN role navigates there or logs in, or an edit is requested |
| Traces.EditRequestBypassesRoleGate | App.tsx:49-52 | an edit request puts a signed-in customer on the admin dashboard, since handleEditProduct checks no role (App.tsx:49-52) |
| Traces.LoginSuccessIdempotent | App.tsx:41-47 | handling a login success twice equals handling it once |
| Traces.FormSubmitIsCancel | App.tsx:71-79 | submit and cancel give the same state, and each is idempotent |
| Traces.EditThenCancel | App.tsx:49-52 | editing a product then cancelling the form returns to the product list with nothing edited |
| Traces.CancelKeepsProductToDelete | App.tsx:123-129 | after a delete request and a cancel the id stays recorded with the modal closed |
| Traces.FalsyConfirmCallsNothing | App.tsx:59-69 | with no id, id 0, no token or an empty token, a confirmation calls nothing and keeps the view |
| Traces.ConfirmedDeleteRestoresView | App.tsx:59-69 | once all timers have fired, a confirmed deletion leaves the view it found |

## Left out

- Markup, styling, the footer year (App.tsx:103-143, apart from the inline callbacks at lines 107, 108, 113, 117, 125 and 129, which are modelled) and the provider wrapping (App.tsx:146-152) are presentation only.
- The product service's `deleteProduct` is not part of this model. A call to it is an entry in the call log and affects no product store. Its failures and its latency are not modelled.
- The authentication and cart contexts are not part of this model. Session values are per-step inputs, so login, logout and the cart's contents and item uniqueness are not modelled.
- Child components (Header, ProductList, CartView, Login, AdminDashboard, Modal, Button) are not part of this model. Only the callbacks they receive are events. The model does not restrict which events can fire on which screen. For example, it does not model that no callback is wired while the loading placeholder is shown.
- Timing: React's batching and the scheduling of the awaited call are not modelled. The continuation after the `await` runs as part of the confirmation step, so events between the call and its completion are not modelled. The timer runs only when a `RestoreFired` / `FireRestore` step says so.
- `User`, `CartItem`, `Order` and the product's floating-point `price` (types.ts:7-32) carry no logic that the component uses.
- Handlers.DeleteConfirm: runs the awaited call and its continuation (App.tsx:61-68) as one step that always completes. In the source, a rejected `deleteProduct` skips lines 64-68, so the modal stays open and the id stays recorded; the model always closes the modal and clears the id.
- Traces.RunDeleteCallsBounded: holds only for the one-step confirmation. In the source, the modal stays open and `productToDelete` stays set until the await resolves, so a second click on Delete during the await issues a second `deleteProduct(id, token)` for one request.
- Traces.ConfirmTwiceCallsOnce: holds only for the one-step confirmation. A second confirmation during the await of the first calls `deleteProduct` again with the same id and token.
- Which render's `onLoginSuccess` the Login component calls is not modelled; Login is not part of this model. If it calls the callback of the render where the form was submitted, that callback reads the role from before the login (App.tsx:44), so the view does not switch to the admin view, although the comment at App.tsx:43 intends it to. The switch happens only when the callback comes from a render after the login. `SessionScenarios` follows the first reading.
