/**
 * The view and modal state of the storefront's root component (`AppContent`)
 * as a value, with one transition function per event handler and the
 * choice of the main screen.
 *
 * The authentication values (`isAuthenticated`, `role`, `isLoading`,
 * `token`) belong to a session holder that is not part of this model; each
 * handler takes them as an input, as they stood at the last render.
 */
module Handlers {
  import opened Types

  /** The top-level screens the component can be asked to show. */
  datatype View = ProductsView | AdminView | LoginView

  /** What the header may ask for: the argument type of `handleViewChange`. */
  datatype NavTarget = NavProducts | NavAdmin

  function ToView(t: NavTarget): (v: View)
    ensures v != LoginView
  {
    match t
    case NavProducts => ProductsView
    case NavAdmin => AdminView
  }

  /** The session values read from the authentication context. */
  datatype Auth = Auth(isAuthenticated: bool, role: Option<Role>, isLoading: bool, token: Option<string>)

  predicate IsAdmin(auth: Auth) {
    auth.role == Some(Admin)
  }

  /** JavaScript truthiness of a `string | null`: null and "" are falsy. */
  predicate TokenTruthy(token: Option<string>) {
    token.Some? && token.value != ""
  }

  /** JavaScript truthiness of a `number | null` holding an integer: null and 0 are falsy. */
  predicate IdTruthy(id: Option<int>) {
    id.Some? && id.value != 0
  }

  /** One call to the product service's `deleteProduct(id, token)`. */
  datatype DeleteCall = DeleteCall(id: int, token: string)

  /**
   * The component's state fields, plus two things the runtime keeps for it:
   * the restores scheduled with `setTimeout` and not yet run (oldest first),
   * and the log of deletion calls issued so far.
   */
  datatype AppState = AppState(
    view: View,
    isCartOpen: bool,
    isLoginModalOpen: bool,
    isDeleteModalOpen: bool,
    editingProduct: Option<Product>,
    productToDelete: Option<int>,
    pendingRestores: seq<View>,
    deleteCalls: seq<DeleteCall>)

  /** The state on first render: the product list, nothing open, nothing pending. */
  function Initial(): AppState {
    AppState(ProductsView, false, false, false, None, None, [], [])
  }

  /** A product is being edited only on the admin view. */
  predicate EditingOnAdmin(s: AppState) {
    s.editingProduct.Some? ==> s.view == AdminView
  }

  /** Whether `handleViewChange` refuses the request and prompts for login instead. */
  predicate NeedsLogin(auth: Auth, target: NavTarget) {
    target == NavAdmin && !IsAdmin(auth)
  }

  /**
   * `handleViewChange`: a non-admin asking for the admin view gets the
   * login modal and nothing else; any other request drops the product being
   * edited and switches view.
   */
  function ViewChange(s: AppState, auth: Auth, target: NavTarget): (r: AppState)
    ensures r.view == AdminView ==> IsAdmin(auth) || s.view == AdminView
    ensures NeedsLogin(auth, target) ==> r.isLoginModalOpen && r.view == s.view && r.editingProduct == s.editingProduct
    ensures !NeedsLogin(auth, target) ==> r.view == ToView(target) && r.editingProduct == None && r.isLoginModalOpen == s.isLoginModalOpen
    ensures r.(view := s.view, editingProduct := s.editingProduct, isLoginModalOpen := s.isLoginModalOpen) == s
    ensures EditingOnAdmin(s) ==> EditingOnAdmin(r)
  {
    if NeedsLogin(auth, target) then
      s.(isLoginModalOpen := true)
    else
      s.(editingProduct := None, view := ToView(target))
  }

  /**
   * `handleLoginSuccess`: closes the login modal and, when the role read at
   * the last render is ADMIN, moves to the admin view.
   */
  function LoginSuccess(s: AppState, auth: Auth): (r: AppState)
    ensures !r.isLoginModalOpen
    ensures r.view == (if IsAdmin(auth) then AdminView else s.view)
    ensures r.(view := s.view, isLoginModalOpen := s.isLoginModalOpen) == s
    ensures EditingOnAdmin(s) ==> EditingOnAdmin(r)
  {
    s.(isLoginModalOpen := false,
       view := if IsAdmin(auth) && s.view != AdminView then AdminView else s.view)
  }

  /** `handleEditProduct`: edit `p` on the admin view, from whatever view was shown. No role is checked. */
  function EditProduct(s: AppState, p: Product): (r: AppState)
    ensures r.editingProduct == Some(p) && r.view == AdminView
    ensures r.(view := s.view, editingProduct := s.editingProduct) == s
    ensures EditingOnAdmin(r)
  {
    s.(editingProduct := Some(p), view := AdminView)
  }

  /** `handleDeleteRequest`: remember the product and open the confirmation modal. */
  function DeleteRequest(s: AppState, id: int): (r: AppState)
    ensures r.productToDelete == Some(id) && r.isDeleteModalOpen
    ensures r.(productToDelete := s.productToDelete, isDeleteModalOpen := s.isDeleteModalOpen) == s
  {
    s.(productToDelete := Some(id), isDeleteModalOpen := true)
  }

  /** Whether `handleDeleteConfirm` passes its guard and calls the service. */
  predicate DeleteFires(s: AppState, auth: Auth) {
    IdTruthy(s.productToDelete) && TokenTruthy(auth.token)
  }

  /**
   * `handleDeleteConfirm`. When both the product id and the token are truthy
   * it calls `deleteProduct(id, token)`, shows the product list and
   * schedules a restore of the view it read at the call; in every case it
   * closes the modal and forgets the product. The awaited call is taken to
   * complete, successfully, before the next event: a rejected call, which
   * in the component leaves the modal open and the id recorded, is not
   * modelled.
   */
  function DeleteConfirm(s: AppState, auth: Auth): (r: AppState)
    ensures !r.isDeleteModalOpen && r.productToDelete == None
    ensures DeleteFires(s, auth) ==>
      r.deleteCalls == s.deleteCalls + [DeleteCall(s.productToDelete.value, auth.token.value)]
      && r.view == ProductsView && r.pendingRestores == s.pendingRestores + [s.view]
    ensures !DeleteFires(s, auth) ==>
      r.deleteCalls == s.deleteCalls && r.view == s.view && r.pendingRestores == s.pendingRestores
    ensures r.editingProduct == s.editingProduct && r.isCartOpen == s.isCartOpen
      && r.isLoginModalOpen == s.isLoginModalOpen
  {
    var called :=
      if DeleteFires(s, auth) then
        s.(deleteCalls := s.deleteCalls + [DeleteCall(s.productToDelete.value, auth.token.value)],
           view := ProductsView,
           pendingRestores := s.pendingRestores + [s.view])
      else s;
    called.(isDeleteModalOpen := false, productToDelete := None)
  }

  /** The oldest restore scheduled by `handleDeleteConfirm` runs: `setView(view)`. */
  function Tick(s: AppState): (r: AppState)
    ensures s.pendingRestores == [] ==> r == s
    ensures s.pendingRestores != [] ==>
      r.view == s.pendingRestores[0] && r.pendingRestores == s.pendingRestores[1..]
    ensures r.(view := s.view, pendingRestores := s.pendingRestores) == s
  {
    if s.pendingRestores == [] then s
    else s.(view := s.pendingRestores[0], pendingRestores := s.pendingRestores[1..])
  }

  /** The last element of a non-empty sequence. */
  function Last<T>(xs: seq<T>): T
    requires xs != []
  {
    xs[|xs| - 1]
  }

  /**
   * Every scheduled restore run, oldest first: the view ends as the last
   * restore scheduled, and nothing else changes.
   */
  function Drain(s: AppState): (r: AppState)
    ensures r.pendingRestores == []
    ensures r.view == if s.pendingRestores == [] then s.view else Last(s.pendingRestores)
    ensures r.(view := s.view, pendingRestores := s.pendingRestores) == s
    decreases |s.pendingRestores|
  {
    if s.pendingRestores == [] then s else Drain(Tick(s))
  }

  /** `handleAdminFormSubmit`: leave the form for the product list. */
  function AdminFormSubmit(s: AppState): (r: AppState)
    ensures r.editingProduct == None && r.view == ProductsView
    ensures r.(editingProduct := s.editingProduct, view := s.view) == s
  {
    s.(editingProduct := None, view := ProductsView)
  }

  /** `handleAdminFormCancel`: leave the form for the product list. */
  function AdminFormCancel(s: AppState): (r: AppState)
    ensures r.editingProduct == None && r.view == ProductsView
    ensures r.(editingProduct := s.editingProduct, view := s.view) == s
  {
    s.(editingProduct := None, view := ProductsView)
  }

  /** The header's cart button (`true`) and the cart panel's close (`false`). */
  function SetCartOpen(s: AppState, open: bool): (r: AppState)
    ensures r.isCartOpen == open
    ensures r.(isCartOpen := s.isCartOpen) == s
  {
    s.(isCartOpen := open)
  }

  /** The header's login button (`true`) and the login modal's close (`false`). */
  function SetLoginModalOpen(s: AppState, open: bool): (r: AppState)
    ensures r.isLoginModalOpen == open
    ensures r.(isLoginModalOpen := s.isLoginModalOpen) == s
  {
    s.(isLoginModalOpen := open)
  }

  /**
   * The delete modal's close and its Cancel button: the modal closes, the
   * product chosen for deletion stays recorded.
   */
  function CloseDeleteModal(s: AppState): (r: AppState)
    ensures !r.isDeleteModalOpen && r.productToDelete == s.productToDelete
    ensures r.(isDeleteModalOpen := s.isDeleteModalOpen) == s
  {
    s.(isDeleteModalOpen := false)
  }

  /** The main area of the page. */
  datatype Screen = LoadingScreen | LoginScreen | AdminDashboardScreen | ProductListScreen

  /**
   * The screen rendered: a placeholder while the session loads; the inline
   * login form when an anonymous visitor is on any view but the product
   * list; otherwise the admin dashboard on the admin view and the product
   * list on every other view.
   */
  function ScreenFor(isLoading: bool, isAuthenticated: bool, view: View): (r: Screen)
    ensures r == LoadingScreen <==> isLoading
    ensures r == LoginScreen <==> !isLoading && !isAuthenticated && view != ProductsView
    ensures r == AdminDashboardScreen <==> !isLoading && isAuthenticated && view == AdminView
    ensures r == ProductListScreen <==>
      !isLoading && (view == ProductsView || (isAuthenticated && view == LoginView))
  {
    if isLoading then LoadingScreen
    else if !isAuthenticated && view != ProductsView then LoginScreen
    else match view
      case AdminView => AdminDashboardScreen
      case _ => ProductListScreen
  }
}
