/**
 * The root component `AppContent` as an object: its state hooks are fields,
 * its handlers and inline callbacks are methods that update them in place.
 * Each method is specified by the transition function of `Handlers` that
 * describes the same handler.
 */
module Component {
  import opened Types
  import opened Handlers

  class AppContent {
    var view: View
    var isCartOpen: bool
    var isLoginModalOpen: bool
    var isDeleteModalOpen: bool
    var editingProduct: Option<Product>
    var productToDelete: Option<int>
    /** Views that timers set by `HandleDeleteConfirm` will restore, oldest first. */
    var pendingRestores: seq<View>
    /** Every `deleteProduct(id, token)` call issued, in order. */
    ghost var deleteCalls: seq<DeleteCall>

    /** The object's fields as a value of the transition system. */
    ghost function State(): AppState
      reads this
    {
      AppState(view, isCartOpen, isLoginModalOpen, isDeleteModalOpen,
               editingProduct, productToDelete, pendingRestores, deleteCalls)
    }

    constructor ()
      ensures State() == Initial()
    {
      view := ProductsView;
      isCartOpen := false;
      isLoginModalOpen := false;
      isDeleteModalOpen := false;
      editingProduct := None;
      productToDelete := None;
      pendingRestores := [];
      deleteCalls := [];
    }

    method HandleViewChange(auth: Auth, newView: NavTarget)
      modifies this
      ensures State() == ViewChange(old(State()), auth, newView)
    {
      if newView == NavAdmin && auth.role != Some(Admin) {
        isLoginModalOpen := true;
        return;
      }
      editingProduct := None;
      view := ToView(newView);
    }

    method HandleLoginSuccess(auth: Auth)
      modifies this
      ensures State() == LoginSuccess(old(State()), auth)
    {
      isLoginModalOpen := false;
      if auth.role == Some(Admin) && view != AdminView {
        view := AdminView;
      }
    }

    method HandleEditProduct(product: Product)
      modifies this
      ensures State() == EditProduct(old(State()), product)
    {
      editingProduct := Some(product);
      view := AdminView;
    }

    method HandleDeleteRequest(productId: int)
      modifies this
      ensures State() == DeleteRequest(old(State()), productId)
    {
      productToDelete := Some(productId);
      isDeleteModalOpen := true;
    }

    /**
     * The awaited service call is recorded in `deleteCalls`; the view read
     * when the handler started is what the scheduled timer restores.
     */
    method HandleDeleteConfirm(auth: Auth)
      modifies this
      ensures State() == DeleteConfirm(old(State()), auth)
    {
      var capturedView := view;
      if productToDelete.Some? && productToDelete.value != 0
        && auth.token.Some? && auth.token.value != ""
      {
        deleteCalls := deleteCalls + [DeleteCall(productToDelete.value, auth.token.value)];
        view := ProductsView;
        pendingRestores := pendingRestores + [capturedView];
      }
      isDeleteModalOpen := false;
      productToDelete := None;
    }

    /** The oldest pending timer of `HandleDeleteConfirm` fires. */
    method FireRestore()
      modifies this
      ensures State() == Tick(old(State()))
    {
      if pendingRestores != [] {
        view := pendingRestores[0];
        pendingRestores := pendingRestores[1..];
      }
    }

    method HandleAdminFormSubmit()
      modifies this
      ensures State() == AdminFormSubmit(old(State()))
    {
      editingProduct := None;
      view := ProductsView;
    }

    method HandleAdminFormCancel()
      modifies this
      ensures State() == AdminFormCancel(old(State()))
    {
      editingProduct := None;
      view := ProductsView;
    }

    /** The header's cart toggle. */
    method OpenCart()
      modifies this
      ensures State() == SetCartOpen(old(State()), true)
    {
      isCartOpen := true;
    }

    /** The cart panel's close. */
    method CloseCart()
      modifies this
      ensures State() == SetCartOpen(old(State()), false)
    {
      isCartOpen := false;
    }

    /** The header's login button. */
    method OpenLoginModal()
      modifies this
      ensures State() == SetLoginModalOpen(old(State()), true)
    {
      isLoginModalOpen := true;
    }

    /** The login modal's close. */
    method CloseLoginModal()
      modifies this
      ensures State() == SetLoginModalOpen(old(State()), false)
    {
      isLoginModalOpen := false;
    }

    /** The delete modal's close and its Cancel button. */
    method CloseDeleteModal()
      modifies this
      ensures State() == Handlers.CloseDeleteModal(old(State()))
    {
      isDeleteModalOpen := false;
    }

    /** The screen the component renders for the given session values. */
    method RenderedScreen(auth: Auth) returns (screen: Screen)
      ensures screen == ScreenFor(auth.isLoading, auth.isAuthenticated, view)
    {
      if auth.isLoading {
        return LoadingScreen;
      }
      if !auth.isAuthenticated && view != ProductsView {
        return LoginScreen;
      }
      screen := if view == AdminView then AdminDashboardScreen else ProductListScreen;
    }
  }

  /**
   * Two sessions the component goes through, with what each step leaves
   * behind: a visitor asking for the admin panel and then logging in, and
   * an admin deleting product 42. The login form's `onLoginSuccess` belongs
   * to the render before the login, so it reads the visitor's absent role
   * and stays on the product list; the admin panel is reached by navigating
   * again with the admin's session values.
   */
  method SessionScenarios() {
    var app := new AppContent();
    var visitor := Auth(false, None, false, None);
    app.HandleViewChange(visitor, NavAdmin);
    assert app.isLoginModalOpen && app.view == ProductsView;
    app.HandleLoginSuccess(visitor);
    assert app.view == ProductsView && !app.isLoginModalOpen;
    var admin := Auth(true, Some(Admin), false, Some("session-token"));
    app.HandleViewChange(admin, NavAdmin);
    assert app.view == AdminView && app.editingProduct == None;

    app.HandleViewChange(admin, NavProducts);
    app.HandleDeleteRequest(42);
    assert app.isDeleteModalOpen && app.productToDelete == Some(42);
    app.HandleDeleteConfirm(admin);
    assert !app.isDeleteModalOpen && app.productToDelete == None;
    assert app.deleteCalls == [DeleteCall(42, "session-token")];
    app.FireRestore();
    assert app.view == ProductsView && app.pendingRestores == [];
  }
}
