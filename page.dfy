/**
 * The page shell (app/page.tsx): a client-side admin switch remembered in
 * `localStorage`, and whether the login dialog is open. It is a UI toggle,
 * not an access control.
 */
module Page {
  import opened Storage

  const AdminKey: string := "isAdmin"

  /** The stored flag that makes a page load start in admin mode. */
  predicate StoredAdmin(items: map<string, string>) {
    AdminKey in items && items[AdminKey] == "true"
  }

  /** The only accepted credentials are `admin` / `admin`. */
  predicate ValidCredentials(username: string, password: string) {
    username == "admin" && password == "admin"
  }

  class Home {
    var isAdmin: bool
    var showLogin: bool
    const store: Store

    constructor (store: Store)
      ensures this.store == store && !isAdmin && !showLogin
    {
      this.store := store;
      isAdmin, showLogin := false, false;
    }

    /** The startup effect: the admin flag is switched on iff the stored value is exactly "true". */
    method RestoreSession()
      modifies this`isAdmin
      ensures isAdmin == (old(isAdmin) || StoredAdmin(store.items))
    {
      var adminStatus := store.GetItem(AdminKey);
      if adminStatus.Some? && adminStatus.value == "true" {
        isAdmin := true;
      }
    }

    /** The "Admin Login" button. */
    method OpenLogin()
      modifies this`showLogin
      ensures showLogin
    {
      showLogin := true;
    }

    /** The login dialog's close action. */
    method CloseLogin()
      modifies this`showLogin
      ensures !showLogin
    {
      showLogin := false;
    }

    /**
     * `handleLogin`: the fixed credentials switch admin mode on, remember it
     * and close the dialog; anything else changes nothing.
     */
    method Login(username: string, password: string) returns (ok: bool)
      modifies this`isAdmin, this`showLogin, store
      ensures ok <==> ValidCredentials(username, password)
      ensures ok ==> isAdmin && !showLogin && store.items == old(store.items)[AdminKey := "true"]
      ensures ok ==> StoredAdmin(store.items)
      ensures !ok ==> isAdmin == old(isAdmin) && showLogin == old(showLogin) && store.items == old(store.items)
    {
      if username == "admin" && password == "admin" {
        isAdmin := true;
        store.SetItem(AdminKey, "true");
        showLogin := false;
        return true;
      }
      return false;
    }

    /** `handleLogout`: admin mode off and the stored flag removed, so a reload stays logged out. */
    method Logout()
      modifies this`isAdmin, store
      ensures !isAdmin && store.items == old(store.items) - {AdminKey}
      ensures !StoredAdmin(store.items)
    {
      isAdmin := false;
      store.RemoveItem(AdminKey);
    }
  }

  /**
   * A reload after a login starts in admin mode, and a reload after a logout
   * does not, whatever else the store holds.
   */
  method Reload(store: Store) returns (home: Home)
    ensures fresh(home) && home.store == store && !home.showLogin
    ensures home.isAdmin <==> StoredAdmin(store.items)
  {
    home := new Home(store);
    home.RestoreSession();
  }
}
