/** The admin page (client/src/pages/Admin.tsx): a password gate and the
    protector switch, which persists the flag in `localStorage`. */
module AdminPage {
  import LocalStorage
  import Proctoring

  /** The password the page compares against. */
  const AdminPassword := "Preetesh@15"

  /** The gate opens iff the typed password is exactly the fixed one. */
  predicate Authenticates(password: string): (b: bool)
    ensures b <==> password == "Preetesh@15"
  {
    password == AdminPassword
  }

  class Page {
    const store: LocalStorage.Store
    var isProtectorEnabled: bool
    var loading: bool
    var isAuthenticated: bool
    /** The text in the password field. */
    var password: string

    constructor (store: LocalStorage.Store)
      ensures this.store == store
      ensures !isProtectorEnabled && loading && !isAuthenticated && password == ""
    {
      this.store := store;
      isProtectorEnabled := false;
      loading := true;
      isAuthenticated := false;
      password := "";
    }

    /** The password field's `onChange`: the field holds what was typed. */
    method SetPassword(typed: string)
      modifies this
      ensures password == typed
      ensures isProtectorEnabled == old(isProtectorEnabled) && loading == old(loading)
      ensures isAuthenticated == old(isAuthenticated)
    {
      password := typed;
    }

    /** The mount effect: the switch shows on iff the saved flag is "true". */
    method Load()
      modifies this
      ensures isProtectorEnabled == LocalStorage.ReadsTrue(store.GetItem(LocalStorage.ProtectorModeKey))
      ensures !loading
      ensures isAuthenticated == old(isAuthenticated) && password == old(password)
    {
      var saved := store.GetItem(LocalStorage.ProtectorModeKey);
      isProtectorEnabled := LocalStorage.ReadsTrue(saved);
      loading := false;
    }

    /** `handleToggle(checked)`: the switch shows `checked` and the stored
        flag reads back as `checked`. */
    method Toggle(checked: bool)
      modifies this, store
      ensures isProtectorEnabled == checked
      ensures store.items == old(store.items)[LocalStorage.ProtectorModeKey := LocalStorage.BoolString(checked)]
      ensures LocalStorage.ReadsTrue(store.GetItem(LocalStorage.ProtectorModeKey)) == checked
      ensures loading == old(loading) && isAuthenticated == old(isAuthenticated) && password == old(password)
    {
      isProtectorEnabled := checked;
      store.SetItem(LocalStorage.ProtectorModeKey, LocalStorage.BoolString(checked));
    }

    /** `handleLogin`: the right password authenticates; a wrong one leaves
        the state as it was. */
    method Login()
      modifies this
      ensures Authenticates(old(password)) ==> isAuthenticated
      ensures !Authenticates(old(password)) ==> isAuthenticated == old(isAuthenticated)
      ensures isProtectorEnabled == old(isProtectorEnabled) && loading == old(loading) && password == old(password)
    {
      if password == AdminPassword {
        isAuthenticated := true;
      }
    }
  }

  /** A fresh page that is loaded after a toggle shows the toggled value:
      the flag survives a reload. */
  method ToggleThenReload(store: LocalStorage.Store, checked: bool) returns (shown: bool)
    modifies store
    ensures shown == checked
  {
    var page := new Page(store);
    page.Toggle(checked);
    var reloaded := new Page(store);
    reloaded.Load();
    shown := reloaded.isProtectorEnabled;
  }

  /** A proctoring hook mounted after a toggle is on iff the switch was
      turned on. */
  method ToggleThenProctor(store: LocalStorage.Store, checked: bool, options: Proctoring.Options)
    returns (enabled: bool)
    modifies store
    ensures enabled == checked
  {
    var page := new Page(store);
    page.Toggle(checked);
    var hook := new Proctoring.Proctor(options, store);
    enabled := hook.isProtectorEnabled;
  }

  /** A hook that is already mounted picks up a toggle on its next render,
      with the new options, and keeps the violations it recorded before. */
  method ToggleThenRender(store: LocalStorage.Store, hook: Proctoring.Proctor, checked: bool,
                          options: Proctoring.Options)
    returns (enabled: bool)
    modifies store, hook
    ensures enabled == checked && hook.options == options
    ensures hook.violations == old(hook.violations)
  {
    var page := new Page(store);
    page.Toggle(checked);
    hook.Render(options, store);
    enabled := hook.isProtectorEnabled;
  }

  /** Typing a password into a fresh page and submitting opens the dashboard
      iff the typed text is the admin password. */
  method TypeThenLogin(store: LocalStorage.Store, typed: string) returns (authenticated: bool)
    ensures authenticated <==> typed == AdminPassword
  {
    var page := new Page(store);
    page.SetPassword(typed);
    page.Login();
    authenticated := page.isAuthenticated;
  }
}
