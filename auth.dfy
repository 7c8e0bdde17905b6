/** The mock sign-in store: the signed-in user lives in memory and, as JSON,
    under `vl_user` in the browser store. No credential is checked. */
module Auth {
  import opened Types
  import opened Text
  import opened Web
  import opened Json

  const UserKey := "vl_user"
  const MockUserId := "1"

  /** The display name `login` derives: `email.split('@')[0]`. */
  function NameFromEmail(email: string): string {
    Split(email, '@')[0]
  }

  /** The name is the part of the address before its first `@`, or the whole
      address when it has none. */
  lemma NameIsLocalPart(email: string)
    ensures var name := NameFromEmail(email);
      && |name| <= |email| && email[..|name|] == name && '@' !in name
      && ('@' in email ==> email[|name|] == '@')
      && ('@' !in email ==> name == email)
  {
    SplitFirstPiece(email, '@');
  }

  /** The user a fresh start would restore from the store: present only when
      `vl_user` holds a non-empty, readable record. */
  function StoredUser(storage: map<string, string>): Option<User> {
    if UserKey in storage && storage[UserKey] != "" then ParseUser(storage[UserKey]) else None
  }

  class AuthProvider {
    const browser: Browser
    var user: Option<User>
    var loading: bool

    /** The in-memory user is the one the store would give back on a reload. */
    ghost predicate InSync()
      reads this, browser
    {
      user == StoredUser(browser.storage)
    }

    constructor(browser: Browser)
      ensures this.browser == browser && user == None && loading
    {
      this.browser := browser;
      user := None;
      loading := true;
    }

    /** The start-up effect. A non-empty record is parsed into `user`; a record
        that cannot be parsed makes the effect throw before `loading` is
        cleared. In every other case `loading` ends up false. */
    method Restore()
      modifies this
      ensures var saved := browser.GetItem(UserKey);
        if saved.Some? && saved.value != "" then
          if ParseUser(saved.value).Some? then user == ParseUser(saved.value) && !loading
          else user == old(user) && loading == old(loading)
        else user == old(user) && !loading
      ensures user != old(user) ==> user == StoredUser(browser.storage)
    {
      var saved := browser.GetItem(UserKey);
      if saved.Some? && saved.value != "" {
        var parsed := ParseUser(saved.value);
        if parsed.None? {
          return;
        }
        user := parsed;
      }
      loading := false;
    }

    /** Mock sign-in: any password is accepted and plays no part in the result. */
    method Login(email: string, password: string)
      modifies this, browser
      ensures user == Some(User(MockUserId, email, NameFromEmail(email)))
      ensures browser.storage == old(browser.storage)[UserKey := Stringify(user.value)]
      ensures browser.location == old(browser.location) && loading == old(loading)
      ensures InSync()
    {
      var mock := User(MockUserId, email, NameFromEmail(email));
      browser.SetItem(UserKey, Stringify(mock));
      user := Some(mock);
      ParseStringify(mock);
    }

    /** Mock sign-up: name and email are kept as given, `id` stands for the
        random identifier, and the password plays no part. */
    method Register(name: string, email: string, password: string, id: string)
      modifies this, browser
      ensures user == Some(User(id, email, name))
      ensures browser.storage == old(browser.storage)[UserKey := Stringify(user.value)]
      ensures browser.location == old(browser.location) && loading == old(loading)
      ensures InSync()
    {
      var mock := User(id, email, name);
      browser.SetItem(UserKey, Stringify(mock));
      user := Some(mock);
      ParseStringify(mock);
    }

    /** Sign-out: only `vl_user` leaves the store. */
    method Logout()
      modifies this, browser
      ensures user == None
      ensures browser.storage == old(browser.storage) - {UserKey}
      ensures forall k :: k != UserKey && k in old(browser.storage) ==> k in browser.storage && browser.storage[k] == old(browser.storage)[k]
      ensures browser.location == old(browser.location) && loading == old(loading)
      ensures InSync()
    {
      browser.RemoveItem(UserKey);
      user := None;
    }
  }
}
