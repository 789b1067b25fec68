/**
 * The signed-in user's menu: the shortened e-mail on its button, and the
 * open / close and sign-out state.
 */
module UserMenu {
  import opened JsBuiltins

  /** An e-mail no longer than this is shown whole. */
  const MaxPlainLength: nat := 15

  /** A local part no longer than this is shown whole. */
  const KeptLocalLength: nat := 6

  /** The text JavaScript prints for a missing domain part. */
  const UndefinedText := "undefined"

  /** `formatEmail`: a short address, or one whose part before the first '@'
      is short, is shown as it is; otherwise the first six characters, then
      "...@", then the part between the first and the second '@'. */
  function FormatEmail(email: string): (r: string)
    ensures |email| <= MaxPlainLength ==> r == email
    ensures |Split(email, '@')[0]| <= KeptLocalLength ==> r == email
    ensures |email| > MaxPlainLength && |Split(email, '@')[0]| > KeptLocalLength ==>
              |r| >= KeptLocalLength + 4 &&
              r[..KeptLocalLength] == email[..KeptLocalLength] && r[KeptLocalLength..KeptLocalLength + 4] == "...@"
  {
    if |email| <= MaxPlainLength then email
    else
      var parts := Split(email, '@');
      var name := parts[0];
      var domain := if |parts| > 1 then parts[1] else UndefinedText;
      SplitHead(email, '@');
      if |name| <= KeptLocalLength then email
      else name[..KeptLocalLength] + "...@" + domain
  }

  /** A long address with one '@' and a long local part keeps six characters
      of the local part and the whole domain. */
  lemma FormatSingleAt(name: string, domain: string)
    requires '@' !in name && '@' !in domain
    requires |name| + 1 + |domain| > MaxPlainLength && |name| > KeptLocalLength
    ensures FormatEmail(name + "@" + domain) == name[..KeptLocalLength] + "...@" + domain
    ensures |FormatEmail(name + "@" + domain)| == KeptLocalLength + 4 + |domain|
  {
    SplitAfter(name, '@', domain);
    SplitNoSep(domain, '@');
  }

  /** Only the first two '@'-separated parts are used: the text after a
      second '@' is dropped. */
  lemma FormatDropsAfterSecondAt(name: string, domain: string, rest: string)
    requires '@' !in name && '@' !in domain
    requires |name| + 1 + |domain| + 1 + |rest| > MaxPlainLength && |name| > KeptLocalLength
    ensures FormatEmail(name + "@" + domain + "@" + rest) == name[..KeptLocalLength] + "...@" + domain
  {
    SplitAfter(name, '@', domain + "@" + rest);
    SplitAfter(domain, '@', rest);
    assert name + "@" + domain + "@" + rest == name + ['@'] + (domain + "@" + rest);
    assert domain + "@" + rest == domain + ['@'] + rest;
  }

  /** A long text without '@' gets the domain "undefined". */
  lemma FormatWithoutAt(email: string)
    requires '@' !in email && |email| > MaxPlainLength
    ensures FormatEmail(email) == email[..KeptLocalLength] + "...@" + UndefinedText
  {
    SplitNoSep(email, '@');
  }

  /** The button's label: the shortened e-mail, or "用戶" when the account
      has no (or an empty) e-mail. */
  function UserLabel(email: Option<string>): (r: string)
    ensures email.Some? && email.value != "" ==> r == FormatEmail(email.value)
    ensures email.None? || email.value == "" ==> r == "用戶"
  {
    if email.Some? && email.value != "" then FormatEmail(email.value) else "用戶"
  }

  /** The menu's state: the signed-in user's e-mail (absent when signed out)
      and whether the menu is open. */
  class MenuState {
    var user: Option<Option<string>>
    var isMenuOpen: bool

    constructor (user: Option<Option<string>>)
      ensures this.user == user && !isMenuOpen
    {
      this.user := user;
      isMenuOpen := false;
    }

    /** The button flips the menu. */
    method ToggleMenu()
      modifies this
      ensures isMenuOpen == !old(isMenuOpen) && user == old(user)
    {
      isMenuOpen := !isMenuOpen;
    }

    /** A press outside the menu closes it; one inside leaves it. */
    method ClickOutside(inside: bool)
      modifies this
      ensures isMenuOpen == (old(isMenuOpen) && inside) && user == old(user)
    {
      if !inside {
        isMenuOpen := false;
      }
    }

    /** `handleLogout`: the sign-out call reports an error by its result,
        which is not looked at, so the user is forgotten and the menu closed
        unless the call throws; a throw changes nothing. */
    method Logout(signOutThrew: bool)
      modifies this
      ensures !signOutThrew ==> user.None? && !isMenuOpen
      ensures signOutThrew ==> user == old(user) && isMenuOpen == old(isMenuOpen)
    {
      if !signOutThrew {
        user := None;
        isMenuOpen := false;
      }
    }
  }

  /** Toggling the menu twice leaves it as it was. */
  method ToggleTwice(m: MenuState)
    modifies m
    ensures m.isMenuOpen == old(m.isMenuOpen) && m.user == old(m.user)
  {
    m.ToggleMenu();
    m.ToggleMenu();
  }
}
