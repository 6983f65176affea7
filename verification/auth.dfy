/**
 * The sign-in side of the header: the loading state of the auth buttons, the
 * check the login and signup forms make before calling the auth service, the
 * name shown for a signed-in user, the `auth:changed` event and its admin
 * flag, and the `dataset` flags that keep every handler bound once.
 */
module Auth {
  import opened Wrappers
  import opened Text
  import opened Dom

  const AccountFallback := "Account"
  const AdminRole := "admin"

  /** `setBtnLoading(btn, true, textWhenLoading)`: unlike the shared helper, the text is always replaced. */
  function LoadingWith(s: ButtonState, textWhenLoading: string): ButtonState {
    ButtonState(textWhenLoading, SavedLabel(s), true, true)
  }

  /** For a non-empty loading text the two loading helpers agree. */
  lemma LoadingWithAgrees(s: ButtonState, textWhenLoading: string)
    requires textWhenLoading != []
    ensures LoadingWith(s, textWhenLoading) == Loading(s, textWhenLoading)
  {
  }

  /** A sign-in or sign-up attempt shows its loading text and, once it ends, gives the button its text back. */
  lemma AttemptRestoresButton(s: ButtonState, textWhenLoading: string)
    requires s.saved == [] || s.saved == s.text
    ensures LoadingWith(s, textWhenLoading).text == textWhenLoading
    ensures s.text != [] ==> Idle(LoadingWith(s, textWhenLoading)).text == s.text
    ensures !Idle(LoadingWith(s, textWhenLoading)).disabled
  {
  }

  /** `setBtnLoading(btn, loading, textWhenLoading)`; a missing button is left alone. */
  method SetBtnLoading(btn: Button?, loading: bool, textWhenLoading: string)
    modifies btn
    ensures btn != null ==>
      btn.State() == if loading then LoadingWith(old(btn.State()), textWhenLoading) else Idle(old(btn.State()))
  {
    if btn == null {
      return;
    }
    if loading {
      if btn.saved == [] {
        btn.saved := btn.text;
      }
      btn.text := textWhenLoading;
      btn.disabled := true;
      btn.busy := true;
    } else {
      btn.text := if btn.saved != [] then btn.saved else btn.text;
      btn.disabled := false;
      btn.busy := false;
    }
  }

  /**
   * The form check before a sign-in or sign-up: the trimmed e-mail (`None` for
   * a missing field) and the password ("" for a missing one) must both be
   * non-empty.
   */
  function Credentials(email: Option<string>, password: string): (r: Option<(string, string)>)
    ensures r.Some? <==> email.Some? && Trim(email.value) != [] && password != []
    ensures r.Some? ==> r.value.0 == Trim(email.value) && r.value.1 == password
    ensures r.Some? ==> r.value.0 != [] && IsTrimmed(r.value.0)
  {
    if email.None? then None
    else
      var e := Trim(email.value);
      if e == [] || password == [] then None else Some((e, password))
  }

  /** An address written with spaces around it is accepted as the address itself. */
  lemma CredentialsTrimEmail(pre: string, address: string, post: string, password: string)
    requires AllSpace(pre) && AllSpace(post) && IsTrimmed(address) && address != []
    requires password != []
    ensures Credentials(Some(pre + address + post), password) == Some((address, password))
  {
    TrimSurrounded(pre, address, post);
  }

  /** How a form submission ends. */
  datatype Attempt = Refused | Succeeded | Failed

  /**
   * A login or signup form's submit handler: nothing happens for incomplete
   * input; otherwise the submit button shows its loading text ("Signing in…"
   * or "Signing up…") while the auth call runs and is restored when it ends,
   * whatever the outcome.
   */
  method Submit(btn: Button?, email: Option<string>, password: string, loadingText: string, authFails: bool)
    returns (a: Attempt)
    modifies btn
    ensures a == Refused <==> Credentials(email, password).None?
    ensures a == Refused ==> btn == null || btn.State() == old(btn.State())
    ensures a != Refused ==> (a == Failed <==> authFails)
    ensures a != Refused && btn != null ==> btn.State() == Idle(LoadingWith(old(btn.State()), loadingText))
  {
    var creds := Credentials(email, password);
    if creds.None? {
      return Refused;
    }
    SetBtnLoading(btn, true, loadingText);
    a := if authFails then Failed else Succeeded;
    SetBtnLoading(btn, false, []);
  }

  /** The name shown for a signed-in user: profile name, else first name, else e-mail, else "Account". */
  function AccountName(profileName: string, firstName: string, email: string): (r: string)
    ensures r != []
    ensures r == profileName || r == firstName || r == email || r == AccountFallback
    ensures profileName != [] ==> r == profileName
    ensures profileName == [] && firstName != [] ==> r == firstName
    ensures profileName == [] && firstName == [] && email != [] ==> r == email
    ensures profileName == [] && firstName == [] && email == [] ==> r == AccountFallback
  {
    if profileName != [] then profileName
    else if firstName != [] then firstName
    else if email != [] then email
    else AccountFallback
  }

  /** The first non-empty text of a list, or "" when there is none: what a chain of `||` picks. */
  function FirstNonEmpty(xs: seq<string>): string {
    if xs == [] then [] else if xs[0] != [] then xs[0] else FirstNonEmpty(xs[1..])
  }

  /** The account name is the first non-empty candidate of the chain ending in "Account". */
  lemma AccountNameIsFirstNonEmpty(profileName: string, firstName: string, email: string)
    ensures AccountName(profileName, firstName, email) == FirstNonEmpty([profileName, firstName, email, AccountFallback])
  {
    var xs := [profileName, firstName, email, AccountFallback];
    assert xs[1..] == [firstName, email, AccountFallback];
    assert xs[1..][1..] == [email, AccountFallback];
    assert xs[1..][1..][1..] == [AccountFallback];
    assert FirstNonEmpty(xs[1..][1..][1..]) == AccountFallback;
    assert FirstNonEmpty(xs[1..][1..]) == AccountName([], [], email);
    assert FirstNonEmpty(xs[1..]) == AccountName([], firstName, email);
  }

  /** `(profile?.role || '').toLowerCase() === 'admin'`; a missing role is "". */
  predicate IsAdminRole(role: string) {
    ToLower(role) == AdminRole
  }

  /** The admin test ignores letter case and needs exactly the five letters of "admin". */
  lemma AdminRoleIgnoresCase(role: string)
    ensures IsAdminRole(role) <==> IsAdminRole(ToLower(role))
    ensures IsAdminRole(role) ==> |role| == 5
    ensures !IsAdminRole([])
  {
    if IsAdminRole(ToLower(role)) {
      forall i | 0 <= i < |role| ensures ToLower(role)[i] == AdminRole[i] {
        assert ToLower(ToLower(role))[i] == LowerChar(LowerChar(role[i]));
      }
    }
  }

  /** The detail of `auth:changed`. */
  datatype AuthEvent = AuthEvent(isAdmin: bool, user: Option<string>)

  /** The event after rendering the header: for a signed-in user with a role, or signed out. */
  function HeaderEvent(session: Option<(string, string)>): (e: AuthEvent)
    ensures e.user.None? <==> session.None?
    ensures session.Some? ==> e.user == Some(session.value.0)
    ensures e.isAdmin <==> session.Some? && IsAdminRole(session.value.1)
    ensures e.isAdmin ==> e.user.Some?
  {
    if session.Some? then AuthEvent(IsAdminRole(session.value.1), Some(session.value.0))
    else AuthEvent(false, None)
  }

  /**
   * The `dataset.bound` / `dataset.boundClose` flags: each element's handler is
   * attached only when its flag is unset, and attaching sets it.
   */
  class Bindings {
    /** The elements whose flag is set. */
    var bound: set<string>
    /** How many times a handler was attached to each element. */
    var handlers: map<string, nat>

    ghost predicate Valid()
      reads this
    {
      && handlers.Keys == bound
      && forall e :: e in handlers ==> handlers[e] == 1
    }

    constructor ()
      ensures Valid() && bound == {}
    {
      bound := {};
      handlers := map[];
    }

    /** One `bind…` call on element `e`: a no-op when its flag is set. */
    method Bind(e: string) returns (attached: bool)
      requires Valid()
      modifies this
      ensures Valid()
      ensures attached <==> e !in old(bound)
      ensures bound == old(bound) + {e}
      ensures e in handlers && handlers[e] == 1
      ensures forall x :: x != e && x in old(handlers) ==> x in handlers && handlers[x] == old(handlers)[x]
    {
      if e in bound {
        return false;
      }
      bound := bound + {e};
      handlers := handlers[e := 1];
      attached := true;
    }
  }
}
