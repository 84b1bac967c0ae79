/** The login page (src/pages/Index.tsx). It does not go through the
    authentication context: its deferred step writes the stored flag itself
    and navigates to the dashboard. */
module Login {
  import opened WebStorage
  import Auth

  /** What a submission of the form led to: the validation message, a started
      login, the browser refusing a malformed e-mail address before the
      handler runs, or nothing because the form was disabled. */
  datatype SubmitOutcome = MissingCredentials | Started | InvalidEmail | Ignored

  predicate IsAsciiAlphanumeric(c: char)
  {
    'a' <= c <= 'z' || 'A' <= c <= 'Z' || '0' <= c <= '9'
  }

  /** A character allowed before the '@' of a valid e-mail address. */
  predicate IsLocalPartChar(c: char)
  {
    IsAsciiAlphanumeric(c) || c in ".!#$%&'*+/=?^_`{|}~-"
  }

  /** One dot-separated part of the domain: 1 to 63 letters, digits or
      hyphens, starting and ending with a letter or digit. */
  predicate IsDomainLabel(part: string)
  {
    1 <= |part| <= 63 &&
    IsAsciiAlphanumeric(part[0]) && IsAsciiAlphanumeric(part[|part| - 1]) &&
    forall i :: 0 <= i < |part| ==> IsAsciiAlphanumeric(part[i]) || part[i] == '-'
  }

  /** Index of the first `c` in `s`, or `|s|` when there is none. */
  function IndexOf(s: string, c: char): (i: nat)
    ensures i <= |s|
    ensures forall j :: 0 <= j < i ==> s[j] != c
    ensures i < |s| ==> s[i] == c
  {
    if s == [] then 0 else if s[0] == c then 0 else 1 + IndexOf(s[1..], c)
  }

  /** One or more labels joined by '.'. */
  predicate IsDomain(domain: string)
    decreases |domain|
  {
    var dot := IndexOf(domain, '.');
    if dot == |domain| then IsDomainLabel(domain)
    else IsDomainLabel(domain[..dot]) && IsDomain(domain[dot + 1..])
  }

  /** A "valid e-mail address" as the HTML standard defines it for an input of
      type "email": a non-empty local part, one '@', and a domain. */
  predicate IsValidEmailAddress(s: string)
  {
    var at := IndexOf(s, '@');
    at < |s| && 0 < at &&
    (forall i :: 0 <= i < at ==> IsLocalPartChar(s[i])) &&
    IsDomain(s[at + 1..])
  }

  /** The browser's constraint validation of the e-mail input: with no
      `required` attribute an empty value passes, any other value must be a
      valid e-mail address. */
  predicate EmailInputValid(email: string)
  {
    email == "" || IsValidEmailAddress(email)
  }

  /** A valid address holds exactly one '@', with something on each side. */
  lemma {:induction false} ValidAddressHasOneAt(s: string)
    requires IsValidEmailAddress(s)
    ensures exists at :: 0 < at < |s| - 1 && s[at] == '@' &&
                         (forall j :: 0 <= j < |s| && j != at ==> s[j] != '@')
  {
    var at := IndexOf(s, '@');
    var domain := s[at + 1..];
    DomainHasNoAt(domain);
    assert domain != [];
    forall j | 0 <= j < |s| && j != at
      ensures s[j] != '@'
    {
      if j > at {
        assert s[j] == domain[j - at - 1];
      }
    }
  }

  /** No '@' appears in a domain. */
  lemma {:induction false} DomainHasNoAt(domain: string)
    requires IsDomain(domain)
    ensures forall j :: 0 <= j < |domain| ==> domain[j] != '@'
    decreases |domain|
  {
    var dot := IndexOf(domain, '.');
    if dot < |domain| {
      DomainHasNoAt(domain[dot + 1..]);
      forall j | 0 <= j < |domain|
        ensures domain[j] != '@'
      {
        if j < dot {
          assert domain[j] == domain[..dot][j];
        } else if j > dot {
          assert domain[j] == domain[dot + 1..][j - dot - 1];
        }
      }
    }
  }

  /** The browser accepts an empty e-mail input, since it is not `required`. */
  lemma EmptyEmailAccepted()
    ensures EmailInputValid("")
  {
  }

  /** The first `c` in `a + [c] + b` is the one after `a` when `a` has none. */
  lemma {:induction false} IndexOfFirst(a: string, c: char, b: string)
    requires forall i :: 0 <= i < |a| ==> a[i] != c
    ensures IndexOf(a + [c] + b, c) == |a|
  {
    if a != [] {
      IndexOfFirst(a[1..], c, b);
      assert (a + [c] + b)[1..] == a[1..] + [c] + b;
    }
  }

  /** With no `c` in `a`, `IndexOf` gives `|a|`. */
  lemma {:induction false} IndexOfAbsent(a: string, c: char)
    requires forall i :: 0 <= i < |a| ==> a[i] != c
    ensures IndexOf(a, c) == |a|
  {
    if a != [] {
      IndexOfAbsent(a[1..], c);
    }
  }

  /** The browser refuses a bare name: it has no '@'. */
  lemma BareNameRefused()
    ensures !EmailInputValid("ana")
  {
    IndexOfAbsent("ana", '@');
  }

  /** A local part and a domain joined by '@' make a valid address. */
  lemma JoinAddress(local: string, domain: string)
    requires local != [] && forall i :: 0 <= i < |local| ==> IsLocalPartChar(local[i])
    requires IsDomain(domain)
    ensures IsValidEmailAddress(local + ['@'] + domain)
  {
    var s := local + ['@'] + domain;
    assert forall i :: 0 <= i < |local| ==> local[i] != '@' by {
      forall i | 0 <= i < |local|
        ensures local[i] != '@'
      {
        assert IsLocalPartChar(local[i]);
      }
    }
    IndexOfFirst(local, '@', domain);
    assert s[|local| + 1..] == domain;
    assert forall i :: 0 <= i < |local| ==> s[i] == local[i];
  }

  /** A label followed by '.' and a domain is a domain. */
  lemma JoinDomain(part: string, domain: string)
    requires IsDomainLabel(part) && IsDomain(domain)
    ensures IsDomain(part + ['.'] + domain)
  {
    var d := part + ['.'] + domain;
    IndexOfFirst(part, '.', domain);
    assert d[..|part|] == part;
    assert d[|part| + 1..] == domain;
  }

  /** A single label is a domain. */
  lemma LabelDomain(part: string)
    requires IsDomainLabel(part)
    ensures IsDomain(part)
  {
    IndexOfAbsent(part, '.');
  }

  /** The address the login flow types is a valid e-mail address. */
  lemma ExampleAddressValid()
    ensures IsValidEmailAddress("ana@empresa.com")
  {
    var domain := "empresa" + ['.'] + "com";
    assert IsDomain(domain) by {
      ExampleDomain();
    }
    assert IsValidEmailAddress("ana" + ['@'] + domain) by {
      assert forall i :: 0 <= i < 3 ==> IsLocalPartChar("ana"[i]);
      JoinAddress("ana", domain);
    }
    ExampleAddressText();
  }

  lemma ExampleAddressText()
    ensures "ana" + ['@'] + ("empresa" + ['.'] + "com") == "ana@empresa.com"
  {
  }

  lemma ExampleDomain()
    ensures IsDomain("empresa" + ['.'] + "com")
  {
    assert IsDomainLabel("com");
    LabelDomain("com");
    assert IsDomainLabel("empresa");
    JoinDomain("empresa", "com");
  }

  class LoginPage {
    var email: string
    var password: string
    var isLoading: bool
    /** Deferred steps scheduled and not yet run, and those already run. */
    var pending: nat
    var completed: nat
    const browser: Browser

    /** A page starts at most one login: `isLoading` is set when it starts
        and is never cleared, and the form is disabled while it is set. */
    ghost predicate Valid()
      reads this
    {
      pending + completed <= 1 && (isLoading <==> pending + completed == 1)
    }

    constructor(browser: Browser)
      ensures Valid() && this.browser == browser
      ensures email == "" && password == "" && !isLoading
      ensures pending == 0 && completed == 0
    {
      this.browser := browser;
      email, password, isLoading := "", "", false;
      pending, completed := 0, 0;
    }

    /** Typing into the e-mail input; a disabled input takes no input. */
    method ChangeEmail(value: string)
      requires Valid()
      modifies this
      ensures Valid()
      ensures email == if old(isLoading) then old(email) else value
      ensures password == old(password) && isLoading == old(isLoading)
      ensures pending == old(pending) && completed == old(completed)
    {
      if !isLoading {
        email := value;
      }
    }

    /** Typing into the password input; a disabled input takes no input. */
    method ChangePassword(value: string)
      requires Valid()
      modifies this
      ensures Valid()
      ensures password == if old(isLoading) then old(password) else value
      ensures email == old(email) && isLoading == old(isLoading)
      ensures pending == old(pending) && completed == old(completed)
    {
      if !isLoading {
        password := value;
      }
    }

    /** Submitting the form: with the button and both inputs disabled while
        loading, there is no submission then. Otherwise the browser first
        validates the e-mail input and cancels the submission when it holds
        something that is not an e-mail address; only then does
        `handleLogin` run. */
    method Submit() returns (outcome: SubmitOutcome)
      requires Valid()
      modifies this
      ensures Valid()
      ensures old(isLoading) ==> outcome == Ignored
      ensures !old(isLoading) && !EmailInputValid(old(email)) ==> outcome == InvalidEmail
      ensures !old(isLoading) && EmailInputValid(old(email)) && (old(email) == "" || old(password) == "") ==>
        outcome == MissingCredentials
      ensures outcome == Started <==>
        !old(isLoading) && IsValidEmailAddress(old(email)) && old(password) != ""
      ensures outcome != Started ==>
        isLoading == old(isLoading) && pending == old(pending) && completed == old(completed)
      ensures outcome == Started ==> isLoading && pending == 1 && completed == 0
      ensures email == old(email) && password == old(password)
    {
      if isLoading {
        return Ignored;
      }
      if !EmailInputValid(email) {
        return InvalidEmail;
      }
      outcome := HandleLogin();
    }

    /** `handleLogin`: empty fields stop it after the error message;
        otherwise `isLoading` is set and the deferred step is scheduled. No
        credential is checked. The storage is not touched here. */
    method HandleLogin() returns (outcome: SubmitOutcome)
      requires Valid() && !isLoading
      modifies this
      ensures Valid()
      ensures outcome == if old(email) == "" || old(password) == "" then MissingCredentials else Started
      ensures outcome == MissingCredentials ==>
        !isLoading && pending == old(pending) && completed == old(completed)
      ensures outcome == Started ==> isLoading && pending == old(pending) + 1 && completed == old(completed)
      ensures email == old(email) && password == old(password)
    {
      if email == "" || password == "" {
        return MissingCredentials;
      }
      isLoading := true;
      pending := pending + 1;
      outcome := Started;
    }

    /** The deferred step runs (after 1500 ms in the source): the flag is
        stored and the app navigates to the dashboard. `isLoading` stays
        set: only the unreachable error branch would clear it. */
    method CompleteLogin()
      requires Valid() && pending > 0
      modifies this, browser
      ensures Valid()
      ensures browser.storage == SetItem(old(browser.storage), Auth.AuthKey, "true")
      ensures browser.path == "/dashboard"
      ensures isLoading && pending == old(pending) - 1 && completed == old(completed) + 1
      ensures email == old(email) && password == old(password)
    {
      browser.storage := SetItem(browser.storage, Auth.AuthKey, "true");
      browser.Navigate("/dashboard");
      pending := pending - 1;
      completed := completed + 1;
    }
  }

  /** A login page used as the source intends: a bare name is refused by the
      browser and an empty password by the page, with nothing written; once
      both fields are filled, one submission starts the login, a second one is
      ignored, and when the deferred step runs the stored flag reads true and
      the dashboard is shown. */
  method LoginFlow(browser: Browser)
    modifies browser
    ensures Auth.StoredFlag(browser.storage) && browser.path == "/dashboard"
  {
    var page := new LoginPage(browser);
    BareNameRefused();
    ExampleAddressValid();
    page.ChangeEmail("ana");
    var malformed := page.Submit();
    assert malformed == InvalidEmail && browser.storage == old(browser.storage);
    page.ChangeEmail("ana@empresa.com");
    var refused := page.Submit();
    assert refused == MissingCredentials && browser.storage == old(browser.storage);
    page.ChangePassword("secreto");
    var started := page.Submit();
    assert started == Started;
    var again := page.Submit();
    assert again == Ignored && page.pending == 1;
    page.CompleteLogin();
    assert page.isLoading;
  }
}
