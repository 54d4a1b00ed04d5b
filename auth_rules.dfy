/**
 * The decisions of the account store's four operations
 * (src/context/AuthContext.jsx), as pure functions of the state before the
 * call: which error an operation throws, checked in the source's order, and
 * what the new account record is. The class in module Store performs the
 * operations step by step and is proved to follow these decisions; the
 * lemmas here state what the decisions guarantee.
 */
module AuthRules {
  import opened Wrappers
  import opened Text
  import opened Validation
  import opened Accounts

  /** One kind per distinct message the store throws. */
  datatype StoreError =
    | MissingFields        // "Please fill in name, email, and password."
    | InvalidEmail         // "Email must be a gmail.com address."
    | InvalidPassword      // "Password must be exactly 6 digits."
    | DuplicateEmail       // "An account with that email already exists."
    | AccountNotFound      // "No account found with that email."
    | IncorrectPassword    // "Incorrect password. Please try again."
    | NotSignedIn          // "You need to be signed in to edit your profile."
    | EmptyNameOrEmail     // "Name and email cannot be empty."
    | EmailInUse           // "Another account already uses that email."
    | InvalidNewPassword   // "New password must be exactly 6 digits."

  /** An operation either returns normally or throws one error. */
  datatype Outcome = Success | Failure(error: StoreError)

  /** The errors `register` throws, first failing check first. */
  function RegisterCheck(accounts: seq<Account>, name: string, email: string, password: string): Outcome
  {
    if Trim(name) == [] || Trim(email) == [] || Trim(password) == [] then Failure(MissingFields)
    else if !IsGmailAddress(Trim(email)) then Failure(InvalidEmail)
    else if !IsSixDigitPassword(Trim(password)) then Failure(InvalidPassword)
    else if FindByEmail(accounts, NormalizeEmail(email)).Some? then Failure(DuplicateEmail)
    else Success
  }

  /** The record `register` appends. */
  function NewAccount(name: string, email: string, password: string): Account
  {
    Account(Trim(name), Trim(email), Trim(password))
  }

  /** The errors `login` throws, first failing check first. */
  function LoginCheck(accounts: seq<Account>, email: string, password: string): Outcome
  {
    if !IsGmailAddress(Trim(email)) then Failure(InvalidEmail)
    else if !IsSixDigitPassword(Trim(password)) then Failure(InvalidPassword)
    else
      match FindByEmail(accounts, NormalizeEmail(Trim(email)))
      case None => Failure(AccountNotFound)
      case Some(i) => if accounts[i].password != Trim(password) then Failure(IncorrectPassword) else Success
  }

  /** `password?.trim()`, where both `undefined` and '' count as "no new password". */
  function SanitizedPassword(password: Option<string>): string
  {
    match password
    case None => []
    case Some(p) => Trim(p)
  }

  /** The errors `updateProfile` throws, first failing check first. */
  function UpdateCheck(accounts: seq<Account>, currentEmail: string, name: string, email: string,
                       password: Option<string>): Outcome
  {
    match CurrentUser(accounts, currentEmail)
    case None => Failure(NotSignedIn)
    case Some(user) =>
      if Trim(name) == [] || Trim(email) == [] then Failure(EmptyNameOrEmail)
      else if !IsGmailAddress(Trim(email)) then Failure(InvalidEmail)
      else if NormalizeEmail(Trim(email)) != NormalizeEmail(user.email)
              && FindByEmail(accounts, NormalizeEmail(Trim(email))).Some? then Failure(EmailInUse)
      else if SanitizedPassword(password) != [] && !IsSixDigitPassword(SanitizedPassword(password))
      then Failure(InvalidNewPassword)
      else Success
  }

  /** The record `updateProfile` writes for `user`: a blank or absent new password keeps the old one. */
  function UpdatedAccount(user: Account, name: string, email: string, password: Option<string>): Account
  {
    Account(Trim(name), Trim(email),
            if SanitizedPassword(password) != [] then SanitizedPassword(password) else user.password)
  }

  // ---------------------------------------------------------------------------
  // register

  /** `register` succeeds exactly when every field is well formed and the
      normalised email is new; then the record holds the trimmed values. */
  lemma RegisterSuccessIff(accounts: seq<Account>, name: string, email: string, password: string)
    ensures RegisterCheck(accounts, name, email, password) == Success <==>
              && Trim(name) != []
              && IsGmailShape(Trim(email))
              && IsSixDigitShape(Trim(password))
              && forall j :: 0 <= j < |accounts| ==> NormalizeEmail(accounts[j].email) != NormalizeEmail(email)
  {
    RulesIgnoreTrim(email);
    RulesIgnoreTrim(password);
    IsGmailAddressIff(email);
    IsSixDigitPasswordIff(password);
  }

  /** A failed `register` reports the first failing check: blank fields, then
      the email format, then the password format, then a taken email. */
  lemma RegisterFailureOrder(accounts: seq<Account>, name: string, email: string, password: string)
    ensures RegisterCheck(accounts, name, email, password) == Failure(MissingFields) <==>
              Trim(name) == [] || Trim(email) == [] || Trim(password) == []
    ensures RegisterCheck(accounts, name, email, password) == Failure(InvalidEmail) <==>
              && Trim(name) != [] && Trim(email) != [] && Trim(password) != []
              && !IsGmailShape(Trim(email))
    ensures RegisterCheck(accounts, name, email, password) == Failure(InvalidPassword) <==>
              && Trim(name) != [] && Trim(password) != []
              && IsGmailShape(Trim(email)) && !IsSixDigitShape(Trim(password))
    ensures RegisterCheck(accounts, name, email, password) == Failure(DuplicateEmail) <==>
              && Trim(name) != [] && IsGmailShape(Trim(email)) && IsSixDigitShape(Trim(password))
              && exists j :: 0 <= j < |accounts| && NormalizeEmail(accounts[j].email) == NormalizeEmail(email)
  {
    RulesIgnoreTrim(email);
    RulesIgnoreTrim(password);
    IsGmailAddressIff(email);
    IsSixDigitPasswordIff(password);
  }

  /** After a successful `register`, the session (the trimmed email) resolves to the new record. */
  lemma RegisterSignsIn(accounts: seq<Account>, name: string, email: string, password: string)
    requires RegisterCheck(accounts, name, email, password) == Success
    ensures CurrentUser(accounts + [NewAccount(name, email, password)], Trim(email))
            == Some(NewAccount(name, email, password))
  {
    var a := NewAccount(name, email, password);
    var all := accounts + [a];
    RulesIgnoreTrim(email);
    forall j | 0 <= j < |accounts| ensures NormalizeEmail(all[j].email) != NormalizeEmail(Trim(email)) {
      assert all[j] == accounts[j];
    }
    FindByEmailFirst(all, NormalizeEmail(Trim(email)), |accounts|);
  }

  /** `register` keeps the normalised emails unique. */
  lemma RegisterKeepsUnique(accounts: seq<Account>, name: string, email: string, password: string)
    requires UniqueNormalizedEmails(accounts)
    requires RegisterCheck(accounts, name, email, password) == Success
    ensures UniqueNormalizedEmails(accounts + [NewAccount(name, email, password)])
  {
    RulesIgnoreTrim(email);
    AppendKeepsUnique(accounts, NewAccount(name, email, password));
  }

  /** Once an email is registered, registering any email with the same normal
      form (a case or padding variant) fails as a duplicate. */
  lemma RegisterTwiceIsDuplicate(accounts: seq<Account>, name: string, email: string, password: string,
                                 name2: string, email2: string, password2: string)
    requires RegisterCheck(accounts, name, email, password) == Success
    requires NormalizeEmail(email2) == NormalizeEmail(email)
    requires Trim(name2) != [] && IsGmailAddress(email2) && IsSixDigitPassword(password2)
    ensures RegisterCheck(accounts + [NewAccount(name, email, password)], name2, email2, password2)
            == Failure(DuplicateEmail)
  {
    RulesIgnoreTrim(email);
    RulesIgnoreTrim(email2);
    RulesIgnoreTrim(password2);
    RulesRejectBlank(email2);
    RulesRejectBlank(password2);
    var all := accounts + [NewAccount(name, email, password)];
    assert NormalizeEmail(all[|accounts|].email) == NormalizeEmail(email2);
  }

  // ---------------------------------------------------------------------------
  // login

  /** A failed `login` reports the first failing check: format before lookup,
      lookup before password. */
  lemma LoginFailureOrder(accounts: seq<Account>, email: string, password: string)
    ensures LoginCheck(accounts, email, password) == Failure(InvalidEmail) <==> !IsGmailShape(Trim(email))
    ensures LoginCheck(accounts, email, password) == Failure(InvalidPassword) <==>
              IsGmailShape(Trim(email)) && !IsSixDigitShape(Trim(password))
    ensures LoginCheck(accounts, email, password) == Failure(AccountNotFound) <==>
              && IsGmailShape(Trim(email)) && IsSixDigitShape(Trim(password))
              && forall j :: 0 <= j < |accounts| ==> NormalizeEmail(accounts[j].email) != NormalizeEmail(email)
  {
    RulesIgnoreTrim(email);
    RulesIgnoreTrim(password);
    GmailPatternIff(Trim(email));
    DigitsPatternIff(Trim(password), 6);
  }

  /** Once both formats pass and the account is found, its stored password
      decides: a mismatch is reported as incorrect, a match signs in. */
  lemma LoginPasswordDecides(accounts: seq<Account>, email: string, password: string)
    ensures var found := FindByEmail(accounts, NormalizeEmail(email));
            LoginCheck(accounts, email, password) == Failure(IncorrectPassword) <==>
              && IsGmailShape(Trim(email)) && IsSixDigitShape(Trim(password))
              && found.Some? && accounts[found.value].password != Trim(password)
    ensures var found := FindByEmail(accounts, NormalizeEmail(email));
            LoginCheck(accounts, email, password) == Success <==>
              && IsGmailShape(Trim(email)) && IsSixDigitShape(Trim(password))
              && found.Some? && accounts[found.value].password == Trim(password)
  {
    RulesIgnoreTrim(email);
    RulesIgnoreTrim(password);
    IsGmailAddressIff(email);
    IsSixDigitPasswordIff(password);
    var found := FindByEmail(accounts, NormalizeEmail(email));
    assert found == FindByEmail(accounts, NormalizeEmail(Trim(email)));
    var formatsPass := IsGmailShape(Trim(email)) && IsSixDigitShape(Trim(password));
    if formatsPass && found.Some? {
      assert LoginCheck(accounts, email, password) ==
             if accounts[found.value].password != Trim(password) then Failure(IncorrectPassword) else Success;
    } else {
      assert LoginCheck(accounts, email, password) != Success;
      assert LoginCheck(accounts, email, password) != Failure(IncorrectPassword);
    }
  }

  /** With unique emails, `login` with a stored account's email (in any case
      or padding) and its password succeeds. */
  lemma LoginAcceptsStoredCredentials(accounts: seq<Account>, i: nat, email: string, password: string)
    requires UniqueNormalizedEmails(accounts) && i < |accounts|
    requires IsGmailAddress(email) && NormalizeEmail(email) == NormalizeEmail(accounts[i].email)
    requires IsSixDigitPassword(password) && Trim(password) == accounts[i].password
    ensures LoginCheck(accounts, email, password) == Success
  {
    RulesIgnoreTrim(email);
    RulesIgnoreTrim(password);
    FindByEmailUnique(accounts, i);
  }

  /** A successful `login` sets the session to the stored email of the account
      found, and the session then resolves to that very account. */
  lemma LoginSignsIn(accounts: seq<Account>, email: string, password: string)
    requires LoginCheck(accounts, email, password) == Success
    ensures FindByEmail(accounts, NormalizeEmail(Trim(email))).Some?
    ensures var i := FindByEmail(accounts, NormalizeEmail(Trim(email))).value;
            CurrentUser(accounts, accounts[i].email) == Some(accounts[i])
  {
    var i := FindByEmail(accounts, NormalizeEmail(Trim(email))).value;
    RulesIgnoreTrim(email);
    RulesRejectBlank(email);
    NonEmptyNormalForm(accounts[i].email);
  }

  /** What was registered can be used to sign in. */
  lemma RegisterThenLogin(accounts: seq<Account>, name: string, email: string, password: string)
    requires RegisterCheck(accounts, name, email, password) == Success
    ensures LoginCheck(accounts + [NewAccount(name, email, password)], email, password) == Success
  {
    var a := NewAccount(name, email, password);
    var all := accounts + [a];
    RulesIgnoreTrim(email);
    RulesIgnoreTrim(password);
    forall j | 0 <= j < |accounts| ensures NormalizeEmail(all[j].email) != NormalizeEmail(Trim(email)) {
      assert all[j] == accounts[j];
    }
    FindByEmailFirst(all, NormalizeEmail(Trim(email)), |accounts|);
  }

  // ---------------------------------------------------------------------------
  // logout

  /** After `logout` (session '') no one is signed in. */
  lemma LogoutSignsOut(accounts: seq<Account>)
    ensures CurrentUser(accounts, []) == None
  {
  }

  // ---------------------------------------------------------------------------
  // updateProfile

  /** `updateProfile` reports the first failing check: no one signed in, then
      a blank name or email, then the email format, then an email held by
      another account, then a malformed new password; otherwise it succeeds. */
  lemma UpdateFailureOrder(accounts: seq<Account>, currentEmail: string, name: string, email: string,
                           password: Option<string>)
    ensures UpdateCheck(accounts, currentEmail, name, email, password) == Failure(NotSignedIn) <==>
              CurrentUser(accounts, currentEmail).None?
    ensures UpdateCheck(accounts, currentEmail, name, email, password) == Failure(EmptyNameOrEmail) <==>
              CurrentUser(accounts, currentEmail).Some? && (Trim(name) == [] || Trim(email) == [])
    ensures UpdateCheck(accounts, currentEmail, name, email, password) == Failure(InvalidEmail) <==>
              && CurrentUser(accounts, currentEmail).Some? && Trim(name) != [] && Trim(email) != []
              && !IsGmailShape(Trim(email))
    ensures var user := CurrentUser(accounts, currentEmail);
            UpdateCheck(accounts, currentEmail, name, email, password) == Failure(EmailInUse) <==>
              && user.Some? && Trim(name) != [] && IsGmailShape(Trim(email))
              && NormalizeEmail(email) != NormalizeEmail(user.value.email)
              && FindByEmail(accounts, NormalizeEmail(email)).Some?
    ensures var user := CurrentUser(accounts, currentEmail);
            UpdateCheck(accounts, currentEmail, name, email, password) == Failure(InvalidNewPassword) <==>
              && user.Some? && Trim(name) != [] && IsGmailShape(Trim(email))
              && (NormalizeEmail(email) == NormalizeEmail(user.value.email)
                  || FindByEmail(accounts, NormalizeEmail(email)).None?)
              && SanitizedPassword(password) != [] && !IsSixDigitShape(SanitizedPassword(password))
    ensures var user := CurrentUser(accounts, currentEmail);
            UpdateCheck(accounts, currentEmail, name, email, password) == Success <==>
              && user.Some? && Trim(name) != [] && IsGmailShape(Trim(email))
              && (NormalizeEmail(email) == NormalizeEmail(user.value.email)
                  || FindByEmail(accounts, NormalizeEmail(email)).None?)
              && (SanitizedPassword(password) == [] || IsSixDigitShape(SanitizedPassword(password)))
  {
    RulesIgnoreTrim(email);
    IsGmailAddressIff(email);
    IsSixDigitPasswordIff(SanitizedPassword(password));
    if password.Some? {
      TrimIdempotent(password.value);
    }
  }

  /** Changing only the case or padding of one's own email never conflicts. */
  lemma UpdateOwnEmailNoConflict(accounts: seq<Account>, currentEmail: string, name: string, email: string,
                                 password: Option<string>)
    requires CurrentUser(accounts, currentEmail).Some?
    requires NormalizeEmail(email) == NormalizeEmail(CurrentUser(accounts, currentEmail).value.email)
    ensures UpdateCheck(accounts, currentEmail, name, email, password) != Failure(EmailInUse)
  {
    RulesIgnoreTrim(email);
  }

  /** Taking the email of another account is refused, however it is padded or cased. */
  lemma UpdateToOtherEmailRefused(accounts: seq<Account>, currentEmail: string, i: nat, name: string,
                                  email: string, password: Option<string>)
    requires CurrentUser(accounts, currentEmail).Some? && i < |accounts|
    requires accounts[i] != CurrentUser(accounts, currentEmail).value
    requires UniqueNormalizedEmails(accounts)
    requires Trim(name) != [] && IsGmailAddress(email)
    requires NormalizeEmail(email) == NormalizeEmail(accounts[i].email)
    ensures UpdateCheck(accounts, currentEmail, name, email, password) == Failure(EmailInUse)
  {
    RulesIgnoreTrim(email);
    RulesRejectBlank(email);
    var user := CurrentUser(accounts, currentEmail).value;
    var k := FindByEmail(accounts, NormalizeEmail(currentEmail)).value;
    FindByEmailUnique(accounts, k);
    FindByEmailUnique(accounts, i);
  }

  /** A blank or absent new password keeps the stored password exactly. */
  lemma UpdateKeepsPassword(user: Account, name: string, email: string, password: Option<string>)
    requires password.None? || Trim(password.value) == []
    ensures UpdatedAccount(user, name, email, password).password == user.password
  {
  }

  /** The record written by a successful `updateProfile` passes the store's own rules,
      provided the record it replaces did. */
  lemma UpdatedAccountWellFormed(accounts: seq<Account>, currentEmail: string, name: string, email: string,
                                 password: Option<string>)
    requires UpdateCheck(accounts, currentEmail, name, email, password) == Success
    requires IsSixDigitPassword(CurrentUser(accounts, currentEmail).value.password)
    ensures var a := UpdatedAccount(CurrentUser(accounts, currentEmail).value, name, email, password);
            Trim(a.name) == a.name != [] && IsGmailAddress(a.email) && IsSixDigitPassword(a.password)
  {
    TrimIdempotent(name);
    RulesIgnoreTrim(email);
  }

  /** After a successful `updateProfile` the session (the trimmed new email)
      resolves to the rewritten record. */
  lemma UpdateSignsIn(accounts: seq<Account>, currentEmail: string, name: string, email: string,
                      password: Option<string>)
    requires UpdateCheck(accounts, currentEmail, name, email, password) == Success
    ensures var user := CurrentUser(accounts, currentEmail).value;
            var a := UpdatedAccount(user, name, email, password);
            CurrentUser(ReplaceMatching(accounts, NormalizeEmail(user.email), a), Trim(email)) == Some(a)
  {
    var user := CurrentUser(accounts, currentEmail).value;
    var a := UpdatedAccount(user, name, email, password);
    var k := FindByEmail(accounts, NormalizeEmail(currentEmail)).value;
    assert NormalizeEmail(user.email) == NormalizeEmail(currentEmail);
    ReplaceThenFind(accounts, NormalizeEmail(user.email), a, k);
  }

  /** `updateProfile` keeps the normalised emails unique, and then rewrites
      exactly the signed-in user's entry. */
  lemma UpdateKeepsUnique(accounts: seq<Account>, currentEmail: string, name: string, email: string,
                          password: Option<string>)
    requires UniqueNormalizedEmails(accounts)
    requires UpdateCheck(accounts, currentEmail, name, email, password) == Success
    ensures var user := CurrentUser(accounts, currentEmail).value;
            var a := UpdatedAccount(user, name, email, password);
            var k := FindByEmail(accounts, NormalizeEmail(user.email)).value;
            && UniqueNormalizedEmails(ReplaceMatching(accounts, NormalizeEmail(user.email), a))
            && ReplaceMatching(accounts, NormalizeEmail(user.email), a) == accounts[k := a]
            && accounts[k] == user
  {
    var user := CurrentUser(accounts, currentEmail).value;
    var a := UpdatedAccount(user, name, email, password);
    var k := FindByEmail(accounts, NormalizeEmail(currentEmail)).value;
    assert NormalizeEmail(user.email) == NormalizeEmail(currentEmail);
    ReplaceKeepsUnique(accounts, NormalizeEmail(user.email), a);
    ReplaceTouchesOnlyMatch(accounts, NormalizeEmail(user.email), a, k);
  }
}
