/**
 * The profile form (src/pages/AccountPage.jsx): it is filled from the
 * signed-in user whenever that user changes; `handleSubmit` trims the fields,
 * runs its own guard chain (the new password and its confirmation are
 * optional together), calls the store's `updateProfile`, and on success
 * clears the two password fields.
 */
module AccountEditing {
  import opened Wrappers
  import opened Text
  import opened Validation
  import opened Accounts
  import opened AuthRules
  import opened Store

  datatype Form = Form(name: string, email: string, password: string, confirmPassword: string)

  /** One kind per message the page itself shows. */
  datatype FormError =
    | NameEmailRequired         // "Name and email are required."
    | NotGmail                  // "Email must be a gmail.com address."
    | NewPasswordNotSixDigits   // "New password must be exactly 6 digits."
    | PasswordsDiffer           // "Passwords must match."
    | ConfirmWithoutPassword    // "Enter a new password before confirming it."

  /** The first failing check, or the arguments passed to `updateProfile`;
      `password` is '' when no new password was entered. */
  datatype Decision = Reject(reason: FormError) | Submit(name: string, email: string, password: string)

  datatype PageError = FormRejected(reason: FormError) | StoreRejected(error: StoreError)

  /** The guard chain of `handleSubmit`. */
  function Check(form: Form): Decision
  {
    var name := Trim(form.name);
    var email := Trim(form.email);
    var password := Trim(form.password);
    var confirmPassword := Trim(form.confirmPassword);
    if name == [] || email == [] then Reject(NameEmailRequired)
    else if !GmailPattern(email) then Reject(NotGmail)
    else if password != [] && !DigitsPattern(password, 6) then Reject(NewPasswordNotSixDigits)
    else if password != [] && password != confirmPassword then Reject(PasswordsDiffer)
    else if password == [] && confirmPassword != [] then Reject(ConfirmWithoutPassword)
    else Submit(name, email, password)
  }

  /** The form the page shows for `user`: its name and email, no passwords. */
  function FormFor(user: Account): Form
  {
    Form(user.name, user.email, [], [])
  }

  /** The checks run blank, gmail, then the new password (six digits before
      matching), then a lone confirmation; the first failure wins. */
  lemma CheckOrder(form: Form)
    ensures Check(form) == Reject(NameEmailRequired) <==> Trim(form.name) == [] || Trim(form.email) == []
    ensures Check(form) == Reject(NotGmail) <==> Trim(form.name) != [] && Trim(form.email) != [] && !IsGmailShape(Trim(form.email))
    ensures Check(form) == Reject(NewPasswordNotSixDigits) <==>
              && Trim(form.name) != [] && IsGmailShape(Trim(form.email))
              && Trim(form.password) != [] && !IsSixDigitShape(Trim(form.password))
    ensures Check(form) == Reject(PasswordsDiffer) <==>
              && Trim(form.name) != [] && IsGmailShape(Trim(form.email))
              && IsSixDigitShape(Trim(form.password)) && Trim(form.password) != Trim(form.confirmPassword)
    ensures Check(form) == Reject(ConfirmWithoutPassword) <==>
              && Trim(form.name) != [] && IsGmailShape(Trim(form.email))
              && Trim(form.password) == [] && Trim(form.confirmPassword) != []
    ensures Check(form).Submit? <==>
              && Trim(form.name) != [] && IsGmailShape(Trim(form.email))
              && (Trim(form.password) == [] || IsSixDigitShape(Trim(form.password)))
              && Trim(form.password) == Trim(form.confirmPassword)
    ensures Check(form).Submit? ==> Check(form) == Submit(Trim(form.name), Trim(form.email), Trim(form.password))
  {
    GmailPatternIff(Trim(form.email));
    DigitsPatternIff(Trim(form.password), 6);
  }

  /** An accepted form passes every format check of `updateProfile`: the store
      can only refuse it when no one is signed in or the email belongs to
      another account. */
  lemma AcceptedFormPassesStoreChecks(form: Form, accounts: seq<Account>, currentEmail: string)
    requires Check(form).Submit?
    ensures var d := Check(form);
            var r := UpdateCheck(accounts, currentEmail, d.name, d.email, Some(d.password));
            r == Success || r == Failure(NotSignedIn) || r == Failure(EmailInUse)
  {
    TrimIdempotent(form.name);
    TrimIdempotent(form.email);
    TrimIdempotent(form.password);
  }

  /** With both password fields blank the form sends '' and the stored password is kept. */
  lemma BlankPasswordsKeepPassword(form: Form, user: Account)
    requires Check(form).Submit? && Trim(form.password) == []
    ensures Check(form).password == []
    ensures var d := Check(form);
            UpdatedAccount(user, d.name, d.email, Some(d.password)).password == user.password
  {
  }

  class AccountPage {
    var form: Form
    var error: Option<PageError>
    var success: bool

    constructor ()
      ensures form == Form([], [], [], []) && error == None && !success
    {
      form := Form([], [], [], []);
      error := None;
      success := false;
    }

    /** The effect that runs whenever `currentUser` changes. */
    method SyncWithUser(currentUser: Option<Account>)
      modifies this
      ensures currentUser.Some? ==> form == FormFor(currentUser.value)
      ensures currentUser.None? ==> form == old(form)
      ensures error == old(error) && success == old(success)
    {
      if currentUser.Some? {
        form := FormFor(currentUser.value);
      }
    }

    method HandleSubmit(store: AuthStore)
      requires store.Valid()
      modifies this, store
      ensures store.Valid()
      ensures Check(old(form)).Reject? ==>
                && error == Some(FormRejected(Check(old(form)).reason)) && !success && form == old(form)
                && store.accounts == old(store.accounts) && store.currentEmail == old(store.currentEmail)
      ensures Check(old(form)).Submit? ==>
                var d := Check(old(form));
                var r := UpdateCheck(old(store.accounts), old(store.currentEmail), d.name, d.email, Some(d.password));
                && (r == Success || r == Failure(NotSignedIn) || r == Failure(EmailInUse))
                && (r == Success ==>
                      var user := CurrentUser(old(store.accounts), old(store.currentEmail)).value;
                      && success && error == None
                      && form == old(form).(password := [], confirmPassword := [])
                      && store.accounts == ReplaceMatching(old(store.accounts), NormalizeEmail(user.email),
                                                           UpdatedAccount(user, d.name, d.email, Some(d.password)))
                      && store.currentEmail == d.email
                      && CurrentUser(store.accounts, store.currentEmail)
                         == Some(UpdatedAccount(user, d.name, d.email, Some(d.password))))
                && (r.Failure? ==>
                      && !success && error == Some(StoreRejected(r.error)) && form == old(form)
                      && store.accounts == old(store.accounts) && store.currentEmail == old(store.currentEmail))
    {
      error := None;
      success := false;

      var decision := Check(form);
      if decision.Reject? {
        error := Some(FormRejected(decision.reason));
        return;
      }

      AcceptedFormPassesStoreChecks(form, store.accounts, store.currentEmail);
      TrimIdempotent(form.email);
      var r := store.UpdateProfile(decision.name, decision.email, Some(decision.password));
      if r.Success? {
        success := true;
        form := form.(password := [], confirmPassword := []);
      } else {
        error := Some(StoreRejected(r.error));
      }
    }
  }
}
