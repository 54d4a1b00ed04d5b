/**
 * The registration form (src/pages/RegistrationPage.jsx): `handleSubmit`
 * trims the four fields, runs its own guard chain, and only then calls the
 * store's `register` with the trimmed name, email and password.
 */
module Registration {
  import opened Wrappers
  import opened Text
  import opened Validation
  import opened Accounts
  import opened AuthRules
  import opened Store

  datatype Form = Form(name: string, email: string, password: string, confirmPassword: string)

  /** One kind per message the page itself shows. */
  datatype FormError =
    | MissingRequiredFields   // "Please fill out all required fields."
    | NotGmail                // "Email must be a gmail.com address."
    | NotSixDigits            // "Password must be exactly 6 digits."
    | PasswordsDiffer         // "Passwords must match."

  /** The first failing check, or the arguments passed to `register`. */
  datatype Decision = Reject(reason: FormError) | Submit(name: string, email: string, password: string)

  /** The page's error line: its own message, or the message the store threw. */
  datatype PageError = FormRejected(reason: FormError) | StoreRejected(error: StoreError)

  /** The guard chain of `handleSubmit`. */
  function Check(form: Form): Decision
  {
    var name := Trim(form.name);
    var email := Trim(form.email);
    var password := Trim(form.password);
    var confirmPassword := Trim(form.confirmPassword);
    if name == [] || email == [] || password == [] then Reject(MissingRequiredFields)
    else if !GmailPattern(email) then Reject(NotGmail)
    else if !DigitsPattern(password, 6) then Reject(NotSixDigits)
    else if password != confirmPassword then Reject(PasswordsDiffer)
    else Submit(name, email, password)
  }

  /** The checks run blank, gmail, six digits, match; the first failure wins;
      an accepted form passes on the trimmed fields and never the confirmation. */
  lemma CheckOrder(form: Form)
    ensures Check(form) == Reject(MissingRequiredFields) <==>
              Trim(form.name) == [] || Trim(form.email) == [] || Trim(form.password) == []
    ensures Check(form) == Reject(NotGmail) <==>
              && Trim(form.name) != [] && Trim(form.email) != [] && Trim(form.password) != []
              && !IsGmailShape(Trim(form.email))
    ensures Check(form) == Reject(NotSixDigits) <==>
              && Trim(form.name) != [] && Trim(form.password) != []
              && IsGmailShape(Trim(form.email)) && !IsSixDigitShape(Trim(form.password))
    ensures Check(form) == Reject(PasswordsDiffer) <==>
              && Trim(form.name) != [] && IsGmailShape(Trim(form.email)) && IsSixDigitShape(Trim(form.password))
              && Trim(form.password) != Trim(form.confirmPassword)
    ensures Check(form).Submit? <==>
              && Trim(form.name) != [] && IsGmailShape(Trim(form.email)) && IsSixDigitShape(Trim(form.password))
              && Trim(form.password) == Trim(form.confirmPassword)
    ensures Check(form).Submit? ==>
              Check(form) == Submit(Trim(form.name), Trim(form.email), Trim(form.password))
  {
    GmailPatternIff(Trim(form.email));
    DigitsPatternIff(Trim(form.password), 6);
  }

  /** An accepted form passes every format check of `register`: the store can
      only refuse it as a duplicate, and does so exactly when the email is taken. */
  lemma AcceptedFormPassesStoreChecks(form: Form, accounts: seq<Account>)
    requires Check(form).Submit?
    ensures var d := Check(form);
            RegisterCheck(accounts, d.name, d.email, d.password) == Success ||
            RegisterCheck(accounts, d.name, d.email, d.password) == Failure(DuplicateEmail)
    ensures var d := Check(form);
            RegisterCheck(accounts, d.name, d.email, d.password) == Success <==>
            FindByEmail(accounts, NormalizeEmail(d.email)).None?
  {
    TrimIdempotent(form.name);
    TrimIdempotent(form.email);
    TrimIdempotent(form.password);
  }

  class RegistrationPage {
    var form: Form
    var error: Option<PageError>
    var success: bool

    constructor ()
      ensures form == Form([], [], [], []) && error == None && !success
    {
      form := Form([], [], [], []);
      error := None;
      success := false;
    }

    method HandleSubmit(store: AuthStore)
      requires store.Valid()
      modifies this, store
      ensures store.Valid() && form == old(form)
      ensures Check(form).Reject? ==>
                && error == Some(FormRejected(Check(form).reason)) && !success
                && store.accounts == old(store.accounts) && store.currentEmail == old(store.currentEmail)
      ensures Check(form).Submit? ==>
                var d := Check(form);
                var r := RegisterCheck(old(store.accounts), d.name, d.email, d.password);
                && (r == Success || r == Failure(DuplicateEmail))
                && (r == Success ==>
                      && success && error == None
                      && store.accounts == old(store.accounts) + [NewAccount(d.name, d.email, d.password)]
                      && store.currentEmail == d.email
                      && CurrentUser(store.accounts, store.currentEmail) == Some(NewAccount(d.name, d.email, d.password)))
                && (r.Failure? ==>
                      && !success && error == Some(StoreRejected(r.error))
                      && store.accounts == old(store.accounts) && store.currentEmail == old(store.currentEmail))
    {
      error := None;
      success := false;

      var decision := Check(form);
      if decision.Reject? {
        error := Some(FormRejected(decision.reason));
        return;
      }

      AcceptedFormPassesStoreChecks(form, store.accounts);
      TrimIdempotent(form.email);
      var r := store.Register(decision.name, decision.email, decision.password);
      if r.Success? {
        success := true;
      } else {
        error := Some(StoreRejected(r.error));
      }
    }
  }
}
