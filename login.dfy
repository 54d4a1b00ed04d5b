/**
 * The sign-in form (src/pages/LoginPage.jsx): `handleSubmit` trims both
 * fields, runs its own guard chain, and only then calls the store's `login`.
 */
module Login {
  import opened Wrappers
  import opened Text
  import opened Validation
  import opened Accounts
  import opened AuthRules
  import opened Store

  datatype Form = Form(email: string, password: string)

  /** One kind per message the page itself shows. */
  datatype FormError =
    | MissingCredentials   // "Please enter both email and password."
    | NotGmail             // "Email must be a gmail.com address."
    | NotSixDigits         // "Password must be exactly 6 digits."

  /** The first failing check, or the arguments passed to `login`. */
  datatype Decision = Reject(reason: FormError) | Submit(email: string, password: string)

  datatype PageError = FormRejected(reason: FormError) | StoreRejected(error: StoreError)

  /** The guard chain of `handleSubmit`. */
  function Check(form: Form): Decision
  {
    var email := Trim(form.email);
    var password := Trim(form.password);
    if email == [] || password == [] then Reject(MissingCredentials)
    else if !GmailPattern(email) then Reject(NotGmail)
    else if !DigitsPattern(password, 6) then Reject(NotSixDigits)
    else Submit(email, password)
  }

  /** The checks run blank, gmail, six digits; the first failure wins; an
      accepted form passes on the trimmed fields. */
  lemma CheckOrder(form: Form)
    ensures Check(form) == Reject(MissingCredentials) <==> Trim(form.email) == [] || Trim(form.password) == []
    ensures Check(form) == Reject(NotGmail) <==>
              Trim(form.email) != [] && Trim(form.password) != [] && !IsGmailShape(Trim(form.email))
    ensures Check(form) == Reject(NotSixDigits) <==>
              Trim(form.password) != [] && IsGmailShape(Trim(form.email)) && !IsSixDigitShape(Trim(form.password))
    ensures Check(form).Submit? <==> IsGmailShape(Trim(form.email)) && IsSixDigitShape(Trim(form.password))
    ensures Check(form).Submit? ==> Check(form) == Submit(Trim(form.email), Trim(form.password))
  {
    GmailPatternIff(Trim(form.email));
    DigitsPatternIff(Trim(form.password), 6);
  }

  /** An accepted form passes the format checks of `login`: the store can only
      refuse it for an unknown account or a wrong password. */
  lemma AcceptedFormPassesStoreChecks(form: Form, accounts: seq<Account>)
    requires Check(form).Submit?
    ensures var d := Check(form);
            var r := LoginCheck(accounts, d.email, d.password);
            r == Success || r == Failure(AccountNotFound) || r == Failure(IncorrectPassword)
  {
    TrimIdempotent(form.email);
    TrimIdempotent(form.password);
  }

  class LoginPage {
    var form: Form
    var error: Option<PageError>
    var success: bool

    constructor ()
      ensures form == Form([], []) && error == None && !success
    {
      form := Form([], []);
      error := None;
      success := false;
    }

    method HandleSubmit(store: AuthStore)
      requires store.Valid()
      modifies this, store
      ensures store.Valid() && form == old(form)
      ensures store.accounts == old(store.accounts)
      ensures Check(form).Reject? ==>
                error == Some(FormRejected(Check(form).reason)) && !success && store.currentEmail == old(store.currentEmail)
      ensures Check(form).Submit? ==>
                var d := Check(form);
                var r := LoginCheck(old(store.accounts), d.email, d.password);
                && (r == Success || r == Failure(AccountNotFound) || r == Failure(IncorrectPassword))
                && (r == Success ==>
                      && success && error == None
                      && FindByEmail(store.accounts, NormalizeEmail(d.email)).Some?
                      && var i := FindByEmail(store.accounts, NormalizeEmail(d.email)).value;
                         && store.currentEmail == store.accounts[i].email
                         && CurrentUser(store.accounts, store.currentEmail) == Some(store.accounts[i]))
                && (r.Failure? ==>
                      !success && error == Some(StoreRejected(r.error)) && store.currentEmail == old(store.currentEmail))
    {
      error := None;
      success := false;

      var decision := Check(form);
      if decision.Reject? {
        error := Some(FormRejected(decision.reason));
        return;
      }

      AcceptedFormPassesStoreChecks(form, store.accounts);
      TrimIdempotent(form.email);
      var r := store.Login(decision.email, decision.password);
      if r.Success? {
        success := true;
      } else {
        error := Some(StoreRejected(r.error));
      }
    }
  }
}
