/**
 * A walk through the store with concrete values: register, sign in with the
 * email in capitals, sign in with a wrong password, and edit the name
 * without touching the password.
 */
module Scenario {
  import opened Wrappers
  import opened Text
  import opened Validation
  import opened Accounts
  import opened AuthRules
  import opened Storage
  import opened Store

  lemma LowerEmailShape()
    ensures IsGmailShape("alex.johnson@gmail.com")
  {
    assert "alex.johnson@gmail.com"[12..] == GmailDomain;
  }

  lemma UpperDomainLowers()
    ensures ToLower("@GMAIL.COM") == GmailDomain
  {
  }

  lemma UpperEmailShape()
    ensures IsGmailShape("ALEX.JOHNSON@GMAIL.COM")
  {
    var t := "ALEX.JOHNSON@GMAIL.COM";
    assert t[12..] == "@GMAIL.COM";
    UpperDomainLowers();
  }

  lemma LowerEmailIsGmail()
    ensures Trim("alex.johnson@gmail.com") == "alex.johnson@gmail.com"
    ensures IsGmailAddress("alex.johnson@gmail.com")
  {
    TrimOfTrimmed("alex.johnson@gmail.com");
    LowerEmailShape();
    IsGmailAddressIff("alex.johnson@gmail.com");
  }

  lemma UpperEmailIsGmail()
    ensures Trim("ALEX.JOHNSON@GMAIL.COM") == "ALEX.JOHNSON@GMAIL.COM"
    ensures IsGmailAddress("ALEX.JOHNSON@GMAIL.COM")
  {
    TrimOfTrimmed("ALEX.JOHNSON@GMAIL.COM");
    UpperEmailShape();
    IsGmailAddressIff("ALEX.JOHNSON@GMAIL.COM");
  }

  lemma SameNormalForm()
    ensures NormalizeEmail("ALEX.JOHNSON@GMAIL.COM") == NormalizeEmail("alex.johnson@gmail.com")
  {
    TrimOfTrimmed("alex.johnson@gmail.com");
    TrimOfTrimmed("ALEX.JOHNSON@GMAIL.COM");
    assert ToLower("ALEX.JOHNSON@GMAIL.COM") == "alex.johnson@gmail.com";
    assert ToLower("alex.johnson@gmail.com") == "alex.johnson@gmail.com";
  }

  lemma PasswordsAreSixDigits()
    ensures Trim("123456") == "123456" && IsSixDigitPassword("123456")
    ensures Trim("000000") == "000000" && IsSixDigitPassword("000000")
  {
    TrimOfTrimmed("123456");
    TrimOfTrimmed("000000");
  }

  lemma NamesAreTrimmed()
    ensures Trim("Alex Johnson") == "Alex Johnson" && Trim("Alex J.") == "Alex J."
  {
    TrimOfTrimmed("Alex Johnson");
    TrimOfTrimmed("Alex J.");
  }

  method AlexJohnson()
  {
    var store := new AuthStore(Snapshot(None, None));
    LowerEmailIsGmail();
    UpperEmailIsGmail();
    SameNormalForm();
    PasswordsAreSixDigits();
    NamesAreTrimmed();

    var r := store.Register("Alex Johnson", "alex.johnson@gmail.com", "123456");
    assert r == Success;
    var alex := Account("Alex Johnson", "alex.johnson@gmail.com", "123456");
    assert store.accounts == [alex];
    assert CurrentUser(store.accounts, store.currentEmail) == Some(alex);

    store.Logout();
    r := store.Login("ALEX.JOHNSON@GMAIL.COM", "123456");
    assert r == Success;
    assert store.currentEmail == "alex.johnson@gmail.com";

    r := store.Login("alex.johnson@gmail.com", "000000");
    assert r == Failure(IncorrectPassword);

    r := store.UpdateProfile("Alex J.", "alex.johnson@gmail.com", None);
    assert r == Success;
    assert store.accounts == [Account("Alex J.", "alex.johnson@gmail.com", "123456")];
  }
}
