/**
 * The account store itself (`AuthProvider` in src/context/AuthContext.jsx):
 * the account list and the session email, updated in place by `register`,
 * `login`, `logout` and `updateProfile`, and mirrored to storage after every
 * change. Each operation runs as one atomic step; a thrown error is a
 * `Failure` outcome and leaves every field as it was.
 */
module Store {
  import opened Wrappers
  import opened Text
  import opened Validation
  import opened Accounts
  import opened AuthRules
  import opened Storage

  class AuthStore {
    var accounts: seq<Account>
    /** The session pointer: an email as it was given, '' when signed out. */
    var currentEmail: string
    /** The storage contents the two effects keep in step with the fields. */
    var stored: Snapshot

    ghost predicate Valid()
      reads this
    {
      stored == Save(accounts, currentEmail)
    }

    /** The initial load from storage, followed by the effects writing it back. */
    constructor (initial: Snapshot)
      ensures accounts == LoadAccounts(initial) && currentEmail == LoadCurrentEmail(initial)
      ensures Valid()
    {
      accounts := LoadAccounts(initial);
      currentEmail := LoadCurrentEmail(initial);
      stored := Save(LoadAccounts(initial), LoadCurrentEmail(initial));
    }

    method Register(name: string, email: string, password: string) returns (r: Outcome)
      requires Valid()
      modifies this
      ensures Valid()
      ensures r == RegisterCheck(old(accounts), name, email, password)
      ensures r.Failure? ==> accounts == old(accounts) && currentEmail == old(currentEmail)
      ensures r.Success? ==> accounts == old(accounts) + [NewAccount(name, email, password)]
      ensures r.Success? ==> currentEmail == Trim(email)
      ensures r.Success? ==> CurrentUser(accounts, currentEmail) == Some(NewAccount(name, email, password))
      ensures old(UniqueNormalizedEmails(accounts)) ==> UniqueNormalizedEmails(accounts)
    {
      var trimmedName := Trim(name);
      var trimmedEmail := Trim(email);
      var normalizedEmail := NormalizeEmail(email);
      var sanitizedPassword := Trim(password);

      if trimmedName == [] || trimmedEmail == [] || sanitizedPassword == [] {
        return Failure(MissingFields);
      }
      if !IsGmailAddress(trimmedEmail) {
        return Failure(InvalidEmail);
      }
      if !IsSixDigitPassword(sanitizedPassword) {
        return Failure(InvalidPassword);
      }
      var duplicate := FindByEmail(accounts, normalizedEmail);
      if duplicate.Some? {
        return Failure(DuplicateEmail);
      }

      var newAccount := Account(trimmedName, trimmedEmail, sanitizedPassword);
      RegisterSignsIn(accounts, name, email, password);
      if UniqueNormalizedEmails(accounts) {
        RegisterKeepsUnique(accounts, name, email, password);
      }
      accounts := accounts + [newAccount];
      currentEmail := trimmedEmail;
      stored := Save(accounts, currentEmail);
      r := Success;
    }

    method Login(email: string, password: string) returns (r: Outcome)
      requires Valid()
      modifies this
      ensures Valid()
      ensures r == LoginCheck(old(accounts), email, password)
      ensures accounts == old(accounts)
      ensures r.Failure? ==> currentEmail == old(currentEmail)
      ensures r.Success? ==> FindByEmail(accounts, NormalizeEmail(Trim(email))).Some?
      ensures r.Success? ==>
                var i := FindByEmail(accounts, NormalizeEmail(Trim(email))).value;
                currentEmail == accounts[i].email && CurrentUser(accounts, currentEmail) == Some(accounts[i])
    {
      var trimmedEmail := Trim(email);
      var sanitizedPassword := Trim(password);

      if !IsGmailAddress(trimmedEmail) {
        return Failure(InvalidEmail);
      }
      if !IsSixDigitPassword(sanitizedPassword) {
        return Failure(InvalidPassword);
      }
      var normalizedEmail := NormalizeEmail(trimmedEmail);
      var found := FindByEmail(accounts, normalizedEmail);
      if found.None? {
        return Failure(AccountNotFound);
      }
      var account := accounts[found.value];
      if account.password != sanitizedPassword {
        return Failure(IncorrectPassword);
      }

      LoginSignsIn(accounts, email, password);
      currentEmail := account.email;
      stored := Save(accounts, currentEmail);
      r := Success;
    }

    method Logout()
      requires Valid()
      modifies this
      ensures Valid()
      ensures accounts == old(accounts) && currentEmail == []
      ensures CurrentUser(accounts, currentEmail) == None
    {
      currentEmail := [];
      stored := Save(accounts, currentEmail);
    }

    method UpdateProfile(name: string, email: string, password: Option<string>) returns (r: Outcome)
      requires Valid()
      modifies this
      ensures Valid()
      ensures r == UpdateCheck(old(accounts), old(currentEmail), name, email, password)
      ensures r.Failure? ==> accounts == old(accounts) && currentEmail == old(currentEmail)
      ensures r.Success? ==>
                var user := CurrentUser(old(accounts), old(currentEmail)).value;
                var updated := UpdatedAccount(user, name, email, password);
                && accounts == ReplaceMatching(old(accounts), NormalizeEmail(user.email), updated)
                && |accounts| == |old(accounts)|
                && currentEmail == Trim(email)
                && CurrentUser(accounts, currentEmail) == Some(updated)
      ensures r.Success? && old(UniqueNormalizedEmails(accounts)) ==>
                var user := CurrentUser(old(accounts), old(currentEmail)).value;
                var k := FindByEmail(old(accounts), NormalizeEmail(user.email)).value;
                accounts == old(accounts)[k := UpdatedAccount(user, name, email, password)]
      ensures old(UniqueNormalizedEmails(accounts)) ==> UniqueNormalizedEmails(accounts)
    {
      var currentUser := CurrentUser(accounts, currentEmail);
      if currentUser.None? {
        return Failure(NotSignedIn);
      }
      var user := currentUser.value;

      var trimmedName := Trim(name);
      var trimmedEmail := Trim(email);
      var normalizedCurrentEmail := NormalizeEmail(user.email);
      var normalizedNextEmail := NormalizeEmail(trimmedEmail);

      if trimmedName == [] || trimmedEmail == [] {
        return Failure(EmptyNameOrEmail);
      }
      if !IsGmailAddress(trimmedEmail) {
        return Failure(InvalidEmail);
      }
      if normalizedNextEmail != normalizedCurrentEmail {
        var conflict := FindByEmail(accounts, normalizedNextEmail);
        if conflict.Some? {
          return Failure(EmailInUse);
        }
      }
      var sanitizedPassword := SanitizedPassword(password);
      if sanitizedPassword != [] && !IsSixDigitPassword(sanitizedPassword) {
        return Failure(InvalidNewPassword);
      }
      var nextPassword := if sanitizedPassword != [] then sanitizedPassword else user.password;

      var updated := Account(trimmedName, trimmedEmail, nextPassword);
      UpdateSignsIn(accounts, currentEmail, name, email, password);
      if UniqueNormalizedEmails(accounts) {
        UpdateKeepsUnique(accounts, currentEmail, name, email, password);
      }
      accounts := ReplaceMatching(accounts, normalizedCurrentEmail, updated);
      currentEmail := trimmedEmail;
      stored := Save(accounts, currentEmail);
      r := Success;
    }
  }
}
