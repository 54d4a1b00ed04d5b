/**
 * The account table of the store (src/context/AuthContext.jsx): the account
 * record, lookup by normalised email (`accounts.find`), the signed-in user
 * (`currentUser`), the in-place rewrite `updateProfile` applies
 * (`accounts.map`), and the uniqueness invariant on normalised emails.
 */
module Accounts {
  import opened Wrappers
  import opened Validation

  /** One registered account, stored in plain text as the source stores it. */
  datatype Account = Account(name: string, email: string, password: string)

  /** `accounts.find(a => normalizeEmail(a.email) === key)`, as the index of the first match. */
  function FindByEmail(accounts: seq<Account>, key: string): (r: Option<nat>)
    ensures r.Some? ==> r.value < |accounts| && NormalizeEmail(accounts[r.value].email) == key
    ensures r.Some? ==> forall j :: 0 <= j < r.value ==> NormalizeEmail(accounts[j].email) != key
    ensures r.None? <==> forall j :: 0 <= j < |accounts| ==> NormalizeEmail(accounts[j].email) != key
    decreases |accounts|
  {
    if accounts == [] then None
    else if NormalizeEmail(accounts[0].email) == key then Some(0)
    else
      var rest := FindByEmail(accounts[1..], key);
      assert forall j :: 0 <= j < |accounts| - 1 ==> accounts[1..][j] == accounts[j + 1];
      if rest.None? then None else Some(rest.value + 1)
  }

  /** An index that matches, with no match before it, is the one `find` returns. */
  lemma FindByEmailFirst(accounts: seq<Account>, key: string, i: nat)
    requires i < |accounts| && NormalizeEmail(accounts[i].email) == key
    requires forall j :: 0 <= j < i ==> NormalizeEmail(accounts[j].email) != key
    ensures FindByEmail(accounts, key) == Some(i)
  {
  }

  /** No two accounts share a normalised email. */
  ghost predicate UniqueNormalizedEmails(accounts: seq<Account>)
  {
    forall i, j :: 0 <= i < j < |accounts| ==>
      NormalizeEmail(accounts[i].email) != NormalizeEmail(accounts[j].email)
  }

  /** With unique emails, the account holding a key is the one `find` returns. */
  lemma FindByEmailUnique(accounts: seq<Account>, i: nat)
    requires UniqueNormalizedEmails(accounts) && i < |accounts|
    ensures FindByEmail(accounts, NormalizeEmail(accounts[i].email)) == Some(i)
  {
    FindByEmailFirst(accounts, NormalizeEmail(accounts[i].email), i);
  }

  /** `currentUser`: no one when the session email is empty, else the first
      account whose normalised email is the session's normalised email. */
  function CurrentUser(accounts: seq<Account>, currentEmail: string): (r: Option<Account>)
    ensures r.Some? ==> r.value in accounts && NormalizeEmail(r.value.email) == NormalizeEmail(currentEmail)
    ensures r.Some? ==> r == Some(accounts[FindByEmail(accounts, NormalizeEmail(currentEmail)).value])
    ensures r.None? <==> currentEmail == [] ||
                         forall j :: 0 <= j < |accounts| ==> NormalizeEmail(accounts[j].email) != NormalizeEmail(currentEmail)
  {
    if currentEmail == [] then None
    else
      match FindByEmail(accounts, NormalizeEmail(currentEmail))
      case None => None
      case Some(i) => Some(accounts[i])
  }

  /** With unique emails the signed-in user is the only account with the session's key. */
  lemma CurrentUserIsOnlyMatch(accounts: seq<Account>, currentEmail: string, i: nat)
    requires UniqueNormalizedEmails(accounts) && i < |accounts|
    requires currentEmail != [] && NormalizeEmail(accounts[i].email) == NormalizeEmail(currentEmail)
    ensures CurrentUser(accounts, currentEmail) == Some(accounts[i])
  {
    FindByEmailUnique(accounts, i);
  }

  /** The `accounts.map` of `updateProfile`: every account whose normalised
      email is `key` becomes `replacement`; the others are kept. */
  function ReplaceMatching(accounts: seq<Account>, key: string, replacement: Account): seq<Account>
  {
    seq(|accounts|, i requires 0 <= i < |accounts| =>
      if NormalizeEmail(accounts[i].email) == key then replacement else accounts[i])
  }

  /** Appending an account whose key is new keeps the emails unique. */
  lemma AppendKeepsUnique(accounts: seq<Account>, a: Account)
    requires UniqueNormalizedEmails(accounts)
    requires FindByEmail(accounts, NormalizeEmail(a.email)).None?
    ensures UniqueNormalizedEmails(accounts + [a])
  {
  }

  /** Rewriting the entry of `key` with an account that keeps `key`, or takes
      a key no account holds, keeps the emails unique. */
  lemma ReplaceKeepsUnique(accounts: seq<Account>, key: string, a: Account)
    requires UniqueNormalizedEmails(accounts)
    requires NormalizeEmail(a.email) == key || FindByEmail(accounts, NormalizeEmail(a.email)).None?
    ensures UniqueNormalizedEmails(ReplaceMatching(accounts, key, a))
  {
    var r := ReplaceMatching(accounts, key, a);
    forall i, j | 0 <= i < j < |r| ensures NormalizeEmail(r[i].email) != NormalizeEmail(r[j].email) {
      assert NormalizeEmail(accounts[i].email) != NormalizeEmail(accounts[j].email);
    }
  }

  /** With unique emails the rewrite changes exactly the one entry that holds `key`. */
  lemma ReplaceTouchesOnlyMatch(accounts: seq<Account>, key: string, a: Account, k: nat)
    requires UniqueNormalizedEmails(accounts)
    requires FindByEmail(accounts, key) == Some(k)
    ensures ReplaceMatching(accounts, key, a) == accounts[k := a]
  {
    var r := ReplaceMatching(accounts, key, a);
    forall i | 0 <= i < |accounts| ensures r[i] == accounts[k := a][i] {
      if i > k {
        assert NormalizeEmail(accounts[k].email) != NormalizeEmail(accounts[i].email);
      }
    }
  }

  /** After the rewrite, looking up the replacement's key finds the first
      rewritten entry: no uniqueness needed, only that the replacement either
      keeps `key` or takes a key no account holds. */
  lemma ReplaceThenFind(accounts: seq<Account>, key: string, a: Account, k: nat)
    requires FindByEmail(accounts, key) == Some(k)
    requires NormalizeEmail(a.email) == key || FindByEmail(accounts, NormalizeEmail(a.email)).None?
    ensures k < |ReplaceMatching(accounts, key, a)| && ReplaceMatching(accounts, key, a)[k] == a
    ensures FindByEmail(ReplaceMatching(accounts, key, a), NormalizeEmail(a.email)) == Some(k)
  {
    var r := ReplaceMatching(accounts, key, a);
    var next := NormalizeEmail(a.email);
    forall j | 0 <= j < k ensures NormalizeEmail(r[j].email) != next {
      assert r[j] == accounts[j];
    }
    FindByEmailFirst(r, next, k);
  }
}
