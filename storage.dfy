/**
 * The browser storage the account store mirrors itself to
 * (src/context/AuthContext.jsx, the two storage keys and the load/save
 * effects). The key-value API and JSON encoding are abstracted: a snapshot
 * holds, per key, either the value or nothing. For the account list, nothing
 * stands for an absent key or a text that does not parse; the session email
 * is stored as raw text, so for it nothing only means an absent key.
 */
module Storage {
  import opened Wrappers
  import opened Accounts

  /** Key `account_manager:accounts`, and key `account_manager:current_user_email`. */
  datatype Snapshot = Snapshot(accounts: Option<seq<Account>>, currentEmail: Option<string>)

  /** What the two effects leave in storage: the whole account list, and the
      session email, or no session key at all when the session is ''. */
  function Save(accounts: seq<Account>, currentEmail: string): Snapshot
  {
    Snapshot(Some(accounts), if currentEmail == [] then None else Some(currentEmail))
  }

  /** `parseStoredAccounts`: a missing or unreadable list loads as []. */
  function LoadAccounts(stored: Snapshot): seq<Account>
  {
    stored.accounts.GetOr([])
  }

  /** `getItem(...) || ''`: a missing session loads as ''. */
  function LoadCurrentEmail(stored: Snapshot): string
  {
    stored.currentEmail.GetOr([])
  }

  /** Loading what was saved gives back the same accounts and the same session. */
  lemma SaveThenLoad(accounts: seq<Account>, currentEmail: string)
    ensures LoadAccounts(Save(accounts, currentEmail)) == accounts
    ensures LoadCurrentEmail(Save(accounts, currentEmail)) == currentEmail
  {
  }

  /** Saving what was loaded normalises storage, and a second round changes nothing. */
  lemma LoadThenSave(stored: Snapshot)
    ensures var s := Save(LoadAccounts(stored), LoadCurrentEmail(stored));
            s.accounts.Some? && (s.currentEmail.Some? ==> s.currentEmail.value != [])
    ensures var s := Save(LoadAccounts(stored), LoadCurrentEmail(stored));
            Save(LoadAccounts(s), LoadCurrentEmail(s)) == s
  {
  }
}
