# Account store of the account-manager app, in Dafny

This project models the account store of a small single-page account manager. Users register with a name, a gmail.com address and a six-digit password. They sign in with any capitalisation or padding of that address. They edit their profile, and they sign out. The store keeps:

- a list of accounts;
- a session pointer, which is one email string;
- a mirror of both in browser storage.

Three forms sit in front of the store. Each form first runs its own checks on the trimmed fields, and only then calls the store.

Modules:

- **Text**: `trim`, `toLowerCase`, and the regular-expression classes `\s` and `\d`.
  - White space is the exact ECMAScript WhiteSpace + LineTerminator set. `trim` and `\s` both use it.
  - Lower-casing covers the ASCII letters only.
- **Validation**: the three rules of the store.
  - `normalizeEmail` is the comparison key: trim, then lower-case.
  - `isGmailAddress` is modelled twice: as a matcher that walks the string the way `/^[^@\s]+@gmail\.com$/i` does, and as a declarative shape. A lemma shows the two agree.
  - `isSixDigitPassword` (`/^\d{6}$/`) is modelled the same two ways.
- **Accounts**: the account record.
  - Lookup by normalised email is `accounts.find`, modelled as the index of the first match.
  - The signed-in user is `currentUser`.
  - The rewrite that `updateProfile` applies is `accounts.map`.
  - The invariant is that normalised emails are unique.
- **AuthRules**: the decision of each store operation, as a pure function of the state before the call. The decision is either success or one error kind per distinct message the store throws, checked in the source's order. The lemmas here cover success conditions, signing in, error order and uniqueness.
- **Storage**: the two storage keys, as a snapshot that is saved after every change and loaded at start.
- **Store**: class `AuthStore`.
  - Its fields are the account list, the session email and the storage snapshot.
  - Its methods `Register`, `Login`, `Logout` and `UpdateProfile` update the fields in place.
  - Each method is proved to follow the matching decision function.
  - Each method either leaves the state untouched or reaches exactly the stated new state.
  - Each method keeps storage in step with the fields, and keeps uniqueness when it held before.
- **Registration**, **Login**, **AccountEditing**: the three forms.
  - Each `Check` function is that form's guard chain.
  - An iff lemma gives the error order.
  - `AcceptedFormPassesStoreChecks` shows which store errors can still reach an accepted form.
  - Each page class has a `HandleSubmit` method that sets the page's error and success state and calls the store.
  - The account page also has `SyncWithUser`, the effect that refills the form when the signed-in user changes.
- **Scenario**: a concrete walk through the store: register, sign out, sign in with the email in capitals, sign in with a wrong password, rename.

### Behaviour worth noting

- The session pointer is not the normalised email.
  - `register` and `updateProfile` store the trimmed email as the caller typed it.
  - `login` stores the email of the account it found.
  - Lookup through `currentUser` normalises again, so the signed-in user is the same either way.
- The store's `login` has no blank-field check of its own. A blank email fails the gmail check first (`InvalidEmail`).
- Normalised emails being unique is preserved by every operation. It is not established at load, because storage can hold any list. The uniqueness lemmas and ensures are therefore conditional on uniqueness before the call.

## Model

| member | source | states |
|---|---|---|
| Text.IsSpace | src/context/AuthContext.jsx:20 | the characters `trim` strips and `\s` matches: the ECMAScript WhiteSpace and LineTerminator set (used by the trim lemmas below) |
| Text.Trim | src/context/AuthContext.jsx:48-51 | `String.prototype.trim`: strip the start, then the end (stated by TrimStartSpec, TrimEndSpec, TrimIdempotent, TrimBlankIff) |
| Text.ToLower | src/context/AuthContext.jsx:19 | `toLowerCase` on the ASCII letters, character by character (stated by ToLowerIdempotent, TrimToLower) |
| Text.TrimStartSpec | src/context/AuthContext.jsx:19-21 | the white-space-stripped start of a string is a suffix of it; everything removed is white space; the result does not start with white space |
| Text.TrimEndSpec | src/context/AuthContext.jsx:19-21 | the stripped end is a prefix; everything removed is white space; the result does not end with white space |
| Text.TrimOfTrimmed | src/context/AuthContext.jsx:48-51 | a string that neither starts nor ends with white space is unchanged by `trim` |
| Text.TrimmedEnds | src/context/AuthContext.jsx:48-51 | the result of `trim` is empty or begins and ends with a non-space character |
| Text.TrimIdempotent | src/context/AuthContext.jsx:48-51 | trimming twice is trimming once |
| Text.TrimBlankIff | src/context/AuthContext.jsx:53 | a field is blank after `trim` exactly when every character is white space |
| Text.ToLowerIdempotent | src/context/AuthContext.jsx:19 | lower-casing twice is lower-casing once |
| Text.LowerCharSpace | src/context/AuthContext.jsx:19 | lower-casing never creates or removes white space |
| Text.TrimStartToLower | src/context/AuthContext.jsx:19 | stripping the start commutes with lower-casing |
| Text.TrimEndToLower | src/context/AuthContext.jsx:19 | stripping the end commutes with lower-casing |
| Text.TrimToLower | src/context/AuthContext.jsx:19 | `trim` commutes with lower-casing |
| Validation.NormalizeEmail | src/context/AuthContext.jsx:19 | `normalizeEmail`: trim, then lower-case (stated by NormalizeIdempotent, RulesIgnoreTrim) |
| Validation.GmailPattern | src/pages/RegistrationPage.jsx:37 | `/^[^@\s]+@gmail\.com$/i.test`, as a matcher; the three page checks call it directly (stated by GmailPatternIff) |
| Validation.IsGmailAddress | src/context/AuthContext.jsx:20 | `isGmailAddress`: the gmail pattern tested on the trimmed input (stated by IsGmailAddressIff) |
| Validation.DigitsPattern | src/pages/LoginPage.jsx:35 | `\d{n}$` as a matcher; with n = 6 it is `/^\d{6}$/.test` as the three page checks use it (stated by DigitsPatternIff) |
| Validation.IsSixDigitPassword | src/context/AuthContext.jsx:21 | `isSixDigitPassword`: `/^\d{6}$/` tested on the trimmed input (stated by IsSixDigitPasswordIff) |
| Validation.LocalsThenDomainCons | src/context/AuthContext.jsx:20 | a local character in front of a local-part-then-domain string gives another such string |
| Validation.LocalsThenDomainTail | src/context/AuthContext.jsx:20 | a local-part-then-domain string longer than the domain starts with a local character, and its tail has the same form |
| Validation.LocalThenDomainIff | src/context/AuthContext.jsx:20 | the matcher for `[^@\s]*@gmail\.com$` accepts exactly the strings made of local characters followed by `@gmail.com` in any case |
| Validation.GmailPatternIff | src/context/AuthContext.jsx:20 | `/^[^@\s]+@gmail\.com$/i` accepts a string exactly when it is longer than the domain, every character before the last ten is neither `@` nor white space, and the last ten are `@gmail.com` ignoring case |
| Validation.DigitsPatternIff | src/context/AuthContext.jsx:21 | `\d{n}$` accepts exactly the strings of `n` ASCII digits |
| Validation.IsGmailAddressIff | src/context/AuthContext.jsx:20 | `isGmailAddress` holds exactly when the trimmed input has the gmail shape |
| Validation.IsSixDigitPasswordIff | src/context/AuthContext.jsx:21 | `isSixDigitPassword` holds exactly when the trimmed input is six digits |
| Validation.RulesIgnoreTrim | src/context/AuthContext.jsx:19-21 | trimming first changes none of the three rules, because each trims its own input |
| Validation.NormalizeIdempotent | src/context/AuthContext.jsx:19 | normalising a normalised email changes nothing |
| Validation.RulesRejectBlank | src/context/AuthContext.jsx:20-21 | a gmail address or a six-digit password is never blank after `trim`, and a gmail address has a non-empty normal form |
| Validation.NonEmptyNormalForm | src/context/AuthContext.jsx:19 | only a non-empty email has a non-empty normal form |
| Accounts.FindByEmail | src/context/AuthContext.jsx:65-67 | the result is the first index whose normalised email is the key; there is none exactly when no account matches |
| Accounts.FindByEmailFirst | src/context/AuthContext.jsx:95-97 | a matching index with no earlier match is what the lookup returns |
| Accounts.FindByEmailUnique | src/context/AuthContext.jsx:95-97 | with unique emails, looking up an account's own key finds that account |
| Accounts.UniqueNormalizedEmails | src/context/AuthContext.jsx:65-70 | no two accounts share a normalised email: the invariant the duplicate and conflict checks protect, kept by Store.AuthStore.Register and Store.AuthStore.UpdateProfile (their last ensures) |
| Accounts.CurrentUser | src/context/AuthContext.jsx:29-33 | no user for an empty session or when no account matches; otherwise the first account of the list whose normalised email is the session's, the one `find` returns |
| Accounts.CurrentUserIsOnlyMatch | src/context/AuthContext.jsx:29-33 | with unique emails, the signed-in user is the one account holding the session's key |
| Accounts.ReplaceMatching | src/context/AuthContext.jsx:148-159 | the `accounts.map` of `updateProfile`: entries with the key become the new record, the others stay (stated by ReplaceTouchesOnlyMatch, ReplaceThenFind) |
| Accounts.AppendKeepsUnique | src/context/AuthContext.jsx:65-78 | appending an account with a new key keeps emails unique |
| Accounts.ReplaceKeepsUnique | src/context/AuthContext.jsx:132-159 | rewriting the matching entries with a record whose key is the old key or an unused one keeps emails unique |
| Accounts.ReplaceTouchesOnlyMatch | src/context/AuthContext.jsx:148-159 | with unique emails the `map` rewrite changes exactly the entry the lookup finds |
| Accounts.ReplaceThenFind | src/context/AuthContext.jsx:148-160 | after the rewrite, the new record sits at the old index and its own key finds it there |
| AuthRules.RegisterCheck | src/context/AuthContext.jsx:47-70 | the errors `register` throws, in order (stated by RegisterSuccessIff, RegisterFailureOrder) |
| AuthRules.NewAccount | src/context/AuthContext.jsx:72-76 | the record `register` appends: trimmed name, email and password |
| AuthRules.LoginCheck | src/context/AuthContext.jsx:82-105 | the errors `login` throws, in order (stated by LoginFailureOrder, LoginPasswordDecides) |
| AuthRules.SanitizedPassword | src/context/AuthContext.jsx:141 | `password?.trim()`: an absent password behaves like a blank one |
| AuthRules.UpdateCheck | src/context/AuthContext.jsx:114-144 | the errors `updateProfile` throws, in order (stated by UpdateFailureOrder) |
| AuthRules.UpdatedAccount | src/context/AuthContext.jsx:146-156 | the record `updateProfile` writes: trimmed name and email, and the new password or else the old one (stated by UpdateKeepsPassword, UpdatedAccountWellFormed) |
| AuthRules.RegisterFailureOrder | src/context/AuthContext.jsx:53-70 | `register` reports blank fields, then a bad email, then a bad password, then a taken email, each exactly under its condition |
| AuthRules.RegisterSuccessIff | src/context/AuthContext.jsx:47-70 | `register` succeeds exactly when the trimmed name is non-blank, the email has the gmail shape, the password is six digits and no account has the same normalised email |
| AuthRules.RegisterSignsIn | src/context/AuthContext.jsx:72-79 | after a successful `register`, the session (the trimmed email) resolves to the new record |
| AuthRules.RegisterKeepsUnique | src/context/AuthContext.jsx:65-78 | a successful `register` keeps normalised emails unique |
| AuthRules.RegisterTwiceIsDuplicate | src/context/AuthContext.jsx:65-70 | once an email is registered, another well-formed registration under any email with the same normal form fails with the duplicate error |
| AuthRules.LoginFailureOrder | src/context/AuthContext.jsx:82-105 | `login` reports the email format first, then the password format, then an unknown account, each exactly under its condition |
| AuthRules.LoginPasswordDecides | src/context/AuthContext.jsx:94-107 | once both formats pass and an account is found, `login` reports an incorrect password exactly when the stored password differs from the trimmed one, and succeeds exactly when they are equal |
| AuthRules.LoginAcceptsStoredCredentials | src/context/AuthContext.jsx:82-107 | with unique emails, any padding or capitalisation of a stored email plus its password signs in |
| AuthRules.LoginSignsIn | src/context/AuthContext.jsx:94-107 | after a successful `login`, the session is the found account's stored email and resolves to that account |
| AuthRules.RegisterThenLogin | src/context/AuthContext.jsx:47-108 | right after registering, signing in with the same email and password succeeds |
| AuthRules.LogoutSignsOut | src/context/AuthContext.jsx:110-112 | an empty session has no signed-in user |
| AuthRules.UpdateFailureOrder | src/context/AuthContext.jsx:114-144 | `updateProfile` reports no session, then a blank name or email, then a bad email, then an email held by another account, then a bad new password, each exactly under its condition, and succeeds exactly when none applies |
| AuthRules.UpdateOwnEmailNoConflict | src/context/AuthContext.jsx:132-139 | keeping one's own email, in any case, never triggers the email-in-use error |
| AuthRules.UpdateToOtherEmailRefused | src/context/AuthContext.jsx:132-139 | with unique emails, taking another account's email is refused as in use |
| AuthRules.UpdateKeepsPassword | src/context/AuthContext.jsx:141-146 | an absent or blank new password keeps the stored password |
| AuthRules.UpdatedAccountWellFormed | src/context/AuthContext.jsx:119-156 | the rewritten record has a trimmed non-blank name, a gmail address, and a six-digit password when the old one was |
| AuthRules.UpdateSignsIn | src/context/AuthContext.jsx:148-160 | after a successful `updateProfile`, the session (the trimmed new email) resolves to the rewritten record |
| AuthRules.UpdateKeepsUnique | src/context/AuthContext.jsx:132-159 | a successful `updateProfile` keeps emails unique and rewrites exactly the signed-in user's entry |
| Storage.Save | src/context/AuthContext.jsx:35-45 | what the two effects write: the whole list, and the session email or no session key when it is empty (stated by SaveThenLoad, LoadThenSave) |
| Storage.LoadAccounts | src/context/AuthContext.jsx:10-17 | `parseStoredAccounts`: the stored list, or the empty list when it is missing or unreadable |
| Storage.LoadCurrentEmail | src/context/AuthContext.jsx:25-27 | the stored session email, or the empty string when it is missing |
| Storage.SaveThenLoad | src/context/AuthContext.jsx:10-17 | loading what the effects saved gives back the same accounts and the same session |
| Storage.LoadThenSave | src/context/AuthContext.jsx:24-45 | after load and save, the list key is present and the session key is absent or non-empty, and a second round changes nothing |
| Store.AuthStore.Valid | src/context/AuthContext.jsx:35-45 | storage holds exactly what the two effects write for the current list and session; every method of the class keeps it |
| Store.AuthStore.constructor | src/context/AuthContext.jsx:24-45 | the store starts from the loaded list (`[]` when missing or unreadable) and session (`''` when missing), with storage in step |
| Store.AuthStore.Register | src/context/AuthContext.jsx:47-80 | returns the `register` decision; on failure nothing changes; on success the trimmed record is appended, the session is the trimmed email and resolves to the new record; storage follows; uniqueness is kept |
| Store.AuthStore.Login | src/context/AuthContext.jsx:82-108 | returns the `login` decision; accounts never change; on failure the session is kept; on success the session is the found account's stored email and resolves to it |
| Store.AuthStore.Logout | src/context/AuthContext.jsx:110-112 | the session becomes empty, no one is signed in, accounts are kept and the storage key is removed |
| Store.AuthStore.UpdateProfile | src/context/AuthContext.jsx:114-161 | returns the `updateProfile` decision; on failure nothing changes; on success the entries matching the user's key are rewritten (exactly that user's index under uniqueness), the session is the trimmed new email and resolves to the new record; uniqueness is kept |
| Registration.Check | src/pages/RegistrationPage.jsx:27-50 | the guard chain of `handleSubmit` on the trimmed fields (stated by CheckOrder) |
| Registration.CheckOrder | src/pages/RegistrationPage.jsx:27-50 | the form rejects blank fields, then a non-gmail email, then a non-six-digit password, then a mismatched confirmation, each exactly under its condition, and otherwise submits the trimmed name, email and password |
| Registration.AcceptedFormPassesStoreChecks | src/pages/RegistrationPage.jsx:52-57 | an accepted form can only be refused by the store as a duplicate, which happens exactly when its normalised email is taken |
| Registration.RegistrationPage.constructor | src/pages/RegistrationPage.jsx:8-15 | the form starts empty, with no error and no success |
| Registration.RegistrationPage.HandleSubmit | src/pages/RegistrationPage.jsx:22-63 | a rejected form shows its message and leaves the store alone; an accepted one shows success with the trimmed record appended and the session (the trimmed email) resolving to it, or shows the store's duplicate error with the store unchanged |
| Login.Check | src/pages/LoginPage.jsx:22-38 | the guard chain of `handleSubmit` on the trimmed fields (stated by CheckOrder) |
| Login.CheckOrder | src/pages/LoginPage.jsx:22-38 | the form rejects blank fields, then a non-gmail email, then a non-six-digit password, and otherwise submits both trimmed fields |
| Login.AcceptedFormPassesStoreChecks | src/pages/LoginPage.jsx:40-41 | an accepted form can only be refused by the store for an unknown account or a wrong password |
| Login.LoginPage.constructor | src/pages/LoginPage.jsx:8-10 | the form starts empty, with no error and no success |
| Login.LoginPage.HandleSubmit | src/pages/LoginPage.jsx:17-47 | a rejected form shows its message; an accepted one shows success with the session set to the found account's stored email and resolving to that account, or shows the store's error with the session unchanged; accounts never change |
| AccountEditing.Check | src/pages/AccountPage.jsx:36-66 | the guard chain of `handleSubmit` on the trimmed fields (stated by CheckOrder) |
| AccountEditing.FormFor | src/pages/AccountPage.jsx:17-22 | the form filled from a user: their name and email, both password fields empty |
| AccountEditing.CheckOrder | src/pages/AccountPage.jsx:36-66 | the form rejects a blank name or email, then a non-gmail email, then a non-six-digit new password, then a mismatch, then a confirmation without a password, each exactly under its condition; otherwise it submits the trimmed fields |
| AccountEditing.AcceptedFormPassesStoreChecks | src/pages/AccountPage.jsx:68-73 | an accepted form can only be refused by the store when no one is signed in or the email belongs to another account |
| AccountEditing.BlankPasswordsKeepPassword | src/pages/AccountPage.jsx:63-73 | with both password fields blank the form sends '' and the stored password is kept |
| AccountEditing.AccountPage.constructor | src/pages/AccountPage.jsx:6-13 | the form starts empty, with no error and no success |
| AccountEditing.AccountPage.SyncWithUser | src/pages/AccountPage.jsx:15-24 | when a user is signed in, the form shows their name and email with both password fields cleared; otherwise the form is kept |
| AccountEditing.AccountPage.HandleSubmit | src/pages/AccountPage.jsx:31-79 | a rejected form shows its message and leaves everything; an accepted one rewrites the user's record, sets the session to the trimmed email so that it resolves to the rewritten record, shows success and clears the password fields, or shows the store's error and changes nothing |

## Left out

- Browser storage is modelled as a snapshot of values. Not modelled: the key-value API, JSON encoding, and which malformed texts fail to parse. For the account list only "present and readable" versus "missing or unreadable" is kept. The session email is stored as raw text, not JSON, so for it the only alternative to a value is an absent key.
- A stored value that parses as JSON but is not an array (`null`, `{}`, a bare string), or an array holding `null`, cannot be represented: the snapshot holds either a list of accounts or nothing. In the source such a value is loaded as it is, and the next `accounts.find` throws (src/context/AuthContext.jsx:32, 65).
- An array entry without an `email` field (a number, or a record missing that field) is represented only as an account whose email is `''`. In the source `(1).email` is `undefined`, and the default parameter of `normalizeEmail` turns it into `''` (src/context/AuthContext.jsx:19), so such entries never match a gmail key. Their other fields are not modelled.
- Account records are exactly name, email and password. Extra fields an old stored record may carry, which `updateProfile` copies along with `...account`, are not modelled.
- React scheduling is not modelled: state setters, memoisation and effect timing. Each store operation is one atomic step that updates the list, the session and storage together.
- The order of renders after a successful profile update is not modelled. In the app, the `currentUser` effect then reruns and refills the form from the rewritten record. The model offers that effect as the separate `SyncWithUser` step.
- The delayed navigation after registering or signing in (`setTimeout` and `navigate`) is not modelled, because it is routing. Also left out: the success message texts, `handleChange`, the `useAuth` guard, and rendering.
- Text.ToLower: lower-cases only the ASCII letters, not the full Unicode case mapping of `toLowerCase`, because that table is outside the model. The regex `i` flag without the `u` flag cannot map non-ASCII letters onto the ASCII `gmail.com`, so the gmail rule is exact. `NormalizeEmail` differs from the source only for emails with non-ASCII capitals.
- Strings are sequences of Unicode scalar values, not UTF-16 code units. A character outside the Basic Multilingual Plane is one character here; no check depends on that, since `[^@\s]` accepts it either way. A JavaScript string holding a lone surrogate, which `[^@\s]` accepts in a local part, cannot be represented at all, because a Dafny `char` cannot be a surrogate.
- Plain-text password storage and the lack of concurrency control are carried over unchanged. They are properties of the source, not omissions.
