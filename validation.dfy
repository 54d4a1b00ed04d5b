/**
 * The three field rules of the account store (src/context/AuthContext.jsx):
 * email normalisation, the gmail-address pattern and the six-digit password
 * pattern. Each regular expression is modelled twice: as a matcher that walks
 * the string the way a backtracking regular-expression engine does, and as a
 * declarative shape; a lemma shows the two agree.
 */
module Validation {
  import opened Text

  /** `normalizeEmail`: trimmed and lower-cased; the key accounts are compared by. */
  function NormalizeEmail(email: string): string
  {
    ToLower(Trim(email))
  }

  /** A character of the class `[^@\s]`. */
  predicate IsLocalChar(c: char)
  {
    c != '@' && !IsSpace(c)
  }

  const GmailDomain: string := "@gmail.com"

  /** `@gmail\.com$` under the `i` flag, at this point of the input. */
  predicate DomainHere(t: string)
  {
    ToLower(t) == GmailDomain
  }

  /** `[^@\s]*@gmail\.com$`: either the domain starts here or one more local character is taken. */
  predicate LocalThenDomain(t: string)
    decreases |t|
  {
    DomainHere(t) || (t != [] && IsLocalChar(t[0]) && LocalThenDomain(t[1..]))
  }

  /** `/^[^@\s]+@gmail\.com$/i.test(t)`. */
  predicate GmailPattern(t: string)
  {
    t != [] && IsLocalChar(t[0]) && LocalThenDomain(t[1..])
  }

  /** `isGmailAddress`: the pattern, tested on the trimmed input. */
  predicate IsGmailAddress(email: string)
  {
    GmailPattern(Trim(email))
  }

  /** `\d{n}$`: exactly `n` more digits and then the end of the input. */
  predicate DigitsPattern(t: string, n: nat)
    decreases n
  {
    if n == 0 then t == [] else t != [] && IsDigit(t[0]) && DigitsPattern(t[1..], n - 1)
  }

  /** `isSixDigitPassword`: `/^\d{6}$/`, tested on the trimmed input. */
  predicate IsSixDigitPassword(password: string)
  {
    DigitsPattern(Trim(password), 6)
  }

  /** A gmail address as a reader would describe it: a non-empty local part of
      characters other than '@' and white space, then "@gmail.com" in any case. */
  predicate IsGmailShape(t: string)
  {
    && |t| > |GmailDomain|
    && (forall i :: 0 <= i < |t| - |GmailDomain| ==> IsLocalChar(t[i]))
    && ToLower(t[|t| - |GmailDomain|..]) == GmailDomain
  }

  /** A six-digit password as a reader would describe it. */
  predicate IsSixDigitShape(t: string)
  {
    |t| == 6 && forall i :: 0 <= i < |t| ==> IsDigit(t[i])
  }

  /** What `[^@\s]*@gmail\.com$` accepts, described directly: local
      characters and then the domain in any case. */
  predicate LocalsThenDomain(t: string)
  {
    && |t| >= |GmailDomain|
    && (forall i :: 0 <= i < |t| - |GmailDomain| ==> IsLocalChar(t[i]))
    && DomainHere(t[|t| - |GmailDomain|..])
  }

  /** Taking one more local character in front keeps the description. */
  lemma LocalsThenDomainCons(t: string)
    requires |t| > |GmailDomain| && IsLocalChar(t[0]) && LocalsThenDomain(t[1..])
    ensures LocalsThenDomain(t)
  {
    assert t[1..][|t| - 1 - |GmailDomain|..] == t[|t| - |GmailDomain|..];
    forall i | 0 <= i < |t| - |GmailDomain| ensures IsLocalChar(t[i]) {
      if i > 0 {
        assert t[i] == t[1..][i - 1];
      }
    }
  }

  /** A description longer than the domain starts with a local character,
      and the rest is described too. */
  lemma LocalsThenDomainTail(t: string)
    requires |t| > |GmailDomain| && LocalsThenDomain(t)
    ensures IsLocalChar(t[0]) && LocalsThenDomain(t[1..])
  {
    assert t[1..][|t| - 1 - |GmailDomain|..] == t[|t| - |GmailDomain|..];
    forall i | 0 <= i < |t| - 1 - |GmailDomain| ensures IsLocalChar(t[1..][i]) {
      assert t[1..][i] == t[i + 1];
    }
  }

  /** The suffix matcher accepts exactly the described strings. */
  lemma {:induction false} LocalThenDomainIff(t: string)
    ensures LocalThenDomain(t) <==> LocalsThenDomain(t)
    decreases |t|
  {
    if |t| > |GmailDomain| {
      LocalThenDomainIff(t[1..]);
      assert |ToLower(t)| != |GmailDomain|;
      if LocalThenDomain(t) {
        LocalsThenDomainCons(t);
      }
      if LocalsThenDomain(t) {
        LocalsThenDomainTail(t);
      }
    } else if |t| == |GmailDomain| {
      LocalThenDomainIff(t[1..]);
      assert t[0..] == t;
    } else {
      assert !DomainHere(t);
      if t != [] {
        LocalThenDomainIff(t[1..]);
      }
    }
  }

  /** The matcher accepts exactly the gmail shapes. */
  lemma GmailPatternIff(t: string)
    ensures GmailPattern(t) <==> IsGmailShape(t)
  {
    if t != [] {
      LocalThenDomainIff(t[1..]);
    }
    if |t| > |GmailDomain| {
      assert t[1..][|t| - 1 - |GmailDomain|..] == t[|t| - |GmailDomain|..];
      if GmailPattern(t) {
        forall i | 0 <= i < |t| - |GmailDomain| ensures IsLocalChar(t[i]) {
          if i > 0 {
            assert t[i] == t[1..][i - 1];
          }
        }
      }
    }
  }

  lemma {:induction false} DigitsPatternIff(t: string, n: nat)
    ensures DigitsPattern(t, n) <==> |t| == n && forall i :: 0 <= i < |t| ==> IsDigit(t[i])
    decreases n
  {
    if n > 0 && t != [] {
      DigitsPatternIff(t[1..], n - 1);
      if forall i :: 0 <= i < |t| ==> IsDigit(t[i]) {
        assert forall i :: 0 <= i < |t| - 1 ==> t[1..][i] == t[i + 1];
      }
      if DigitsPattern(t, n) {
        forall i | 0 <= i < |t| ensures IsDigit(t[i]) {
          if i > 0 {
            assert t[i] == t[1..][i - 1];
          }
        }
      }
    }
  }

  /** `isGmailAddress(e)` holds exactly when `e.trim()` is `local@gmail.com`. */
  lemma IsGmailAddressIff(email: string)
    ensures IsGmailAddress(email) <==> IsGmailShape(Trim(email))
  {
    GmailPatternIff(Trim(email));
  }

  /** `isSixDigitPassword(p)` holds exactly when `p.trim()` is six ASCII digits. */
  lemma IsSixDigitPasswordIff(password: string)
    ensures IsSixDigitPassword(password) <==> IsSixDigitShape(Trim(password))
  {
    DigitsPatternIff(Trim(password), 6);
  }

  /** Checking an already trimmed value gives the same answer. */
  lemma RulesIgnoreTrim(s: string)
    ensures IsGmailAddress(Trim(s)) == IsGmailAddress(s)
    ensures IsSixDigitPassword(Trim(s)) == IsSixDigitPassword(s)
    ensures NormalizeEmail(Trim(s)) == NormalizeEmail(s)
  {
    TrimIdempotent(s);
  }

  /** Normalising twice is normalising once. */
  lemma NormalizeIdempotent(email: string)
    ensures NormalizeEmail(NormalizeEmail(email)) == NormalizeEmail(email)
  {
    TrimToLower(Trim(email));
    TrimIdempotent(email);
    ToLowerIdempotent(Trim(email));
  }

  /** Values that pass either rule are not blank. */
  lemma RulesRejectBlank(s: string)
    ensures IsGmailAddress(s) ==> Trim(s) != [] && NormalizeEmail(s) != []
    ensures IsSixDigitPassword(s) ==> Trim(s) != []
  {
  }

  /** An email whose normal form is not empty is not empty itself. */
  lemma NonEmptyNormalForm(email: string)
    requires NormalizeEmail(email) != []
    ensures email != []
  {
  }
}
