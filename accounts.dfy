/**
 * The account records of the service, the store that holds them, the
 * invariants the store keeps, and the effect of each account transition on
 * the store, as functions, with the laws the transitions obey.
 */
module Accounts {
  import opened Wrappers
  import opened Tokens

  /** The identifier the document store gives an account (`_id`). */
  type Id = nat

  /** Milliseconds since the epoch. */
  type Time = int

  /** One stored account document. */
  datatype Account = Account(
    email: string,
    passwordHash: string,
    name: string,
    isVerified: bool,
    lastLogin: Option<Time>,
    verificationToken: Option<string>,
    verificationTokenExpireAt: Option<Time>,
    resetPasswordToken: Option<string>,
    resetPasswordExpiresAt: Option<Time>)

  /** The outward view of an account: every field of the document except the password hash. */
  datatype AccountView = AccountView(
    id: Id,
    email: string,
    name: string,
    isVerified: bool,
    lastLogin: Option<Time>,
    verificationToken: Option<string>,
    verificationTokenExpireAt: Option<Time>,
    resetPasswordToken: Option<string>,
    resetPasswordExpiresAt: Option<Time>)

  type Store = map<Id, Account>

  /** The account document spread with its password removed. */
  function Redact(id: Id, a: Account): AccountView {
    AccountView(id, a.email, a.name, a.isVerified, a.lastLogin,
                a.verificationToken, a.verificationTokenExpireAt,
                a.resetPasswordToken, a.resetPasswordExpiresAt)
  }

  /** The view does not depend on the password hash: no response can reveal it. */
  lemma ViewIgnoresPassword(id: Id, a: Account, otherHash: string)
    ensures Redact(id, a) == Redact(id, a.(passwordHash := otherHash))
  {
  }

  // ---------------------------------------------------------------------
  // Invariants
  // ---------------------------------------------------------------------

  /** Both halves of each token pair are present, or neither is; stored tokens have their generated format. */
  predicate AccountValid(a: Account) {
    && a.verificationToken.Some? == a.verificationTokenExpireAt.Some?
    && a.resetPasswordToken.Some? == a.resetPasswordExpiresAt.Some?
    && (a.verificationToken.Some? ==> IsVerificationCode(a.verificationToken.value))
    && (a.resetPasswordToken.Some? ==> IsResetToken(a.resetPasswordToken.value))
  }

  /** At most one account per email address. */
  predicate EmailsUnique(s: Store) {
    forall i, j :: i in s && j in s && s[i].email == s[j].email ==> i == j
  }

  predicate Valid(s: Store) {
    EmailsUnique(s) && forall id :: id in s ==> AccountValid(s[id])
  }

  // ---------------------------------------------------------------------
  // Store queries
  // ---------------------------------------------------------------------

  /** `findOne({ email })` finds something. */
  predicate HasEmail(s: Store, email: string) {
    exists id :: id in s && s[id].email == email
  }

  /** The filter `{ verificationToken: code, verificationTokenExpireAt: { $gt: now } }`. */
  predicate VerificationMatches(a: Account, code: string, now: Time) {
    a.verificationToken == Some(code) && a.verificationTokenExpireAt.Some? && a.verificationTokenExpireAt.value > now
  }

  /** The filter `{ resetPasswordToken: token, resetPasswordExpiresAt: { $gt: now } }`. */
  predicate ResetMatches(a: Account, token: string, now: Time) {
    a.resetPasswordToken == Some(token) && a.resetPasswordExpiresAt.Some? && a.resetPasswordExpiresAt.value > now
  }

  /** Every account the verification filter selects; it may hold more than one when codes collide. */
  function VerificationHits(s: Store, code: string, now: Time): (hits: set<Id>)
    ensures forall id :: id in hits <==> id in s && VerificationMatches(s[id], code, now)
  {
    set id | id in s && VerificationMatches(s[id], code, now)
  }

  /** Every account the reset filter selects. */
  function ResetHits(s: Store, token: string, now: Time): (hits: set<Id>)
    ensures forall id :: id in hits <==> id in s && ResetMatches(s[id], token, now)
  {
    set id | id in s && ResetMatches(s[id], token, now)
  }

  /** Expiry is strict and final: a code that does not match at `now` matches at no later time. */
  lemma VerificationHitsShrink(s: Store, code: string, now: Time, later: Time)
    requires now <= later
    ensures VerificationHits(s, code, later) <= VerificationHits(s, code, now)
  {
  }

  /** Expiry is strict and final for reset tokens too. */
  lemma ResetHitsShrink(s: Store, token: string, now: Time, later: Time)
    requires now <= later
    ensures ResetHits(s, token, later) <= ResetHits(s, token, now)
  {
  }

  // ---------------------------------------------------------------------
  // Transitions, as the store after each successful handler
  // ---------------------------------------------------------------------

  /** Signup: a new unverified account holding the hash, with a pending verification code. */
  function AfterSignup(s: Store, id: Id, email: string, passwordHash: string, name: string,
                       code: string, now: Time): Store
  {
    s[id := Account(email, passwordHash, name, false, None,
                    Some(code), Some(now + VerificationWindow), None, None)]
  }

  /** Email verification: the account is verified and its verification pair cleared. */
  function AfterVerify(s: Store, id: Id): Store
    requires id in s
  {
    s[id := s[id].(isVerified := true, verificationToken := None, verificationTokenExpireAt := None)]
  }

  /** Login: the time of the last login is recorded. */
  function AfterLogin(s: Store, id: Id, now: Time): Store
    requires id in s
  {
    s[id := s[id].(lastLogin := Some(now))]
  }

  /** Forgot password: a reset pair is set, replacing any earlier one. */
  function AfterForgot(s: Store, id: Id, token: string, now: Time): Store
    requires id in s
  {
    s[id := s[id].(resetPasswordToken := Some(token), resetPasswordExpiresAt := Some(now + ResetWindow))]
  }

  /** Reset password: the hash is replaced and the reset pair cleared. */
  function AfterReset(s: Store, id: Id, passwordHash: string): Store
    requires id in s
  {
    s[id := s[id].(passwordHash := passwordHash, resetPasswordToken := None, resetPasswordExpiresAt := None)]
  }

  // ---------------------------------------------------------------------
  // Every transition keeps the invariants
  // ---------------------------------------------------------------------

  /** Signup adds exactly one account, leaves the others alone, and keeps emails unique. */
  lemma SignupKeepsValid(s: Store, id: Id, email: string, passwordHash: string, name: string,
                         code: string, now: Time)
    requires Valid(s) && id !in s && !HasEmail(s, email) && IsVerificationCode(code)
    ensures var s' := AfterSignup(s, id, email, passwordHash, name, code, now);
      && Valid(s')
      && s'.Keys == s.Keys + {id} && |s'| == |s| + 1
      && (forall j :: j in s ==> s'[j] == s[j])
  {
    var s' := AfterSignup(s, id, email, passwordHash, name, code, now);
    assert s'.Keys == s.Keys + {id};
    assert |s'.Keys| == |s.Keys| + 1;
    assert AccountValid(s'[id]);
  }

  lemma VerifyKeepsValid(s: Store, id: Id)
    requires Valid(s) && id in s
    ensures Valid(AfterVerify(s, id))
  {
  }

  lemma LoginKeepsValid(s: Store, id: Id, now: Time)
    requires Valid(s) && id in s
    ensures Valid(AfterLogin(s, id, now))
  {
  }

  lemma ForgotKeepsValid(s: Store, id: Id, token: string, now: Time)
    requires Valid(s) && id in s && IsResetToken(token)
    ensures Valid(AfterForgot(s, id, token, now))
  {
  }

  lemma ResetKeepsValid(s: Store, id: Id, passwordHash: string)
    requires Valid(s) && id in s
    ensures Valid(AfterReset(s, id, passwordHash))
  {
  }

  // ---------------------------------------------------------------------
  // Which transition writes which field
  // ---------------------------------------------------------------------

  /** The verification flag of account `id` is the same in both stores. */
  predicate SameVerifiedFlag(s: Store, s': Store, id: Id)
    requires id in s && id in s'
  {
    s'[id].isVerified == s[id].isVerified
  }

  /**
   * Email verification is the only transition that writes `isVerified`, it
   * writes true, and only to the account it verified.
   */
  lemma VerifiedFlagWrites(s: Store, id: Id, now: Time, token: string, passwordHash: string)
    requires id in s
    ensures AfterVerify(s, id)[id].isVerified
    ensures forall j :: j in s && j != id ==> SameVerifiedFlag(s, AfterVerify(s, id), j)
    ensures forall j :: j in s ==> SameVerifiedFlag(s, AfterLogin(s, id, now), j)
    ensures forall j :: j in s ==> SameVerifiedFlag(s, AfterForgot(s, id, token, now), j)
    ensures forall j :: j in s ==> SameVerifiedFlag(s, AfterReset(s, id, passwordHash), j)
  {
  }

  /** Login is the only transition that writes `lastLogin`, and it writes the current time. */
  lemma LastLoginWrites(s: Store, id: Id, now: Time, token: string, passwordHash: string)
    requires id in s
    ensures AfterLogin(s, id, now)[id].lastLogin == Some(now)
    ensures forall j :: j in s ==> AfterVerify(s, id)[j].lastLogin == s[j].lastLogin
    ensures forall j :: j in s ==> AfterForgot(s, id, token, now)[j].lastLogin == s[j].lastLogin
    ensures forall j :: j in s ==> AfterReset(s, id, passwordHash)[j].lastLogin == s[j].lastLogin
  {
  }

  /** Resetting the password leaves the verification state and pair alone, whatever that state is. */
  lemma ResetKeepsVerification(s: Store, id: Id, passwordHash: string)
    requires id in s
    ensures var s' := AfterReset(s, id, passwordHash);
      && s'[id].isVerified == s[id].isVerified
      && s'[id].verificationToken == s[id].verificationToken
      && s'[id].verificationTokenExpireAt == s[id].verificationTokenExpireAt
      && s'[id].email == s[id].email
  {
  }

  // ---------------------------------------------------------------------
  // One-time use and expiry
  // ---------------------------------------------------------------------

  /**
   * Verifying account `id` takes it out of the hits of every code at every
   * time, and changes no other account's hits. So when `id` was the only hit
   * for `code`, a second verification with `code` fails.
   */
  lemma VerifyConsumesCode(s: Store, id: Id, code: string, now: Time, later: Time)
    requires id in VerificationHits(s, code, now)
    ensures VerificationHits(AfterVerify(s, id), code, later) == VerificationHits(s, code, later) - {id}
    ensures VerificationHits(s, code, now) == {id} && later >= now ==>
      VerificationHits(AfterVerify(s, id), code, later) == {}
  {
  }

  /** Resetting the password for account `id` consumes its reset token, and no other account's. */
  lemma ResetConsumesToken(s: Store, id: Id, passwordHash: string, token: string,
                              now: Time, later: Time)
    requires id in ResetHits(s, token, now)
    ensures ResetHits(AfterReset(s, id, passwordHash), token, later) == ResetHits(s, token, later) - {id}
    ensures ResetHits(s, token, now) == {id} && later >= now ==>
      ResetHits(AfterReset(s, id, passwordHash), token, later) == {}
  {
  }

  /** A new forgot-password request supersedes the earlier token of that account. */
  lemma ForgotSupersedes(s: Store, id: Id, token: string, oldToken: string, issued: Time, now: Time)
    requires id in s && oldToken != token
    ensures id !in ResetHits(AfterForgot(s, id, token, issued), oldToken, now)
    ensures id in ResetHits(AfterForgot(s, id, token, issued), token, now) <==> now < issued + ResetWindow
  {
  }

  /**
   * The code issued at signup time `issued` is accepted exactly while
   * `now < issued + 24h`: at the expiry instant itself it is already rejected.
   */
  lemma SignupCodeWindow(s: Store, id: Id, email: string, passwordHash: string, name: string,
                         code: string, issued: Time, now: Time)
    ensures id in VerificationHits(AfterSignup(s, id, email, passwordHash, name, code, issued), code, now)
            <==> now < issued + VerificationWindow
  {
  }

  /** The signup response view carries the pending verification code (only the password is stripped). */
  lemma SignupViewCarriesCode(s: Store, id: Id, email: string, passwordHash: string, name: string,
                              code: string, now: Time)
    ensures var s' := AfterSignup(s, id, email, passwordHash, name, code, now);
      Redact(id, s'[id]).verificationToken == Some(code) && !Redact(id, s'[id]).isVerified
  {
  }
}
