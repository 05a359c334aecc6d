/**
 * The account state machine: the seven request handlers of the
 * authentication controller, as methods of a service object that owns the
 * account store. Each handler loads one account document, assigns its
 * fields one by one, and saves it back. Session cookies and outgoing email
 * are recorded as events in a ghost log, so that their order relative to the
 * save can be stated.
 */
module AuthController {
  import opened Wrappers
  import opened Tokens
  import opened Accounts

  /** bcrypt cost factor used at signup. */
  const SignupCost: nat := 12

  /** bcrypt cost factor used when a password is reset. */
  const ResetCost: nat := 10

  /**
   * The password hasher, left uninterpreted: `hash(password, salt, cost)`
   * and `compare(password, hash)`.
   */
  datatype Hasher = Hasher(hash: (string, nat, nat) -> string, compare: (string, string) -> bool) {

    /** Every hash verifies against the password it was made from. */
    ghost predicate Sound() {
      forall password, salt, cost :: compare(password, hash(password, salt, cost))
    }
  }

  /** With a sound hasher, the password set at signup is accepted by login. */
  lemma SignupEnablesLogin(h: Hasher, s: Store, id: Id, email: string, password: string, salt: nat,
                           name: string, code: string, now: Time)
    requires h.Sound()
    ensures var s' := AfterSignup(s, id, email, h.hash(password, salt, SignupCost), name, code, now);
      s'[id].email == email && h.compare(password, s'[id].passwordHash)
  {
  }

  /** With a sound hasher, the password set by a reset is the one login accepts afterwards. */
  lemma ResetEnablesLogin(h: Hasher, s: Store, id: Id, password: string, salt: nat)
    requires h.Sound() && id in s
    ensures var s' := AfterReset(s, id, h.hash(password, salt, ResetCost));
      s'[id].email == s[id].email && h.compare(password, s'[id].passwordHash)
  {
  }

  /** What a handler does to the world besides the store. */
  datatype Event =
    | Saved(account: Id)
    | SessionIssued(account: Id)
    | SessionCleared
    | VerificationEmailSent(account: Id, to: string, code: string)
    | WelcomeEmailSent(account: Id, to: string, name: string)
    | ResetEmailSent(account: Id, to: string, link: Option<string>)
  {
    predicate IsEmail() {
      VerificationEmailSent? || WelcomeEmailSent? || ResetEmailSent?
    }
  }

  /** Every email about an account is sent after that account was saved. */
  ghost predicate SavedBeforeNotified(log: seq<Event>) {
    forall i :: 0 <= i < |log| && log[i].IsEmail() ==>
      exists j :: 0 <= j < i && log[j] == Saved(log[i].account)
  }

  /** The JSON body of a response: the success flag, the message and the account view, each possibly absent. */
  datatype Response = Response(success: bool, message: Option<string>, user: Option<AccountView>)

  function Failure(message: string): Response
  {
    Response(false, Some(message), None)
  }

  /** JavaScript truthiness of a request field that should carry a string. */
  predicate Present(field: Option<string>) {
    field.Some? && field.value != ""
  }

  class AuthService {
    const hasher: Hasher
    /** The configured client address (CLIENT_URI), possibly unset. */
    const clientUri: Option<string>
    /** The document store. */
    var accounts: Store
    /** Sessions issued and cleared, documents saved and emails sent, in order. */
    ghost var log: seq<Event>

    ghost predicate Valid()
      reads this
    {
      Accounts.Valid(accounts) && SavedBeforeNotified(log)
    }

    constructor (hasher: Hasher, clientUri: Option<string>)
      ensures Valid()
      ensures this.hasher == hasher && this.clientUri == clientUri
      ensures accounts == map[] && log == []
    {
      this.hasher := hasher;
      this.clientUri := clientUri;
      accounts := map[];
      log := [];
    }

    /** Appending a save followed by events about the saved account keeps emails after saves. */
    ghost method LogAfterSave(account: Id, tail: seq<Event>)
      requires SavedBeforeNotified(log)
      requires forall k :: 0 <= k < |tail| && tail[k].IsEmail() ==> tail[k].account == account
      modifies this`log
      ensures log == old(log) + [Saved(account)] + tail
      ensures SavedBeforeNotified(log)
    {
      var n := |log|;
      log := log + [Saved(account)] + tail;
      forall i | 0 <= i < |log| && log[i].IsEmail()
        ensures exists j :: 0 <= j < i && log[j] == Saved(log[i].account)
      {
        if i < n {
          var j :| 0 <= j < i && old(log)[j] == Saved(old(log)[i].account);
          assert log[j] == old(log)[j];
        } else {
          assert log[n] == Saved(account);
        }
      }
    }

    /** Appending an event that is not an email keeps emails after saves. */
    ghost method LogQuiet(e: Event)
      requires SavedBeforeNotified(log) && !e.IsEmail()
      modifies this`log
      ensures log == old(log) + [e]
      ensures SavedBeforeNotified(log)
    {
      log := log + [e];
      forall i | 0 <= i < |log| && log[i].IsEmail()
        ensures exists j :: 0 <= j < i && log[j] == Saved(log[i].account)
      {
        var j :| 0 <= j < i && old(log)[j] == Saved(old(log)[i].account);
        assert log[j] == old(log)[j];
      }
    }

    /**
     * signup: rejects a request missing a field, rejects an email already
     * taken, and otherwise stores one new unverified account holding the
     * hash of the password and a fresh verification code. `id` is the new
     * document's identifier, `salt` the hasher's salt and `r` the draw of
     * `Math.random()`.
     */
    method Signup(email: Option<string>, password: Option<string>, name: Option<string>,
                  id: Id, salt: nat, r: real, now: Time) returns (res: Response)
      requires Valid()
      requires id !in accounts
      requires 0.0 <= r < 1.0
      modifies this`accounts, this`log
      ensures Valid()
      ensures res.success <==>
        Present(email) && Present(password) && Present(name) && !HasEmail(old(accounts), email.value)
      ensures !(Present(email) && Present(password) && Present(name)) ==>
        res == Failure("All fields are requireed") && accounts == old(accounts) && log == old(log)
      ensures Present(email) && Present(password) && Present(name) && HasEmail(old(accounts), email.value) ==>
        res == Failure("User already exists") && accounts == old(accounts) && log == old(log)
      ensures res.success ==>
        var code := VerificationCode(r);
        && accounts == AfterSignup(old(accounts), id, email.value,
                                   hasher.hash(password.value, salt, SignupCost), name.value, code, now)
        && res == Response(true, Some("User created successfully"), Some(Redact(id, accounts[id])))
        && log == old(log) + [Saved(id), SessionIssued(id), VerificationEmailSent(id, email.value, code)]
    {
      if !(Present(email) && Present(password) && Present(name)) {
        return Failure("All fields are requireed");
      }
      if exists j :: j in accounts && accounts[j].email == email.value {
        return Failure("User already exists");
      }
      var hashedPassword := hasher.hash(password.value, salt, SignupCost);
      var verificationToken := VerificationCode(r);
      var user := Account(email.value, hashedPassword, name.value, false, None,
                          Some(verificationToken), Some(now + VerificationWindow), None, None);
      SignupKeepsValid(accounts, id, email.value, hashedPassword, name.value, verificationToken, now);
      accounts := accounts[id := user];
      LogAfterSave(id, [SessionIssued(id), VerificationEmailSent(id, user.email, verificationToken)]);
      res := Response(true, Some("User created successfully"), Some(Redact(id, user)));
    }

    /**
     * verifyEmail: succeeds exactly when some account holds `code` with an
     * expiry strictly after `now`; that account becomes verified and its
     * verification pair is cleared. Any failure gives one message.
     */
    method VerifyEmail(code: string, now: Time) returns (res: Response)
      requires Valid()
      modifies this`accounts, this`log
      ensures Valid()
      ensures res.success <==> VerificationHits(old(accounts), code, now) != {}
      ensures !res.success ==>
        res == Failure("Invalid or expired verification code") && accounts == old(accounts) && log == old(log)
      ensures res.success ==>
        && res.user.Some?
        && var id := res.user.value.id;
        && id in VerificationHits(old(accounts), code, now)
        && accounts == AfterVerify(old(accounts), id)
        && res == Response(true, Some("Email verified successfully"), Some(Redact(id, accounts[id])))
        && log == old(log) + [Saved(id), WelcomeEmailSent(id, accounts[id].email, accounts[id].name)]
    {
      if !exists j :: j in accounts && VerificationMatches(accounts[j], code, now) {
        return Failure("Invalid or expired verification code");
      }
      var id :| id in accounts && VerificationMatches(accounts[id], code, now);
      var user := accounts[id];
      user := user.(isVerified := true);
      user := user.(verificationToken := None);
      user := user.(verificationTokenExpireAt := None);
      VerifyKeepsValid(accounts, id);
      accounts := accounts[id := user];
      LogAfterSave(id, [WelcomeEmailSent(id, user.email, user.name)]);
      res := Response(true, Some("Email verified successfully"), Some(Redact(id, user)));
    }

    /**
     * login: succeeds exactly when the account with `email` exists and the
     * password verifies against its hash; then a session is issued and only
     * `lastLogin` changes. An unknown email and a wrong password give the
     * identical response and change nothing.
     */
    method Login(email: string, password: string, now: Time) returns (res: Response)
      requires Valid()
      modifies this`accounts, this`log
      ensures Valid()
      ensures res.success <==>
        exists id :: id in old(accounts) && old(accounts)[id].email == email
                     && hasher.compare(password, old(accounts)[id].passwordHash)
      ensures !res.success ==>
        res == Failure("Invalid credentials") && accounts == old(accounts) && log == old(log)
      ensures res.success ==>
        && res.user.Some?
        && var id := res.user.value.id;
        && id in old(accounts) && old(accounts)[id].email == email
        && accounts == AfterLogin(old(accounts), id, now)
        && res == Response(true, Some("Logged in successfully"), Some(Redact(id, accounts[id])))
        && log == old(log) + [SessionIssued(id), Saved(id)]
    {
      if !exists j :: j in accounts && accounts[j].email == email {
        return Failure("Invalid credentials");
      }
      var id :| id in accounts && accounts[id].email == email;
      var user := accounts[id];
      var isPasswordValid := hasher.compare(password, user.passwordHash);
      if !isPasswordValid {
        return Failure("Invalid credentials");
      }
      LogQuiet(SessionIssued(id));
      user := user.(lastLogin := Some(now));
      LoginKeepsValid(accounts, id, now);
      accounts := accounts[id := user];
      LogQuiet(Saved(id));
      res := Response(true, Some("Logged in successfully"), Some(Redact(id, user)));
    }

    /** logout: clears the session cookie; always succeeds and never touches the store. */
    method Logout() returns (res: Response)
      requires Valid()
      modifies this`log
      ensures Valid()
      ensures res == Response(true, Some("Logged out successfully"), None)
      ensures accounts == old(accounts) && log == old(log) + [SessionCleared]
    {
      LogQuiet(SessionCleared);
      res := Response(true, Some("Logged out successfully"), None);
    }

    /**
     * forgotPassword: for a known email, stores a fresh reset token made
     * from the 20 drawn bytes with a one-hour expiry, replacing any earlier
     * one, and then emails the reset link; for an unknown email it changes
     * nothing.
     */
    method ForgotPassword(email: string, bytes: seq<byte>, now: Time) returns (res: Response)
      requires Valid()
      requires |bytes| == ResetTokenBytes
      modifies this`accounts, this`log
      ensures Valid()
      ensures res.success <==> HasEmail(old(accounts), email)
      ensures !res.success ==> res == Failure("User not found") && accounts == old(accounts) && log == old(log)
      ensures res.success ==>
        && res == Response(true, Some("Password reset link sent to your email"), None)
        && exists id :: id in old(accounts) && old(accounts)[id].email == email
             && accounts == AfterForgot(old(accounts), id, ResetToken(bytes), now)
             && log == old(log) + [Saved(id), ResetEmailSent(id, email, Some(ResetLink(clientUri, ResetToken(bytes))))]
    {
      if !exists j :: j in accounts && accounts[j].email == email {
        return Failure("User not found");
      }
      var id :| id in accounts && accounts[id].email == email;
      var user := accounts[id];
      var resetToken := ResetToken(bytes);
      var resetTokenExpiryDate := now + ResetWindow;
      user := user.(resetPasswordToken := Some(resetToken));
      user := user.(resetPasswordExpiresAt := Some(resetTokenExpiryDate));
      ForgotKeepsValid(accounts, id, resetToken, now);
      accounts := accounts[id := user];
      LogAfterSave(id, [ResetEmailSent(id, user.email, Some(ResetLink(clientUri, resetToken)))]);
      res := Response(true, Some("Password reset link sent to your email"), None);
    }

    /**
     * resetPassword: succeeds exactly when some account holds `token` with
     * an expiry strictly after `now`; that account's hash is replaced by the
     * hash of `password` and its reset pair is cleared. Afterwards the same
     * reset-link mailer that forgotPassword uses is called, with no link.
     */
    method ResetPassword(token: string, password: string, salt: nat, now: Time) returns (res: Response)
      requires Valid()
      modifies this`accounts, this`log
      ensures Valid()
      ensures res.success <==> ResetHits(old(accounts), token, now) != {}
      ensures !res.success ==>
        res == Failure("Invalid or expired reset token") && accounts == old(accounts) && log == old(log)
      ensures res.success ==>
        && res == Response(true, Some("Password reset successful"), None)
        && exists id :: id in ResetHits(old(accounts), token, now)
             && accounts == AfterReset(old(accounts), id, hasher.hash(password, salt, ResetCost))
             && log == old(log) + [Saved(id), ResetEmailSent(id, old(accounts)[id].email, None)]
    {
      if !exists j :: j in accounts && ResetMatches(accounts[j], token, now) {
        return Failure("Invalid or expired reset token");
      }
      var id :| id in accounts && ResetMatches(accounts[id], token, now);
      var user := accounts[id];
      var hashedPassword := hasher.hash(password, salt, ResetCost);
      user := user.(passwordHash := hashedPassword);
      user := user.(resetPasswordToken := None);
      user := user.(resetPasswordExpiresAt := None);
      ResetKeepsValid(accounts, id, hashedPassword);
      accounts := accounts[id := user];
      LogAfterSave(id, [ResetEmailSent(id, user.email, None)]);
      res := Response(true, Some("Password reset successful"), None);
    }

    /** checkAuth: the account of the session's identifier without its password, or "User not found". */
    method CheckAuth(userId: Id) returns (res: Response)
      ensures res.success <==> userId in accounts
      ensures userId in accounts ==> res == Response(true, None, Some(Redact(userId, accounts[userId])))
      ensures userId !in accounts ==> res == Failure("User not found")
    {
      if userId !in accounts {
        return Failure("User not found");
      }
      var user := accounts[userId];
      res := Response(true, None, Some(Redact(userId, user)));
    }
  }
}
