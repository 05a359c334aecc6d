/**
 * Client scenarios of the service, verified against the handlers' contracts
 * alone: one-time email verification, and a reset token that expires after
 * an hour and cannot be used twice.
 */
module Scenarios {
  import opened Wrappers
  import opened Tokens
  import opened Accounts
  import opened AuthController

  const Hour: int := 60 * 60 * 1000

  /** Signup, a wrong code, the right code, and the right code again. */
  method SignupThenVerify(h: Hasher, r: real, now: Time)
    requires 0.0 <= r < 1.0
  {
    var svc := new AuthService(h, None);
    var res := svc.Signup(Some("a@x.com"), Some("pw123456"), Some("Alice"), 0, 7, r, now);
    assert res.success;
    var code := VerificationCode(r);
    assert svc.accounts == map[0 := svc.accounts[0]];
    assert !svc.accounts[0].isVerified;
    assert svc.accounts[0].verificationTokenExpireAt == Some(now + 24 * Hour);

    SignupCodeWindow(map[], 0, "a@x.com", h.hash("pw123456", 7, SignupCost), "Alice", code, now, now + Hour);
    assert code != "000000";
    res := svc.VerifyEmail("000000", now + Hour);
    assert !res.success && res.message == Some("Invalid or expired verification code");

    res := svc.VerifyEmail(code, now + Hour);
    assert res.success && res.user.value.id == 0;
    assert svc.accounts[0].isVerified && svc.accounts[0].verificationToken.None?;

    res := svc.VerifyEmail(code, now + Hour);
    assert !res.success && res.message == Some("Invalid or expired verification code");
  }

  /** A reset token used after two hours fails and leaves the password as it was. */
  method ResetAfterExpiry(h: Hasher, bytes: seq<byte>, now: Time)
    requires |bytes| == ResetTokenBytes
  {
    var svc := new AuthService(h, Some("https://client.example"));
    var res := svc.Signup(Some("a@x.com"), Some("pw123456"), Some("Alice"), 0, 7, 0.5, now);
    assert res.success && svc.accounts.Keys == {0};
    var before := svc.accounts[0];

    res := svc.ForgotPassword("a@x.com", bytes, now);
    assert res.success;
    var token := ResetToken(bytes);
    assert svc.accounts == AfterForgot(map[0 := before], 0, token, now);

    res := svc.ResetPassword(token, "newpw", 8, now + 2 * Hour);
    assert !res.success && svc.accounts[0].passwordHash == before.passwordHash;
  }

  /** A reset token used within the hour works once, and login then takes the new password. */
  method ResetWithinHour(h: Hasher, bytes: seq<byte>, now: Time)
    requires h.Sound()
    requires |bytes| == ResetTokenBytes
  {
    var svc := new AuthService(h, Some("https://client.example"));
    var res := svc.Signup(Some("a@x.com"), Some("pw123456"), Some("Alice"), 0, 7, 0.5, now);
    assert res.success && svc.accounts.Keys == {0};
    var before := svc.accounts[0];

    res := svc.ForgotPassword("a@x.com", bytes, now);
    var token := ResetToken(bytes);
    assert svc.accounts == AfterForgot(map[0 := before], 0, token, now);

    res := svc.ResetPassword(token, "newpw", 8, now + Hour / 2);
    assert res.success;
    assert svc.accounts == AfterReset(AfterForgot(map[0 := before], 0, token, now), 0, h.hash("newpw", 8, ResetCost));

    res := svc.Login("a@x.com", "newpw", now + Hour / 2);
    assert res.success;

    assert svc.accounts.Keys == {0} && svc.accounts[0].resetPasswordToken.None?;
    assert ResetHits(svc.accounts, token, now + Hour / 2) == {};
    res := svc.ResetPassword(token, "other", 9, now + Hour / 2);
    assert !res.success;
  }
}
