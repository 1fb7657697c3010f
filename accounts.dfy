/** The account handlers of college-predictor-backend/routes/users.js: the
    order in which register, reset-password, verify-otp and login check
    their inputs, the one-time codes they issue and the expiry test. */
module Accounts {
  import opened Wrappers
  import opened Js
  import opened Text
  import opened Password

  /** Ten minutes in milliseconds, the lifetime of a one-time code. */
  const OtpLifetime: int := 10 * 60 * 1000

  /** `crypto.randomInt(100000, 999999)` draws from [OtpLow, OtpHigh). */
  const OtpLow: int := 100000
  const OtpHigh: int := 999999

  /** A stored one-time code; `expiresAt` is in milliseconds. */
  datatype OtpRecord = OtpRecord(email: string, otp: string, expiresAt: int)

  /** `n.toString()`: the decimal digits of `n`, without leading zeros. */
  function Decimal(n: nat): (r: string)
    ensures |r| >= 1
    ensures forall i :: 0 <= i < |r| ==> IsDigit(r[i])
  {
    var d := [(n % 10 + 48) as char];
    if n < 10 then d else Decimal(n / 10) + d
  }

  /** The number a string of digits denotes. */
  function DecimalValue(s: string): nat
    requires forall i :: 0 <= i < |s| ==> IsDigit(s[i])
  {
    if s == [] then 0
    else
      assert IsDigit(s[|s| - 1]);
      DecimalValue(s[..|s| - 1]) * 10 + (s[|s| - 1] as int - '0' as int)
  }

  /** The digits read back give the number. */
  lemma {:induction false} DecimalRoundTrip(n: nat)
    ensures DecimalValue(Decimal(n)) == n
  {
    var d := [(n % 10 + 48) as char];
    if n >= 10 {
      DecimalRoundTrip(n / 10);
      assert (Decimal(n / 10) + d)[..|Decimal(n)| - 1] == Decimal(n / 10);
    }
  }

  /** A number of [10^(k-1), 10^k) has k digits. */
  lemma {:induction false} DecimalLength(n: nat, k: nat, lo: nat)
    requires k >= 1 && lo == Pow10(k - 1) && lo <= n < lo * 10
    ensures |Decimal(n)| == k
  {
    if k > 1 {
      DecimalLength(n / 10, k - 1, Pow10(k - 2));
    }
  }

  function Pow10(k: nat): (r: nat)
    ensures r >= 1
  {
    if k == 0 then 1 else 10 * Pow10(k - 1)
  }

  /** The code sent by e-mail and the record stored for it (users.js:67-70
      and 109-112); `draw` is the random number drawn, `now` the clock. */
  function IssueOtp(email: string, draw: int, now: int): (r: OtpRecord)
    requires OtpLow <= draw < OtpHigh
    ensures r.email == email && r.expiresAt == now + OtpLifetime
    ensures |r.otp| == 6 && forall i :: 0 <= i < 6 ==> IsDigit(r.otp[i])
    ensures DecimalValue(r.otp) == draw
  {
    assert Pow10(1) == 10 && Pow10(2) == 100 && Pow10(3) == 1000 && Pow10(4) == 10000;
    assert Pow10(5) == 100000;
    DecimalLength(draw, 6, 100000);
    DecimalRoundTrip(draw);
    OtpRecord(email, Decimal(draw), now + OtpLifetime)
  }

  /** `otpRecord.expiresAt < new Date()`: a code is still good at the very
      millisecond it expires. */
  predicate Expired(r: OtpRecord, now: int) {
    r.expiresAt < now
  }

  /** A code issued at `issuedAt` is accepted exactly up to ten minutes
      later, both ends included. */
  lemma {:induction false} OtpValidForTenMinutes(email: string, draw: int, issuedAt: int, now: int)
    requires OtpLow <= draw < OtpHigh
    ensures !Expired(IssueOtp(email, draw, issuedAt), now) <==> now <= issuedAt + 600000
  {
  }

  /** `Otp.findOne({ email, otp })`: the first stored record with both. */
  function FindOtp(records: seq<OtpRecord>, email: string, otp: string): (r: Option<OtpRecord>)
    ensures r.Some? ==> r.value in records && r.value.email == email && r.value.otp == otp
    ensures r.None? <==> forall x :: x in records ==> !(x.email == email && x.otp == otp)
  {
    if records == [] then None
    else if records[0].email == email && records[0].otp == otp then Some(records[0])
    else
      assert forall x :: x in records ==> x == records[0] || x in records[1..];
      FindOtp(records[1..], email, otp)
  }

  /** `Otp.deleteMany({ email })`. */
  function DropCodes(records: seq<OtpRecord>, email: string): (r: seq<OtpRecord>)
    ensures forall x :: x in r ==> x.email != email
  {
    FilterMembers((x: OtpRecord) => x.email != email, records);
    Filter((x: OtpRecord) => x.email != email, records)
  }

  /** Deleting one address's codes keeps every other address's codes. */
  lemma {:induction false} DropCodesKeepsOthers(records: seq<OtpRecord>, email: string)
    ensures forall x :: x in DropCodes(records, email) <==> x in records && x.email != email
  {
    FilterMembers((x: OtpRecord) => x.email != email, records);
  }

  datatype RegisterOutcome = UserExists | WeakPassword | Registered(code: OtpRecord)

  /** `POST /register` (users.js:38-97): an address already registered is
      refused before the password is looked at; a password outside the
      pattern is refused next; otherwise a code is issued. `registered` is
      whether `User.findOne({ email })` finds an account. */
  function Register(registered: bool, email: string, password: Option<string>, draw: int, now: int): (r: RegisterOutcome)
    requires OtpLow <= draw < OtpHigh
    ensures r.UserExists? <==> registered
    ensures r.WeakPassword? <==> !registered && !Acceptable(password)
    ensures r.Registered? ==> r.code.email == email && |r.code.otp| == 6 && r.code.expiresAt == now + OtpLifetime
  {
    if registered then UserExists
    else if !Acceptable(password) then WeakPassword
    else Registered(IssueOtp(email, draw, now))
  }

  datatype VerifyOutcome = InvalidOtp | OtpExpired | Verified

  /** `POST /verify-otp` (users.js:196-240): an unknown (address, code) pair
      is refused, then an expired code; otherwise the account is verified
      and every code of the address is deleted. Returns the outcome and the
      stored codes afterwards. */
  function VerifyOtp(records: seq<OtpRecord>, email: string, otp: string, now: int): (r: (VerifyOutcome, seq<OtpRecord>))
    ensures r.0 == InvalidOtp <==> FindOtp(records, email, otp).None?
    ensures r.0 == OtpExpired <==> FindOtp(records, email, otp).Some? && Expired(FindOtp(records, email, otp).value, now)
    ensures r.0 != Verified ==> r.1 == records
    ensures r.0 == Verified ==> r.1 == DropCodes(records, email)
  {
    var found := FindOtp(records, email, otp);
    if found.None? then (InvalidOtp, records)
    else if Expired(found.value, now) then (OtpExpired, records)
    else (Verified, DropCodes(records, email))
  }

  /** A code works once: after a verification the same pair is unknown. */
  lemma {:induction false} VerifyOnce(records: seq<OtpRecord>, email: string, otp: string, now: int, later: int)
    requires VerifyOtp(records, email, otp, now).0 == Verified
    ensures VerifyOtp(VerifyOtp(records, email, otp, now).1, email, otp, later).0 == InvalidOtp
  {
  }

  datatype ResetOutcome = ResetInvalidOtp | ResetOtpExpired | ResetWeakPassword | PasswordReset

  /** `POST /reset-password` (users.js:141-193): the code is checked before
      the new password, so an unknown or expired code is reported whatever
      the password; a weak password keeps the code for another try. */
  function ResetPassword(records: seq<OtpRecord>, email: string, otp: string, newPassword: Option<string>,
                         now: int): (r: (ResetOutcome, seq<OtpRecord>))
    ensures r.0 == ResetInvalidOtp <==> FindOtp(records, email, otp).None?
    ensures r.0 == ResetOtpExpired <==> FindOtp(records, email, otp).Some? && Expired(FindOtp(records, email, otp).value, now)
    ensures r.0 == ResetWeakPassword <==>
      FindOtp(records, email, otp).Some? && !Expired(FindOtp(records, email, otp).value, now) && !Acceptable(newPassword)
    ensures r.0 != PasswordReset ==> r.1 == records
    ensures r.0 == PasswordReset ==> r.1 == DropCodes(records, email)
  {
    var found := FindOtp(records, email, otp);
    if found.None? then (ResetInvalidOtp, records)
    else if Expired(found.value, now) then (ResetOtpExpired, records)
    else if !Acceptable(newPassword) then (ResetWeakPassword, records)
    else (PasswordReset, DropCodes(records, email))
  }

  /** Reset and verification read a code the same way: reset gets past the
      code checks exactly when verification would succeed. */
  lemma {:induction false} ResetChecksCodeLikeVerify(records: seq<OtpRecord>, email: string, otp: string, newPassword: Option<string>, now: int)
    ensures ResetPassword(records, email, otp, newPassword, now).0 in {ResetWeakPassword, PasswordReset} <==>
      VerifyOtp(records, email, otp, now).0 == Verified
    ensures ResetPassword(records, email, otp, newPassword, now).0 == PasswordReset ==>
      ResetPassword(records, email, otp, newPassword, now).1 == VerifyOtp(records, email, otp, now).1
  {
  }

  datatype LoginOutcome = InvalidCredentials | NotVerified | LoggedIn

  /** `POST /login` (users.js:243-278): an unknown address and a wrong
      password both give "Invalid credentials", but an unverified account
      is reported before the password is compared. `verified` is the
      account's flag when `User.findOne` finds one; `passwordMatches` stands
      for the bcrypt comparison. */
  function Login(verified: Option<bool>, passwordMatches: bool): (r: LoginOutcome)
    ensures r == LoggedIn <==> verified == Some(true) && passwordMatches
    ensures r == NotVerified <==> verified == Some(false)
  {
    if verified.None? then InvalidCredentials
    else if !verified.value then NotVerified
    else if !passwordMatches then InvalidCredentials
    else LoggedIn
  }
}
