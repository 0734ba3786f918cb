// Accounts: users and their profiles, one-time passwords (OTPs) for
// registration and password reset, and the registration, login and reset
// flows built on them.
module Accounts {
  import opened Wrappers
  import opened Text
  import opened MenuModel
  import opened OrderEngine

  // ---------------------------------------------------------------------
  // Users and profiles
  // ---------------------------------------------------------------------

  /** A user row. The password is kept as given: hashing is not modelled. */
  datatype User = User(username: string, email: string, password: string, active: bool)

  /** A profile: its role, the store fields a merchant fills in, and a phone number. */
  datatype Profile = Profile(role: string, storeName: Option<string>, storeAddress: Option<string>, phone: Option<string>)

  /** A profile as `get_or_create` makes it: role "customer" unless given. */
  function NewProfile(role: string): (p: Profile)
    ensures p.role == role && p.storeName.None? && p.storeAddress.None? && p.phone.None?
  {
    Profile(role, None, None, None)
  }

  const DefaultRole: string := "customer"

  predicate IsCustomer(p: Profile) { p.role == "customer" }
  predicate IsMerchant(p: Profile) { p.role == "merchant" }
  predicate IsShipper(p: Profile) { p.role == "shipper" }
  predicate IsAdminRole(p: Profile) { p.role == "admin" }

  /** How many of the four role predicates hold: at most one, and exactly
    * one for a role among the four choices. */
  function RoleFlags(p: Profile): (n: nat)
    ensures n <= 1
    ensures n == 1 <==> p.role in {"customer", "merchant", "shipper", "admin"}
    ensures IsCustomer(NewProfile(DefaultRole))
  {
    (if IsCustomer(p) then 1 else 0) + (if IsMerchant(p) then 1 else 0)
    + (if IsShipper(p) then 1 else 0) + (if IsAdminRole(p) then 1 else 0)
  }

  /** `email.strip().lower()`: the form every e-mail and OTP identifier is
    * looked up and stored in. */
  function Normalize(email: string): string
  {
    Lower(Strip(email))
  }

  lemma LowerCharKeepsSpace(c: char)
    ensures IsSpace(LowerChar(c)) <==> IsSpace(c)
  {
  }

  /** Normalising twice is normalising once. */
  lemma NormalizeIdempotent(email: string)
    ensures Normalize(Normalize(email)) == Normalize(email)
  {
    var t := Lower(Strip(email));
    var s := Strip(email);
    if |t| > 0 {
      LowerCharKeepsSpace(s[0]);
      LowerCharKeepsSpace(s[|s| - 1]);
      assert TrimStart(t) == t;
      assert TrimEnd(t) == t;
    }
    assert Strip(t) == t;
    LowerIdempotent(Strip(email));
  }

  /** `field__iexact`: equal once both sides are lower-cased. */
  predicate SameIgnoringCase(a: string, b: string)
  {
    Lower(a) == Lower(b)
  }

  predicate UsernameTaken(users: map<int, User>, username: string)
  {
    exists id :: id in users && SameIgnoringCase(users[id].username, username)
  }

  predicate EmailTaken(users: map<int, User>, email: string)
  {
    exists id :: id in users && SameIgnoringCase(users[id].email, email)
  }

  /** Some user's e-mail is exactly `email` (`User.objects.filter(email=...)`). */
  predicate HasEmail(users: map<int, User>, email: string)
  {
    exists id :: id in users && users[id].email == email
  }

  /** Two users have exactly this e-mail, so `User.objects.get` fails. */
  predicate SharedEmail(users: map<int, User>, email: string)
  {
    exists a, b :: a in users && b in users && a != b && users[a].email == email && users[b].email == email
  }

  /** The unique constraint on `username`, which compares exactly. */
  predicate UsernameExists(users: map<int, User>, username: string)
  {
    exists id :: id in users && users[id].username == username
  }

  // ---------------------------------------------------------------------
  // One-time passwords
  // ---------------------------------------------------------------------

  const PurposeRegister: string := "đăng ký tài khoản"
  const PurposeResetPassword: string := "khôi phục mật khẩu"
  /** `OTP_TTL_MINUTES` when the settings do not set it. */
  const OtpTtlMinutes: int := 5
  /** Times are in seconds. */
  const SecondsPerMinute: int := 60

  datatype Otp = Otp(identifier: string, code: string, purpose: string, createdAt: int, expiresAt: int, used: bool)

  /** A new OTP row: unused, and for registration unless a purpose is given. */
  function NewOtp(identifier: string, code: string, createdAt: int, expiresAt: int): (o: Otp)
    ensures !o.used && o.purpose == PurposeRegister
    ensures o.identifier == identifier && o.code == code && o.createdAt == createdAt && o.expiresAt == expiresAt
  {
    Otp(identifier, code, PurposeRegister, createdAt, expiresAt, false)
  }

  /** `OTPRequest.is_valid`. */
  predicate IsValid(o: Otp, now: int)
  {
    !o.used && now < o.expiresAt
  }

  /** `mark_used` on a value: once used, never valid again. */
  function MarkedUsed(o: Otp): (r: Otp)
    ensures forall now :: !IsValid(r, now)
    ensures r.identifier == o.identifier && r.code == o.code && r.purpose == o.purpose
    ensures r.createdAt == o.createdAt && r.expiresAt == o.expiresAt
  {
    o.(used := true)
  }

  /** `generate_otp_code`: one character of "0123456789" per draw of the
    * random source (a draw picks a position, taken modulo 10). */
  function GenerateOtpCode(draws: seq<nat>): (r: string)
    ensures |r| == |draws|
    ensures forall i :: 0 <= i < |r| ==> IsDigit(r[i])
  {
    seq(|draws|, i requires 0 <= i < |draws| => DigitChar(draws[i] % 10))
  }

  /** Every string of decimal digits is a code the generator can produce. */
  lemma EveryCodeReachable(code: string)
    requires forall i :: 0 <= i < |code| ==> IsDigit(code[i])
    ensures exists draws :: GenerateOtpCode(draws) == code
  {
    var draws := seq(|code|, i requires 0 <= i < |code| => (code[i] as int - '0' as int) as nat);
    assert forall i :: 0 <= i < |code| ==> GenerateOtpCode(draws)[i] == code[i];
    assert GenerateOtpCode(draws) == code;
  }

  /** An OTP the clean-up before an insert retires: this identifier's,
    * unused and already expired. */
  predicate Stale(o: Otp, identifier: string, now: int)
  {
    o.identifier == identifier && !o.used && o.expiresAt < now
  }

  /** The table after the clean-up's bulk update. */
  function Cleaned(otps: seq<Otp>, identifier: string, now: int): (r: seq<Otp>)
    ensures |r| == |otps|
    ensures forall i :: 0 <= i < |otps| ==> r[i] == if Stale(otps[i], identifier, now) then MarkedUsed(otps[i]) else otps[i]
  {
    seq(|otps|, i requires 0 <= i < |otps| => if Stale(otps[i], identifier, now) then MarkedUsed(otps[i]) else otps[i])
  }

  /** The clean-up retires exactly the stale rows and nothing that is still
    * valid: every row keeps its validity at `now`, no stale row of the
    * identifier survives, and other identifiers' rows are untouched. */
  lemma CleanedFacts(otps: seq<Otp>, identifier: string, now: int)
    ensures var r := Cleaned(otps, identifier, now);
      forall i :: 0 <= i < |otps| ==> (IsValid(r[i], now) <==> IsValid(otps[i], now))
    ensures var r := Cleaned(otps, identifier, now);
      forall i :: 0 <= i < |otps| ==> !Stale(r[i], identifier, now)
    ensures var r := Cleaned(otps, identifier, now);
      forall i :: 0 <= i < |otps| && (otps[i].identifier != identifier || otps[i].expiresAt >= now) ==> r[i] == otps[i]
  {
  }

  /** An OTP confirm and reset may redeem: this identifier and code, unused. */
  predicate Redeemable(o: Otp, identifier: string, code: string)
  {
    o.identifier == identifier && o.code == code && !o.used
  }

  /** `.latest("created_at")` among the redeemable rows of `otps[..n]`.
    * The query leaves the order of rows created at the same time to the
    * database; the model picks the one later in the table. */
  function LatestIn(otps: seq<Otp>, n: nat, identifier: string, code: string): (r: Option<nat>)
    requires n <= |otps|
    ensures r.Some? ==> r.value < n && Redeemable(otps[r.value], identifier, code)
    decreases n
  {
    if n == 0 then None
    else
      var prev := LatestIn(otps, n - 1, identifier, code);
      if Redeemable(otps[n - 1], identifier, code) && (prev.None? || otps[prev.value].createdAt <= otps[n - 1].createdAt)
      then Some(n - 1)
      else prev
  }

  function LatestMatch(otps: seq<Otp>, identifier: string, code: string): Option<nat>
  {
    LatestIn(otps, |otps|, identifier, code)
  }

  /** The query finds nothing exactly when no row is redeemable; what it
    * finds was created no earlier than any other redeemable row, and
    * strictly later than any redeemable row after it in the table. */
  lemma {:induction false} LatestInFacts(otps: seq<Otp>, n: nat, identifier: string, code: string)
    requires n <= |otps|
    ensures LatestIn(otps, n, identifier, code).None? <==>
      forall j :: 0 <= j < n ==> !Redeemable(otps[j], identifier, code)
    ensures var r := LatestIn(otps, n, identifier, code);
      r.Some? ==> forall j :: 0 <= j < n && Redeemable(otps[j], identifier, code) ==> otps[j].createdAt <= otps[r.value].createdAt
    ensures var r := LatestIn(otps, n, identifier, code);
      r.Some? ==> forall j :: r.value < j < n && Redeemable(otps[j], identifier, code) ==> otps[j].createdAt < otps[r.value].createdAt
    decreases n
  {
    if n > 0 {
      LatestInFacts(otps, n - 1, identifier, code);
    }
  }

  /** The verdict confirm and reset share: no matching OTP, the latest
    * match has expired, or the latest match (by its index) may be redeemed. */
  datatype Redeem = NoSuchOtp | OtpExpired | Redeemed(index: nat)

  function RedeemOtp(otps: seq<Otp>, identifier: string, code: string, now: int): (r: Redeem)
    ensures r.Redeemed? ==> r.index < |otps| && Redeemable(otps[r.index], identifier, code) && IsValid(otps[r.index], now)
    ensures r.OtpExpired? ==> exists j :: 0 <= j < |otps| && Redeemable(otps[j], identifier, code) && otps[j].expiresAt <= now
    ensures r.NoSuchOtp? <==> forall j :: 0 <= j < |otps| ==> !Redeemable(otps[j], identifier, code)
  {
    LatestInFacts(otps, |otps|, identifier, code);
    var m := LatestMatch(otps, identifier, code);
    if m.None? then NoSuchOtp
    else if !IsValid(otps[m.value], now) then OtpExpired
    else Redeemed(m.value)
  }

  /** An OTP is single use: once redeemed and marked used, the same
    * identifier and code no longer reach it; they reach nothing, or an
    * older redeemable row. */
  lemma RedeemedOnlyOnce(otps: seq<Otp>, identifier: string, code: string, now: int)
    requires RedeemOtp(otps, identifier, code, now).Redeemed?
    ensures var i := RedeemOtp(otps, identifier, code, now).index;
      var after := otps[i := MarkedUsed(otps[i])];
      var again := LatestMatch(after, identifier, code);
      again != Some(i) && (again.Some? ==> otps[again.value].createdAt <= otps[i].createdAt)
  {
    var i := RedeemOtp(otps, identifier, code, now).index;
    var after := otps[i := MarkedUsed(otps[i])];
    LatestInFacts(otps, |otps|, identifier, code);
    var again := LatestMatch(after, identifier, code);
    if again.Some? {
      assert again.value != i;
      assert Redeemable(otps[again.value], identifier, code);
    }
  }

  /** Asking for an OTP and then presenting its code with the same e-mail
    * (up to case and surrounding spaces) before it expires redeems that
    * very OTP, provided the clock has not gone backwards. */
  lemma RequestThenRedeem(otps: seq<Otp>, email: string, again: string, code: string, purpose: string,
                          now: int, ttlMinutes: int, later: int)
    requires forall j :: 0 <= j < |otps| ==> otps[j].createdAt <= now
    requires Normalize(again) == Normalize(email)
    requires later < now + ttlMinutes * SecondsPerMinute
    ensures var table := Cleaned(otps, Normalize(email), now)
                         + [Otp(Normalize(email), code, purpose, now, now + ttlMinutes * SecondsPerMinute, false)];
      RedeemOtp(table, Normalize(again), code, later) == Redeemed(|otps|)
  {
    var table := Cleaned(otps, Normalize(email), now)
                 + [Otp(Normalize(email), code, purpose, now, now + ttlMinutes * SecondsPerMinute, false)];
    var n := |otps|;
    assert Redeemable(table[n], Normalize(again), code);
    assert LatestIn(table, n + 1, Normalize(again), code) == Some(n) by {
      var prev := LatestIn(table, n, Normalize(again), code);
      if prev.Some? {
        assert table[prev.value].createdAt == otps[prev.value].createdAt;
      }
    }
  }

  /** Presenting the code at or after its expiry is refused as expired,
    * provided no later OTP with the same code was issued meanwhile. */
  lemma RedeemAfterExpiry(otps: seq<Otp>, identifier: string, code: string, now: int)
    requires |otps| > 0
    requires Redeemable(otps[|otps| - 1], identifier, code) && otps[|otps| - 1].expiresAt <= now
    requires forall j :: 0 <= j < |otps| - 1 ==> otps[j].createdAt <= otps[|otps| - 1].createdAt
    ensures RedeemOtp(otps, identifier, code, now) == OtpExpired
  {
  }

  // ---------------------------------------------------------------------
  // Field checks the serializers make before their `validate`
  // ---------------------------------------------------------------------

  /** The choices of `Profile.ROLE_CHOICES`. */
  const RoleChoices: set<string> := {"customer", "merchant", "shipper", "admin"}

  /** `min_length` of the password fields. */
  const PasswordMinLength: nat := 6

  /** `max_length` of the OTP fields. */
  const OtpMaxLength: nat := 8

  /** A `CharField` with DRF's defaults refuses a value that is blank once
    * trimmed; the value it passes on is the trimmed one. */
  predicate Filled(s: string)
  {
    Strip(s) != ""
  }

  /** An `EmailField`. `shaped` is whether Django's `EmailValidator` accepts
    * the trimmed text; a blank value passes only where the field allows it. */
  predicate EmailFieldOk(email: Option<string>, required: bool, shaped: bool)
  {
    if Filled(email.GetOr("")) then shaped else !required
  }

  /** `otp = CharField(max_length=8)`, on the trimmed code. */
  predicate OtpFieldOk(code: string)
  {
    Filled(code) && |Strip(code)| <= OtpMaxLength
  }

  /** `CharField(min_length=6)`, on the trimmed password. */
  predicate PasswordFieldOk(password: string)
  {
    |Strip(password)| >= PasswordMinLength
  }

  /** `role = ChoiceField(..., default="customer")`: absent, or one of the choices. */
  predicate RoleFieldOk(role: Option<string>)
  {
    role.None? || role.value in RoleChoices
  }

  /** `RegisterSerializer`'s fields: username and password are required
    * and non-blank, the e-mail may be left out or blank. */
  predicate RegisterFieldsOk(username: string, password: string, email: Option<string>, emailShaped: bool)
  {
    Filled(username) && Filled(password) && EmailFieldOk(email, false, emailShaped)
  }

  /** `RegisterConfirmOTPSerializer`'s fields. */
  predicate ConfirmFieldsOk(email: string, code: string, password: string, role: Option<string>, emailShaped: bool)
  {
    EmailFieldOk(Some(email), true, emailShaped) && OtpFieldOk(code) && PasswordFieldOk(password) && RoleFieldOk(role)
  }

  /** `ResetPasswordConfirmSerializer`'s fields. */
  predicate ResetFieldsOk(email: string, code: string, newPassword: string, emailShaped: bool)
  {
    EmailFieldOk(Some(email), true, emailShaped) && OtpFieldOk(code) && PasswordFieldOk(newPassword)
  }

  /** `LoginSerializer`'s fields: the password is not trimmed, so only the
    * empty password is blank. */
  predicate LoginFieldsOk(email: string, password: string, emailShaped: bool)
  {
    EmailFieldOk(Some(email), true, emailShaped) && password != ""
  }

  /** `RegisterMerchantSerializer`'s fields: only the store name is
    * required; username, password, address and phone may be blank. */
  predicate MerchantFieldsOk(email: Option<string>, name: string, emailShaped: bool)
  {
    Filled(name) && EmailFieldOk(email, false, emailShaped)
  }

  /** An optional `CharField`'s value as the serializer passes it on. */
  function Trimmed(s: Option<string>): Option<string>
  {
    if s.Some? then Some(Strip(s.value)) else None
  }

  // ---------------------------------------------------------------------
  // Outcomes of the flows
  // ---------------------------------------------------------------------

  /** `RegisterView.post`: 400 for a field that fails its check, 400 naming
    * whichever of username and e-mail is taken (both when both are), or
    * 201 with the new user's id. */
  datatype RegisterOutcome =
    | RegisterFieldsInvalid
    | RegisterRejected(usernameTaken: bool, emailTaken: bool)
    | Registered(userId: int)

  /** Confirm-OTP and reset-password answers. */
  datatype OtpOutcome =
    | OtpFieldsInvalid
    | OtpUnknown
    | OtpOutdated
    | NoAccount
    | OtpCrash
    | OtpAccepted(userId: int)

  datatype LoginOutcome = LoginFieldsInvalid | BadCredentials | LoggedIn(userId: int, role: Option<string>)

  /** `RegisterMerchantView.post`. */
  datatype MerchantOutcome =
    | MerchantFieldsInvalid
    | MissingCredentials
    | MerchantUsernameTaken
    | MerchantEmailTaken
    | StoreNameTaken
    | MerchantRegistered(userId: int, merchantId: int)

  /** What the register form's validation reports, from the stripped
    * username and the normalised e-mail. */
  function RegisterErrors(users: map<int, User>, username: string, email: Option<string>): (r: (bool, bool))
    ensures r.0 <==> Strip(username) != "" && UsernameTaken(users, Strip(username))
    ensures r.1 <==> Normalize(email.GetOr("")) != "" && EmailTaken(users, Normalize(email.GetOr("")))
  {
    var u := Strip(username);
    var e := Normalize(email.GetOr(""));
    (u != "" && UsernameTaken(users, u), e != "" && EmailTaken(users, e))
  }

  /** A store name some store has, ignoring case. */
  predicate StoreNameInUse(merchants: map<int, Merchant>, name: string)
  {
    exists m :: m in merchants && SameIgnoringCase(merchants[m].name, name)
  }

  /** `RegisterMerchantSerializer.validate`: the first check that fails.
    * Only an anonymous caller is asked for credentials; the store name is
    * checked for everyone. */
  function MerchantRejection(users: map<int, User>, merchants: map<int, Merchant>, anonymous: bool,
                             username: Option<string>, password: Option<string>, email: Option<string>,
                             name: string): (r: Option<MerchantOutcome>)
    ensures r.Some? ==> !r.value.MerchantRegistered?
    ensures r == Some(MissingCredentials) <==> anonymous && (username.GetOr("") == "" || password.GetOr("") == "")
    ensures r == Some(MerchantUsernameTaken) ==> anonymous && UsernameTaken(users, username.value)
    ensures r == Some(MerchantEmailTaken) ==> anonymous && EmailTaken(users, Normalize(email.GetOr("")))
    ensures r == Some(StoreNameTaken) ==> StoreNameInUse(merchants, name)
  {
    if anonymous && (username.GetOr("") == "" || password.GetOr("") == "") then Some(MissingCredentials)
    else if anonymous && UsernameTaken(users, username.value) then Some(MerchantUsernameTaken)
    else if anonymous && Normalize(email.GetOr("")) != "" && EmailTaken(users, Normalize(email.GetOr(""))) then Some(MerchantEmailTaken)
    else if StoreNameInUse(merchants, name) then Some(StoreNameTaken)
    else None
  }

  /** A store registration passes exactly when the store name is free in
    * any case and, for an anonymous caller, credentials are given, the
    * username is free and a given e-mail is unused. */
  lemma MerchantAccepted(users: map<int, User>, merchants: map<int, Merchant>, anonymous: bool,
                         username: Option<string>, password: Option<string>, email: Option<string>, name: string)
    ensures MerchantRejection(users, merchants, anonymous, username, password, email, name).None? <==>
      && !StoreNameInUse(merchants, name)
      && (anonymous ==> && username.GetOr("") != "" && password.GetOr("") != ""
                        && !UsernameTaken(users, username.value)
                        && (Normalize(email.GetOr("")) == "" || !EmailTaken(users, Normalize(email.GetOr("")))))
  {
  }

  /** The profile after a store registration: promoted to merchant with the
    * store's name and address, unless it was a merchant profile already,
    * which is kept as it was. A missing profile is created as a customer's
    * first. */
  function PromotedProfile(before: Option<Profile>, name: string, address: string): (p: Profile)
    ensures IsMerchant(p)
    ensures before.Some? && IsMerchant(before.value) ==> p == before.value
    ensures !(before.Some? && IsMerchant(before.value)) ==>
      p.storeName == Some(name) && p.storeAddress == Some(address) && p.phone == (if before.Some? then before.value.phone else None)
  {
    var b := if before.Some? then before.value else NewProfile(DefaultRole);
    if b.role != "merchant" then b.(role := "merchant", storeName := Some(name), storeAddress := Some(address)) else b
  }

  // ---------------------------------------------------------------------
  // The tables
  // ---------------------------------------------------------------------

  /** User ids are below the next id, every profile belongs to a user, and
    * usernames are unique (the column's constraint). */
  ghost predicate UsersConsistent(users: map<int, User>, profiles: map<int, Profile>, nextUserId: int)
  {
    && nextUserId >= 1
    && (forall id :: id in users ==> 1 <= id < nextUserId)
    && (forall id :: id in profiles ==> id in users)
    && (forall a, b :: a in users && b in users && users[a].username == users[b].username ==> a == b)
  }

  class AccountStore {
    var users: map<int, User>
    var profiles: map<int, Profile>
    var otps: seq<Otp>
    var nextUserId: int

    ghost predicate Valid()
      reads this
    {
      UsersConsistent(users, profiles, nextUserId)
    }

    constructor ()
      ensures Valid()
      ensures users == map[] && profiles == map[] && otps == [] && nextUserId == 1
    {
      users, profiles, otps, nextUserId := map[], map[], [], 1;
    }

    /** `OTPRequest.mark_used`. */
    method MarkUsed(i: nat)
      requires i < |otps|
      modifies this
      ensures otps == old(otps)[i := MarkedUsed(old(otps)[i])]
      ensures forall now :: !IsValid(otps[i], now)
      ensures users == old(users) && profiles == old(profiles) && nextUserId == old(nextUserId)
    {
      otps := otps[i := MarkedUsed(otps[i])];
    }

    /** `_create_and_send_otp`: retire the identifier's stale OTPs, insert a
      * fresh one expiring `ttlMinutes` from now, and report delivery. In
      * debug mode nothing is sent and the code is handed back; otherwise
      * `delivered` is what the mail queue answered. */
    method CreateOtp(email: string, purpose: string, ttlMinutes: int, now: int, draws: seq<nat>,
                     debug: bool, delivered: bool)
      returns (index: nat, sentOk: bool, debugCode: Option<string>)
      requires |draws| == 6
      modifies this
      ensures index == |old(otps)|
      ensures otps == Cleaned(old(otps), Normalize(email), now)
                      + [Otp(Normalize(email), GenerateOtpCode(draws), purpose, now, now + ttlMinutes * SecondsPerMinute, false)]
      ensures debug ==> !sentOk && debugCode == Some(GenerateOtpCode(draws))
      ensures !debug ==> sentOk == delivered && debugCode.None?
      ensures users == old(users) && profiles == old(profiles) && nextUserId == old(nextUserId)
    {
      var code := GenerateOtpCode(draws);
      var identifier := Normalize(email);
      otps := Cleaned(otps, identifier, now);
      index := |otps|;
      otps := otps + [Otp(identifier, code, purpose, now, now + ttlMinutes * SecondsPerMinute, false)];
      if debug {
        sentOk, debugCode := false, Some(code);
      } else {
        sentOk, debugCode := delivered, None;
      }
    }

    /** `ForgotPasswordRequestOTPView.post`: an OTP is made only for a
      * non-empty e-mail some user has (ignoring case); the answer's detail
      * is the same either way, and only the expiry and debug code differ. */
    method ForgotPassword(emailRaw: Option<string>, now: int, draws: seq<nat>, debug: bool, delivered: bool)
      returns (expiresAt: Option<int>, debugOtp: Option<string>)
      requires |draws| == 6
      modifies this
      ensures var email := Normalize(emailRaw.GetOr(""));
        if email != "" && EmailTaken(old(users), email) then
          && otps == Cleaned(old(otps), email, now)
                     + [Otp(email, GenerateOtpCode(draws), PurposeResetPassword, now, now + OtpTtlMinutes * SecondsPerMinute, false)]
          && expiresAt == Some(now + OtpTtlMinutes * SecondsPerMinute)
          && (debug ==> debugOtp == Some(GenerateOtpCode(draws)))
          && (!debug ==> debugOtp.None?)
        else
          otps == old(otps) && expiresAt.None? && debugOtp.None?
      ensures users == old(users) && profiles == old(profiles) && nextUserId == old(nextUserId)
    {
      var email := Normalize(emailRaw.GetOr(""));
      expiresAt, debugOtp := None, None;
      if email != "" && exists id :: id in users && SameIgnoringCase(users[id].email, email) {
        NormalizeIdempotent(emailRaw.GetOr(""));
        var index, sentOk, debugCode := CreateOtp(email, PurposeResetPassword, OtpTtlMinutes, now, draws, debug, delivered);
        expiresAt := Some(otps[index].expiresAt);
        debugOtp := debugCode;
      }
    }

    /** `RegisterView.post` with `RegisterSerializer`: the fields are checked
      * first, then both clashes are reported together. A username free in
      * every letter case cannot collide exactly either, so the unique
      * constraint never fails here. The user is stored
      * with the trimmed username, e-mail and password, is active, and gets a
      * customer profile. */
    method Register(username: string, password: string, email: Option<string>, emailShaped: bool)
      returns (out: RegisterOutcome)
      requires Valid()
      modifies this
      ensures Valid()
      ensures var errs := RegisterErrors(old(users), username, email);
        if !RegisterFieldsOk(username, password, email, emailShaped) then out == RegisterFieldsInvalid && unchanged(this)
        else if errs.0 || errs.1 then out == RegisterRejected(errs.0, errs.1) && unchanged(this)
        else
          && out == Registered(old(nextUserId))
          && users == old(users)[old(nextUserId) := User(Strip(username), Strip(email.GetOr("")), Strip(password), true)]
          && profiles == old(profiles)[old(nextUserId) := NewProfile(DefaultRole)]
          && nextUserId == old(nextUserId) + 1
          && otps == old(otps)
      ensures out.Registered? ==> var u := users[out.userId];
        u.username != "" && u.password != "" && Strip(u.username) == u.username && Strip(u.password) == u.password
    {
      if !RegisterFieldsOk(username, password, email, emailShaped) {
        return RegisterFieldsInvalid;
      }
      var errs := RegisterErrors(users, username, email);
      if errs.0 || errs.1 {
        return RegisterRejected(errs.0, errs.1);
      }
      var name := Strip(username);
      NewUserKeepsValid(name);
      StripIdempotent(username);
      StripIdempotent(password);
      var user := AddUser(User(name, Strip(email.GetOr("")), Strip(password), true));
      SetProfile(user, NewProfile(DefaultRole));
      out := Registered(user);
    }

    /** `RegisterConfirmOTPView.post`: check the fields, redeem the latest
      * OTP matching the trimmed code, create the user with the e-mail as
      * username, the trimmed password and the requested role (customer when
      * none is given), and mark the OTP used. The purpose of the OTP is not
      * consulted. */
    method ConfirmRegister(email: string, code: string, password: string, role: Option<string>, now: int,
                           emailShaped: bool)
      returns (out: OtpOutcome)
      requires Valid()
      modifies this
      ensures Valid()
      ensures var id := Normalize(email);
        var r := RedeemOtp(old(otps), id, Strip(code), now);
        if !ConfirmFieldsOk(email, code, password, role, emailShaped) then out == OtpFieldsInvalid && unchanged(this)
        else if r.NoSuchOtp? then out == OtpUnknown && unchanged(this)
        else if r.OtpExpired? then out == OtpOutdated && unchanged(this)
        else if UsernameExists(old(users), id) then out == OtpCrash && unchanged(this)
        else
          && out == OtpAccepted(old(nextUserId))
          && users == old(users)[old(nextUserId) := User(id, id, Strip(password), true)]
          && profiles == old(profiles)[old(nextUserId) := NewProfile(role.GetOr(DefaultRole))]
          && otps == old(otps)[r.index := MarkedUsed(old(otps)[r.index])]
          && nextUserId == old(nextUserId) + 1
      ensures out.OtpAccepted? ==>
        |users[out.userId].password| >= PasswordMinLength && profiles[out.userId].role in RoleChoices
    {
      if !ConfirmFieldsOk(email, code, password, role, emailShaped) {
        return OtpFieldsInvalid;
      }
      var id := Normalize(email);
      var r := RedeemOtp(otps, id, Strip(code), now);
      if r.NoSuchOtp? {
        return OtpUnknown;
      }
      if r.OtpExpired? {
        return OtpOutdated;
      }
      if exists u :: u in users && users[u].username == id {
        return OtpCrash;
      }
      var user := AddUser(User(id, id, Strip(password), true));
      SetProfile(user, NewProfile(role.GetOr(DefaultRole)));
      MarkUsed(r.index);
      out := OtpAccepted(user);
    }

    /** `ResetPasswordConfirmView.post`: check the fields, redeem the latest
      * OTP matching the trimmed code, require a user whose e-mail equals the
      * normalised one exactly, set that user's password to the trimmed new
      * one and mark the OTP used. More than one such user makes
      * `User.objects.get` fail, and the request fails with it. */
    method ResetPassword(email: string, code: string, newPassword: string, now: int, emailShaped: bool)
      returns (out: OtpOutcome)
      requires Valid()
      modifies this
      ensures Valid()
      ensures var id := Normalize(email);
        var r := RedeemOtp(old(otps), id, Strip(code), now);
        if !ResetFieldsOk(email, code, newPassword, emailShaped) then out == OtpFieldsInvalid && unchanged(this)
        else if r.NoSuchOtp? then out == OtpUnknown && unchanged(this)
        else if r.OtpExpired? then out == OtpOutdated && unchanged(this)
        else if !HasEmail(old(users), id) then out == NoAccount && unchanged(this)
        else if SharedEmail(old(users), id) then out == OtpCrash && unchanged(this)
        else
          && out.OtpAccepted? && out.userId in old(users) && old(users)[out.userId].email == id
          && users == old(users)[out.userId := old(users)[out.userId].(password := Strip(newPassword))]
          && otps == old(otps)[r.index := MarkedUsed(old(otps)[r.index])]
          && profiles == old(profiles) && nextUserId == old(nextUserId)
      ensures out.OtpAccepted? ==> |users[out.userId].password| >= PasswordMinLength
    {
      if !ResetFieldsOk(email, code, newPassword, emailShaped) {
        return OtpFieldsInvalid;
      }
      var id := Normalize(email);
      var r := RedeemOtp(otps, id, Strip(code), now);
      if r.NoSuchOtp? {
        return OtpUnknown;
      }
      if r.OtpExpired? {
        return OtpOutdated;
      }
      if !HasEmail(users, id) {
        return NoAccount;
      }
      if SharedEmail(users, id) {
        return OtpCrash;
      }
      var u :| u in users && users[u].email == id;
      users := users[u := users[u].(password := Strip(newPassword))];
      MarkUsed(r.index);
      out := OtpAccepted(u);
    }

    /** `LoginSerializer`: check the fields, then authenticate with the
      * normalised e-mail as the username; an inactive user or a wrong
      * password is refused. The password is compared untrimmed. The role is
      * the profile's, or none without a profile. */
    method Login(email: string, password: string, emailShaped: bool) returns (out: LoginOutcome)
      requires Valid()
      ensures !LoginFieldsOk(email, password, emailShaped) ==> out == LoginFieldsInvalid
      ensures out.LoggedIn? <==> && LoginFieldsOk(email, password, emailShaped)
                                 && exists u :: u in users && users[u].username == Normalize(email)
                                                && users[u].password == password && users[u].active
      ensures out.LoggedIn? ==> && out.userId in users && users[out.userId].username == Normalize(email)
                                && out.role == (if out.userId in profiles then Some(profiles[out.userId].role) else None)
    {
      if !LoginFieldsOk(email, password, emailShaped) {
        return LoginFieldsInvalid;
      }
      var name := Normalize(email);
      if u :| u in users && users[u].username == name && users[u].password == password && users[u].active {
        out := LoggedIn(u, if u in profiles then Some(profiles[u].role) else None);
      } else {
        out := BadCredentials;
      }
    }

    /** `RegisterMerchantView.post`. After the field checks the serializer
      * works on trimmed values. The caller (or, for an anonymous caller, a
      * new active user with the normalised e-mail) becomes a merchant
      * unless already one, owns the new store, and is its "owner" member.
      * `merchantId` is the id the database gives the new store. */
    method RegisterMerchant(mk: Marketplace, current: Option<int>, username: Option<string>, password: Option<string>,
                            email: Option<string>, name: string, address: Option<string>, phone: Option<string>,
                            merchantId: int, emailShaped: bool)
      returns (out: MerchantOutcome)
      requires Valid()
      requires current.Some? ==> current.value in users
      requires merchantId !in mk.merchants
      modifies this, mk
      ensures Valid()
      ensures !MerchantFieldsOk(email, name, emailShaped) ==> out == MerchantFieldsInvalid && unchanged(this) && unchanged(mk)
      ensures var rej := MerchantRejection(old(users), old(mk.merchants), current.None?, Trimmed(username), Trimmed(password),
                                           email, Strip(name));
        MerchantFieldsOk(email, name, emailShaped) && rej.Some? ==> out == rej.value && unchanged(this) && unchanged(mk)
      ensures var rej := MerchantRejection(old(users), old(mk.merchants), current.None?, Trimmed(username), Trimmed(password),
                                           email, Strip(name));
        MerchantFieldsOk(email, name, emailShaped) && rej.None? ==>
          out == MerchantRegistered(if current.Some? then current.value else old(nextUserId), merchantId)
      ensures out.MerchantRegistered? ==>
        && users == (if current.Some? then old(users)
                     else old(users)[out.userId := User(Trimmed(username).value, Normalize(email.GetOr("")), Trimmed(password).value, true)])
        && nextUserId == (if current.Some? then old(nextUserId) else old(nextUserId) + 1)
        && profiles == old(profiles)[out.userId := PromotedProfile(
             if out.userId in old(profiles) then Some(old(profiles)[out.userId]) else None, Strip(name), Strip(address.GetOr("")))]
        && otps == old(otps)
      ensures out.MerchantRegistered? ==>
        && mk.merchants == old(mk.merchants)[merchantId := Merchant(out.userId, Strip(name), Strip(address.GetOr("")),
                                                                    Strip(phone.GetOr("")), None, None, true)]
        && mk.members == old(mk.members)[(merchantId, out.userId) := "owner"]
        && mk.items == old(mk.items) && mk.orders == old(mk.orders)
        && mk.nextOrderId == old(mk.nextOrderId) && mk.nextLineId == old(mk.nextLineId)
    {
      if !MerchantFieldsOk(email, name, emailShaped) {
        return MerchantFieldsInvalid;
      }
      var login, secret, store := Trimmed(username), Trimmed(password), Strip(name);
      var rej := MerchantRejection(users, mk.merchants, current.None?, login, secret, email, store);
      if rej.Some? {
        return rej.value;
      }
      MerchantAccepted(users, mk.merchants, current.None?, login, secret, email, store);
      var user := PromoteToMerchant(current, login, secret, email, store, Strip(address.GetOr("")));
      mk.OpenStore(merchantId, user, store, Strip(address.GetOr("")), Strip(phone.GetOr("")));
      out := MerchantRegistered(user, merchantId);
    }

    /** The account half of a store registration that passed the checks:
      * the caller, or a new active user for an anonymous caller, gets the
      * promoted profile. */
    method PromoteToMerchant(current: Option<int>, username: Option<string>, password: Option<string>,
                             email: Option<string>, name: string, address: string) returns (user: int)
      requires Valid()
      requires current.Some? ==> current.value in users
      requires current.None? ==> username.Some? && password.Some? && !UsernameTaken(users, username.value)
      modifies this
      ensures Valid()
      ensures user == (if current.Some? then current.value else old(nextUserId))
      ensures users == (if current.Some? then old(users)
                        else old(users)[user := User(username.value, Normalize(email.GetOr("")), password.value, true)])
      ensures nextUserId == (if current.Some? then old(nextUserId) else old(nextUserId) + 1)
      ensures profiles == old(profiles)[user := PromotedProfile(
                if user in old(profiles) then Some(old(profiles)[user]) else None, name, address)]
      ensures otps == old(otps)
    {
      if current.Some? {
        user := current.value;
      } else {
        NewUserKeepsValid(username.value);
        user := AddUser(User(username.value, Normalize(email.GetOr("")), password.value, true));
      }
      SetProfile(user, PromotedProfile(if user in profiles then Some(profiles[user]) else None, name, address));
    }

    /** Insert a user under the next id. */
    method AddUser(u: User) returns (id: int)
      requires Valid() && forall v :: v in users ==> users[v].username != u.username
      modifies this
      ensures Valid()
      ensures id == old(nextUserId) && users == old(users)[id := u] && nextUserId == old(nextUserId) + 1
      ensures profiles == old(profiles) && otps == old(otps)
    {
      id := nextUserId;
      users := users[id := u];
      nextUserId := nextUserId + 1;
    }

    /** Create or overwrite a user's profile. */
    method SetProfile(id: int, p: Profile)
      requires Valid() && id in users
      modifies this
      ensures Valid()
      ensures profiles == old(profiles)[id := p]
      ensures users == old(users) && nextUserId == old(nextUserId) && otps == old(otps)
    {
      profiles := profiles[id := p];
    }

    /** A username no user has, ignoring case, is not any user's exact username. */
    lemma NewUserKeepsValid(username: string)
      requires Valid() && !UsernameTaken(users, username)
      ensures forall u :: u in users ==> users[u].username != username
    {
    }
  }

  /** Registering the same (already trimmed) username twice: the second
    * attempt is refused as taken, even with different letter case. */
  method RegisterTwice(store: AccountStore, username: string, password: string, email: Option<string>, other: string,
                       emailShaped: bool)
    returns (first: RegisterOutcome, second: RegisterOutcome)
    requires store.Valid()
    requires Strip(username) == username && Strip(other) == other && SameIgnoringCase(other, username)
    modifies store
    ensures first.Registered? ==> second.RegisterRejected? && second.usernameTaken
  {
    first := store.Register(username, password, email, emailShaped);
    if first.Registered? {
      assert store.users[first.userId].username == username;
      assert |other| == |Lower(username)|;
      assert UsernameTaken(store.users, Strip(other));
    }
    second := store.Register(other, password, email, emailShaped);
  }

  /** Registering a second store under a name an existing store has, in
    * any letter case, is refused for every caller. */
  method RegisterStoreTwice(store: AccountStore, mk: Marketplace, current: Option<int>, name: string, other: string,
                            merchantId: int, secondId: int)
    returns (first: MerchantOutcome, second: MerchantOutcome)
    requires store.Valid()
    requires current.Some? ==> current.value in store.users
    requires merchantId !in mk.merchants && secondId !in mk.merchants && secondId != merchantId
    requires Strip(name) == name && Strip(other) == other && SameIgnoringCase(other, name)
    modifies store, mk
    ensures first.MerchantRegistered? ==> second == StoreNameTaken
  {
    first := store.RegisterMerchant(mk, current, None, None, None, name, None, None, merchantId, false);
    if first.MerchantRegistered? {
      assert current.Some?;
      assert mk.merchants[merchantId].name == name;
      assert |other| == |Lower(name)|;
      second := store.RegisterMerchant(mk, current, None, None, None, other, None, None, secondId, false);
    } else {
      second := first;
    }
  }
}
