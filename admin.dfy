/** server/routes/admin.ts: the admin session registry and the decision logic of the admin
    handlers. Handlers that only forward to the store (the getters, the deletes, mark-read
    and the gallery, service and about updates) are the `Database` members themselves. */
module AdminRoutes {
  import opened Wrappers
  import opened Lists
  import opened Text
  import opened Records
  import opened Collections
  import opened Otps
  import opened Db

  // ---- Session registry ----

  /** The names a plain JavaScript object inherits from `Object.prototype`; reading any of
      them from `adminSessions` yields a function or object, which is truthy. */
  predicate InheritedKey(k: string) {
    k in {"constructor", "__defineGetter__", "__defineSetter__", "hasOwnProperty",
          "__lookupGetter__", "__lookupSetter__", "isPrototypeOf", "propertyIsEnumerable",
          "toString", "valueOf", "__proto__", "toLocaleString"}
  }

  /** The property key a body value becomes: an absent `sessionId` is the key "undefined". */
  function PropertyKey(v: Option<string>): (k: string)
    ensures v.Some? ==> k == v.value
    ensures v.None? ==> k == "undefined"
  {
    match v
    case Some(s) => s
    case None => "undefined"
  }

  /** Truthiness of `adminSessions[k]`: an own key gives its value, any other key is looked
      up on the prototype. */
  predicate SessionLookup(sessions: map<string, bool>, k: string) {
    if k in sessions then sessions[k] else InheritedKey(k)
  }

  /** `verifyAdmin` as written: a present, non-empty header whose property read is truthy. */
  function VerifyAdmin(sessions: map<string, bool>, header: Option<string>): (r: Reply<()>)
    ensures r.Fail? ==> r == Fail(401, "Unauthorized")
    ensures r.Ok? <==> Truthy(header) && SessionLookup(sessions, header.value)
  {
    if !Truthy(header) || !SessionLookup(sessions, header.value) then Fail(401, "Unauthorized")
    else Ok(())
  }

  /** `verifyAdmin` consulting own keys only: what the registry is meant to decide. */
  function VerifyAdminOwnKeys(sessions: map<string, bool>, header: Option<string>): (r: Reply<()>)
    ensures r.Fail? ==> r == Fail(401, "Unauthorized")
    ensures r.Ok? <==> header.Some? && header.value in sessions && sessions[header.value] && header.value != ""
  {
    if Truthy(header) && header.value in sessions && sessions[header.value] then Ok(())
    else Fail(401, "Unauthorized")
  }

  /** Without ever logging in, the header value "constructor" passes `verifyAdmin`. */
  lemma InheritedNameBypassesVerifyAdmin()
    ensures VerifyAdmin(map[], Some("constructor")) == Ok(())
    ensures VerifyAdminOwnKeys(map[], Some("constructor")) == Fail(401, "Unauthorized")
  {
  }

  /** Login makes a session id admissible, logout makes it inadmissible again, and neither
      changes the admission of any other id. */
  lemma SessionLifecycle(sessions: map<string, bool>, sid: string, other: Option<string>)
    requires sid != ""
    requires other != Some(sid)
    ensures VerifyAdminOwnKeys(sessions[sid := true], Some(sid)).Ok?
    ensures VerifyAdminOwnKeys(sessions[sid := true] - {sid}, Some(sid)).Fail?
    ensures VerifyAdminOwnKeys(sessions[sid := true], other) == VerifyAdminOwnKeys(sessions, other)
    ensures VerifyAdminOwnKeys(sessions - {sid}, other) == VerifyAdminOwnKeys(sessions, other)
  {
  }

  /** As written, a logged-out id stays admissible exactly when it is an inherited name. */
  lemma LogoutAsWritten(sessions: map<string, bool>, sid: string)
    requires sid != ""
    ensures VerifyAdmin(sessions - {sid}, Some(sid)).Ok? <==> InheritedKey(sid)
  {
  }

  // ---- Read-only handlers ----

  datatype DashboardStats = DashboardStats(
    totalMessages: nat, unreadMessages: nat, totalGalleryImages: nat, totalServices: nat,
    recentActivity: seq<ContactMessage>)

  predicate Unread(m: ContactMessage) { !m.read }

  /** `getDashboardStats`: counts, and the last five messages newest first. */
  function DashboardStatsOf(messages: seq<ContactMessage>, gallery: seq<GalleryImage>,
                            services: seq<Service>): (r: DashboardStats)
    ensures r.totalMessages == |messages|
    ensures r.unreadMessages == |set i | 0 <= i < |messages| && !messages[i].read|
    ensures r.totalGalleryImages == |gallery| && r.totalServices == |services|
    ensures |r.recentActivity| == if |messages| < 5 then |messages| else 5
    ensures forall k :: 0 <= k < |r.recentActivity| ==>
              r.recentActivity[k] == messages[|messages| - 1 - k]
  {
    FilterLengthCounts(messages, Unread);
    assert Positions(messages, Unread) == set i | 0 <= i < |messages| && !messages[i].read;
    DashboardStats(|messages|, |Filter(messages, Unread)|, |gallery|, |services|,
                   Reverse(TakeLast(messages, 5)))
  }

  /** `getContactMessages`: the searched list when `q` is truthy, every message otherwise,
      newest first. */
  function ContactMessagesReply(messages: seq<ContactMessage>, q: Option<string>): (r: seq<ContactMessage>)
    ensures forall k :: 0 <= k < |r| ==> r[k] in messages
    ensures Truthy(q) ==> forall k :: 0 <= k < |r| ==> MatchesSearch(r[k], q.value)
    ensures Truthy(q) ==> forall k :: 0 <= k < |messages| && MatchesSearch(messages[k], q.value) ==> messages[k] in r
    ensures !Truthy(q) ==> |r| == |messages| && forall k :: 0 <= k < |r| ==> r[k] == messages[|messages| - 1 - k]
    ensures Truthy(q) ==> var found := SearchMessages(messages, q.value);
              |r| == |found| && forall k :: 0 <= k < |r| ==> r[k] == found[|found| - 1 - k]
  {
    var s := if Truthy(q) then SearchMessages(messages, q.value) else messages;
    ReverseMembers(s);
    Reverse(s)
  }

  predicate IsVisible(svc: Service) { svc.visible }

  /** `getVisibleServicesHandler`: exactly the visible services, in stored order. */
  function VisibleServices(services: seq<Service>): (r: seq<Service>)
    ensures IsSubsequence(r, services)
    ensures forall k :: 0 <= k < |r| ==> r[k].visible
    ensures forall k :: 0 <= k < |services| && services[k].visible ==> services[k] in r
    ensures |r| == |set k | 0 <= k < |services| && services[k].visible|
  {
    FilterIsSubsequence(services, IsVisible);
    FilterLengthCounts(services, IsVisible);
    assert Positions(services, IsVisible) == set k | 0 <= k < |services| && services[k].visible;
    Filter(services, IsVisible)
  }

  // ---- Request bodies and replies ----

  datatype GalleryBody = GalleryBody(
    title: Option<string>, category: Option<string>, imageUrl: Option<string>, visible: Option<bool>)

  datatype ServiceBody = ServiceBody(
    name: Option<string>, description: Option<string>, category: Option<string>,
    imageUrl: Option<string>, visible: Option<bool>)

  /** The reply of `requestPasswordReset`; `otpCode` is present outside production. */
  datatype ResetRequested = ResetRequested(message: string, otpCode: Option<string>)

  const CodeSentMessage := "Verification code sent to your email. Please check your inbox."
  const VerifiedMessage := "Verification successful. You can now reset your password."
  const ResetDoneMessage := "Password reset successfully"

  /** The minimum password length both password endpoints enforce. */
  const MinPasswordLength: nat := 6

  predicate AcceptablePassword(p: Option<string>) {
    Truthy(p) && |p.value| >= MinPasswordLength
  }

  /** The registry of admin sessions next to the store the handlers act on. */
  class AdminApi {
    var sessions: map<string, bool>
    const db: Database

    constructor (db: Database)
      ensures this.db == db && sessions == map[]
    {
      this.db := db;
      sessions := map[];
    }

    /** `adminLogin`: the stored password registers `sessionId`; anything else is refused. */
    method AdminLogin(password: Option<string>, sessionId: string) returns (r: Reply<string>)
      modifies this`sessions
      ensures password == Some(db.GetAdminCredentials().password) ==>
                r == Ok(sessionId) && sessions == old(sessions)[sessionId := true]
      ensures password != Some(db.GetAdminCredentials().password) ==>
                r == Fail(401, "Invalid password") && sessions == old(sessions)
    {
      var credentials := db.GetAdminCredentials();
      if password == Some(credentials.password) {
        sessions := sessions[sessionId := true];
        r := Ok(sessionId);
      } else {
        r := Fail(401, "Invalid password");
      }
    }

    /** `adminLogout`: deletes the key and always succeeds. */
    method AdminLogout(sessionId: Option<string>)
      modifies this`sessions
      ensures sessions == old(sessions) - {PropertyKey(sessionId)}
    {
      sessions := sessions - {PropertyKey(sessionId)};
    }

    /** `createGalleryImage`: title, category and imageUrl are required; `visible ?? true`. */
    method CreateGalleryImage(body: GalleryBody, id: string, now: Timestamp) returns (r: Reply<GalleryImage>)
      modifies db`gallery
      ensures !(Truthy(body.title) && Truthy(body.category) && Truthy(body.imageUrl)) ==>
                r == Fail(400, "Missing required fields") && db.gallery == old(db.gallery)
      ensures Truthy(body.title) && Truthy(body.category) && Truthy(body.imageUrl) ==>
                r == Ok(GalleryImage(id, body.title.value, body.category.value, body.imageUrl.value,
                                     Override(body.visible, true), now)) &&
                db.gallery == old(db.gallery) + [r.value]
    {
      if !(Truthy(body.title) && Truthy(body.category) && Truthy(body.imageUrl)) {
        return Fail(400, "Missing required fields");
      }
      var image := db.AddGalleryImage(
        NewGalleryImage(body.title.value, body.category.value, body.imageUrl.value, Override(body.visible, true)),
        id, now);
      r := Ok(image);
    }

    /** `createService`: name, description, category and imageUrl are required; `visible ?? true`. */
    method CreateService(body: ServiceBody, id: string, now: Timestamp) returns (r: Reply<Service>)
      modifies db`services
      ensures !(Truthy(body.name) && Truthy(body.description) && Truthy(body.category) && Truthy(body.imageUrl)) ==>
                r == Fail(400, "Missing required fields") && db.services == old(db.services)
      ensures Truthy(body.name) && Truthy(body.description) && Truthy(body.category) && Truthy(body.imageUrl) ==>
                r == Ok(Service(id, body.name.value, body.description.value, body.category.value,
                                body.imageUrl.value, Override(body.visible, true), now)) &&
                db.services == old(db.services) + [r.value]
    {
      if !(Truthy(body.name) && Truthy(body.description) && Truthy(body.category) && Truthy(body.imageUrl)) {
        return Fail(400, "Missing required fields");
      }
      var service := db.AddService(
        NewService(body.name.value, body.description.value, body.category.value, body.imageUrl.value,
                   Override(body.visible, true)),
        id, now);
      r := Ok(service);
    }

    /** `updateSettingsHandler`: a body with a truthy `password` key is refused. */
    method UpdateSettingsHandler(password: Option<string>, updates: SettingsPatch) returns (r: Reply<AdminSettings>)
      modifies db`settings
      ensures Truthy(password) ==>
                r == Fail(400, "Use dedicated password endpoint") && db.settings == old(db.settings)
      ensures !Truthy(password) ==>
                r == Ok(MergeSettings(old(db.GetSettings()), updates)) &&
                db.settings == [r.value] && db.GetSettings() == r.value
    {
      if Truthy(password) {
        return Fail(400, "Use dedicated password endpoint");
      }
      var settings := db.UpdateSettings(updates);
      r := Ok(settings);
    }

    /** `changeAdminPassword`: the current password is checked first, then the new one's length. */
    method ChangeAdminPassword(currentPassword: Option<string>, newPassword: Option<string>) returns (r: Reply<()>)
      modifies db`credentials
      ensures currentPassword != Some(old(db.GetAdminCredentials()).password) ==>
                r == Fail(401, "Current password is incorrect") && db.credentials == old(db.credentials)
      ensures currentPassword == Some(old(db.GetAdminCredentials()).password) && !AcceptablePassword(newPassword) ==>
                r == Fail(400, "Password must be at least 6 characters") && db.credentials == old(db.credentials)
      ensures currentPassword == Some(old(db.GetAdminCredentials()).password) && AcceptablePassword(newPassword) ==>
                r == Ok(()) &&
                db.credentials == [AdminCredentials(newPassword.value, old(db.GetAdminCredentials()).email)] &&
                db.GetAdminCredentials() == AdminCredentials(newPassword.value, old(db.GetAdminCredentials()).email)
    {
      var credentials := db.GetAdminCredentials();
      if currentPassword != Some(credentials.password) {
        return Fail(401, "Current password is incorrect");
      }
      if !AcceptablePassword(newPassword) {
        return Fail(400, "Password must be at least 6 characters");
      }
      var _ := db.UpdateAdminPassword(newPassword.value);
      r := Ok(());
    }

    /** `requestPasswordReset`: `code` is the drawn six-digit number; the reply carries the
        code unless the server runs in production. */
    method RequestPasswordReset(email: Option<string>, code: nat, now: Timestamp, production: bool)
      returns (r: Reply<ResetRequested>)
      requires 100000 <= code <= 999999
      modifies db`otps
      ensures OrElse(email, db.GetAdminCredentials().email) == "" ==>
                r == Fail(400, "Email address is required") && db.otps == old(db.otps)
      ensures OrElse(email, db.GetAdminCredentials().email) != "" ==>
                db.otps == IssueOtp(old(db.otps), OrElse(email, db.GetAdminCredentials().email), Decimal(code), now) &&
                r == Ok(ResetRequested(CodeSentMessage, if production then None else Some(Decimal(code))))
    {
      var resetEmail := OrElse(email, db.GetAdminCredentials().email);
      if resetEmail == "" {
        return Fail(400, "Email address is required");
      }
      var otpCode := db.CreatePasswordResetOTP(resetEmail, code, now);
      r := Ok(ResetRequested(CodeSentMessage, if production then None else Some(otpCode)));
    }

    /** `verifyOTPHandler`: a usable code is marked verified; any other code counts an
        attempt on the record carrying it, if there is one. */
    method VerifyOtpHandler(otpCode: Option<string>, email: Option<string>, now: Timestamp) returns (r: Reply<string>)
      modifies db`otps
      ensures !Truthy(otpCode) ==> r == Fail(400, "OTP code is required") && db.otps == old(db.otps)
      ensures Truthy(otpCode) && OrElse(email, db.GetAdminCredentials().email) == "" ==>
                r == Fail(400, "Email is required for verification") && db.otps == old(db.otps)
      ensures Truthy(otpCode) && OrElse(email, db.GetAdminCredentials().email) != "" ==>
                var e := OrElse(email, db.GetAdminCredentials().email);
                db.otps == VerifyStep(old(db.otps), e, otpCode.value, now) &&
                r == if VerifyOtp(old(db.otps), e, otpCode.value, now) then Ok(VerifiedMessage)
                     else Fail(401, "Invalid or expired verification code")
    {
      if !Truthy(otpCode) {
        return Fail(400, "OTP code is required");
      }
      var verifyEmail := OrElse(email, db.GetAdminCredentials().email);
      if verifyEmail == "" {
        return Fail(400, "Email is required for verification");
      }
      var valid := db.VerifyPasswordResetOTP(verifyEmail, otpCode.value, now);
      if !valid {
        db.IncrementOTPAttempts(verifyEmail, otpCode.value);
        return Fail(401, "Invalid or expired verification code");
      }
      db.MarkOTPAsVerified(verifyEmail, otpCode.value);
      r := Ok(VerifiedMessage);
    }

    /** `resetPassword` as written: any email with a verified, unexpired code unlocks the
        admin password. */
    method ResetPassword(newPassword: Option<string>, email: Option<string>, now: Timestamp) returns (r: Reply<string>)
      modifies db`credentials, db`otps
      ensures !Truthy(newPassword) ==>
                r == Fail(400, "Password is required") && unchanged(db`credentials, db`otps)
      ensures Truthy(newPassword) && |newPassword.value| < MinPasswordLength ==>
                r == Fail(400, "Password must be at least 6 characters") && unchanged(db`credentials, db`otps)
      ensures AcceptablePassword(newPassword) && OrElse(email, old(db.GetAdminCredentials()).email) == "" ==>
                r == Fail(400, "Email is required for password reset") && unchanged(db`credentials, db`otps)
      ensures AcceptablePassword(newPassword) && OrElse(email, old(db.GetAdminCredentials()).email) != "" &&
              VerifiedOtp(old(db.otps), OrElse(email, old(db.GetAdminCredentials()).email), now).None? ==>
                r == Fail(401, "Please verify your email first") && unchanged(db`credentials, db`otps)
      ensures AcceptablePassword(newPassword) && OrElse(email, old(db.GetAdminCredentials()).email) != "" &&
              VerifiedOtp(old(db.otps), OrElse(email, old(db.GetAdminCredentials()).email), now).Some? ==>
                r == Ok(ResetDoneMessage) &&
                db.otps == ClearVerified(old(db.otps), OrElse(email, old(db.GetAdminCredentials()).email)) &&
                db.credentials == [AdminCredentials(newPassword.value, old(db.GetAdminCredentials()).email)]
    {
      if !Truthy(newPassword) {
        return Fail(400, "Password is required");
      }
      if |newPassword.value| < MinPasswordLength {
        return Fail(400, "Password must be at least 6 characters");
      }
      var resetEmail := OrElse(email, db.GetAdminCredentials().email);
      if resetEmail == "" {
        return Fail(400, "Email is required for password reset");
      }
      var verifiedOtp := db.GetVerifiedOTP(resetEmail, now);
      if verifiedOtp.None? {
        return Fail(401, "Please verify your email first");
      }
      var _ := db.UpdateAdminPassword(newPassword.value);
      db.ClearVerifiedOTP(resetEmail);
      r := Ok(ResetDoneMessage);
    }

    /** `resetPassword` unlocked only by a code sent to the admin's own address: the
        body's email is not consulted. */
    method ResetPasswordForAdminEmail(newPassword: Option<string>, now: Timestamp) returns (r: Reply<string>)
      modifies db`credentials, db`otps
      ensures !AcceptablePassword(newPassword) ==> r.Fail? && r.status == 400 && unchanged(db`credentials, db`otps)
      ensures r.Ok? ==>
                AcceptablePassword(newPassword) &&
                (exists k :: 0 <= k < |old(db.otps)| && old(db.otps)[k].verified &&
                   old(db.otps)[k].email == old(db.GetAdminCredentials()).email && !(old(db.otps)[k].expiresAt < now)) &&
                db.credentials == [AdminCredentials(newPassword.value, old(db.GetAdminCredentials()).email)] &&
                db.GetAdminCredentials() == AdminCredentials(newPassword.value, old(db.GetAdminCredentials()).email) &&
                db.otps == ClearVerified(old(db.otps), old(db.GetAdminCredentials()).email)
      ensures r.Fail? ==> unchanged(db`credentials, db`otps)
      ensures (AcceptablePassword(newPassword) && old(db.GetAdminCredentials()).email != "" &&
               VerifiedOtp(old(db.otps), old(db.GetAdminCredentials()).email, now).Some?) ==> r.Ok?
    {
      if !Truthy(newPassword) {
        return Fail(400, "Password is required");
      }
      if |newPassword.value| < MinPasswordLength {
        return Fail(400, "Password must be at least 6 characters");
      }
      var adminEmail := db.GetAdminCredentials().email;
      if adminEmail == "" {
        return Fail(400, "Email is required for password reset");
      }
      var verifiedOtp := db.GetVerifiedOTP(adminEmail, now);
      if verifiedOtp.None? {
        return Fail(401, "Please verify your email first");
      }
      var _ := db.UpdateAdminPassword(newPassword.value);
      db.ClearVerifiedOTP(adminEmail);
      r := Ok(ResetDoneMessage);
    }

    /** Forgot password then verify, in production, with the code that was mailed to the
        address: the code is left verified and unexpired until `t2`. */
    method RequestAndVerify(email: string, code: nat, t0: Timestamp, t1: Timestamp, t2: Timestamp)
      returns (sent: Reply<ResetRequested>, verified: Reply<string>)
      requires 100000 <= code <= 999999
      requires email != ""
      requires t0 <= t1 <= t2 <= t0 + OtpLifetime
      modifies db`otps
      ensures sent.Ok? && verified == Ok(VerifiedMessage)
      ensures VerifiedOtp(db.otps, email, t2) == Some(NewOtp(email, Decimal(code), t0).(verified := true))
    {
      var c := Decimal(code);
      SixDigitDecimal(code);
      ghost var issued := IssueOtp(db.otps, email, c, t0);
      VerifiedCodeAllowsReset(db.otps, email, c, t0, t1, t2);
      assert OrElse(Some(email), db.GetAdminCredentials().email) == email;
      sent := RequestPasswordReset(Some(email), code, t0, true);
      assert db.otps == issued;
      assert Truthy(Some(c)) && OrElse(Some(email), db.GetAdminCredentials().email) == email;
      verified := VerifyOtpHandler(Some(c), Some(email), t1);
      assert db.otps == VerifyStep(issued, email, c, t1);
    }

    /** Forgot password, verify, reset: any non-empty email, including one that is not the
        admin's, ends with the admin password changed and the code consumed. */
    method ForgotPasswordFlow(email: string, code: nat, newPassword: string, t0: Timestamp, t1: Timestamp, t2: Timestamp)
      returns (sent: Reply<ResetRequested>, verified: Reply<string>, reset: Reply<string>)
      requires 100000 <= code <= 999999
      requires email != "" && |newPassword| >= MinPasswordLength
      requires t0 <= t1 <= t2 <= t0 + OtpLifetime
      modifies db`otps, db`credentials
      ensures sent.Ok? && verified == Ok(VerifiedMessage) && reset == Ok(ResetDoneMessage)
      ensures db.GetAdminCredentials() == AdminCredentials(newPassword, old(db.GetAdminCredentials()).email)
      ensures VerifiedOtp(db.otps, email, t2).None?
    {
      sent, verified := RequestAndVerify(email, code, t0, t1, t2);
      ghost var beforeReset := db.otps;
      reset := ResetPassword(Some(newPassword), Some(email), t2);
      ResetConsumesVerification(beforeReset, email, t2);
    }
  }

  /** The store-level reason behind the account takeover: a code issued to and verified by
      a mailbox other than the admin's is exactly what `resetPassword` accepts. */
  lemma ForeignMailboxUnlocksReset(otps: seq<PasswordResetOTP>, admin: AdminCredentials,
                                   attacker: string, code: string, now: Timestamp)
    requires attacker != "" && attacker != admin.email
    ensures var verified := VerifyStep(IssueOtp(otps, attacker, code, now), attacker, code, now);
            var found := VerifiedOtp(verified, OrElse(Some(attacker), admin.email), now);
            found.Some? && found.value.email != admin.email
  {
    VerifiedCodeAllowsReset(otps, attacker, code, now, now, now);
  }
}
