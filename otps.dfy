/** The one-time-code password reset of server/db.ts as functions on the stored list of
    codes, and the legacy reset tokens. The stored list is the state; `now` is the clock. */
module Otps {
  import opened Wrappers
  import opened Lists
  import opened Records

  /** The record belongs to `email` and carries `code`. */
  predicate IsFor(o: PasswordResetOTP, email: string, code: string) {
    o.email == email && o.code == code
  }

  /** `i` is the first record for (email, code): the one `find` returns. */
  ghost predicate FirstFor(otps: seq<PasswordResetOTP>, email: string, code: string, i: nat) {
    i < |otps| && IsFor(otps[i], email, code) && forall j :: 0 <= j < i ==> !IsFor(otps[j], email, code)
  }

  ghost predicate NoneFor(otps: seq<PasswordResetOTP>, email: string, code: string) {
    forall j :: 0 <= j < |otps| ==> !IsFor(otps[j], email, code)
  }

  /** Not yet used, not past its expiry, and under the attempt ceiling. */
  predicate Usable(o: PasswordResetOTP, now: Timestamp) {
    !o.verified && !(o.expiresAt < now) && o.attempts < MaxOtpAttempts
  }

  /** The record `createPasswordResetOTP` adds. */
  function NewOtp(email: string, code: string, now: Timestamp): PasswordResetOTP {
    PasswordResetOTP(code, email, now, now + OtpLifetime, false, 0)
  }

  /** `createPasswordResetOTP`: every record for the email is dropped, the rest keep their
      order, and the new record goes last. */
  function IssueOtp(otps: seq<PasswordResetOTP>, email: string, code: string, now: Timestamp): (r: seq<PasswordResetOTP>)
    ensures |r| >= 1 && r[|r| - 1] == NewOtp(email, code, now)
    ensures forall i :: 0 <= i < |r| - 1 ==> r[i].email != email
    ensures IsSubsequence(r[..|r| - 1], otps)
    ensures forall k :: 0 <= k < |otps| && otps[k].email != email ==> otps[k] in r[..|r| - 1]
    ensures |r| - 1 == |set k | 0 <= k < |otps| && otps[k].email != email|
  {
    var keep := (o: PasswordResetOTP) => o.email != email;
    var kept := Filter(otps, keep);
    FilterIsSubsequence(otps, keep);
    FilterLengthCounts(otps, keep);
    assert Positions(otps, keep) == set k | 0 <= k < |otps| && otps[k].email != email;
    assert (kept + [NewOtp(email, code, now)])[..|kept|] == kept;
    kept + [NewOtp(email, code, now)]
  }

  /** `verifyPasswordResetOTP`: the first record for (email, code) exists and is usable. */
  function VerifyOtp(otps: seq<PasswordResetOTP>, email: string, code: string, now: Timestamp): (ok: bool)
    ensures ok <==> exists i: nat :: FirstFor(otps, email, code, i) && Usable(otps[i], now)
    ensures NoneFor(otps, email, code) ==> !ok
  {
    match FirstIndex(otps, (o: PasswordResetOTP) => IsFor(o, email, code))
    case None =>
      assert NoneFor(otps, email, code);
      false
    case Some(i) =>
      assert FirstFor(otps, email, code, i);
      assert forall i': nat :: FirstFor(otps, email, code, i') ==> i' == i by {
        forall i': nat | FirstFor(otps, email, code, i') ensures i' == i {
        }
      }
      Usable(otps[i], now)
  }

  /** `find` on (email, code) followed by an in-place change of the found record. */
  function UpdateFirstFor(otps: seq<PasswordResetOTP>, email: string, code: string,
                          f: PasswordResetOTP -> PasswordResetOTP): (r: seq<PasswordResetOTP>)
    ensures |r| == |otps|
    ensures NoneFor(otps, email, code) ==> r == otps
    ensures forall i: nat :: FirstFor(otps, email, code, i) ==> r == otps[i := f(otps[i])]
  {
    var p := (o: PasswordResetOTP) => IsFor(o, email, code);
    assert forall i: nat :: FirstFor(otps, email, code, i) ==> IsFirst(otps, p, i);
    UpdateFirst(otps, p, f)
  }

  /** `markOTPAsVerified`. */
  function MarkVerified(otps: seq<PasswordResetOTP>, email: string, code: string): (r: seq<PasswordResetOTP>)
    ensures |r| == |otps|
    ensures NoneFor(otps, email, code) ==> r == otps
    ensures forall i: nat :: FirstFor(otps, email, code, i) ==> r == otps[i := otps[i].(verified := true)]
  {
    UpdateFirstFor(otps, email, code, (o: PasswordResetOTP) => o.(verified := true))
  }

  /** `incrementOTPAttempts`: only a record carrying the supplied code is touched. */
  function IncrementAttempts(otps: seq<PasswordResetOTP>, email: string, code: string): (r: seq<PasswordResetOTP>)
    ensures |r| == |otps|
    ensures NoneFor(otps, email, code) ==> r == otps
    ensures forall i: nat :: FirstFor(otps, email, code, i) ==> r == otps[i := otps[i].(attempts := otps[i].attempts + 1)]
  {
    UpdateFirstFor(otps, email, code, (o: PasswordResetOTP) => o.(attempts := o.attempts + 1))
  }

  /** `i` is the first verified record of the email. */
  ghost predicate FirstVerified(otps: seq<PasswordResetOTP>, email: string, i: nat) {
    i < |otps| && otps[i].email == email && otps[i].verified &&
    forall j :: 0 <= j < i ==> !(otps[j].email == email && otps[j].verified)
  }

  /** `getVerifiedOTP`: the first verified record for the email, unless it has expired. */
  function VerifiedOtp(otps: seq<PasswordResetOTP>, email: string, now: Timestamp): (r: Option<PasswordResetOTP>)
    ensures r.Some? ==> r.value in otps && r.value.email == email && r.value.verified && !(r.value.expiresAt < now)
    ensures (forall j :: 0 <= j < |otps| ==> !(otps[j].email == email && otps[j].verified)) ==> r.None?
    ensures forall i: nat :: FirstVerified(otps, email, i) ==>
              r == if otps[i].expiresAt < now then None else Some(otps[i])
  {
    match FirstIndex(otps, (o: PasswordResetOTP) => o.email == email && o.verified)
    case None => None
    case Some(i) =>
      assert forall i': nat :: FirstVerified(otps, email, i') ==> i' == i;
      if otps[i].expiresAt < now then None else Some(otps[i])
  }

  /** `clearVerifiedOTP`: drops exactly the verified records of the email. */
  function ClearVerified(otps: seq<PasswordResetOTP>, email: string): (r: seq<PasswordResetOTP>)
    ensures IsSubsequence(r, otps)
    ensures forall k :: 0 <= k < |r| ==> !(r[k].email == email && r[k].verified)
    ensures forall k :: 0 <= k < |otps| && !(otps[k].email == email && otps[k].verified) ==> otps[k] in r
    ensures |r| == |set k | 0 <= k < |otps| && !(otps[k].email == email && otps[k].verified)|
  {
    var keep := (o: PasswordResetOTP) => !(o.email == email && o.verified);
    FilterIsSubsequence(otps, keep);
    FilterLengthCounts(otps, keep);
    assert Positions(otps, keep) == set k | 0 <= k < |otps| && !(otps[k].email == email && otps[k].verified);
    Filter(otps, keep)
  }

  /** What the verify-otp handler does to the store: mark on success, otherwise
      increment the attempts of the record carrying the supplied code. */
  function VerifyStep(otps: seq<PasswordResetOTP>, email: string, code: string, now: Timestamp): (r: seq<PasswordResetOTP>)
    ensures |r| == |otps|
    ensures NoneFor(otps, email, code) ==> r == otps
    ensures forall i: nat :: FirstFor(otps, email, code, i) ==>
              r == otps[i := if Usable(otps[i], now) then otps[i].(verified := true)
                             else otps[i].(attempts := otps[i].attempts + 1)]
  {
    if VerifyOtp(otps, email, code, now) then MarkVerified(otps, email, code)
    else IncrementAttempts(otps, email, code)
  }

  // ---- Properties of the state machine ----

  /** A freshly issued code verifies for its email until it expires. */
  lemma IssuedCodeVerifies(otps: seq<PasswordResetOTP>, email: string, code: string, now: Timestamp, t: Timestamp)
    requires t <= now + OtpLifetime
    ensures VerifyOtp(IssueOtp(otps, email, code, now), email, code, t)
  {
    var r := IssueOtp(otps, email, code, now);
    assert FirstFor(r, email, code, |r| - 1);
  }

  /** Reissuing removes the old records: a code other than the newest never verifies. */
  lemma SupersededCodeNeverVerifies(otps: seq<PasswordResetOTP>, email: string, code: string,
                                    other: string, now: Timestamp, t: Timestamp)
    requires other != code
    ensures !VerifyOtp(IssueOtp(otps, email, code, now), email, other, t)
  {
    var r := IssueOtp(otps, email, code, now);
    assert NoneFor(r, email, other);
  }

  /** Issuing for one email leaves the codes of every other email as they were. */
  lemma IssueKeepsOtherEmails(otps: seq<PasswordResetOTP>, email: string, code: string, now: Timestamp,
                              o: PasswordResetOTP)
    requires o in otps && o.email != email
    ensures o in IssueOtp(otps, email, code, now)
  {
    var k :| 0 <= k < |otps| && otps[k] == o;
    var r := IssueOtp(otps, email, code, now);
    assert o in r[..|r| - 1];
  }

  /** A wrong code changes nothing: no record carries it, so no attempt is counted. */
  lemma WrongCodeChangesNothing(otps: seq<PasswordResetOTP>, email: string, code: string, now: Timestamp)
    requires NoneFor(otps, email, code)
    ensures VerifyStep(otps, email, code, now) == otps
  {
  }

  /** After one verification request for (email, code), that pair never verifies again
      at the same or a later time: success marks it used, and every reason for a
      rejection (used, expired, attempt ceiling) persists. */
  lemma {:induction false} VerifiesAtMostOnce(otps: seq<PasswordResetOTP>, email: string, code: string,
                                              now: Timestamp, t: Timestamp)
    requires now <= t
    ensures !VerifyOtp(VerifyStep(otps, email, code, now), email, code, t)
  {
    var r := VerifyStep(otps, email, code, now);
    match FirstIndex(otps, (o: PasswordResetOTP) => IsFor(o, email, code))
    case None =>
      assert NoneFor(otps, email, code);
      assert r == otps;
    case Some(i) =>
      assert FirstFor(otps, email, code, i);
      assert FirstFor(r, email, code, i);
      forall i': nat | FirstFor(r, email, code, i') ensures i' == i {
        FirstForUnique(r, email, code, i, i');
      }
  }

  lemma FirstForUnique(otps: seq<PasswordResetOTP>, email: string, code: string, i: nat, i': nat)
    requires FirstFor(otps, email, code, i) && FirstFor(otps, email, code, i')
    ensures i == i'
  {
  }

  /** The records carrying a positive attempt count were each rejected with the real
      code: they are already verified, or already expired at `now`. */
  ghost predicate AttemptsOnlyAfterRejection(otps: seq<PasswordResetOTP>, now: Timestamp) {
    forall k :: 0 <= k < |otps| && otps[k].attempts > 0 ==> otps[k].verified || otps[k].expiresAt < now
  }

  lemma InvariantLater(otps: seq<PasswordResetOTP>, now: Timestamp, later: Timestamp)
    requires AttemptsOnlyAfterRejection(otps, now) && now <= later
    ensures AttemptsOnlyAfterRejection(otps, later)
  {
  }

  lemma IssuePreservesInvariant(otps: seq<PasswordResetOTP>, email: string, code: string, now: Timestamp)
    requires AttemptsOnlyAfterRejection(otps, now)
    ensures AttemptsOnlyAfterRejection(IssueOtp(otps, email, code, now), now)
  {
    var r := IssueOtp(otps, email, code, now);
    var kept := r[..|r| - 1];
    assert r[|r| - 1].attempts == 0;
    forall k | 0 <= k < |r| && r[k].attempts > 0 ensures r[k].verified || r[k].expiresAt < now {
      assert k < |kept| && r[k] == kept[k];
      SubsequenceMember(kept, otps, k);
      var j :| 0 <= j < |otps| && otps[j] == kept[k];
      assert otps[j].attempts > 0;
    }
  }

  lemma VerifyStepPreservesInvariant(otps: seq<PasswordResetOTP>, email: string, code: string, now: Timestamp)
    requires AttemptsOnlyAfterRejection(otps, now)
    ensures AttemptsOnlyAfterRejection(VerifyStep(otps, email, code, now), now)
  {
    match FirstIndex(otps, (o: PasswordResetOTP) => IsFor(o, email, code))
    case None =>
      assert NoneFor(otps, email, code);
    case Some(i) =>
      assert FirstFor(otps, email, code, i);
  }

  lemma ClearPreservesInvariant(otps: seq<PasswordResetOTP>, email: string, now: Timestamp)
    requires AttemptsOnlyAfterRejection(otps, now)
    ensures AttemptsOnlyAfterRejection(ClearVerified(otps, email), now)
  {
    var r := ClearVerified(otps, email);
    forall k | 0 <= k < |r| && r[k].attempts > 0 ensures r[k].verified || r[k].expiresAt < now {
      SubsequenceMember(r, otps, k);
    }
  }

  /** Under the handlers the attempt ceiling never decides a verification: with the
      invariant in force, a record for (email, code) verifies exactly when it is unused
      and unexpired. */
  lemma AttemptCeilingNeverDecides(otps: seq<PasswordResetOTP>, email: string, code: string, now: Timestamp)
    requires AttemptsOnlyAfterRejection(otps, now)
    ensures VerifyOtp(otps, email, code, now) <==>
            exists i: nat :: FirstFor(otps, email, code, i) && !otps[i].verified && !(otps[i].expiresAt < now)
  {
  }

  /** Every element of a subsequence is an element of the whole. */
  lemma {:induction false} SubsequenceMember<T>(r: seq<T>, s: seq<T>, k: nat)
    requires IsSubsequence(r, s) && k < |r|
    ensures r[k] in s
    decreases |s|
  {
    if IsSubsequence(r, s[1..]) {
      SubsequenceMember(r, s[1..], k);
    } else if k > 0 {
      SubsequenceMember(r[1..], s[1..], k - 1);
    }
  }

  /** At most one record per email: what reissuing keeps true of the store. */
  ghost predicate OnePerEmail(otps: seq<PasswordResetOTP>) {
    forall i, j :: 0 <= i < j < |otps| ==> otps[i].email != otps[j].email
  }

  /** A subsequence of a store with one record per email has one record per email. */
  lemma {:induction false} SubsequenceOnePerEmail(r: seq<PasswordResetOTP>, s: seq<PasswordResetOTP>)
    requires IsSubsequence(r, s) && OnePerEmail(s)
    ensures OnePerEmail(r)
    decreases |s|
  {
    if s != [] {
      if IsSubsequence(r, s[1..]) {
        SubsequenceOnePerEmail(r, s[1..]);
      } else {
        SubsequenceOnePerEmail(r[1..], s[1..]);
        forall j | 0 < j < |r| ensures r[0].email != r[j].email {
          SubsequenceMember(r[1..], s[1..], j - 1);
          var m :| 0 <= m < |s[1..]| && s[1..][m] == r[j];
          assert s[m + 1] == r[j];
        }
        forall i, j | 0 <= i < j < |r| ensures r[i].email != r[j].email {
          if i > 0 { assert r[i] == r[1..][i - 1] && r[j] == r[1..][j - 1]; }
        }
      }
    }
  }

  /** Every operation on the store keeps at most one record per email. */
  lemma OnePerEmailPreserved(otps: seq<PasswordResetOTP>, email: string, code: string, now: Timestamp)
    requires OnePerEmail(otps)
    ensures OnePerEmail(IssueOtp(otps, email, code, now))
    ensures OnePerEmail(VerifyStep(otps, email, code, now))
    ensures OnePerEmail(ClearVerified(otps, email))
  {
    var r := IssueOtp(otps, email, code, now);
    SubsequenceOnePerEmail(r[..|r| - 1], otps);
    forall i, j | 0 <= i < j < |r| ensures r[i].email != r[j].email {
      if j < |r| - 1 { assert r[i] == r[..|r| - 1][i] && r[j] == r[..|r| - 1][j]; }
    }
    SubsequenceOnePerEmail(ClearVerified(otps, email), otps);
    match FirstIndex(otps, (o: PasswordResetOTP) => IsFor(o, email, code))
    case None =>
      assert NoneFor(otps, email, code);
    case Some(i) =>
      assert FirstFor(otps, email, code, i);
  }

  /** With one record per email, verification succeeds exactly when some record matches
      (email, code) and is usable: the first match is the only match. */
  lemma VerifyAnyMatch(otps: seq<PasswordResetOTP>, email: string, code: string, now: Timestamp)
    requires OnePerEmail(otps)
    ensures VerifyOtp(otps, email, code, now) <==>
            exists k :: 0 <= k < |otps| && IsFor(otps[k], email, code) && Usable(otps[k], now)
  {
    if k :| 0 <= k < |otps| && IsFor(otps[k], email, code) && Usable(otps[k], now) {
      assert FirstFor(otps, email, code, k);
    }
  }

  /** After resetting, no verified code for the email is left: a second reset is refused. */
  lemma ResetConsumesVerification(otps: seq<PasswordResetOTP>, email: string, t: Timestamp)
    ensures VerifiedOtp(ClearVerified(otps, email), email, t).None?
  {
  }

  /** Verifying a freshly issued code makes it available to the reset step until it expires. */
  lemma VerifiedCodeAllowsReset(otps: seq<PasswordResetOTP>, email: string, code: string,
                                now: Timestamp, t: Timestamp, u: Timestamp)
    requires now <= t <= u <= now + OtpLifetime
    ensures var issued := IssueOtp(otps, email, code, now);
            VerifyOtp(issued, email, code, t) &&
            VerifiedOtp(VerifyStep(issued, email, code, t), email, u) ==
              Some(NewOtp(email, code, now).(verified := true))
  {
    var issued := IssueOtp(otps, email, code, now);
    var n := |issued| - 1;
    assert FirstFor(issued, email, code, n);
    var r := MarkVerified(issued, email, code);
    assert r == issued[n := issued[n].(verified := true)];
    assert forall j :: 0 <= j < n ==> r[j] == issued[j] && r[j].email != email;
    assert FirstVerified(r, email, n);
  }

  // ---- Legacy reset tokens ----

  /** `createPasswordResetToken`: appends an unused token valid for one hour. */
  function IssueToken(tokens: seq<PasswordResetToken>, token: string, now: Timestamp): (r: seq<PasswordResetToken>)
    ensures |r| == |tokens| + 1 && r[..|tokens|] == tokens
    ensures r[|tokens|].token == token && !r[|tokens|].used
    ensures r[|tokens|].createdAt == now && r[|tokens|].expiresAt == now + TokenLifetime
  {
    tokens + [PasswordResetToken(token, now, now + TokenLifetime, false)]
  }

  /** `i` is the first record with the token: the one `find` returns. */
  ghost predicate FirstToken(tokens: seq<PasswordResetToken>, token: string, i: nat) {
    i < |tokens| && tokens[i].token == token && forall j :: 0 <= j < i ==> tokens[j].token != token
  }

  /** `verifyPasswordResetToken`: the first record with the token is unused and unexpired. */
  function VerifyToken(tokens: seq<PasswordResetToken>, token: string, now: Timestamp): (ok: bool)
    ensures ok <==> exists i: nat :: FirstToken(tokens, token, i) && !tokens[i].used && !(tokens[i].expiresAt < now)
  {
    match FirstIndex(tokens, (t: PasswordResetToken) => t.token == token)
    case None => false
    case Some(i) => !tokens[i].used && !(tokens[i].expiresAt < now)
  }

  /** `usePasswordResetToken` on the stored list: the first record with the token is marked used. */
  function UseToken(tokens: seq<PasswordResetToken>, token: string): (r: seq<PasswordResetToken>)
    ensures |r| == |tokens|
    ensures forall i: nat :: FirstToken(tokens, token, i) ==> r == tokens[i := tokens[i].(used := true)]
    ensures (forall j :: 0 <= j < |tokens| ==> tokens[j].token != token) ==> r == tokens
  {
    var p := (t: PasswordResetToken) => t.token == token;
    assert forall i: nat :: FirstToken(tokens, token, i) ==> IsFirst(tokens, p, i);
    UpdateFirst(tokens, p, (t: PasswordResetToken) => t.(used := true))
  }

  /** `deleteExpiredTokens`: keeps exactly the tokens that expire strictly after `now`. */
  function DeleteExpiredTokens(tokens: seq<PasswordResetToken>, now: Timestamp): (r: seq<PasswordResetToken>)
    ensures IsSubsequence(r, tokens)
    ensures forall k :: 0 <= k < |r| ==> r[k].expiresAt > now
    ensures forall k :: 0 <= k < |tokens| && tokens[k].expiresAt > now ==> tokens[k] in r
    ensures |r| == |set k | 0 <= k < |tokens| && tokens[k].expiresAt > now|
  {
    var keep := (t: PasswordResetToken) => t.expiresAt > now;
    FilterIsSubsequence(tokens, keep);
    FilterLengthCounts(tokens, keep);
    assert Positions(tokens, keep) == set k | 0 <= k < |tokens| && tokens[k].expiresAt > now;
    Filter(tokens, keep)
  }

  /** A fresh token verifies until it expires, and once used it never verifies again. */
  lemma {:induction false} TokenLifecycle(tokens: seq<PasswordResetToken>, token: string, now: Timestamp, t: Timestamp)
    requires forall j :: 0 <= j < |tokens| ==> tokens[j].token != token
    requires t <= now + TokenLifetime
    ensures VerifyToken(IssueToken(tokens, token, now), token, t)
    ensures !VerifyToken(UseToken(IssueToken(tokens, token, now), token), token, t)
  {
    var r := IssueToken(tokens, token, now);
    var n := |tokens|;
    assert r[n].token == token;
    var u := UseToken(r, token);
    assert u == r[n := r[n].(used := true)];
    assert forall j :: 0 <= j < n ==> u[j].token != token;
    assert u[n].token == token && u[n].used;
  }
}
