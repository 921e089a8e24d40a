/** The one-time-password flow of the server: the in-memory store `dummyusers`
    (email -> code), the `/send-otp` and `/verify-otp` handlers that read and
    write it, and the timer that clears it. */
module Otp {
  import opened Values
  import opened Decimal

  /** `Math.floor(100000 + Math.random() * 900000)` lies in this range. */
  const CodeMin := 100000
  const CodeMax := 999999

  datatype Body =
    | ErrorBody(error: string)
    | MessageBody(message: string)
    /** `{ token }`: a JWT signed over the payload `{ email }`, with `email` possibly undefined. */
    | TokenBody(subject: Option<string>)

  datatype Reply = Reply(status: nat, body: Body)

  /** The message handed to the mail transport. */
  datatype Mail = Mail(to: string, subject: string, text: string)

  /** A code as the client sees it: exactly six decimal digits (`^[0-9]{6}$`). */
  predicate IsOtpCode(s: string) {
    |s| == 6 && AllDigits(s)
  }

  /** The codes the generator can produce. */
  ghost predicate Drawable(code: string) {
    exists n: int :: CodeMin <= n <= CodeMax && code == ToDecimal(n)
  }

  lemma DrawnCodeIsSixDigits(n: int)
    requires CodeMin <= n <= CodeMax
    ensures IsOtpCode(ToDecimal(n)) && ToDecimal(n)[0] != '0'
  {
    assert Pow10(5) == 100000 && Pow10(6) == 1000000;
    LengthOfDecimal(n, 6);
  }

  lemma DrawableIsSixDigits(code: string)
    requires Drawable(code)
    ensures IsOtpCode(code) && code[0] != '0'
  {
    var n: int :| CodeMin <= n <= CodeMax && code == ToDecimal(n);
    DrawnCodeIsSixDigits(n);
  }

  /** Every code in the store is one the generator can produce. */
  ghost predicate AllDrawable(codes: map<string, string>) {
    forall e :: e in codes ==> Drawable(codes[e])
  }

  /** The value of `dummyusers[email]`: `undefined` when the key is not an own entry. */
  function Lookup(codes: map<string, string>, email: Option<string>): (r: Option<string>)
    ensures r.None? <==> PropertyKey(email) !in codes
    ensures r.Some? ==> r.value in codes.Values
  {
    var key := PropertyKey(email);
    if key in codes then Some(codes[key]) else None
  }

  /** `/verify-otp` as written: success exactly when `dummyusers[email] === otp`. */
  function VerifyReply(codes: map<string, string>, email: Option<string>, otp: Option<string>): (r: Reply)
    ensures r.status == 200 ==> r.body == TokenBody(email)
    ensures r.status != 200 ==> r == Reply(401, ErrorBody("Invalid OTP"))
    ensures r.status == 200 && otp.Some? ==> PropertyKey(email) in codes && codes[PropertyKey(email)] == otp.value
    ensures r.status == 200 && otp.None? ==> PropertyKey(email) !in codes
  {
    if Lookup(codes, email) == otp then Reply(200, TokenBody(email))
    else Reply(401, ErrorBody("Invalid OTP"))
  }

  /** `/verify-otp` as evidently intended: a code must have been issued to that
      email and the submitted code must equal it. */
  function VerifyStrictReply(codes: map<string, string>, email: Option<string>, otp: Option<string>): (r: Reply)
    ensures r.status == 200 ==> r.body == TokenBody(email) && otp.Some?
    ensures r.status != 200 ==> r == Reply(401, ErrorBody("Invalid OTP"))
  {
    if email.Some? && email.value in codes && otp == Some(codes[email.value]) then Reply(200, TokenBody(email))
    else Reply(401, ErrorBody("Invalid OTP"))
  }

  /** The answer `/send-otp` gives once the code is stored, by delivery outcome. */
  function DeliveryReply(delivered: bool): Reply {
    if delivered then Reply(400, MessageBody("OTP sent to email"))
    else Reply(500, ErrorBody("Error sending OTP"))
  }

  class OtpStore {
    /** `dummyusers`: the outstanding code per email. */
    var codes: map<string, string>

    /** The store only ever holds codes the generator produced. */
    ghost predicate Valid()
      reads this
    {
      AllDrawable(codes)
    }

    constructor ()
      ensures codes == map[] && Valid()
    {
      codes := map[];
    }

    /** `/send-otp`. `registered` is the set of emails in the users table; `delivered`
        is the outcome the mail transport reports. */
    method SendOtp(registered: set<string>, email: Option<string>, delivered: bool)
      returns (reply: Reply, mail: Option<Mail>)
      requires Valid()
      modifies this
      ensures Valid()
      ensures !Truthy(email) ==>
        reply == Reply(400, ErrorBody("Email is required")) && mail == None && codes == old(codes)
      ensures Truthy(email) && email.value !in registered ==>
        reply == Reply(400, ErrorBody("User dosen't Exist")) && mail == None && codes == old(codes)
      ensures Truthy(email) && email.value in registered ==>
        && email.value in codes
        && Drawable(codes[email.value]) && IsOtpCode(codes[email.value])
        && codes == old(codes)[email.value := codes[email.value]]
        && mail == Some(Mail(email.value, "Your OTP", "Your OTP is " + codes[email.value]))
        && reply == DeliveryReply(delivered)
    {
      if !Truthy(email) {
        return Reply(400, ErrorBody("Email is required")), None;
      }
      if email.value !in registered {
        return Reply(400, ErrorBody("User dosen't Exist")), None;
      }
      assert CodeMin <= CodeMin <= CodeMax;
      var n: int :| CodeMin <= n <= CodeMax;
      var otp := ToDecimal(n);
      DrawnCodeIsSixDigits(n);
      codes := codes[email.value := otp];
      mail := Some(Mail(email.value, "Your OTP", "Your OTP is " + otp));
      if delivered {
        reply := Reply(400, MessageBody("OTP sent to email"));
      } else {
        reply := Reply(500, ErrorBody("Error sending OTP"));
      }
    }

    /** `/verify-otp` as written. It reads the store and never removes the entry. */
    method Verify(email: Option<string>, otp: Option<string>) returns (reply: Reply)
      requires Valid()
      ensures reply == VerifyReply(codes, email, otp)
      ensures reply.status == 200 && otp.Some? ==> IsOtpCode(otp.value)
    {
      var key := PropertyKey(email);
      var matches := if key in codes then otp == Some(codes[key]) else otp == None;
      if matches {
        if otp.Some? {
          DrawableIsSixDigits(codes[key]);
        }
        reply := Reply(200, TokenBody(email));
      } else {
        reply := Reply(401, ErrorBody("Invalid OTP"));
      }
    }

    /** `/verify-otp` corrected: an absent entry never matches. */
    method VerifyStrict(email: Option<string>, otp: Option<string>) returns (reply: Reply)
      requires Valid()
      ensures reply == VerifyStrictReply(codes, email, otp)
      ensures reply.status == 200 ==> otp.Some? && IsOtpCode(otp.value)
    {
      reply := Reply(401, ErrorBody("Invalid OTP"));
      if email.Some? && email.value in codes {
        if otp == Some(codes[email.value]) {
          DrawableIsSixDigits(codes[email.value]);
          reply := Reply(200, TokenBody(email));
        }
      }
    }

    /** The hourly timer: `dummyusers = {}`. */
    method Sweep()
      modifies this
      ensures codes == map[] && Valid()
    {
      codes := map[];
    }
  }

  /** As written, a success with a submitted code means that very code is stored
      under the email's key, so it has six digits. */
  lemma PresentOtpSuccessIsStoredCode(codes: map<string, string>, email: Option<string>, code: string)
    requires AllDrawable(codes)
    ensures VerifyReply(codes, email, Some(code)).status == 200 ==>
      PropertyKey(email) in codes && codes[PropertyKey(email)] == code && IsOtpCode(code)
  {
    if VerifyReply(codes, email, Some(code)).status == 200 {
      DrawableIsSixDigits(codes[PropertyKey(email)]);
    }
  }

  /** Issuing a code for `e` and then submitting it verifies, under both readings. */
  lemma IssueThenVerify(codes: map<string, string>, e: string, code: string)
    ensures VerifyReply(codes[e := code], Some(e), Some(code)) == Reply(200, TokenBody(Some(e)))
    ensures VerifyStrictReply(codes[e := code], Some(e), Some(code)) == Reply(200, TokenBody(Some(e)))
  {
  }

  /** Re-issuing overwrites: the earlier code for the same email no longer verifies. */
  lemma ReissueRevokesEarlierCode(codes: map<string, string>, e: string, first: string, second: string)
    requires first != second
    ensures VerifyReply(codes[e := first][e := second], Some(e), Some(first)).status == 401
    ensures VerifyStrictReply(codes[e := first][e := second], Some(e), Some(first)).status == 401
  {
  }

  /** Issuing for `e` does not affect verification for any other email. */
  lemma IssueLeavesOthersAlone(codes: map<string, string>, e: string, code: string, other: Option<string>, otp: Option<string>)
    requires PropertyKey(other) != e
    ensures VerifyReply(codes[e := code], other, otp) == VerifyReply(codes, other, otp)
    ensures VerifyStrictReply(codes[e := code], other, otp) == VerifyStrictReply(codes, other, otp)
  {
  }

  /** After a sweep every submitted code is rejected. */
  lemma SweptStoreRejectsCodes(email: Option<string>, code: string)
    ensures VerifyReply(map[], email, Some(code)) == Reply(401, ErrorBody("Invalid OTP"))
    ensures VerifyStrictReply(map[], email, Some(code)) == Reply(401, ErrorBody("Invalid OTP"))
  {
  }

  /** Omitting `otp` verifies any email that has no outstanding code, as written:
      `undefined === undefined`. */
  lemma AbsentOtpBypass(codes: map<string, string>, victim: string)
    requires victim !in codes
    ensures VerifyReply(codes, Some(victim), None) == Reply(200, TokenBody(Some(victim)))
  {
  }

  /** Corrected verification: omitting `otp` is rejected whatever the store holds. */
  lemma StrictRejectsAbsentOtp(codes: map<string, string>, email: Option<string>)
    ensures VerifyStrictReply(codes, email, None) == Reply(401, ErrorBody("Invalid OTP"))
  {
  }

  /** Corrected verification on a store of generated codes: every success is for a
      submitted six-digit code issued to that email. */
  lemma StrictSuccessIsIssuedCode(codes: map<string, string>, email: Option<string>, otp: Option<string>)
    requires AllDrawable(codes)
    ensures VerifyStrictReply(codes, email, otp).status == 200 ==>
      && otp.Some? && email.Some? && email.value in codes && codes[email.value] == otp.value
      && IsOtpCode(otp.value) && otp.value[0] != '0'
  {
    if VerifyStrictReply(codes, email, otp).status == 200 {
      DrawableIsSixDigits(codes[email.value]);
    }
  }

  /** Whenever both fields are present the corrected check agrees with the original. */
  lemma StrictAgreesOnPresentFields(codes: map<string, string>, e: string, code: string)
    ensures VerifyStrictReply(codes, Some(e), Some(code)) == VerifyReply(codes, Some(e), Some(code))
  {
  }
}
