/** server/routes/contact.ts: the public contact form. */
module ContactRoute {
  import opened Wrappers
  import opened Text
  import opened Records
  import opened Db

  /** A character of the class `[^\s@]`. */
  predicate Plain(c: char) {
    !IsWhitespace(c) && c != '@'
  }

  /** `s[lo..hi]` is one or more `[^\s@]` characters. */
  predicate PlainRun(s: string, lo: int, hi: int) {
    0 <= lo < hi <= |s| && forall k :: lo <= k < hi ==> Plain(s[k])
  }

  /** `s` splits as local part, '@' at `i`, domain name, '.' at `j`, suffix, each part a
      `[^\s@]+` run. */
  predicate SplitsAt(s: string, i: int, j: int) {
    0 <= i < j < |s| && s[i] == '@' && s[j] == '.' &&
    PlainRun(s, 0, i) && PlainRun(s, i + 1, j) && PlainRun(s, j + 1, |s|)
  }

  /** `/^[^\s@]+@[^\s@]+\.[^\s@]+$/.test(s)`: some split into the pattern's parts exists. */
  predicate EmailMatches(s: string) {
    exists i, j | 0 <= i < j < |s| :: SplitsAt(s, i, j)
  }

  /** The '@' at `i` is the only one, it has text before it, and a '.' follows it with
      text on both sides. */
  predicate SoleAtSign(s: string, i: int) {
    0 < i < |s| && s[i] == '@' &&
    (forall k :: 0 <= k < |s| && s[k] == '@' ==> k == i) &&
    exists j | i + 1 < j < |s| - 1 :: s[j] == '.'
  }

  /** An address the form accepts, described without the pattern. */
  predicate WellFormedEmail(s: string) {
    (forall k :: 0 <= k < |s| ==> !IsWhitespace(s[k])) &&
    exists i | 0 <= i < |s| :: SoleAtSign(s, i)
  }

  /** The pattern accepts exactly the well-formed addresses. */
  lemma EmailPatternCharacterised(s: string)
    ensures EmailMatches(s) <==> WellFormedEmail(s)
  {
    if EmailMatches(s) {
      var i, j :| 0 <= i < j < |s| && SplitsAt(s, i, j);
      forall k | 0 <= k < |s| ensures !IsWhitespace(s[k]) && (s[k] == '@' ==> k == i) {
        if k < i {
          assert Plain(s[k]);
        } else if i < k < j {
          assert Plain(s[k]);
        } else if j < k {
          assert Plain(s[k]);
        }
      }
      assert SoleAtSign(s, i);
    }
    if WellFormedEmail(s) {
      var i :| 0 <= i < |s| && SoleAtSign(s, i);
      var j :| i + 1 < j < |s| - 1 && s[j] == '.';
      assert SplitsAt(s, i, j);
    }
  }

  /** The stored admin address is accepted. */
  lemma EmailAcceptsAdminAddress()
    ensures EmailMatches("info@radicaldesign.com")
  {
    var s := "info@radicaldesign.com";
    assert PlainRun(s, 0, 4) && PlainRun(s, 5, 18) && PlainRun(s, 19, |s|) by {
      forall k | 0 <= k < |s| && k != 4 && k != 18 ensures Plain(s[k]) {
        assert s[k] in s;
      }
    }
    assert SplitsAt(s, 4, 18);
  }

  /** An address with no dot after the '@' is refused. */
  lemma EmailRefusesMissingDot()
    ensures !EmailMatches("admin@localhost")
  {
    var local := "admin@localhost";
    assert forall k :: 0 <= k < |local| ==> local[k] != '.' by {
      forall k | 0 <= k < |local| ensures local[k] != '.' { assert local[k] in local; }
    }
  }

  /** An address with a second '@' is refused. */
  lemma EmailRefusesSecondAtSign()
    ensures !EmailMatches("a@b@c.d")
  {
    var twice := "a@b@c.d";
    EmailPatternCharacterised(twice);
    assert twice[1] == '@' && twice[3] == '@';
  }

  datatype ContactBody = ContactBody(
    name: Option<string>, email: Option<string>, phone: Option<string>, message: Option<string>)

  predicate AllFieldsPresent(body: ContactBody) {
    Truthy(body.name) && Truthy(body.email) && Truthy(body.phone) && Truthy(body.message)
  }

  /** The form's validation: required fields first, then the address format. */
  function ContactError(body: ContactBody): (r: Option<string>)
    ensures r == Some("All fields are required") <==> !AllFieldsPresent(body)
    ensures r == Some("Invalid email format") <==> AllFieldsPresent(body) && !WellFormedEmail(body.email.value)
    ensures r.None? <==> AllFieldsPresent(body) && WellFormedEmail(body.email.value)
  {
    if !AllFieldsPresent(body) then Some("All fields are required")
    else
      EmailPatternCharacterised(body.email.value);
      if !EmailMatches(body.email.value) then Some("Invalid email format")
      else None
  }

  datatype ContactReceipt = ContactReceipt(message: string, id: string)

  const ThanksMessage := "Thank you! We received your message."

  /** `submitContactForm`: a rejected body stores nothing; an accepted one appends exactly
      one unread message, whose id the reply carries. */
  method SubmitContactForm(db: Database, body: ContactBody, id: string, now: Timestamp)
    returns (r: Reply<ContactReceipt>)
    modifies db`messages
    ensures ContactError(body).Some? ==>
              r == Fail(400, ContactError(body).value) && db.messages == old(db.messages)
    ensures ContactError(body).None? ==>
              r == Ok(ContactReceipt(ThanksMessage, id)) &&
              db.messages == old(db.messages) +
                [ContactMessage(id, body.name.value, body.email.value, body.phone.value, body.message.value, now, false)] &&
              r.value.id == db.messages[|db.messages| - 1].id
  {
    var error := ContactError(body);
    if error.Some? {
      return Fail(400, error.value);
    }
    var msg := db.AddMessage(
      NewMessage(body.name.value, body.email.value, body.phone.value, body.message.value), id, now);
    r := Ok(ContactReceipt(ThanksMessage, msg.id));
  }
}
