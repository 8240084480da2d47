/** The serverless message handler: contact messages normalised by their
    schema and stored, a best-effort notification email whose outcome is
    only reported, and a token-guarded newest-first listing. */
module ServerlessMessages {
  import opened Wrappers
  import opened Text
  import opened Sorting
  import opened ContactBody

  /** A stored message: trimmed name, trimmed lower-cased email, unread. */
  datatype Message = Message(id: string, name: string, email: string, message: string, read: bool, createdAt: int)

  /** `RESEND_API_KEY`, `CONTACT_TO_EMAIL` and `CONTACT_FROM_EMAIL`. */
  datatype EmailConfig = EmailConfig(apiKey: Option<string>, to: Option<string>, from: Option<string>)

  /** The notification handed to the email relay. The HTML template around
      these values is not modelled; the message body goes in escaped. */
  datatype Email = Email(from: string, to: string, subject: string, name: string, email: string, escapedMessage: string)

  /** The success payloads: the listing, or `{ ok, message, emailSent }`. */
  datatype Answer = Listing(messages: seq<Message>) | Saved(emailSent: bool)

  /** A handled request: the reply, the collection after it, and the email
      that was attempted, if any. */
  datatype Handled = Handled(reply: Reply<Answer>, store: seq<Message>, attempted: Option<Email>)

  /** The replacement for one character. */
  function EscapeChar(c: char): string {
    if c == '<' then "&lt;" else [c]
  }

  /** `String(message).replace(/</g, '&lt;')`. */
  function EscapeLt(s: string): (r: string)
    ensures '<' !in r
    ensures '<' !in s ==> r == s
    ensures |r| >= |s|
  {
    if s == [] then []
    else EscapeChar(s[0]) + EscapeLt(s[1..])
  }

  /** Escaping works character by character. */
  lemma {:induction false} EscapeLtAppend(a: string, b: string)
    ensures EscapeLt(a + b) == EscapeLt(a) + EscapeLt(b)
  {
    if a == [] {
      assert a + b == b;
    } else {
      var head := EscapeChar(a[0]);
      assert (a + b)[0] == a[0];
      assert (a + b)[1..] == a[1..] + b;
      EscapeLtAppend(a[1..], b);
      calc {
        EscapeLt(a + b);
        head + EscapeLt(a[1..] + b);
        head + (EscapeLt(a[1..]) + EscapeLt(b));
        (head + EscapeLt(a[1..])) + EscapeLt(b);
        EscapeLt(a) + EscapeLt(b);
      }
    }
  }

  /** Reverses the escape: every `&lt;` becomes `<` again. */
  function UnescapeLt(s: string): string {
    if s == [] then []
    else if "&lt;" <= s then "<" + UnescapeLt(s[4..])
    else [s[0]] + UnescapeLt(s[1..])
  }

  /** Escaping cannot create a prefix free of `&` and `<` that the
      original does not start with. */
  lemma {:induction false} EscapeKeepsNoPrefix(s: string, p: string)
    requires p != [] && '&' !in p && '<' !in p
    requires !(p <= s)
    ensures !(p <= EscapeLt(s))
  {
    if s != [] {
      if s[0] == '<' {
        assert EscapeLt(s)[0] == '&';
      } else {
        assert EscapeLt(s) == [s[0]] + EscapeLt(s[1..]);
        if s[0] == p[0] {
          assert !(p[1..] <= s[1..]);
          EscapeKeepsNoPrefix(s[1..], p[1..]);
        }
      }
    }
  }

  /** One unfolding of `UnescapeLt` at an escaped `<`. */
  lemma {:induction false} UnescapeAtLt(e: string)
    ensures UnescapeLt("&lt;" + e) == "<" + UnescapeLt(e)
  {
    assert "&lt;" <= "&lt;" + e;
    assert ("&lt;" + e)[4..] == e;
  }

  /** One unfolding of `UnescapeLt` at a character that does not start an
      escape. */
  lemma {:induction false} UnescapeAtOther(c: char, e: string)
    requires c != '&' || !("lt;" <= e)
    ensures UnescapeLt([c] + e) == [c] + UnescapeLt(e)
  {
    var t := [c] + e;
    assert t[0] == c && t[1..] == e;
    if c == '&' && |e| >= 3 {
      assert e[..3] != "lt;";
      assert t[..4] == [c] + e[..3];
    }
  }

  /** `&lt;` starts `&` followed by `t` exactly when `lt;` starts `t`. */
  lemma {:induction false} AmpPrefix(t: string)
    ensures "&lt;" <= "&" + t <==> "lt;" <= t
  {
    var u := "&" + t;
    assert u[0] == '&' && u[1..] == t;
    if |t| >= 3 {
      assert u[..4] == "&" + t[..3];
    }
  }

  /** Unescaping undoes escaping for every message that does not itself
      contain the text `&lt;`. */
  lemma {:induction false} UnescapeEscape(s: string)
    requires !Contains(s, "&lt;")
    ensures UnescapeLt(EscapeLt(s)) == s
  {
    if s != [] {
      var rest := s[1..];
      assert !Contains(rest, "&lt;") && !("&lt;" <= s);
      UnescapeEscape(rest);
      var e := EscapeLt(rest);
      assert EscapeLt(s) == EscapeChar(s[0]) + e;
      if s[0] == '<' {
        UnescapeAtLt(e);
      } else {
        if s[0] == '&' {
          assert s == "&" + rest;
          AmpPrefix(rest);
          EscapeKeepsNoPrefix(rest, "lt;");
        }
        UnescapeAtOther(s[0], e);
        assert [s[0]] + rest == s;
      }
    }
  }

  /** The notification is attempted only when all three settings are
      non-empty. */
  predicate EmailConfigured(c: EmailConfig) {
    Truthy(c.apiKey) && Truthy(c.to) && Truthy(c.from)
  }

  /** The schema's normalisation: name trimmed, email trimmed and lower-cased. */
  function Normalise(b: MessageBody, id: string, now: int): (m: Message)
    requires Complete(b)
    ensures m.name == Trim(b.name.value) && m.email == Lower(Trim(b.email.value))
    ensures m.message == b.message.value && !m.read && m.id == id && m.createdAt == now
  {
    Message(id, Trim(b.name.value), Lower(Trim(b.email.value)), b.message.value, false, now)
  }

  /** The schema's required checks, after normalisation. */
  predicate SchemaValid(m: Message) {
    m.name != "" && m.email != "" && m.message != ""
  }

  /** The handler for /api/messages. `delivered` is what the email relay
      does with the attempt. */
  function Handle(ms: seq<Message>, verb: Method, headerToken: Option<string>, b: MessageBody,
                  cfg: EmailConfig, newId: string, now: int, delivered: bool): (h: Handled)
    ensures h.reply.Failure? ==> h.store == ms && h.attempted.None?
    ensures verb !in {Get, Post} ==> h.reply == Failure(405, "Method not allowed")
    ensures verb == Get && !Truthy(headerToken) ==> h.reply == Failure(401, "Unauthorized")
    ensures verb == Get && Truthy(headerToken) ==>
      && h.store == ms && h.attempted.None? && h.reply.Success? && h.reply.status == 200
      && h.reply.value.Listing? && multiset(h.reply.value.messages) == multiset(ms)
      && (forall i, j :: 0 <= i < j < |h.reply.value.messages| ==>
            h.reply.value.messages[i].createdAt >= h.reply.value.messages[j].createdAt)
    ensures verb == Post && !Complete(b) ==> h.reply == Failure(400, FieldsRequired)
    ensures verb == Post && Complete(b) && !SchemaValid(Normalise(b, newId, now)) ==> h.reply == Failure(500, ServerError)
    ensures verb == Post ==>
      (h.reply.Success? <==> Complete(b) && SchemaValid(Normalise(b, newId, now)))
    ensures verb == Post && h.reply.Success? ==>
      && h.reply.status == 201
      && h.store == ms + [Normalise(b, newId, now)]
      && (h.attempted.Some? <==> EmailConfigured(cfg))
      && h.reply.value == Saved(EmailConfigured(cfg) && delivered)
    ensures h.attempted.Some? ==>
      h.attempted.value.escapedMessage == EscapeLt(b.message.value)
      && h.attempted.value.subject == "New portfolio contact from " + b.name.value
  {
    match verb
    case Get =>
      if !Truthy(headerToken) then Handled(Failure(401, "Unauthorized"), ms, None)
      else Handled(Success(200, Listing(SortNewestFirst(ms, (m: Message) => m.createdAt))), ms, None)
    case Post =>
      if !Complete(b) then Handled(Failure(400, FieldsRequired), ms, None)
      else
        var m := Normalise(b, newId, now);
        if !SchemaValid(m) then Handled(Failure(500, ServerError), ms, None)
        else if !EmailConfigured(cfg) then Handled(Success(201, Saved(false)), ms + [m], None)
        else
          var e := Email(cfg.from.value, cfg.to.value, "New portfolio contact from " + b.name.value,
                         b.name.value, b.email.value, EscapeLt(b.message.value));
          Handled(Success(201, Saved(delivered)), ms + [m], Some(e))
    case _ => Handled(Failure(405, "Method not allowed"), ms, None)
  }

  /** A failed notification never loses the message: the store and the 201
      are the same as for a delivered one, only `emailSent` differs. */
  lemma {:induction false} FailedEmailKeepsMessage(ms: seq<Message>, token: Option<string>, b: MessageBody,
                                cfg: EmailConfig, newId: string, now: int)
    requires Handle(ms, Post, token, b, cfg, newId, now, true).reply.Success?
    ensures var ok := Handle(ms, Post, token, b, cfg, newId, now, true);
      var failed := Handle(ms, Post, token, b, cfg, newId, now, false);
      && failed.store == ok.store
      && failed.reply == Success(201, Saved(false))
  {
  }
}
