/** The flat JSON file of contact messages shared by both flat-file
    servers: a whole-list read that falls back to the empty list, a
    whole-list write whose failure is swallowed, and the POST handler that
    prepends. The JSON text is abstracted: a file that was written holds
    exactly the list written. */
module MessageFile {
  import opened Wrappers
  import opened Text
  import opened ContactBody

  /** `{ id: Date.now(), name, email, message, createdAt: ISO string }`. */
  datatype Message = Message(id: int, name: string, email: string, message: string, createdAt: string)

  /** What reading `messages.json` finds. */
  datatype DataFile =
    | Missing            // no file (start-up creates it)
    | Unreadable         // `readFileSync` throws
    | Blank              // the file is empty: `raw || '[]'`
    | Unparsable         // `JSON.parse` throws
    | Stored(messages: seq<Message>)
    | NotAList(json: string)  // valid JSON that is not an array: null, an object, a number, ...

  /** What `readMessages` returns: a list, or the parsed non-list value
      (kept as its JSON text). */
  datatype Contents = List(messages: seq<Message>) | Other(json: string)

  /** The answer Express's default error handler gives when a handler
      throws; the error page around it is not modelled. */
  const Uncaught := "Internal Server Error"

  /** Start-up: a missing file is created holding `[]`. */
  function Startup(f: DataFile): (f': DataFile)
    ensures f.Missing? ==> f' == Stored([])
    ensures !f.Missing? ==> f' == f
  {
    if f.Missing? then Stored([]) else f
  }

  /** `readMessages`: whatever the file parses to, so the stored list or a
      non-list value as it is, and `[]` whenever the file cannot be read or
      parsed, or is empty. */
  function ReadMessages(f: DataFile): (r: Contents)
    ensures f.Stored? ==> r == List(f.messages)
    ensures f.NotAList? <==> r.Other?
    ensures f.NotAList? ==> r == Other(f.json)
    ensures !f.Stored? && !f.NotAList? ==> r == List([])
  {
    match f
    case Stored(ms) => List(ms)
    case NotAList(v) => Other(v)
    case _ => List([])
  }

  /** `writeMessages`: the whole list replaces the file; a failed write is
      logged and leaves the file as it was. */
  function WriteMessages(f: DataFile, msgs: seq<Message>, writeSucceeds: bool): (f': DataFile)
    ensures writeSucceeds ==> ReadMessages(f') == List(msgs)
    ensures !writeSucceeds ==> f' == f
  {
    if writeSucceeds then Stored(msgs) else f
  }

  /** The record a POST stores: exactly id, name, email, message, createdAt,
      the first from `Date.now()` and the last from `toISOString()`. */
  function NewMessage(b: MessageBody, nowMs: int, isoNow: string): (m: Message)
    requires Complete(b)
    ensures m.id == nowMs && m.createdAt == isoNow
    ensures m.name == b.name.value && m.email == b.email.value && m.message == b.message.value
  {
    Message(nowMs, b.name.value, b.email.value, b.message.value, isoNow)
  }

  /** POST /api/messages: an incomplete body answers 400 and writes nothing;
      otherwise the new message goes in front of the list read, the list is
      written back, and the answer is 201 even when the write failed. Over a
      file holding a non-list value `unshift` throws: the answer is Express's
      500 and nothing is written. */
  function PostMessage(f: DataFile, b: MessageBody, nowMs: int, isoNow: string, writeSucceeds: bool)
    : (o: Outcome<string, DataFile>)
    ensures !Complete(b) ==> o == Outcome(Failure(400, FieldsRequired), f)
    ensures Complete(b) && f.NotAList? ==> o == Outcome(Failure(500, Uncaught), f)
    ensures Complete(b) && !f.NotAList? ==> o.reply == Success(201, "Message saved")
    ensures Complete(b) && !f.NotAList? && writeSucceeds ==>
      ReadMessages(o.state) == List([NewMessage(b, nowMs, isoNow)] + ReadMessages(f).messages)
    ensures !writeSucceeds ==> o.state == f
  {
    if !Complete(b) then Outcome(Failure(400, FieldsRequired), f)
    else
      match ReadMessages(f)
      case Other(_) => Outcome(Failure(500, Uncaught), f)
      case List(ms) =>
        var msgs := [NewMessage(b, nowMs, isoNow)] + ms;
        Outcome(Success(201, "Message saved"), WriteMessages(f, msgs, writeSucceeds))
  }

  /** Ids (times of arrival) never increase along a listed file. */
  predicate NewestFirst(c: Contents) {
    c.List? ==> forall i, j :: 0 <= i < j < |c.messages| ==> c.messages[i].id >= c.messages[j].id
  }

  /** With a clock that never runs backwards, prepending keeps the file
      newest-first. */
  lemma {:induction false} PostKeepsNewestFirst(
    f: DataFile, b: MessageBody, nowMs: int, isoNow: string, writeSucceeds: bool)
    requires NewestFirst(ReadMessages(f))
    requires forall m :: ReadMessages(f).List? && m in ReadMessages(f).messages ==> m.id <= nowMs
    ensures NewestFirst(ReadMessages(PostMessage(f, b, nowMs, isoNow, writeSucceeds).state))
  {
    if Complete(b) && writeSucceeds && !f.NotAList? {
      var old_ := ReadMessages(f).messages;
      var r := ReadMessages(PostMessage(f, b, nowMs, isoNow, writeSucceeds).state).messages;
      assert r == [NewMessage(b, nowMs, isoNow)] + old_;
      forall i, j | 0 <= i < j < |r|
        ensures r[i].id >= r[j].id
      {
        assert r[j] == old_[j - 1];
        if i > 0 { assert r[i] == old_[i - 1]; } else { assert old_[j - 1] in old_; }
      }
    }
  }

  /** A successful write after an unreadable or corrupt read replaces the
      file's contents with the one new message. */
  lemma {:induction false} PostOverUnreadableKeepsOnlyNew(f: DataFile, b: MessageBody, nowMs: int, isoNow: string)
    requires !f.Stored? && !f.NotAList? && Complete(b)
    ensures ReadMessages(PostMessage(f, b, nowMs, isoNow, true).state) == List([NewMessage(b, nowMs, isoNow)])
  {
  }
}
