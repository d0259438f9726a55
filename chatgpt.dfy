/** `import_chatgpt_conversations`: every export entry becomes a conversation
    row whose id is the entry's own `uuid`; its `chat_messages` become message
    rows `{conv_id}_msg_{i}`, each with a memory row `chatgpt_{message id}`. */
module ChatGPTImport {
  import opened Python
  import opened Schema

  const Source := "chatgpt"

  /** What the adapter derives from one entry before it visits its messages. */
  datatype Header = Header(
    convId: Value, idCell: Cell, title: Value, createdAt: string,
    row: Conversation, chatMessages: Value)

  /** `datetime.fromisoformat(conv.get(field, '').replace('Z', '+00:00'))`;
      `.replace` on anything but a string raises. */
  function ParseTimestamp(conv: Value, field: string, rt: Runtime): Result<string>
  {
    var raw :- Get(conv, field, Str(""));
    if raw.Str? then rt.fromIsoFormat(ReplaceZ(raw.s)) else Raised
  }

  /** import_conversations.py:143-156 and 159. `uuid.uuid4()` is evaluated
      for every entry (a default argument), and supplied as `uuids(i)`. */
  function ConversationHeader(conv: Value, i: nat, rt: Runtime, uuids: nat -> string): Result<Header>
  {
    var convId :- Get(conv, "uuid", Str(uuids(i)));
    var title :- Get(conv, "name", Str("Untitled"));
    var createdAt :- ParseTimestamp(conv, "created_at", rt);
    var updatedAt :- ParseTimestamp(conv, "updated_at", rt);
    var summary :- Get(conv, "summary", Null);
    var account :- Get(conv, "account", Dict([]));
    var accountUuid :- Get(account, "uuid", Null);
    var idCell :- BindText(convId);
    var titleCell :- BindText(title);
    var chatMessages :- Get(conv, "chat_messages", List([]));
    Ok(Header(convId, idCell, title, createdAt,
              Conversation(titleCell, Source, createdAt, updatedAt,
                           Dict([("summary", summary), ("account_uuid", accountUuid)])),
              chatMessages))
  }

  /** `msg.get('message', '') or msg.get('content', '')` */
  function MessageBody(msg: Value): Result<Value>
  {
    var primary :- Get(msg, "message", Str(""));
    if Truthy(primary) then Ok(primary) else Get(msg, "content", Str(""))
  }

  /** import_conversations.py:165-177, together with the `content.strip()`
      of line 179, which raises on a `text` field that is not a string. */
  function NormalizeContent(content: Value, rt: Runtime): Result<string>
  {
    match content
    case Dict(es) =>
      if Lookup(es, "parts").Some? then
        var parts := Lookup(es, "parts").value;
        if parts.List? then JoinValues("\n", parts.items) else Ok(PyStr(parts, rt))
      else if Lookup(es, "text").Some? then
        var text := Lookup(es, "text").value;
        if text.Str? then Ok(text.s) else Raised
      else Ok(rt.repr(content))
    case List(items) =>
      Ok(Join("\n", seq(|items|, k requires 0 <= k < |items| => PyStr(items[k], rt))))
    case _ => Ok(PyStr(content, rt))
  }

  /** The text a `chat_messages` entry would be stored with. */
  function MessageText(msg: Value, rt: Runtime): Result<string>
  {
    var body :- MessageBody(msg);
    NormalizeContent(body, rt)
  }

  /** `f"{conv_id}_msg_{i}"` */
  function MessageId(h: Header, j: nat, rt: Runtime): string
  {
    PyStr(h.convId, rt) + "_msg_" + NatToString(j)
  }

  /** The `j`-th entry of `chat_messages`: its pair of rows, or None when its
      content is blank after `strip`. */
  function ChatMessage(msg: Value, j: nat, h: Header, rt: Runtime): Result<Option<Pair>>
  {
    var role :- Get(msg, "role", Str("unknown"));
    var content :- MessageText(msg, rt);
    if Strip(content) == "" then Ok(None)
    else
      var msgId := MessageId(h, j, rt);
      var roleCell :- BindText(role);
      Ok(Some(Pair(
        Text(msgId),
        Message(h.idCell, roleCell, content, h.createdAt,
                Dict([("message_index", Int(j)), ("original_message", msg)])),
        "chatgpt_" + msgId,
        Memory(content, Source, h.createdAt, Some(MemoryMetadata(h.convId, h.title, role))))))
  }

  /** One iteration of the message loop: no pair, or the one it writes. */
  function MessageStep(h: Header, rt: Runtime): (Value, nat) -> Result<seq<Pair>>
  {
    (msg: Value, j: nat) =>
      var kept :- ChatMessage(msg, j, h, rt);
      Ok(if kept.Some? then [kept.value] else [])
  }

  /** A message yields at most one pair. */
  lemma MessageStepAtMostOne(h: Header, rt: Runtime, msg: Value, j: nat)
    ensures MessageStep(h, rt)(msg, j).Ok? ==> |MessageStep(h, rt)(msg, j).value| <= 1
  {
  }

  /** The writes for one export entry, in execution order. */
  function ConversationWrites(conv: Value, i: nat, rt: Runtime, uuids: nat -> string): Result<seq<Write>>
  {
    var h :- ConversationHeader(conv, i, rt, uuids);
    var msgs :- Iterate(h.chatMessages);
    var kept :- Collect(msgs, |msgs|, MessageStep(h, rt));
    Ok([PutConversation(h.idCell, h.row)] + Flatten(kept))
  }

  /** One iteration of the loop over the export's entries. */
  function ConversationStep(rt: Runtime, uuids: nat -> string): (Value, nat) -> Result<seq<Write>>
  {
    (conv: Value, i: nat) => ConversationWrites(conv, i, rt, uuids)
  }

  /** The writes for a whole export file, or Raised when the import aborts. */
  function FileWrites(data: Value, rt: Runtime, uuids: nat -> string): Result<seq<Write>>
  {
    var convs :- Iterate(data);
    Collect(convs, |convs|, ConversationStep(rt, uuids))
  }

  /** The loop over `chat_messages` (import_conversations.py:160-202): each
      kept message is written with its memory row right after it. */
  method ImportMessages(db: Database, msgs: seq<Value>, h: Header, rt: Runtime)
    returns (ok: bool, kept: seq<Pair>)
    modifies db
    ensures db.committed == old(db.committed)
    ensures ok <==> Collect(msgs, |msgs|, MessageStep(h, rt)).Ok?
    ensures ok ==> Collect(msgs, |msgs|, MessageStep(h, rt)) == Ok(kept)
    ensures ok ==> db.Live() == Apply(old(db.Live()), Flatten(kept))
  {
    hide ChatMessage, MessageStep;
    ghost var start := db.Live();
    kept := [];
    assert Collect(msgs, 0, MessageStep(h, rt)) == Ok(kept) && Apply(start, Flatten(kept)) == start;
    hide Collect, Apply, Flatten;
    var j := 0;
    while j < |msgs|
      invariant 0 <= j <= |msgs|
      invariant db.committed == old(db.committed)
      invariant Collect(msgs, j, MessageStep(h, rt)) == Ok(kept)
      invariant db.Live() == Apply(start, Flatten(kept))
    {
      var these := MessageStep(h, rt)(msgs[j], j);
      CollectNext(msgs, j, MessageStep(h, rt));
      if these.Raised? {
        CollectRaisedPersists(msgs, j + 1, |msgs|, MessageStep(h, rt));
        return false, kept;
      }
      MessageStepAtMostOne(h, rt, msgs[j], j);
      if |these.value| == 1 {
        var p := these.value[0];
        db.PutPair(p);
        FlattenAppend(kept, p);
        ApplyConcat(start, Flatten(kept), PairWrites(p));
        assert these.value == [p];
        kept := kept + [p];
      } else {
        assert kept + these.value == kept;
      }
      j := j + 1;
    }
    ok := true;
  }

  /** Imports one entry (the body of the loop at import_conversations.py:142-202). */
  method ImportConversation(db: Database, conv: Value, i: nat, rt: Runtime, uuids: nat -> string)
    returns (ok: bool)
    modifies db
    ensures db.committed == old(db.committed)
    ensures ok <==> ConversationWrites(conv, i, rt, uuids).Ok?
    ensures ok ==> db.Live() == Apply(old(db.Live()), ConversationWrites(conv, i, rt, uuids).value)
  {
    var header := ConversationHeader(conv, i, rt, uuids);
    if header.Raised? {
      return false;
    }
    var h := header.value;
    db.PutConversation(h.idCell, h.row);
    var messages := Iterate(h.chatMessages);
    if messages.Raised? {
      return false;
    }
    ghost var convWrite := [Write.PutConversation(h.idCell, h.row)];
    assert db.Live() == Apply(old(db.Live()), convWrite);
    var kept;
    ok, kept := ImportMessages(db, messages.value, h, rt);
    if ok {
      ApplyConcat(old(db.Live()), convWrite, Flatten(kept));
      assert ConversationWrites(conv, i, rt, uuids) == Ok(convWrite + Flatten(kept));
    }
  }

  /** `import_chatgpt_conversations`: every entry's writes in order, then
      `conn.commit()`. On an exception nothing of this file is committed. */
  method ImportFile(db: Database, data: Value, rt: Runtime, uuids: nat -> string)
    returns (ok: bool)
    modifies db
    ensures ok <==> FileWrites(data, rt, uuids).Ok?
    ensures ok ==> db.Live() == Apply(old(db.Live()), FileWrites(data, rt, uuids).value)
    ensures ok ==> db.committed == db.Live()
    ensures !ok ==> db.committed == old(db.committed)
  {
    // Only ImportConversation's contract is needed about each entry.
    hide ConversationWrites;
    var conversations := Iterate(data);
    if conversations.Raised? {
      return false;
    }
    var convs := conversations.value;
    ghost var start := db.Live();
    ghost var done: seq<Write> := [];
    assert Collect(convs, 0, ConversationStep(rt, uuids)) == Ok(done) && Apply(start, done) == start;
    hide Collect, Apply;
    var i := 0;
    while i < |convs|
      invariant 0 <= i <= |convs|
      invariant db.committed == old(db.committed)
      invariant Collect(convs, i, ConversationStep(rt, uuids)) == Ok(done)
      invariant db.Live() == Apply(start, done)
    {
      var imported := ImportConversation(db, convs[i], i, rt, uuids);
      CollectNext(convs, i, ConversationStep(rt, uuids));
      if !imported {
        CollectRaisedPersists(convs, i + 1, |convs|, ConversationStep(rt, uuids));
        return false;
      }
      ghost var these := ConversationWrites(convs[i], i, rt, uuids).value;
      ApplyConcat(start, done, these);
      done := done + these;
      i := i + 1;
    }
    db.Commit();
    ok := true;
  }
}
