/** `import_claude_conversations`: every export entry with a non-empty
    `mapping` becomes a conversation row under a freshly generated id; the
    text nodes of its mapping become message rows under their own message
    ids, each with a memory row `claude_{message id}`. */
module ClaudeImport {
  import opened Python
  import opened Schema

  const Source := "claude"

  /** What the adapter derives from an entry before it walks the mapping. */
  datatype Header = Header(convId: string, title: Value, createdAt: string, row: Conversation, mapping: Value)

  /** A message extracted from a mapping node (the dicts appended to the
      local `messages` list); its `created_at` is the conversation's. */
  datatype Extracted = Extracted(id: Value, role: Value, content: string, metadata: Value)

  /** import_conversations.py:67-84: None when `mapping` is missing or
      falsy (the entry is skipped); otherwise the conversation row, with the
      generated id `uuids(i)` and the parsed timestamps. */
  function ConversationHeader(conv: Value, i: nat, rt: Runtime, uuids: nat -> string): Result<Option<Header>>
  {
    var mapping :- Get(conv, "mapping", Null);
    if !Truthy(mapping) then Ok(None)
    else
      var title :- Get(conv, "title", Str("Untitled"));
      var createTime :- Get(conv, "create_time", Int(0));
      var createdAt :- rt.fromTimestamp(createTime);
      var updateTime :- Get(conv, "update_time", Int(0));
      var updatedAt :- rt.fromTimestamp(updateTime);
      var originalCreate :- Get(conv, "create_time", Null);
      var originalUpdate :- Get(conv, "update_time", Null);
      var titleCell :- BindText(title);
      Ok(Some(Header(uuids(i), title, createdAt,
                     Conversation(titleCell, Source, createdAt, updatedAt,
                                  Dict([("original_create_time", originalCreate),
                                        ("original_update_time", originalUpdate)])),
                     mapping)))
  }

  /** The text of a `text` message: its `parts` joined with newlines when
      they are a list (every part must be a string), `str(parts)` otherwise. */
  function PartsText(parts: Value, rt: Runtime): Result<string>
  {
    if parts.List? then JoinValues("\n", parts.items) else Ok(PyStr(parts, rt))
  }

  /** import_conversations.py:88-107 for one `(node_id, node)` item: the
      message the node contributes, or None when it is skipped. */
  function ClaudeNode(nodeId: string, node: Value, rt: Runtime): Result<Option<Extracted>>
  {
    var message :- Get(node, "message", Null);
    if !Truthy(message) then Ok(None)
    else
      var content :- Get(message, "content", Null);
      if !Truthy(content) then Ok(None)
      else
        var contentType :- Get(content, "content_type", Null);
        if contentType != Str("text") then Ok(None)
        else
          var parts :- Get(content, "parts", Null);
          if !Truthy(parts) then Ok(None)
          else
            var text :- PartsText(parts, rt);
            if Strip(text) == "" then Ok(None)
            else
              var id :- Index(message, "id");
              var author :- Get(message, "author", Dict([]));
              var role :- Get(author, "role", Str("unknown"));
              var status :- Get(message, "status", Null);
              var weight :- Get(message, "weight", Null);
              Ok(Some(Extracted(id, role, text,
                                Dict([("node_id", Str(nodeId)), ("status", status), ("weight", weight)]))))
  }

  /** One iteration of the loop over `mapping.items()`. */
  function NodeStep(rt: Runtime): ((string, Value), nat) -> Result<seq<Extracted>>
  {
    (item: (string, Value), k: nat) =>
      var m :- ClaudeNode(item.0, item.1, rt);
      Ok(if m.Some? then [m.value] else [])
  }

  /** The rows written for one extracted message (import_conversations.py:
      110-128): binding its id and role may raise. */
  function PairOf(m: Extracted, h: Header, rt: Runtime): Result<Pair>
  {
    var idCell :- BindText(m.id);
    var roleCell :- BindText(m.role);
    Ok(Pair(idCell, Message(Text(h.convId), roleCell, m.content, h.createdAt, m.metadata),
            "claude_" + PyStr(m.id, rt),
            Memory(m.content, Source, h.createdAt, Some(MemoryMetadata(Str(h.convId), h.title, m.role)))))
  }

  /** One iteration of the insert loop. */
  function PairStep(h: Header, rt: Runtime): (Extracted, nat) -> Result<seq<Pair>>
  {
    (m: Extracted, k: nat) => var p :- PairOf(m, h, rt); Ok([p])
  }

  /** The messages extracted from a header's mapping. */
  function ExtractedFrom(h: Header, rt: Runtime): Result<seq<Extracted>>
  {
    var items :- Items(h.mapping);
    Collect(items, |items|, NodeStep(rt))
  }

  /** The pairs of rows written for a header's mapping. */
  function PairsFrom(h: Header, rt: Runtime): Result<seq<Pair>>
  {
    var extracted :- ExtractedFrom(h, rt);
    Collect(extracted, |extracted|, PairStep(h, rt))
  }

  /** The writes for one export entry, in execution order. */
  function ConversationWrites(conv: Value, i: nat, rt: Runtime, uuids: nat -> string): Result<seq<Write>>
  {
    var header :- ConversationHeader(conv, i, rt, uuids);
    if header.None? then Ok([])
    else
      var h := header.value;
      var pairs :- PairsFrom(h, rt);
      Ok([PutConversation(Text(h.convId), h.row)] + Flatten(pairs))
  }

  function ConversationStep(rt: Runtime, uuids: nat -> string): (Value, nat) -> Result<seq<Write>>
  {
    (conv: Value, i: nat) => ConversationWrites(conv, i, rt, uuids)
  }

  /** The writes for a whole export file, or Raised when the import aborts. */
  function FileWrites(data: Value, rt: Runtime, uuids: nat -> string): Result<seq<Write>>
  {
    var convs :- Iterate(data);
    Collect(convs, |convs|, ConversationStep(rt, uuids))
  }

  lemma NodeStepIs(rt: Runtime, item: (string, Value), k: nat)
    ensures ClaudeNode(item.0, item.1, rt).Raised? ==> NodeStep(rt)(item, k).Raised?
    ensures ClaudeNode(item.0, item.1, rt) == Ok(None) ==> NodeStep(rt)(item, k) == Ok([])
    ensures ClaudeNode(item.0, item.1, rt).Ok? && ClaudeNode(item.0, item.1, rt).value.Some? ==>
              NodeStep(rt)(item, k) == Ok([ClaudeNode(item.0, item.1, rt).value.value])
  {
  }

  lemma PairStepIs(h: Header, rt: Runtime, m: Extracted, k: nat)
    ensures PairOf(m, h, rt).Raised? ==> PairStep(h, rt)(m, k).Raised?
    ensures PairOf(m, h, rt).Ok? ==> PairStep(h, rt)(m, k) == Ok([PairOf(m, h, rt).value])
  {
  }

  /** The first loop (import_conversations.py:87-107): walks the mapping's
      items and appends what every usable node yields to `messages`. */
  method ExtractMessages(items: seq<(string, Value)>, rt: Runtime) returns (ok: bool, messages: seq<Extracted>)
    ensures ok <==> Collect(items, |items|, NodeStep(rt)).Ok?
    ensures ok ==> Collect(items, |items|, NodeStep(rt)) == Ok(messages)
  {
    hide ClaudeNode, NodeStep;
    messages := [];
    var k := 0;
    while k < |items|
      invariant 0 <= k <= |items|
      invariant Collect(items, k, NodeStep(rt)) == Ok(messages)
    {
      var next := ClaudeNode(items[k].0, items[k].1, rt);
      CollectNext(items, k, NodeStep(rt));
      NodeStepIs(rt, items[k], k);
      if next.Raised? {
        CollectRaisedPersists(items, k + 1, |items|, NodeStep(rt));
        return false, messages;
      }
      if next.value.Some? {
        messages := messages + [next.value.value];
      } else {
        assert messages + [] == messages;
      }
      k := k + 1;
    }
    ok := true;
  }

  /** The second loop (import_conversations.py:110-128): each extracted
      message is written with its memory row right after it. */
  method InsertMessages(db: Database, messages: seq<Extracted>, h: Header, rt: Runtime)
    returns (ok: bool, pairs: seq<Pair>)
    modifies db
    ensures db.committed == old(db.committed)
    ensures ok <==> Collect(messages, |messages|, PairStep(h, rt)).Ok?
    ensures ok ==> Collect(messages, |messages|, PairStep(h, rt)) == Ok(pairs)
    ensures ok ==> db.Live() == Apply(old(db.Live()), Flatten(pairs))
  {
    hide PairOf, PairStep;
    ghost var start := db.Live();
    pairs := [];
    var k := 0;
    while k < |messages|
      invariant 0 <= k <= |messages|
      invariant db.committed == old(db.committed)
      invariant Collect(messages, k, PairStep(h, rt)) == Ok(pairs)
      invariant db.Live() == Apply(start, Flatten(pairs))
    {
      var next := PairOf(messages[k], h, rt);
      CollectNext(messages, k, PairStep(h, rt));
      PairStepIs(h, rt, messages[k], k);
      if next.Raised? {
        CollectRaisedPersists(messages, k + 1, |messages|, PairStep(h, rt));
        return false, pairs;
      }
      var p := next.value;
      db.PutPair(p);
      FlattenAppend(pairs, p);
      ApplyConcat(start, Flatten(pairs), PairWrites(p));
      pairs := pairs + [p];
      k := k + 1;
    }
    ok := true;
  }

  /** Imports one entry (the body of the loop at import_conversations.py:66-128). */
  method ImportConversation(db: Database, conv: Value, i: nat, rt: Runtime, uuids: nat -> string)
    returns (ok: bool)
    modifies db
    ensures db.committed == old(db.committed)
    ensures ok <==> ConversationWrites(conv, i, rt, uuids).Ok?
    ensures ok ==> db.Live() == Apply(old(db.Live()), ConversationWrites(conv, i, rt, uuids).value)
  {
    var header := ConversationHeader(conv, i, rt, uuids);
    if header.Raised? {
      return false;
    }
    if header.value.None? {
      return true;
    }
    var h := header.value.value;
    db.PutConversation(Text(h.convId), h.row);
    ghost var convWrite := [Write.PutConversation(Text(h.convId), h.row)];
    assert db.Live() == Apply(old(db.Live()), convWrite);
    var items := Items(h.mapping);
    if items.Raised? {
      return false;
    }
    var messages;
    ok, messages := ExtractMessages(items.value, rt);
    if !ok {
      return false;
    }
    var pairs;
    ok, pairs := InsertMessages(db, messages, h, rt);
    if ok {
      assert PairsFrom(h, rt) == Ok(pairs);
      ApplyConcat(old(db.Live()), convWrite, Flatten(pairs));
      assert ConversationWrites(conv, i, rt, uuids) == Ok(convWrite + Flatten(pairs));
    }
  }

  /** `import_claude_conversations`: every entry's writes in order, then
      `conn.commit()`. On an exception nothing of this file is committed. */
  method ImportFile(db: Database, data: Value, rt: Runtime, uuids: nat -> string)
    returns (ok: bool)
    modifies db
    ensures ok <==> FileWrites(data, rt, uuids).Ok?
    ensures ok ==> db.Live() == Apply(old(db.Live()), FileWrites(data, rt, uuids).value)
    ensures ok ==> db.committed == db.Live()
    ensures !ok ==> db.committed == old(db.committed)
  {
    // Only ImportConversation's contract is needed about each entry.
    hide ConversationWrites;
    var conversations := Iterate(data);
    if conversations.Raised? {
      return false;
    }
    var convs := conversations.value;
    ghost var start := db.Live();
    ghost var done: seq<Write> := [];
    var i := 0;
    while i < |convs|
      invariant 0 <= i <= |convs|
      invariant db.committed == old(db.committed)
      invariant Collect(convs, i, ConversationStep(rt, uuids)) == Ok(done)
      invariant db.Live() == Apply(start, done)
    {
      var imported := ImportConversation(db, convs[i], i, rt, uuids);
      if !imported {
        CollectRaisedPersists(convs, i + 1, |convs|, ConversationStep(rt, uuids));
        return false;
      }
      ghost var these := ConversationWrites(convs[i], i, rt, uuids).value;
      ApplyConcat(start, done, these);
      done := done + these;
      i := i + 1;
    }
    db.Commit();
    ok := true;
  }
}
