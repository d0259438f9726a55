/** What `import_chatgpt_conversations` guarantees about the rows it writes:
    which messages are kept, how their ids are formed, which rows an entry
    can touch, and what importing the same export twice does. */
module ChatGPTProperties {
  import opened Python
  import opened Schema
  import opened ChatGPTImport

  // ------------------------------------------------------------ message ids

  /** `{conv_id}_msg_{j}` ids of one conversation never collide. */
  lemma MessageIdsDistinct(h: Header, rt: Runtime, j: nat, k: nat)
    requires j != k
    ensures MessageId(h, j, rt) != MessageId(h, k, rt)
  {
    var prefix := PyStr(h.convId, rt) + "_msg_";
    if MessageId(h, j, rt) == MessageId(h, k, rt) {
      assert MessageId(h, j, rt)[|prefix|..] == NatToString(j);
      assert MessageId(h, k, rt)[|prefix|..] == NatToString(k);
      NatToStringInjective(j, k);
    }
  }

  /** A common prefix does not make two different ids equal. */
  lemma PrefixedDistinct(prefix: string, a: string, b: string)
    requires a != b
    ensures prefix + a != prefix + b
  {
    assert (prefix + a)[|prefix|..] == a && (prefix + b)[|prefix|..] == b;
  }

  // ----------------------------------------------------- one chat message

  /** The rows written for the `j`-th entry of `chat_messages`, whose role is
      `role` and whose stored text is `content`: the message row under
      `{conv_id}_msg_{j}` and, under `chatgpt_` + that id, a memory row with
      the same content and timestamp, naming the conversation, its title
      and the role. */
  predicate RowsFor(p: Pair, h: Header, j: nat, rt: Runtime, role: Value, content: string)
  {
    && p.msgId == Text(MessageId(h, j, rt))
    && p.memId == "chatgpt_" + MessageId(h, j, rt)
    && p.message.conversationId == h.idCell
    && BindText(role) == Ok(p.message.role)
    && p.message.content == content && p.memory.content == content
    && p.message.createdAt == h.createdAt && p.memory.createdAt == h.createdAt
    && p.memory.source == "chatgpt"
    && p.memory.metadata == Some(MemoryMetadata(h.convId, h.title, role))
  }

  /** An entry of `chat_messages` is dropped exactly when its text is blank;
      otherwise it yields the rows RowsFor describes. It raises when it is
      not a dict, when its content cannot be turned into text, or when it is
      kept but its role cannot be bound. */
  lemma ChatMessageSpec(msg: Value, j: nat, h: Header, rt: Runtime)
    ensures ChatMessage(msg, j, h, rt) == Ok(None)
            <==> MessageText(msg, rt).Ok? && Blank(MessageText(msg, rt).value)
    ensures ChatMessage(msg, j, h, rt).Raised?
            <==> MessageText(msg, rt).Raised?
                 || (!Blank(MessageText(msg, rt).value)
                     && !Bindable(Get(msg, "role", Str("unknown")).value))
    ensures ChatMessage(msg, j, h, rt).Ok? && ChatMessage(msg, j, h, rt).value.Some? ==>
              RowsFor(ChatMessage(msg, j, h, rt).value.value, h, j, rt,
                      Get(msg, "role", Str("unknown")).value, MessageText(msg, rt).value)
  {
    if MessageText(msg, rt).Ok? {
      StripEmptyIffBlank(MessageText(msg, rt).value);
    }
  }

  /** One iteration of the message loop contributes the pair the entry
      yields, if any. */
  lemma MessageStepIs(h: Header, rt: Runtime, msg: Value, j: nat)
    ensures ChatMessage(msg, j, h, rt).Raised? ==> MessageStep(h, rt)(msg, j).Raised?
    ensures ChatMessage(msg, j, h, rt) == Ok(None) ==> MessageStep(h, rt)(msg, j) == Ok([])
    ensures ChatMessage(msg, j, h, rt).Ok? && ChatMessage(msg, j, h, rt).value.Some? ==>
              MessageStep(h, rt)(msg, j) == Ok([ChatMessage(msg, j, h, rt).value.value])
  {
  }

  /** A `parts` list of strings is joined with newlines; the message is kept
      exactly when some part holds a non-whitespace character. A part that
      is not a string raises. */
  lemma PartsJoined(es: seq<(string, Value)>, items: seq<Value>, rt: Runtime)
    requires Lookup(es, "parts") == Some(List(items))
    ensures NormalizeContent(Dict(es), rt).Ok? <==> forall k :: 0 <= k < |items| ==> items[k].Str?
    ensures NormalizeContent(Dict(es), rt).Ok? ==>
              (Blank(NormalizeContent(Dict(es), rt).value) <==> forall k :: 0 <= k < |items| ==> Blank(items[k].s))
  {
    if forall k :: 0 <= k < |items| ==> items[k].Str? {
      var parts := seq(|items|, k requires 0 <= k < |items| => items[k].s);
      assert NormalizeContent(Dict(es), rt) == Ok(Join("\n", parts));
      assert IsSpace("\n"[0]);
      JoinBlank("\n", parts);
      assert forall k :: 0 <= k < |items| ==> parts[k] == items[k].s;
    }
  }

  /** A list content is the newline join of `str(item)`; it is blank exactly
      when every item prints as whitespace. */
  lemma ListJoined(items: seq<Value>, rt: Runtime)
    ensures NormalizeContent(List(items), rt).Ok?
    ensures Blank(NormalizeContent(List(items), rt).value)
            <==> forall k :: 0 <= k < |items| ==> Blank(PyStr(items[k], rt))
  {
    var parts := seq(|items|, k requires 0 <= k < |items| => PyStr(items[k], rt));
    assert IsSpace("\n"[0]);
    JoinBlank("\n", parts);
    assert forall k :: 0 <= k < |items| ==> parts[k] == PyStr(items[k], rt);
  }

  /** The body of an entry is its `message`, or its `content` when
      `message` is missing or falsy, `''` when that is missing too; reading
      it raises exactly when the entry is not a dict. */
  lemma MessageBodyFallback(msg: Value)
    ensures MessageBody(msg).Ok? <==> msg.Dict?
    ensures msg.Dict? ==>
              var message := if Lookup(msg.entries, "message").Some? then Lookup(msg.entries, "message").value else Str("");
              var content := if Lookup(msg.entries, "content").Some? then Lookup(msg.entries, "content").value else Str("");
              && (Truthy(message) ==> MessageBody(msg) == Ok(message))
              && (!Truthy(message) ==> MessageBody(msg) == Ok(content))
  {
  }

  /** The cases of the content normalisation besides list `parts` and list
      content: non-list `parts` print with `str`, a `text` field is taken as
      it is and must be a string (`strip` raises otherwise), any other dict
      prints as `str(dict)`, and any other value prints with `str`. The text
      raises exactly for a non-string part of a `parts` list or a
      non-string `text` without `parts`. */
  lemma ContentCases(content: Value, rt: Runtime)
    ensures content.Dict? && Lookup(content.entries, "parts").Some?
            && !Lookup(content.entries, "parts").value.List? ==>
              NormalizeContent(content, rt) == Ok(PyStr(Lookup(content.entries, "parts").value, rt))
    ensures content.Dict? && Lookup(content.entries, "parts").None? && Lookup(content.entries, "text").Some? ==>
              var text := Lookup(content.entries, "text").value;
              && (NormalizeContent(content, rt).Ok? <==> text.Str?)
              && (text.Str? ==> NormalizeContent(content, rt) == Ok(text.s))
    ensures content.Dict? && Lookup(content.entries, "parts").None? && Lookup(content.entries, "text").None? ==>
              NormalizeContent(content, rt) == Ok(rt.repr(content))
    ensures !content.Dict? && !content.List? ==> NormalizeContent(content, rt) == Ok(PyStr(content, rt))
    ensures NormalizeContent(content, rt).Raised? <==>
              && content.Dict?
              && (if Lookup(content.entries, "parts").Some? then
                    Lookup(content.entries, "parts").value.List?
                    && exists k :: 0 <= k < |Lookup(content.entries, "parts").value.items|
                                   && !Lookup(content.entries, "parts").value.items[k].Str?
                  else
                    Lookup(content.entries, "text").Some? && !Lookup(content.entries, "text").value.Str?)
  {
    if content.Dict? && Lookup(content.entries, "parts").Some? && Lookup(content.entries, "parts").value.List? {
      PartsJoined(content.entries, Lookup(content.entries, "parts").value.items, rt);
    }
  }

  // ------------------------------------------------------ one conversation

  /** The conversation row of an entry: source `chatgpt`, the entry's
      `uuid` as id when it has one and a generated id otherwise, `name` as
      title with `Untitled` as default, and creation and update times parsed
      from the strings `created_at` and `updated_at` after every 'Z' became
      '+00:00', or from `''` when a field is absent. */
  lemma HeaderSpec(conv: Value, i: nat, rt: Runtime, uuids: nat -> string)
    requires ConversationHeader(conv, i, rt, uuids).Ok?
    ensures conv.Dict?
    ensures var h := ConversationHeader(conv, i, rt, uuids).value;
      && h.row.source == "chatgpt"
      && h.convId == (if Lookup(conv.entries, "uuid").Some? then Lookup(conv.entries, "uuid").value else Str(uuids(i)))
      && BindText(h.convId) == Ok(h.idCell)
      && h.title == (if Lookup(conv.entries, "name").Some? then Lookup(conv.entries, "name").value else Str("Untitled"))
      && BindText(h.title) == Ok(h.row.title)
      && h.row.createdAt == h.createdAt
      && ParsedFrom(conv, "created_at", rt, h.createdAt)
      && ParsedFrom(conv, "updated_at", rt, h.row.updatedAt)
  {
  }

  /** `stamp` is what `fromisoformat` made of the field: of `''` when the
      field is absent, and otherwise of its string value with every 'Z'
      replaced, which must be a string. */
  predicate ParsedFrom(conv: Value, field: string, rt: Runtime, stamp: string)
    requires conv.Dict?
  {
    match Lookup(conv.entries, field)
    case None => rt.fromIsoFormat("") == Ok(stamp)
    case Some(v) => v.Str? && rt.fromIsoFormat(ReplaceZ(v.s)) == Ok(stamp)
  }

  /** The pairs kept from the first `n` entries of `chat_messages` are exactly
      the pairs those entries yield, and their message and memory ids are
      pairwise distinct. */
  lemma KeptPairs(msgs: seq<Value>, n: nat, h: Header, rt: Runtime)
    requires n <= |msgs|
    requires Collect(msgs, n, MessageStep(h, rt)).Ok?
    ensures forall a :: 0 <= a < |Collect(msgs, n, MessageStep(h, rt)).value| ==>
              exists j :: 0 <= j < n && ChatMessage(msgs[j], j, h, rt) == Ok(Some(Collect(msgs, n, MessageStep(h, rt)).value[a]))
    ensures forall j :: 0 <= j < n && ChatMessage(msgs[j], j, h, rt).Ok? && ChatMessage(msgs[j], j, h, rt).value.Some? ==>
              ChatMessage(msgs[j], j, h, rt).value.value in Collect(msgs, n, MessageStep(h, rt)).value
    ensures forall a, b :: 0 <= a < b < |Collect(msgs, n, MessageStep(h, rt)).value| ==>
              Collect(msgs, n, MessageStep(h, rt)).value[a].msgId != Collect(msgs, n, MessageStep(h, rt)).value[b].msgId
              && Collect(msgs, n, MessageStep(h, rt)).value[a].memId != Collect(msgs, n, MessageStep(h, rt)).value[b].memId
    ensures forall a :: 0 <= a < |Collect(msgs, n, MessageStep(h, rt)).value| ==>
              exists j :: 0 <= j < n && Collect(msgs, n, MessageStep(h, rt)).value[a].msgId == Text(MessageId(h, j, rt))
                          && Collect(msgs, n, MessageStep(h, rt)).value[a].memId == "chatgpt_" + MessageId(h, j, rt)
  {
    hide ChatMessage, MessageStep;
    KeptFrom(msgs, n, h, rt);
    KeptComplete(msgs, n, h, rt);
    KeptDistinct(msgs, n, h, rt);
    var kept := Collect(msgs, n, MessageStep(h, rt)).value;
    forall a | 0 <= a < |kept|
      ensures exists j :: 0 <= j < n && kept[a].msgId == Text(MessageId(h, j, rt))
                          && kept[a].memId == "chatgpt_" + MessageId(h, j, rt)
    {
      var j :| 0 <= j < n && ChatMessage(msgs[j], j, h, rt) == Ok(Some(kept[a]))
               && kept[a].msgId == Text(MessageId(h, j, rt))
               && kept[a].memId == "chatgpt_" + MessageId(h, j, rt);
    }
  }

  /** Each kept pair is what some entry yields, under that entry's ids. */
  lemma {:induction false} KeptFrom(msgs: seq<Value>, n: nat, h: Header, rt: Runtime)
    requires n <= |msgs|
    requires Collect(msgs, n, MessageStep(h, rt)).Ok?
    ensures var kept := Collect(msgs, n, MessageStep(h, rt)).value;
      forall a :: 0 <= a < |kept| ==>
        exists j :: 0 <= j < n && ChatMessage(msgs[j], j, h, rt) == Ok(Some(kept[a]))
                    && kept[a].msgId == Text(MessageId(h, j, rt))
                    && kept[a].memId == "chatgpt_" + MessageId(h, j, rt)
  {
    hide ChatMessage, MessageStep, MessageId;
    if n > 0 {
      KeptFrom(msgs, n - 1, h, rt);
      CollectNext(msgs, n - 1, MessageStep(h, rt));
      MessageStepIs(h, rt, msgs[n - 1], n - 1);
      var before := Collect(msgs, n - 1, MessageStep(h, rt)).value;
      var kept := Collect(msgs, n, MessageStep(h, rt)).value;
      var next := ChatMessage(msgs[n - 1], n - 1, h, rt);
      if next.value.Some? {
        ChatMessageSpec(msgs[n - 1], n - 1, h, rt);
        assert kept == before + [next.value.value];
        forall a | 0 <= a < |kept|
          ensures exists j :: 0 <= j < n && ChatMessage(msgs[j], j, h, rt) == Ok(Some(kept[a]))
                              && kept[a].msgId == Text(MessageId(h, j, rt))
                              && kept[a].memId == "chatgpt_" + MessageId(h, j, rt)
        {
          if a < |before| {
            assert kept[a] == before[a];
          } else {
            assert kept[a] == next.value.value;
          }
        }
      } else {
        assert kept == before;
      }
    }
  }

  /** Every entry that yields a pair has it kept. */
  lemma {:induction false} KeptComplete(msgs: seq<Value>, n: nat, h: Header, rt: Runtime)
    requires n <= |msgs|
    requires Collect(msgs, n, MessageStep(h, rt)).Ok?
    ensures forall j :: 0 <= j < n && ChatMessage(msgs[j], j, h, rt).Ok? && ChatMessage(msgs[j], j, h, rt).value.Some? ==>
              ChatMessage(msgs[j], j, h, rt).value.value in Collect(msgs, n, MessageStep(h, rt)).value
  {
    hide ChatMessage, MessageStep;
    if n > 0 {
      KeptComplete(msgs, n - 1, h, rt);
      CollectNext(msgs, n - 1, MessageStep(h, rt));
      MessageStepIs(h, rt, msgs[n - 1], n - 1);
      var before := Collect(msgs, n - 1, MessageStep(h, rt)).value;
      var kept := Collect(msgs, n, MessageStep(h, rt)).value;
      var next := ChatMessage(msgs[n - 1], n - 1, h, rt);
      if next.value.Some? {
        assert kept == before + [next.value.value];
      } else {
        assert kept == before;
      }
    }
  }

  /** Kept pairs never share a message id or a memory id. */
  lemma {:induction false} KeptDistinct(msgs: seq<Value>, n: nat, h: Header, rt: Runtime)
    requires n <= |msgs|
    requires Collect(msgs, n, MessageStep(h, rt)).Ok?
    ensures var kept := Collect(msgs, n, MessageStep(h, rt)).value;
      forall a, b :: 0 <= a < b < |kept| ==> kept[a].msgId != kept[b].msgId && kept[a].memId != kept[b].memId
  {
    hide ChatMessage, MessageStep, MessageId;
    if n > 0 {
      KeptDistinct(msgs, n - 1, h, rt);
      KeptFrom(msgs, n - 1, h, rt);
      CollectNext(msgs, n - 1, MessageStep(h, rt));
      MessageStepIs(h, rt, msgs[n - 1], n - 1);
      var before := Collect(msgs, n - 1, MessageStep(h, rt)).value;
      var kept := Collect(msgs, n, MessageStep(h, rt)).value;
      var next := ChatMessage(msgs[n - 1], n - 1, h, rt);
      if next.value.Some? {
        var p := next.value.value;
        ChatMessageSpec(msgs[n - 1], n - 1, h, rt);
        assert kept == before + [p];
        forall a | 0 <= a < |before|
          ensures before[a].msgId != p.msgId && before[a].memId != p.memId
        {
          var j :| 0 <= j < n - 1 && ChatMessage(msgs[j], j, h, rt) == Ok(Some(before[a]))
                   && before[a].msgId == Text(MessageId(h, j, rt))
                   && before[a].memId == "chatgpt_" + MessageId(h, j, rt);
          MessageIdsDistinct(h, rt, j, n - 1);
          PrefixedDistinct("chatgpt_", MessageId(h, j, rt), MessageId(h, n - 1, rt));
        }
        forall a, b | 0 <= a < b < |kept|
          ensures kept[a].msgId != kept[b].msgId && kept[a].memId != kept[b].memId
        {
          assert kept[a] == before[a];
          if b < |before| { assert kept[b] == before[b]; }
        }
      } else {
        assert kept == before;
      }
    }
  }

  /** The writes of one entry: its conversation row, then the rows of the
      pairs kept from its `chat_messages`. */
  lemma WritesOf(conv: Value, i: nat, rt: Runtime, uuids: nat -> string) returns (h: Header)
    requires ConversationWrites(conv, i, rt, uuids).Ok?
    ensures ConversationHeader(conv, i, rt, uuids) == Ok(h)
    ensures Iterate(h.chatMessages).Ok?
    ensures Collect(Iterate(h.chatMessages).value, |Iterate(h.chatMessages).value|, MessageStep(h, rt)).Ok?
    ensures ConversationWrites(conv, i, rt, uuids).value
         == [PutConversation(h.idCell, h.row)]
            + Flatten(Collect(Iterate(h.chatMessages).value, |Iterate(h.chatMessages).value|, MessageStep(h, rt)).value)
  {
    hide ChatMessage, MessageStep, Collect, Flatten;
    h := ConversationHeader(conv, i, rt, uuids).value;
  }

  /** `chatgpt_` followed by a message id of the conversation `h`. */
  ghost predicate OwnMessageId(id: string, h: Header, rt: Runtime)
  {
    exists j: nat :: id == MessageId(h, j, rt)
  }

  ghost predicate OwnMemoryId(id: string, h: Header, rt: Runtime)
  {
    exists j: nat :: id == "chatgpt_" + MessageId(h, j, rt)
  }

  /** The ids the writes of one entry name: its own conversation id, unless
      that is NULL, then `{conv_id}_msg_*` messages and
      `chatgpt_{conv_id}_msg_*` memories. */
  lemma ConversationIdsOf(conv: Value, i: nat, rt: Runtime, uuids: nat -> string, h: Header)
    requires ConversationHeader(conv, i, rt, uuids) == Ok(h)
    requires ConversationWrites(conv, i, rt, uuids).Ok?
    ensures var ws := ConversationWrites(conv, i, rt, uuids).value;
      && ws[0] == PutConversation(h.idCell, h.row)
      && ConversationIds(ws) == (if h.idCell.Text? then {h.idCell.text} else {})
      && (forall id :: id in MessageIds(ws) ==> OwnMessageId(id, h, rt))
      && (forall id :: id in MemoryIds(ws) ==> OwnMemoryId(id, h, rt))
  {
    hide ChatMessage, MessageStep, ConversationHeader, MessageId, ConversationWrites;
    var h' := WritesOf(conv, i, rt, uuids);
    assert h' == h;
    var msgs := Iterate(h.chatMessages).value;
    var kept := Collect(msgs, |msgs|, MessageStep(h, rt)).value;
    var head := [PutConversation(h.idCell, h.row)];
    var ws := ConversationWrites(conv, i, rt, uuids).value;
    assert ws == head + Flatten(kept);
    KeptIdsOwn(msgs, h, rt);
    hide Collect, OwnMessageId, OwnMemoryId;
    IdsConcat(head, Flatten(kept));
    FlattenIds(kept);
    assert ConversationIds(head) == (if h.idCell.Text? then {h.idCell.text} else {}) by {
      if h.idCell.Text? { assert head[0].convId.text in ConversationIds(head); }
    }
    assert MessageIds(head) == {} && MemoryIds(head) == {};
  }

  /** The ids of the pairs kept from `chat_messages` are ids of this
      conversation's messages. */
  lemma KeptIdsOwn(msgs: seq<Value>, h: Header, rt: Runtime)
    requires Collect(msgs, |msgs|, MessageStep(h, rt)).Ok?
    ensures var kept := Collect(msgs, |msgs|, MessageStep(h, rt)).value;
      && (forall id :: id in PairMessageIds(kept) ==> OwnMessageId(id, h, rt))
      && (forall id :: id in PairMemoryIds(kept) ==> OwnMemoryId(id, h, rt))
  {
    hide ChatMessage, MessageStep, MessageId;
    var kept := Collect(msgs, |msgs|, MessageStep(h, rt)).value;
    KeptFrom(msgs, |msgs|, h, rt);
    forall id | id in PairMessageIds(kept) ensures OwnMessageId(id, h, rt) {
      var a :| 0 <= a < |kept| && kept[a].msgId.Text? && kept[a].msgId.text == id;
      var j :| 0 <= j < |msgs| && ChatMessage(msgs[j], j, h, rt) == Ok(Some(kept[a]))
               && kept[a].msgId == Text(MessageId(h, j, rt))
               && kept[a].memId == "chatgpt_" + MessageId(h, j, rt);
    }
    forall id | id in PairMemoryIds(kept) ensures OwnMemoryId(id, h, rt) {
      var a :| 0 <= a < |kept| && kept[a].memId == id;
      var j :| 0 <= j < |msgs| && ChatMessage(msgs[j], j, h, rt) == Ok(Some(kept[a]))
               && kept[a].msgId == Text(MessageId(h, j, rt))
               && kept[a].memId == "chatgpt_" + MessageId(h, j, rt);
    }
  }


  /** Importing one entry leaves every row whose id its writes do not name
      as it was: other conversations, messages and memories are untouched. */
  lemma ConversationFrame(conv: Value, i: nat, rt: Runtime, uuids: nat -> string, h: Header, t: Tables)
    requires ConversationHeader(conv, i, rt, uuids) == Ok(h)
    requires ConversationWrites(conv, i, rt, uuids).Ok?
    ensures var after := Apply(t, ConversationWrites(conv, i, rt, uuids).value);
      && (forall id :: id in t.conversations && !(h.idCell == Text(id)) ==>
            id in after.conversations && after.conversations[id] == t.conversations[id])
      && (forall id :: id in t.messages && !OwnMessageId(id, h, rt) ==>
            id in after.messages && after.messages[id] == t.messages[id])
      && (forall id :: id in t.memories && !OwnMemoryId(id, h, rt) ==>
            id in after.memories && after.memories[id] == t.memories[id])
  {
    hide ConversationWrites, OwnMessageId, OwnMemoryId;
    ConversationIdsOf(conv, i, rt, uuids, h);
    BatchFrame(t, ConversationWrites(conv, i, rt, uuids).value);
  }

  // ------------------------------------------------------------ whole file

  /** The entry carries a non-null `uuid` of its own. */
  predicate HasUuid(conv: Value)
  {
    conv.Dict? && Lookup(conv.entries, "uuid").Some? && !Lookup(conv.entries, "uuid").value.Null?
  }

  /** An entry with its own `uuid` does not depend on the generated ids. */
  lemma EntryIgnoresGeneratedIds(conv: Value, i: nat, rt: Runtime, u1: nat -> string, u2: nat -> string)
    requires HasUuid(conv)
    ensures ConversationWrites(conv, i, rt, u1) == ConversationWrites(conv, i, rt, u2)
  {
    assert ConversationHeader(conv, i, rt, u1) == ConversationHeader(conv, i, rt, u2);
  }

  /** Every write of such an entry has a text id. */
  lemma EntryKeyed(conv: Value, i: nat, rt: Runtime, uuids: nat -> string)
    requires HasUuid(conv)
    requires ConversationWrites(conv, i, rt, uuids).Ok?
    ensures forall k :: 0 <= k < |ConversationWrites(conv, i, rt, uuids).value| ==>
              Keyed(ConversationWrites(conv, i, rt, uuids).value[k])
  {
    hide ChatMessage, MessageStep, ConversationWrites, ConversationHeader, Flatten, Collect;
    var h := WritesOf(conv, i, rt, uuids);
    HeaderSpec(conv, i, rt, uuids);
    var msgs := Iterate(h.chatMessages).value;
    var kept := Collect(msgs, |msgs|, MessageStep(h, rt)).value;
    var ws := ConversationWrites(conv, i, rt, uuids).value;
    assert ws == [PutConversation(h.idCell, h.row)] + Flatten(kept);
    KeptFrom(msgs, |msgs|, h, rt);
    forall a | 0 <= a < |kept| ensures kept[a].msgId.Text? {
      var j :| 0 <= j < |msgs| && ChatMessage(msgs[j], j, h, rt) == Ok(Some(kept[a]))
               && kept[a].msgId == Text(MessageId(h, j, rt))
               && kept[a].memId == "chatgpt_" + MessageId(h, j, rt);
    }
    FlattenKeyed(kept);
    forall k | 0 <= k < |ws| ensures Keyed(ws[k]) {
      if k > 0 { assert ws[k] == Flatten(kept)[k - 1]; }
    }
  }

  /** Importing the same export a second time, when every entry carries its
      own `uuid`, writes the same rows again (whatever ids uuid4 returns) and
      leaves the tables exactly as the first import left them. */
  lemma ReimportUnchanged(data: Value, rt: Runtime, u1: nat -> string, u2: nat -> string, t: Tables)
    requires Iterate(data).Ok?
    requires forall k :: 0 <= k < |Iterate(data).value| ==> HasUuid(Iterate(data).value[k])
    requires FileWrites(data, rt, u1).Ok?
    ensures FileWrites(data, rt, u2) == FileWrites(data, rt, u1)
    ensures Apply(Apply(t, FileWrites(data, rt, u1).value), FileWrites(data, rt, u2).value)
         == Apply(t, FileWrites(data, rt, u1).value)
  {
    var convs := Iterate(data).value;
    forall k | 0 <= k < |convs|
      ensures ConversationStep(rt, u1)(convs[k], k) == ConversationStep(rt, u2)(convs[k], k)
    {
      EntryIgnoresGeneratedIds(convs[k], k, rt, u1, u2);
    }
    CollectExt(convs, |convs|, ConversationStep(rt, u1), ConversationStep(rt, u2));
    forall k | 0 <= k < |convs| && ConversationStep(rt, u1)(convs[k], k).Ok?
      ensures forall m :: 0 <= m < |ConversationStep(rt, u1)(convs[k], k).value| ==>
                Keyed(ConversationStep(rt, u1)(convs[k], k).value[m])
    {
      EntryKeyed(convs[k], k, rt, u1);
    }
    CollectAll(convs, |convs|, ConversationStep(rt, u1), Keyed);
    BatchIdempotent(t, FileWrites(data, rt, u1).value);
  }

  /** `created_at` defaults to `''`, which `fromisoformat` rejects. */
  lemma HeaderNeedsCreatedAt(conv: Value, i: nat, rt: Runtime, uuids: nat -> string)
    requires conv.Dict? && Lookup(conv.entries, "created_at").None?
    requires rt.fromIsoFormat("") == Raised
    ensures ConversationHeader(conv, i, rt, uuids).Raised?
  {
    assert ParseTimestamp(conv, "created_at", rt) == Raised;
  }

  /** An entry without `created_at` parses `''`, which `fromisoformat`
      rejects, so the whole file's import raises. */
  lemma MissingCreatedAtAborts(data: Value, rt: Runtime, uuids: nat -> string, k: nat)
    requires Iterate(data).Ok? && k < |Iterate(data).value|
    requires Iterate(data).value[k].Dict?
    requires Lookup(Iterate(data).value[k].entries, "created_at").None?
    requires rt.fromIsoFormat("") == Raised
    ensures FileWrites(data, rt, uuids).Raised?
  {
    var convs := Iterate(data).value;
    var step := ConversationStep(rt, uuids);
    HeaderNeedsCreatedAt(convs[k], k, rt, uuids);
    hide ConversationHeader;
    assert step(convs[k], k).Raised?;
    if Collect(convs, k, step).Ok? {
      CollectNext(convs, k, step);
    } else {
      CollectRaisedPersists(convs, k, k + 1, step);
    }
    CollectRaisedPersists(convs, k + 1, |convs|, step);
  }
}
