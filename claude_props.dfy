/** What `import_claude_conversations` guarantees: which entries and nodes
    produce rows, what those rows hold, and what importing the same export
    twice does. */
module ClaudeProperties {
  import opened Python
  import opened Schema
  import opened ClaudeImport

  // ------------------------------------------------------------- entries

  /** An entry writes nothing exactly when its `mapping` is missing or falsy;
      any other entry that imports writes at least its conversation row. */
  lemma SkippedIffNoMapping(conv: Value, i: nat, rt: Runtime, uuids: nat -> string)
    requires ConversationWrites(conv, i, rt, uuids).Ok?
    ensures ConversationWrites(conv, i, rt, uuids) == Ok([])
            <==> !Truthy(Get(conv, "mapping", Null).value)
  {
    hide ClaudeNode, PairOf, NodeStep, PairStep;
  }

  /** An entry with a mapping writes exactly one conversation row: under the
      generated id, with source `claude`, the entry's `title` (`Untitled`
      when absent) and the times `fromtimestamp` gives for `create_time`
      and `update_time` (0 when absent), whether or not any node yields a
      message. Every later write is a message or memory row, and every row
      the entry writes carries the conversation's `created_at`. */
  lemma OneConversationRow(conv: Value, i: nat, rt: Runtime, uuids: nat -> string)
    requires ConversationWrites(conv, i, rt, uuids).Ok?
    requires Truthy(Get(conv, "mapping", Null).value)
    ensures var ws := ConversationWrites(conv, i, rt, uuids).value;
      && |ws| >= 1
      && ws[0].PutConversation?
      && ws[0].convId == Text(uuids(i))
      && ws[0].conversation.source == "claude"
      && BindText(if Lookup(conv.entries, "title").Some? then Lookup(conv.entries, "title").value else Str("Untitled"))
         == Ok(ws[0].conversation.title)
      && (forall k :: 1 <= k < |ws| ==> ws[k].PutMessage? || ws[k].PutMemory?)
      && ConversationIds(ws) == {uuids(i)}
      && rt.fromTimestamp(if Lookup(conv.entries, "create_time").Some? then Lookup(conv.entries, "create_time").value else Int(0))
         == Ok(ws[0].conversation.createdAt)
      && rt.fromTimestamp(if Lookup(conv.entries, "update_time").Some? then Lookup(conv.entries, "update_time").value else Int(0))
         == Ok(ws[0].conversation.updatedAt)
      && (forall k :: 0 <= k < |ws| ==> Stamped(ws[k], ws[0].conversation.createdAt))
  {
    hide ClaudeNode, PairOf, NodeStep, PairStep;
    var h := ConversationHeader(conv, i, rt, uuids).value.value;
    var pairs := PairsFrom(h, rt).value;
    var head := [PutConversation(Text(h.convId), h.row)];
    var ws := ConversationWrites(conv, i, rt, uuids).value;
    assert ws == head + Flatten(pairs);
    FlattenKinds(pairs);
    PairsStamped(conv, i, rt, uuids, h);
    forall k | 1 <= k < |ws| ensures (ws[k].PutMessage? || ws[k].PutMemory?) && Stamped(ws[k], h.createdAt) {
      assert ws[k] == Flatten(pairs)[k - 1];
    }
    IdsConcat(head, Flatten(pairs));
    FlattenIds(pairs);
    assert head[0].convId.text in ConversationIds(head);
  }

  /** Every pair of an entry carries the conversation's timestamp. */
  lemma PairsStamped(conv: Value, i: nat, rt: Runtime, uuids: nat -> string, h: Header)
    requires ConversationHeader(conv, i, rt, uuids) == Ok(Some(h))
    requires ConversationWrites(conv, i, rt, uuids).Ok?
    ensures PairsFrom(h, rt).Ok?
    ensures forall k :: 0 <= k < |Flatten(PairsFrom(h, rt).value)| ==> Stamped(Flatten(PairsFrom(h, rt).value)[k], h.createdAt)
  {
    hide ClaudeNode, NodeStep, PairStep, ConversationWrites, ConversationHeader;
    OnePairPerMessage(conv, i, rt, uuids, h);
    var ex, ps := ExtractedFrom(h, rt).value, PairsFrom(h, rt).value;
    forall a | 0 <= a < |ps| ensures ps[a].message.createdAt == h.createdAt && ps[a].memory.createdAt == h.createdAt {
      assert PairOf(ex[a], h, rt) == Ok(ps[a]);
    }
    FlattenStamped(ps, h.createdAt);
  }

  // ---------------------------------------------------------------- nodes

  /** The five conditions under which a mapping node yields a message: a
      truthy `message`, a truthy `content`, `content_type == 'text'`, truthy
      `parts`, and joined parts that are not blank. */
  ghost predicate Usable(node: Value, rt: Runtime)
  {
    && Get(node, "message", Null).Ok?
    && Truthy(Get(node, "message", Null).value)
    && Get(Get(node, "message", Null).value, "content", Null).Ok?
    && var content := Get(Get(node, "message", Null).value, "content", Null).value;
    && Truthy(content)
    && Get(content, "content_type", Null) == Ok(Str("text"))
    && Get(content, "parts", Null).Ok?
    && Truthy(Get(content, "parts", Null).value)
    && PartsText(Get(content, "parts", Null).value, rt).Ok?
    && !Blank(PartsText(Get(content, "parts", Null).value, rt).value)
  }

  /** A node that does not raise yields a message exactly when it is Usable.
      The message carries `message['id']`, the author's `role` (`unknown`
      when there is no author or it has no role) and the joined text. */
  lemma NodeKeptIff(nodeId: string, node: Value, rt: Runtime)
    requires ClaudeNode(nodeId, node, rt).Ok?
    ensures ClaudeNode(nodeId, node, rt).value.Some? <==> Usable(node, rt)
    ensures ClaudeNode(nodeId, node, rt).value.Some? ==>
              var message := Get(node, "message", Null).value;
              var m := ClaudeNode(nodeId, node, rt).value.value;
              var content := Get(message, "content", Null).value;
              && Index(message, "id") == Ok(m.id)
              && m.content == PartsText(Get(content, "parts", Null).value, rt).value
              && (Lookup(message.entries, "author").None? ==> m.role == Str("unknown"))
              && (Lookup(message.entries, "author").Some? && Lookup(message.entries, "author").value.Dict? ==>
                    var author := Lookup(message.entries, "author").value.entries;
                    m.role == (if Lookup(author, "role").Some? then Lookup(author, "role").value else Str("unknown")))
  {
    var message := Get(node, "message", Null).value;
    if Truthy(message) && Get(message, "content", Null).Ok? {
      var content := Get(message, "content", Null).value;
      if Truthy(content) && Get(content, "content_type", Null) == Ok(Str("text"))
         && Get(content, "parts", Null).Ok? && Truthy(Get(content, "parts", Null).value)
         && PartsText(Get(content, "parts", Null).value, rt).Ok? {
        StripEmptyIffBlank(PartsText(Get(content, "parts", Null).value, rt).value);
      }
    }
  }

  /** The positions, among the first `n` items, of the Usable nodes, in
      mapping order. */
  ghost function UsableIndices(items: seq<(string, Value)>, n: nat, rt: Runtime): seq<nat>
    requires n <= |items|
  {
    if n == 0 then []
    else UsableIndices(items, n - 1, rt) + (if Usable(items[n - 1].1, rt) then [n - 1] else [])
  }

  /** UsableIndices lists every Usable position below `n` and nothing else,
      each once, in increasing order. */
  lemma {:induction false} UsableIndicesExactly(items: seq<(string, Value)>, n: nat, rt: Runtime)
    requires n <= |items|
    ensures forall a :: 0 <= a < |UsableIndices(items, n, rt)| ==> UsableIndices(items, n, rt)[a] < n
    ensures forall a, b :: 0 <= a < b < |UsableIndices(items, n, rt)| ==>
              UsableIndices(items, n, rt)[a] < UsableIndices(items, n, rt)[b]
    ensures forall k :: 0 <= k < n ==> (k in UsableIndices(items, n, rt) <==> Usable(items[k].1, rt))
  {
    hide Usable;
    if n > 0 {
      UsableIndicesExactly(items, n - 1, rt);
    }
  }

  /** The extracted messages are exactly those of the Usable nodes, one per
      node, in mapping order: the `a`-th message is the one built from the
      `a`-th Usable node. */
  lemma {:induction false} ExtractedExactly(items: seq<(string, Value)>, n: nat, rt: Runtime)
    requires n <= |items|
    requires Collect(items, n, NodeStep(rt)).Ok?
    ensures |Collect(items, n, NodeStep(rt)).value| == |UsableIndices(items, n, rt)|
    ensures forall a :: 0 <= a < |UsableIndices(items, n, rt)| ==>
              && UsableIndices(items, n, rt)[a] < n
              && ClaudeNode(items[UsableIndices(items, n, rt)[a]].0, items[UsableIndices(items, n, rt)[a]].1, rt)
                 == Ok(Some(Collect(items, n, NodeStep(rt)).value[a]))
  {
    hide ClaudeNode, NodeStep;
    if n > 0 {
      ExtractedExactly(items, n - 1, rt);
      CollectNext(items, n - 1, NodeStep(rt));
      NodeStepIs(rt, items[n - 1], n - 1);
      NodeKeptIff(items[n - 1].0, items[n - 1].1, rt);
      var before := Collect(items, n - 1, NodeStep(rt)).value;
      var after := Collect(items, n, NodeStep(rt)).value;
      var idx := UsableIndices(items, n, rt);
      assert idx[..|before|] == UsableIndices(items, n - 1, rt);
      forall a | 0 <= a < |idx|
        ensures idx[a] < n && ClaudeNode(items[idx[a]].0, items[idx[a]].1, rt) == Ok(Some(after[a]))
      {
        if a < |before| {
          assert after[a] == before[a];
          assert idx[a] == UsableIndices(items, n - 1, rt)[a];
        }
      }
    }
  }

  // ------------------------------------------------------------- messages

  /** The rows written for an extracted message: the message row under its
      own id, in the conversation `h`, and the memory row `claude_{id}`
      with the same content and timestamp, naming the conversation, its
      title and the role. */
  lemma PairRows(m: Extracted, h: Header, rt: Runtime)
    requires PairOf(m, h, rt).Ok?
    ensures var p := PairOf(m, h, rt).value;
      && BindText(m.id) == Ok(p.msgId)
      && p.memId == "claude_" + PyStr(m.id, rt)
      && p.message.conversationId == Text(h.convId)
      && p.message.content == m.content && p.memory.content == m.content
      && p.message.createdAt == h.createdAt && p.memory.createdAt == h.createdAt
      && p.memory.source == "claude"
      && p.memory.metadata == Some(MemoryMetadata(Str(h.convId), h.title, m.role))
  {
  }

  /** Every extracted message gets exactly one pair of rows, in order: an
      entry writes one conversation row and then two rows per Usable node. */
  lemma OnePairPerMessage(conv: Value, i: nat, rt: Runtime, uuids: nat -> string, h: Header)
    requires ConversationHeader(conv, i, rt, uuids) == Ok(Some(h))
    requires ConversationWrites(conv, i, rt, uuids).Ok?
    ensures ExtractedFrom(h, rt).Ok? && PairsFrom(h, rt).Ok?
    ensures |PairsFrom(h, rt).value| == |ExtractedFrom(h, rt).value|
    ensures forall a :: 0 <= a < |PairsFrom(h, rt).value| ==>
              PairOf(ExtractedFrom(h, rt).value[a], h, rt) == Ok(PairsFrom(h, rt).value[a])
    ensures |ConversationWrites(conv, i, rt, uuids).value|
            == 1 + 2 * |UsableIndices(Items(h.mapping).value, |Items(h.mapping).value|, rt)|
  {
    hide ClaudeNode, PairOf, NodeStep, ConversationHeader;
    var items := Items(h.mapping).value;
    var extracted := ExtractedFrom(h, rt).value;
    ExtractedExactly(items, |items|, rt);
    forall k | 0 <= k < |extracted| && PairStep(h, rt)(extracted[k], k).Ok?
      ensures |PairStep(h, rt)(extracted[k], k).value| == 1
    {
      PairStepIs(h, rt, extracted[k], k);
    }
    CollectSingletons(extracted, |extracted|, PairStep(h, rt));
    var pairs := PairsFrom(h, rt).value;
    forall a | 0 <= a < |pairs| ensures PairOf(extracted[a], h, rt) == Ok(pairs[a]) {
      PairStepIs(h, rt, extracted[a], a);
    }
  }

  // ------------------------------------------------------------ re-import

  /** Generated ids affect only the conversation id: the import succeeds or
      raises alike, and names the same message and memory ids. */
  lemma EntryIdsIgnoreGeneratedIds(conv: Value, i: nat, rt: Runtime, u1: nat -> string, u2: nat -> string)
    ensures ConversationWrites(conv, i, rt, u1).Ok? <==> ConversationWrites(conv, i, rt, u2).Ok?
    ensures ConversationWrites(conv, i, rt, u1).Ok? ==>
              var ws1, ws2 := ConversationWrites(conv, i, rt, u1).value, ConversationWrites(conv, i, rt, u2).value;
              && MessageIds(ws1) == MessageIds(ws2)
              && MemoryIds(ws1) == MemoryIds(ws2)
              && ConversationIds(ws2) == (if Truthy(Get(conv, "mapping", Null).value) then {u2(i)} else {})
  {
    hide ClaudeNode, NodeStep, PairStep;
    var hr1, hr2 := ConversationHeader(conv, i, rt, u1), ConversationHeader(conv, i, rt, u2);
    if hr1.Ok? && hr1.value.Some? {
      var h1, h2 := hr1.value.value, hr2.value.value;
      assert h2 == h1.(convId := u2(i));
      assert ExtractedFrom(h1, rt) == ExtractedFrom(h2, rt);
      if ExtractedFrom(h1, rt).Ok? {
        var ex := ExtractedFrom(h1, rt).value;
        PairsIgnoreConversation(ex, |ex|, h1, h2, rt);
        if ConversationWrites(conv, i, rt, u1).Ok? {
          EntryIds(conv, i, rt, u1, h1);
          EntryIds(conv, i, rt, u2, h2);
        }
      }
    } else if hr1.Ok? {
      assert hr2 == Ok(None);
    }
  }

  /** The ids the writes of one imported entry name: the generated
      conversation id, and the message and memory ids of its pairs. */
  lemma EntryIds(conv: Value, i: nat, rt: Runtime, uuids: nat -> string, h: Header)
    requires ConversationHeader(conv, i, rt, uuids) == Ok(Some(h))
    requires ConversationWrites(conv, i, rt, uuids).Ok?
    ensures PairsFrom(h, rt).Ok?
    ensures var ws, ps := ConversationWrites(conv, i, rt, uuids).value, PairsFrom(h, rt).value;
      && ConversationIds(ws) == {uuids(i)}
      && MessageIds(ws) == PairMessageIds(ps)
      && MemoryIds(ws) == PairMemoryIds(ps)
  {
    hide ClaudeNode, NodeStep, PairStep, ExtractedFrom;
    var ps := PairsFrom(h, rt).value;
    var head := [PutConversation(Text(h.convId), h.row)];
    assert ConversationWrites(conv, i, rt, uuids).value == head + Flatten(ps);
    hide PairsFrom, ConversationWrites, ConversationHeader;
    IdsConcat(head, Flatten(ps));
    FlattenIds(ps);
    IdsSingle(head[0]);
  }


  /** Writing the same extracted messages into two different conversations
      raises alike and names the same ids. */
  lemma {:induction false} PairsIgnoreConversation(ex: seq<Extracted>, n: nat, h1: Header, h2: Header, rt: Runtime)
    requires n <= |ex|
    ensures Collect(ex, n, PairStep(h1, rt)).Ok? <==> Collect(ex, n, PairStep(h2, rt)).Ok?
    ensures Collect(ex, n, PairStep(h1, rt)).Ok? ==>
              PairMessageIds(Collect(ex, n, PairStep(h1, rt)).value) == PairMessageIds(Collect(ex, n, PairStep(h2, rt)).value)
              && PairMemoryIds(Collect(ex, n, PairStep(h1, rt)).value) == PairMemoryIds(Collect(ex, n, PairStep(h2, rt)).value)
  {
    hide PairOf, PairStep;
    if n > 0 {
      PairsIgnoreConversation(ex, n - 1, h1, h2, rt);
      PairOfIgnoresConversation(ex[n - 1], h1, h2, rt);
      PairStepIs(h1, rt, ex[n - 1], n - 1);
      PairStepIs(h2, rt, ex[n - 1], n - 1);
      if Collect(ex, n - 1, PairStep(h1, rt)).Ok? {
        CollectNext(ex, n - 1, PairStep(h1, rt));
        CollectNext(ex, n - 1, PairStep(h2, rt));
      }
      if Collect(ex, n, PairStep(h1, rt)).Ok? {
        var b1, b2 := Collect(ex, n - 1, PairStep(h1, rt)).value, Collect(ex, n - 1, PairStep(h2, rt)).value;
        var q1, q2 := PairOf(ex[n - 1], h1, rt).value, PairOf(ex[n - 1], h2, rt).value;
        PairIdsAppend(b1, q1);
        PairIdsAppend(b2, q2);
      }
    }
  }

  lemma PairOfIgnoresConversation(m: Extracted, h1: Header, h2: Header, rt: Runtime)
    ensures PairOf(m, h1, rt).Ok? <==> PairOf(m, h2, rt).Ok?
    ensures PairOf(m, h1, rt).Ok? ==>
              PairOf(m, h1, rt).value.msgId == PairOf(m, h2, rt).value.msgId
              && PairOf(m, h1, rt).value.memId == PairOf(m, h2, rt).value.memId
  {
  }

  lemma PairIdsAppend(ps: seq<Pair>, p: Pair)
    ensures PairMessageIds(ps + [p]) == PairMessageIds(ps) + (if p.msgId.Text? then {p.msgId.text} else {})
    ensures PairMemoryIds(ps + [p]) == PairMemoryIds(ps) + {p.memId}
  {
    var qs := ps + [p];
    forall x | x in PairMessageIds(qs) ensures x in PairMessageIds(ps) || (p.msgId.Text? && x == p.msgId.text) {
      var a :| 0 <= a < |qs| && qs[a].msgId.Text? && qs[a].msgId.text == x;
      if a < |ps| { assert qs[a] == ps[a]; }
    }
    forall x | x in PairMessageIds(ps) ensures x in PairMessageIds(qs) {
      var a :| 0 <= a < |ps| && ps[a].msgId.Text? && ps[a].msgId.text == x;
      assert qs[a] == ps[a];
    }
    if p.msgId.Text? { assert qs[|ps|] == p; }
    forall x | x in PairMemoryIds(qs) ensures x in PairMemoryIds(ps) || x == p.memId {
      var a :| 0 <= a < |qs| && qs[a].memId == x;
      if a < |ps| { assert qs[a] == ps[a]; }
    }
    forall x | x in PairMemoryIds(ps) ensures x in PairMemoryIds(qs) {
      var a :| 0 <= a < |ps| && ps[a].memId == x;
      assert qs[a] == ps[a];
    }
    assert qs[|ps|] == p;
  }

  /** The generated ids of the entries that have a mapping. */
  ghost function GeneratedIds(convs: seq<Value>, n: nat, uuids: nat -> string): set<string>
    requires n <= |convs|
  {
    set i | 0 <= i < n && Get(convs[i], "mapping", Null).Ok? && Truthy(Get(convs[i], "mapping", Null).value) :: uuids(i)
  }

  /** Over a whole export, generated ids change only which conversation ids
      are written. */
  lemma {:induction false} FileIdsIgnoreGeneratedIds(convs: seq<Value>, n: nat, rt: Runtime, u1: nat -> string, u2: nat -> string)
    requires n <= |convs|
    ensures Collect(convs, n, ConversationStep(rt, u1)).Ok? <==> Collect(convs, n, ConversationStep(rt, u2)).Ok?
    ensures Collect(convs, n, ConversationStep(rt, u1)).Ok? ==>
              var ws1, ws2 := Collect(convs, n, ConversationStep(rt, u1)).value, Collect(convs, n, ConversationStep(rt, u2)).value;
              && MessageIds(ws1) == MessageIds(ws2)
              && MemoryIds(ws1) == MemoryIds(ws2)
              && ConversationIds(ws2) == GeneratedIds(convs, n, u2)
  {
    hide ConversationWrites;
    if n > 0 {
      FileIdsIgnoreGeneratedIds(convs, n - 1, rt, u1, u2);
      if Collect(convs, n - 1, ConversationStep(rt, u1)).Ok? {
        CollectNext(convs, n - 1, ConversationStep(rt, u1));
        CollectNext(convs, n - 1, ConversationStep(rt, u2));
      }
      EntryIdsIgnoreGeneratedIds(convs[n - 1], n - 1, rt, u1, u2);
      if Collect(convs, n, ConversationStep(rt, u1)).Ok? {
        var b1, b2 := Collect(convs, n - 1, ConversationStep(rt, u1)).value, Collect(convs, n - 1, ConversationStep(rt, u2)).value;
        var e1, e2 := ConversationWrites(convs[n - 1], n - 1, rt, u1).value, ConversationWrites(convs[n - 1], n - 1, rt, u2).value;
        IdsConcat(b1, e1);
        IdsConcat(b2, e2);
        assert Get(convs[n - 1], "mapping", Null).Ok? by {
          ConversationWritesNeedDict(convs[n - 1], n - 1, rt, u1);
        }
        assert GeneratedIds(convs, n, u2) == GeneratedIds(convs, n - 1, u2)
          + (if Truthy(Get(convs[n - 1], "mapping", Null).value) then {u2(n - 1)} else {});
      }
    }
  }

  lemma ConversationWritesNeedDict(conv: Value, i: nat, rt: Runtime, uuids: nat -> string)
    requires ConversationWrites(conv, i, rt, uuids).Ok?
    ensures conv.Dict?
  {
    hide ClaudeNode, NodeStep, PairStep, PairOf;
  }

  /** The message rows an entry writes name its generated conversation id. */
  lemma EntryMessagesName(conv: Value, i: nat, rt: Runtime, uuids: nat -> string)
    requires ConversationWrites(conv, i, rt, uuids).Ok?
    ensures Get(conv, "mapping", Null).Ok?
    ensures MessagesName(ConversationWrites(conv, i, rt, uuids).value,
                         if Truthy(Get(conv, "mapping", Null).value) then {uuids(i)} else {})
  {
    hide ClaudeNode, NodeStep, PairStep, PairsFrom;
    var header := ConversationHeader(conv, i, rt, uuids).value;
    if header.Some? {
      var h := header.value;
      PairsName(conv, i, rt, uuids, h);
      var head := [PutConversation(Text(uuids(i)), h.row)];
      MessagesNameConcat(head, Flatten(PairsFrom(h, rt).value), {}, {uuids(i)});
    }
  }

  /** Every pair of an entry belongs to the entry's conversation. */
  lemma PairsName(conv: Value, i: nat, rt: Runtime, uuids: nat -> string, h: Header)
    requires ConversationHeader(conv, i, rt, uuids) == Ok(Some(h))
    requires ConversationWrites(conv, i, rt, uuids).Ok?
    ensures h.convId == uuids(i)
    ensures PairsFrom(h, rt).Ok?
    ensures MessagesName(Flatten(PairsFrom(h, rt).value), {uuids(i)})
  {
    hide ClaudeNode, NodeStep, PairStep, ConversationWrites;
    OnePairPerMessage(conv, i, rt, uuids, h);
    var ex, ps := ExtractedFrom(h, rt).value, PairsFrom(h, rt).value;
    forall a | 0 <= a < |ps| ensures ps[a].message.conversationId == Text(h.convId) {
      assert PairOf(ex[a], h, rt) == Ok(ps[a]);
    }
    FlattenMessagesName(ps, h.convId);
  }

  /** The message rows of a whole export name generated conversation ids. */
  lemma {:induction false} FileMessagesName(convs: seq<Value>, n: nat, rt: Runtime, uuids: nat -> string)
    requires n <= |convs|
    requires Collect(convs, n, ConversationStep(rt, uuids)).Ok?
    ensures MessagesName(Collect(convs, n, ConversationStep(rt, uuids)).value, GeneratedIds(convs, n, uuids))
  {
    hide ConversationWrites;
    if n > 0 {
      FileMessagesName(convs, n - 1, rt, uuids);
      CollectNext(convs, n - 1, ConversationStep(rt, uuids));
      EntryMessagesName(convs[n - 1], n - 1, rt, uuids);
      var before := Collect(convs, n - 1, ConversationStep(rt, uuids)).value;
      var these := ConversationWrites(convs[n - 1], n - 1, rt, uuids).value;
      var mine := if Truthy(Get(convs[n - 1], "mapping", Null).value) then {uuids(n - 1)} else {};
      MessagesNameConcat(before, these, GeneratedIds(convs, n - 1, uuids), mine);
      assert GeneratedIds(convs, n, uuids) == GeneratedIds(convs, n - 1, uuids) + mine;
    }
  }

  /** Importing the same Claude export again adds a conversation row under
      each newly generated id, while the set of message ids and the set of
      memory ids stay as the first import left them: those rows are
      overwritten, since their ids are the export's own, and each message
      row the export writes now names a conversation of the second import. */
  lemma ReimportAddsConversations(data: Value, rt: Runtime, u1: nat -> string, u2: nat -> string, t: Tables)
    requires FileWrites(data, rt, u1).Ok?
    ensures FileWrites(data, rt, u2).Ok?
    ensures var t1 := Apply(t, FileWrites(data, rt, u1).value);
      var t2 := Apply(t1, FileWrites(data, rt, u2).value);
      && t2.messages.Keys == t1.messages.Keys
      && t2.memories.Keys == t1.memories.Keys
      && t2.conversations.Keys == t1.conversations.Keys + GeneratedIds(Iterate(data).value, |Iterate(data).value|, u2)
      && forall mid :: mid in MessageIds(FileWrites(data, rt, u1).value) ==>
           && mid in t2.messages
           && t2.messages[mid].conversationId.Text?
           && t2.messages[mid].conversationId.text in GeneratedIds(Iterate(data).value, |Iterate(data).value|, u2)
  {
    hide ConversationWrites, Apply;
    var convs := Iterate(data).value;
    FileIdsIgnoreGeneratedIds(convs, |convs|, rt, u1, u2);
    var ws1, ws2 := FileWrites(data, rt, u1).value, FileWrites(data, rt, u2).value;
    BatchFrame(t, ws1);
    BatchFrame(Apply(t, ws1), ws2);
    assert MessageIds(ws1) == MessageIds(ws2);
    ReimportedMessagesName(data, rt, u2, Apply(t, ws1));
  }

  /** Over any tables, the message rows under the ids an import writes name
      the conversation ids generated by that import. */
  lemma ReimportedMessagesName(data: Value, rt: Runtime, uuids: nat -> string, t: Tables)
    requires FileWrites(data, rt, uuids).Ok?
    ensures var ws, convs := FileWrites(data, rt, uuids).value, Iterate(data).value;
      forall mid :: mid in MessageIds(ws) ==>
        && mid in Apply(t, ws).messages
        && Apply(t, ws).messages[mid].conversationId.Text?
        && Apply(t, ws).messages[mid].conversationId.text in GeneratedIds(convs, |convs|, uuids)
  {
    hide ConversationWrites, Apply;
    var convs := Iterate(data).value;
    FileMessagesName(convs, |convs|, rt, uuids);
    WrittenMessagesName(t, FileWrites(data, rt, uuids).value, GeneratedIds(convs, |convs|, uuids));
  }
}
