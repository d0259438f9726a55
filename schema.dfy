/** The three tables of the memory database (`create_database`) and the
    `INSERT OR REPLACE` writes the importers issue against them. */
module Schema {
  import opened Python

  /** A value in a TEXT column: SQL NULL or text. */
  datatype Cell = NullCell | Text(text: string)

  /** The integers sqlite3 can bind: SQLite INTEGER is signed 64-bit. */
  predicate InInt64(i: int)
  {
    -0x8000_0000_0000_0000 <= i < 0x8000_0000_0000_0000
  }

  /** The values a TEXT column parameter accepts. */
  predicate Bindable(v: Value)
  {
    match v
    case Null => true
    case Bool(_) => true
    case Int(i) => InInt64(i)
    case Str(_) => true
    case _ => false
  }

  /** What a bound Python value becomes in a TEXT column: None is NULL, a bool
      is stored as the integer 1 or 0 and an integer as its decimal text
      (TEXT affinity). A list or dict cannot be bound, and an integer outside
      the signed 64-bit range raises OverflowError. */
  function BindText(v: Value): (r: Result<Cell>)
    ensures r.Ok? <==> Bindable(v)
    ensures r == Ok(NullCell) <==> v.Null?
    ensures v.Str? ==> r == Ok(Text(v.s))
  {
    match v
    case Null => Ok(NullCell)
    case Bool(b) => Ok(Text(if b then "1" else "0"))
    case Int(i) => if InInt64(i) then Ok(Text(IntToString(i))) else Raised
    case Str(s) => Ok(Text(s))
    case _ => Raised
  }

  /** A row of `conversations`, without its `id`. */
  datatype Conversation = Conversation(
    title: Cell, source: string, createdAt: string, updatedAt: string, metadata: Value)

  /** A row of `messages`, without its `id`. */
  datatype Message = Message(
    conversationId: Cell, role: Cell, content: string, createdAt: string, metadata: Value)

  /** A row of `memories`, without its `id`; `metadata` is the decoded JSON
      text, or None for SQL NULL. */
  datatype Memory = Memory(
    content: string, source: string, createdAt: string, metadata: Option<Value>)

  /** The three tables. A TEXT PRIMARY KEY admits NULL in SQLite and NULL is
      never equal to another key, so rows whose id is NULL are kept apart:
      they are only ever appended. Memory ids are always text. */
  datatype Tables = Tables(
    conversations: map<string, Conversation>,
    unkeyedConversations: seq<Conversation>,
    messages: map<string, Message>,
    unkeyedMessages: seq<Message>,
    memories: map<string, Memory>)

  function EmptyTables(): Tables
  {
    Tables(map[], [], map[], [], map[])
  }

  /** The rows of `conversations` or of `messages`: keyed, and NULL-keyed. */
  datatype Table<R> = Table(keyed: map<string, R>, unkeyed: seq<R>)

  /** A database file as `sqlite3.connect` opens it. Each of the three tables
      may already exist, with its rows, or be missing; a new file has none. */
  datatype StoredFile = StoredFile(
    conversations: Option<Table<Conversation>>,
    messages: Option<Table<Message>>,
    memories: Option<map<string, Memory>>)

  /** A file that does not exist yet. */
  function NewFile(): StoredFile
  {
    StoredFile(None, None, None)
  }

  /** The file holding the three tables `t`, as a closed connection leaves it. */
  function Stored(t: Tables): StoredFile
  {
    StoredFile(Some(Table(t.conversations, t.unkeyedConversations)),
               Some(Table(t.messages, t.unkeyedMessages)),
               Some(t.memories))
  }

  /** `CREATE TABLE IF NOT EXISTS memories (...)` */
  function CreateMemories(f: StoredFile): StoredFile
  {
    if f.memories.Some? then f else f.(memories := Some(map[]))
  }

  /** `CREATE TABLE IF NOT EXISTS conversations (...)` */
  function CreateConversations(f: StoredFile): StoredFile
  {
    if f.conversations.Some? then f else f.(conversations := Some(Table(map[], [])))
  }

  /** `CREATE TABLE IF NOT EXISTS messages (...)` */
  function CreateMessages(f: StoredFile): StoredFile
  {
    if f.messages.Some? then f else f.(messages := Some(Table(map[], [])))
  }

  /** `create_database`: the three statements in order. Every table the file
      already holds keeps all its rows; every missing one starts empty. */
  function CreateTablesIfNotExists(file: StoredFile): (t: Tables)
    ensures file.conversations.Some? ==>
              t.conversations == file.conversations.value.keyed
              && t.unkeyedConversations == file.conversations.value.unkeyed
    ensures file.conversations.None? ==> t.conversations == map[] && t.unkeyedConversations == []
    ensures file.messages.Some? ==>
              t.messages == file.messages.value.keyed && t.unkeyedMessages == file.messages.value.unkeyed
    ensures file.messages.None? ==> t.messages == map[] && t.unkeyedMessages == []
    ensures file.memories.Some? ==> t.memories == file.memories.value
    ensures file.memories.None? ==> t.memories == map[]
  {
    var f := CreateMessages(CreateConversations(CreateMemories(file)));
    Tables(f.conversations.value.keyed, f.conversations.value.unkeyed,
           f.messages.value.keyed, f.messages.value.unkeyed, f.memories.value)
  }

  /** A new file gets three empty tables. */
  lemma NewFileEmpty()
    ensures CreateTablesIfNotExists(NewFile()) == EmptyTables()
  {
  }

  /** Opening a file that holds all three tables changes nothing. */
  lemma ExistingTablesKept(t: Tables)
    ensures CreateTablesIfNotExists(Stored(t)) == t
  {
  }

  /** Running the schema setup on its own result changes nothing. */
  lemma CreateTablesIdempotent(file: StoredFile)
    ensures CreateTablesIfNotExists(Stored(CreateTablesIfNotExists(file))) == CreateTablesIfNotExists(file)
  {
    ExistingTablesKept(CreateTablesIfNotExists(file));
  }

  /** The three statements touch different tables, so their order does not
      matter. */
  lemma CreateStatementsCommute(file: StoredFile)
    ensures CreateMessages(CreateConversations(CreateMemories(file)))
         == CreateMemories(CreateConversations(CreateMessages(file)))
    ensures CreateMessages(CreateConversations(CreateMemories(file)))
         == CreateConversations(CreateMemories(CreateMessages(file)))
  {
  }

  /** One `INSERT OR REPLACE` statement. */
  datatype Write =
    | PutConversation(convId: Cell, conversation: Conversation)
    | PutMessage(msgId: Cell, message: Message)
    | PutMemory(memId: string, memory: Memory)

  function ApplyWrite(t: Tables, w: Write): Tables
  {
    match w
    case PutConversation(NullCell, row) =>
      t.(unkeyedConversations := t.unkeyedConversations + [row])
    case PutConversation(Text(k), row) =>
      t.(conversations := t.conversations[k := row])
    case PutMessage(NullCell, row) =>
      t.(unkeyedMessages := t.unkeyedMessages + [row])
    case PutMessage(Text(k), row) =>
      t.(messages := t.messages[k := row])
    case PutMemory(k, row) =>
      t.(memories := t.memories[k := row])
  }

  /** The statements executed in order. */
  function Apply(t: Tables, ws: seq<Write>): Tables
  {
    if ws == [] then t else ApplyWrite(Apply(t, ws[..|ws| - 1]), ws[|ws| - 1])
  }

  lemma ApplyAppend(t: Tables, ws: seq<Write>, w: Write)
    ensures Apply(t, ws + [w]) == ApplyWrite(Apply(t, ws), w)
  {
    assert (ws + [w])[..|ws|] == ws;
  }

  lemma {:induction false} ApplyConcat(t: Tables, a: seq<Write>, b: seq<Write>)
    ensures Apply(t, a + b) == Apply(Apply(t, a), b)
    decreases |b|
  {
    if b == [] {
      assert a + b == a;
    } else {
      var init := b[..|b| - 1];
      assert a + b == (a + init) + [b[|b| - 1]];
      ApplyAppend(t, a + init, b[|b| - 1]);
      ApplyConcat(t, a, init);
      ApplyAppend(Apply(t, a), init, b[|b| - 1]);
    }
  }

  // ----------------------------------------------- upsert semantics

  /** Rows of `d` layered over `t`: keyed rows of `d` replace those of `t`
      with the same id, NULL-keyed rows are appended. */
  function Overlay(t: Tables, d: Tables): Tables
  {
    Tables(t.conversations + d.conversations,
           t.unkeyedConversations + d.unkeyedConversations,
           t.messages + d.messages,
           t.unkeyedMessages + d.unkeyedMessages,
           t.memories + d.memories)
  }

  /** What a batch of writes does to any database: it overlays the rows the
      batch would write into empty tables. Each write replaces the row with
      the same id and leaves every other row as it was. */
  lemma {:induction false} ApplyIsOverlay(t: Tables, ws: seq<Write>)
    ensures Apply(t, ws) == Overlay(t, Apply(EmptyTables(), ws))
    decreases |ws|
  {
    if ws == [] {
      assert Overlay(t, EmptyTables()) == t;
    } else {
      var init, w := ws[..|ws| - 1], ws[|ws| - 1];
      ApplyIsOverlay(t, init);
      OverlayWrite(t, Apply(EmptyTables(), init), w);
    }
  }

  /** One write on top of an overlay lands in the overlaid tables. */
  lemma OverlayWrite(t: Tables, d: Tables, w: Write)
    ensures ApplyWrite(Overlay(t, d), w) == Overlay(t, ApplyWrite(d, w))
  {
    match w
    case PutConversation(NullCell, row) =>
      assert (t.unkeyedConversations + d.unkeyedConversations) + [row]
          == t.unkeyedConversations + (d.unkeyedConversations + [row]);
    case PutConversation(Text(k), row) =>
      assert (t.conversations + d.conversations)[k := row]
          == t.conversations + d.conversations[k := row];
    case PutMessage(NullCell, row) =>
      assert (t.unkeyedMessages + d.unkeyedMessages) + [row]
          == t.unkeyedMessages + (d.unkeyedMessages + [row]);
    case PutMessage(Text(k), row) =>
      assert (t.messages + d.messages)[k := row] == t.messages + d.messages[k := row];
    case PutMemory(k, row) =>
      assert (t.memories + d.memories)[k := row] == t.memories + d.memories[k := row];
  }


  predicate Keyed(w: Write)
  {
    match w
    case PutConversation(id, _) => id.Text?
    case PutMessage(id, _) => id.Text?
    case PutMemory(_, _) => true
  }

  /** Every id a keyed write touches, per table. */
  function ConversationIds(ws: seq<Write>): set<string>
  {
    set k | 0 <= k < |ws| && ws[k].PutConversation? && ws[k].convId.Text? :: ws[k].convId.text
  }

  function MessageIds(ws: seq<Write>): set<string>
  {
    set k | 0 <= k < |ws| && ws[k].PutMessage? && ws[k].msgId.Text? :: ws[k].msgId.text
  }

  function MemoryIds(ws: seq<Write>): set<string>
  {
    set k | 0 <= k < |ws| && ws[k].PutMemory? :: ws[k].memId
  }

  /** Every message row the batch writes names one of `ids` as its
      conversation. */
  predicate MessagesName(ws: seq<Write>, ids: set<string>)
  {
    forall k :: 0 <= k < |ws| && ws[k].PutMessage? ==>
      ws[k].message.conversationId.Text? && ws[k].message.conversationId.text in ids
  }

  lemma MessagesNameConcat(a: seq<Write>, b: seq<Write>, ia: set<string>, ib: set<string>)
    requires MessagesName(a, ia) && MessagesName(b, ib)
    ensures MessagesName(a + b, ia + ib)
  {
    var ab := a + b;
    forall k | 0 <= k < |ab| && ab[k].PutMessage?
      ensures ab[k].message.conversationId.Text? && ab[k].message.conversationId.text in ia + ib
    {
      if k < |a| { assert ab[k] == a[k]; } else { assert ab[k] == b[k - |a|]; }
    }
  }

  /** Kept messages that all belong to conversation `c` write message rows
      naming `c`. */
  lemma {:induction false} FlattenMessagesName(ps: seq<Pair>, c: string)
    requires forall a :: 0 <= a < |ps| ==> ps[a].message.conversationId == Text(c)
    ensures MessagesName(Flatten(ps), {c})
    decreases |ps|
  {
    if ps != [] {
      var init, p := ps[..|ps| - 1], ps[|ps| - 1];
      FlattenMessagesName(init, c);
      MessagesNameConcat(Flatten(init), PairWrites(p), {c}, {c});
      assert {c} + {c} == {c};
    }
  }

  /** After a batch, the row under each message id it writes is the last
      message row it wrote there: so when all those rows name one of `ids`,
      so does every stored row under those ids. */
  lemma {:induction false} WrittenMessagesName(t: Tables, ws: seq<Write>, ids: set<string>)
    requires MessagesName(ws, ids)
    ensures forall mid :: mid in MessageIds(ws) ==>
              && mid in Apply(t, ws).messages
              && Apply(t, ws).messages[mid].conversationId.Text?
              && Apply(t, ws).messages[mid].conversationId.text in ids
    decreases |ws|
  {
    if ws != [] {
      var init, w := ws[..|ws| - 1], ws[|ws| - 1];
      assert MessagesName(init, ids) by {
        forall k | 0 <= k < |init| && init[k].PutMessage?
          ensures init[k].message.conversationId.Text? && init[k].message.conversationId.text in ids
        {
          assert init[k] == ws[k];
        }
      }
      WrittenMessagesName(t, init, ids);
      forall mid | mid in MessageIds(ws) && !(w.PutMessage? && w.msgId == Text(mid))
        ensures mid in MessageIds(init)
      {
        var k :| 0 <= k < |ws| && ws[k].PutMessage? && ws[k].msgId.Text? && ws[k].msgId.text == mid;
        assert init[k] == ws[k];
      }
    }
  }

  /** The rows a batch writes into empty tables sit exactly under the ids it
      names, and it appends one NULL-keyed row per write whose id is NULL. */
  lemma BatchFootprint(ws: seq<Write>)
    ensures Apply(EmptyTables(), ws).conversations.Keys == ConversationIds(ws)
    ensures Apply(EmptyTables(), ws).messages.Keys == MessageIds(ws)
    ensures Apply(EmptyTables(), ws).memories.Keys == MemoryIds(ws)
    ensures (forall k :: 0 <= k < |ws| ==> Keyed(ws[k])) ==>
              Apply(EmptyTables(), ws).unkeyedConversations == []
              && Apply(EmptyTables(), ws).unkeyedMessages == []
  {
    ConversationKeys(ws);
    MessageKeys(ws);
    MemoryKeys(ws);
    if forall k :: 0 <= k < |ws| ==> Keyed(ws[k]) {
      NoUnkeyedRows(ws);
    }
  }

  lemma {:induction false} ConversationKeys(ws: seq<Write>)
    ensures Apply(EmptyTables(), ws).conversations.Keys == ConversationIds(ws)
    decreases |ws|
  {
    if ws != [] {
      var init, w := ws[..|ws| - 1], ws[|ws| - 1];
      ConversationKeys(init);
      assert ws == init + [w];
      IdsConcat(init, [w]);
      IdsSingle(w);
    }
  }

  lemma {:induction false} MessageKeys(ws: seq<Write>)
    ensures Apply(EmptyTables(), ws).messages.Keys == MessageIds(ws)
    decreases |ws|
  {
    if ws != [] {
      var init, w := ws[..|ws| - 1], ws[|ws| - 1];
      MessageKeys(init);
      assert ws == init + [w];
      IdsConcat(init, [w]);
      IdsSingle(w);
    }
  }

  lemma {:induction false} MemoryKeys(ws: seq<Write>)
    ensures Apply(EmptyTables(), ws).memories.Keys == MemoryIds(ws)
    decreases |ws|
  {
    if ws != [] {
      var init, w := ws[..|ws| - 1], ws[|ws| - 1];
      MemoryKeys(init);
      assert ws == init + [w];
      IdsConcat(init, [w]);
      IdsSingle(w);
    }
  }

  lemma {:induction false} NoUnkeyedRows(ws: seq<Write>)
    requires forall k :: 0 <= k < |ws| ==> Keyed(ws[k])
    ensures Apply(EmptyTables(), ws).unkeyedConversations == []
    ensures Apply(EmptyTables(), ws).unkeyedMessages == []
    decreases |ws|
  {
    if ws != [] {
      var init := ws[..|ws| - 1];
      assert forall k :: 0 <= k < |init| ==> init[k] == ws[k];
      NoUnkeyedRows(init);
      assert Keyed(ws[|ws| - 1]);
    }
  }

  lemma IdsSingle(w: Write)
    ensures ConversationIds([w]) == (if w.PutConversation? && w.convId.Text? then {w.convId.text} else {})
    ensures MessageIds([w]) == (if w.PutMessage? && w.msgId.Text? then {w.msgId.text} else {})
    ensures MemoryIds([w]) == (if w.PutMemory? then {w.memId} else {})
  {
    var ws := [w];
    if w.PutConversation? && w.convId.Text? { assert ws[0].convId.text in ConversationIds(ws); }
    if w.PutMessage? && w.msgId.Text? { assert ws[0].msgId.text in MessageIds(ws); }
    if w.PutMemory? { assert ws[0].memId in MemoryIds(ws); }
  }

  /** Rows whose id no write of the batch names are left unchanged. */
  lemma BatchFrame(t: Tables, ws: seq<Write>)
    ensures forall id :: id in t.conversations && id !in ConversationIds(ws) ==>
              id in Apply(t, ws).conversations && Apply(t, ws).conversations[id] == t.conversations[id]
    ensures forall id :: id in t.messages && id !in MessageIds(ws) ==>
              id in Apply(t, ws).messages && Apply(t, ws).messages[id] == t.messages[id]
    ensures forall id :: id in t.memories && id !in MemoryIds(ws) ==>
              id in Apply(t, ws).memories && Apply(t, ws).memories[id] == t.memories[id]
    ensures Apply(t, ws).conversations.Keys == t.conversations.Keys + ConversationIds(ws)
    ensures Apply(t, ws).messages.Keys == t.messages.Keys + MessageIds(ws)
    ensures Apply(t, ws).memories.Keys == t.memories.Keys + MemoryIds(ws)
  {
    ApplyIsOverlay(t, ws);
    BatchFootprint(ws);
  }

  /** A batch whose every id is text is idempotent: running it a second
      time leaves the tables as the first run left them. */
  lemma BatchIdempotent(t: Tables, ws: seq<Write>)
    requires forall k :: 0 <= k < |ws| ==> Keyed(ws[k])
    ensures Apply(Apply(t, ws), ws) == Apply(t, ws)
  {
    var d := Apply(EmptyTables(), ws);
    ApplyIsOverlay(t, ws);
    ApplyIsOverlay(Apply(t, ws), ws);
    BatchFootprint(ws);
    assert (t.conversations + d.conversations) + d.conversations == t.conversations + d.conversations;
    assert (t.messages + d.messages) + d.messages == t.messages + d.messages;
    assert (t.memories + d.memories) + d.memories == t.memories + d.memories;
  }

  /** A kept message: its `messages` row and the `memories` row derived from
      it, written one after the other. */
  datatype Pair = Pair(msgId: Cell, message: Message, memId: string, memory: Memory)

  function PairWrites(p: Pair): seq<Write>
  {
    [PutMessage(p.msgId, p.message), PutMemory(p.memId, p.memory)]
  }

  function Emit(kept: Option<Pair>): seq<Write>
  {
    match kept
    case Some(p) => PairWrites(p)
    case None => []
  }

  /** The writes for a sequence of kept messages, pair after pair. */
  function Flatten(ps: seq<Pair>): (ws: seq<Write>)
    ensures |ws| == 2 * |ps|
  {
    if ps == [] then [] else Flatten(ps[..|ps| - 1]) + PairWrites(ps[|ps| - 1])
  }

  lemma ApplyPair(t: Tables, p: Pair)
    ensures Apply(t, PairWrites(p))
         == ApplyWrite(ApplyWrite(t, PutMessage(p.msgId, p.message)), PutMemory(p.memId, p.memory))
  {
    var m, k := PutMessage(p.msgId, p.message), PutMemory(p.memId, p.memory);
    ApplyAppend(t, [], m);
    ApplyAppend(t, [m], k);
    assert [] + [m] == [m] && [m] + [k] == PairWrites(p);
  }

  lemma FlattenAppend(ps: seq<Pair>, p: Pair)
    ensures Flatten(ps + [p]) == Flatten(ps) + PairWrites(p)
  {
    assert (ps + [p])[..|ps|] == ps;
  }

  /** Flattened pairs hold exactly one message write and one memory write per
      pair, at positions 2a and 2a+1. */
  lemma {:induction false} FlattenAt(ps: seq<Pair>, a: nat)
    requires a < |ps|
    ensures Flatten(ps)[2 * a] == PutMessage(ps[a].msgId, ps[a].message)
    ensures Flatten(ps)[2 * a + 1] == PutMemory(ps[a].memId, ps[a].memory)
    decreases |ps|
  {
    var init := ps[..|ps| - 1];
    if a < |init| {
      FlattenAt(init, a);
      assert Flatten(ps)[2 * a] == Flatten(init)[2 * a];
      assert Flatten(ps)[2 * a + 1] == Flatten(init)[2 * a + 1];
    }
  }

  lemma IdsConcat(a: seq<Write>, b: seq<Write>)
    ensures ConversationIds(a + b) == ConversationIds(a) + ConversationIds(b)
    ensures MessageIds(a + b) == MessageIds(a) + MessageIds(b)
    ensures MemoryIds(a + b) == MemoryIds(a) + MemoryIds(b)
  {
    var ab := a + b;
    forall x | x in ConversationIds(ab) ensures x in ConversationIds(a) + ConversationIds(b) {
      var k :| 0 <= k < |ab| && ab[k].PutConversation? && ab[k].convId.Text? && ab[k].convId.text == x;
      if k < |a| { assert ab[k] == a[k]; } else { assert ab[k] == b[k - |a|]; }
    }
    forall x | x in ConversationIds(a) + ConversationIds(b) ensures x in ConversationIds(ab) {
      if x in ConversationIds(a) {
        var k :| 0 <= k < |a| && a[k].PutConversation? && a[k].convId.Text? && a[k].convId.text == x;
        assert ab[k] == a[k];
      } else {
        var k :| 0 <= k < |b| && b[k].PutConversation? && b[k].convId.Text? && b[k].convId.text == x;
        assert ab[|a| + k] == b[k];
      }
    }
    forall x | x in MessageIds(ab) ensures x in MessageIds(a) + MessageIds(b) {
      var k :| 0 <= k < |ab| && ab[k].PutMessage? && ab[k].msgId.Text? && ab[k].msgId.text == x;
      if k < |a| { assert ab[k] == a[k]; } else { assert ab[k] == b[k - |a|]; }
    }
    forall x | x in MessageIds(a) + MessageIds(b) ensures x in MessageIds(ab) {
      if x in MessageIds(a) {
        var k :| 0 <= k < |a| && a[k].PutMessage? && a[k].msgId.Text? && a[k].msgId.text == x;
        assert ab[k] == a[k];
      } else {
        var k :| 0 <= k < |b| && b[k].PutMessage? && b[k].msgId.Text? && b[k].msgId.text == x;
        assert ab[|a| + k] == b[k];
      }
    }
    forall x | x in MemoryIds(ab) ensures x in MemoryIds(a) + MemoryIds(b) {
      var k :| 0 <= k < |ab| && ab[k].PutMemory? && ab[k].memId == x;
      if k < |a| { assert ab[k] == a[k]; } else { assert ab[k] == b[k - |a|]; }
    }
    forall x | x in MemoryIds(a) + MemoryIds(b) ensures x in MemoryIds(ab) {
      if x in MemoryIds(a) {
        var k :| 0 <= k < |a| && a[k].PutMemory? && a[k].memId == x;
        assert ab[k] == a[k];
      } else {
        var k :| 0 <= k < |b| && b[k].PutMemory? && b[k].memId == x;
        assert ab[|a| + k] == b[k];
      }
    }
  }

  function PairMessageIds(ps: seq<Pair>): set<string>
  {
    set a | 0 <= a < |ps| && ps[a].msgId.Text? :: ps[a].msgId.text
  }

  function PairMemoryIds(ps: seq<Pair>): set<string>
  {
    set a | 0 <= a < |ps| :: ps[a].memId
  }

  /** The ids the writes of kept messages touch: no conversation, and the
      message and memory ids of the pairs. */
  lemma {:induction false} FlattenIds(ps: seq<Pair>)
    ensures ConversationIds(Flatten(ps)) == {}
    ensures MessageIds(Flatten(ps)) == PairMessageIds(ps)
    ensures MemoryIds(Flatten(ps)) == PairMemoryIds(ps)
    decreases |ps|
  {
    if ps != [] {
      var init, p := ps[..|ps| - 1], ps[|ps| - 1];
      FlattenIds(init);
      IdsConcat(Flatten(init), PairWrites(p));
      PairWriteIds(p);
      PairIdsSnoc(ps);
    }
  }

  lemma PairWriteIds(p: Pair)
    ensures ConversationIds(PairWrites(p)) == {}
    ensures MessageIds(PairWrites(p)) == (if p.msgId.Text? then {p.msgId.text} else {})
    ensures MemoryIds(PairWrites(p)) == {p.memId}
  {
    var pw := PairWrites(p);
    if p.msgId.Text? { assert pw[0].msgId.text in MessageIds(pw); }
    assert pw[1].memId in MemoryIds(pw);
  }

  lemma PairIdsSnoc(ps: seq<Pair>)
    requires ps != []
    ensures var init, p := ps[..|ps| - 1], ps[|ps| - 1];
      && PairMessageIds(ps) == PairMessageIds(init) + (if p.msgId.Text? then {p.msgId.text} else {})
      && PairMemoryIds(ps) == PairMemoryIds(init) + {p.memId}
  {
    var init, p := ps[..|ps| - 1], ps[|ps| - 1];
    forall x | x in PairMessageIds(ps)
      ensures x in PairMessageIds(init) || (p.msgId.Text? && x == p.msgId.text)
    {
      var a :| 0 <= a < |ps| && ps[a].msgId.Text? && ps[a].msgId.text == x;
      if a < |init| { assert init[a] == ps[a]; }
    }
    forall x | x in PairMessageIds(init) ensures x in PairMessageIds(ps) {
      var a :| 0 <= a < |init| && init[a].msgId.Text? && init[a].msgId.text == x;
      assert ps[a] == init[a];
    }
    forall x | x in PairMemoryIds(ps) ensures x in PairMemoryIds(init) || x == p.memId {
      var a :| 0 <= a < |ps| && ps[a].memId == x;
      if a < |init| { assert init[a] == ps[a]; }
    }
    forall x | x in PairMemoryIds(init) ensures x in PairMemoryIds(ps) {
      var a :| 0 <= a < |init| && init[a].memId == x;
      assert ps[a] == init[a];
    }
  }


  /** Every write of kept messages has a text id unless its message id is NULL. */
  lemma {:induction false} FlattenKeyed(ps: seq<Pair>)
    requires forall a :: 0 <= a < |ps| ==> ps[a].msgId.Text?
    ensures forall k :: 0 <= k < |Flatten(ps)| ==> Keyed(Flatten(ps)[k])
    decreases |ps|
  {
    if ps != [] {
      var init := ps[..|ps| - 1];
      FlattenKeyed(init);
      var ws := Flatten(ps);
      forall k | 0 <= k < |ws| ensures Keyed(ws[k]) {
        if k < |Flatten(init)| { assert ws[k] == Flatten(init)[k]; }
      }
    }
  }

  /** A write whose row carries the timestamp `c` as its `created_at`. */
  predicate Stamped(w: Write, c: string)
  {
    match w
    case PutConversation(_, row) => row.createdAt == c
    case PutMessage(_, row) => row.createdAt == c
    case PutMemory(_, row) => row.createdAt == c
  }

  /** Kept messages stamped with `c` write only rows stamped with `c`. */
  lemma {:induction false} FlattenStamped(ps: seq<Pair>, c: string)
    requires forall a :: 0 <= a < |ps| ==> ps[a].message.createdAt == c && ps[a].memory.createdAt == c
    ensures forall k :: 0 <= k < |Flatten(ps)| ==> Stamped(Flatten(ps)[k], c)
    decreases |ps|
  {
    if ps != [] {
      var init := ps[..|ps| - 1];
      FlattenStamped(init, c);
      var ws := Flatten(ps);
      forall k | 0 <= k < |ws| ensures Stamped(ws[k], c) {
        if k < |Flatten(init)| { assert ws[k] == Flatten(init)[k]; }
      }
    }
  }

  /** Kept messages write message and memory rows only. */
  lemma {:induction false} FlattenKinds(ps: seq<Pair>)
    ensures forall k :: 0 <= k < |Flatten(ps)| ==> Flatten(ps)[k].PutMessage? || Flatten(ps)[k].PutMemory?
    decreases |ps|
  {
    if ps != [] {
      var init := ps[..|ps| - 1];
      FlattenKinds(init);
      var ws := Flatten(ps);
      forall k | 0 <= k < |ws| ensures ws[k].PutMessage? || ws[k].PutMemory? {
        if k < |Flatten(init)| { assert ws[k] == Flatten(init)[k]; }
      }
    }
  }

  /** The metadata of a memory row: the conversation id and title and the
      message role, as `json.dumps` received them. */
  function MemoryMetadata(convId: Value, title: Value, role: Value): Value
  {
    Dict([("conversation_id", convId), ("conversation_title", title),
          ("role", role), ("type", Str("conversation_message"))])
  }

  /** The database a connection sees. Every write goes to the live tables;
      `committed` is what `conn.commit()` last made durable and what the file
      holds once the connection is closed. */
  class Database {
    var conversations: map<string, Conversation>
    var unkeyedConversations: seq<Conversation>
    var messages: map<string, Message>
    var unkeyedMessages: seq<Message>
    var memories: map<string, Memory>
    var committed: Tables

    function Live(): Tables
      reads this
    {
      Tables(conversations, unkeyedConversations, messages, unkeyedMessages, memories)
    }

    /** `create_database`: connect to the file, create the missing tables and commit. */
    constructor Create(file: StoredFile)
      ensures Live() == CreateTablesIfNotExists(file)
      ensures committed == Live()
    {
      var t := CreateTablesIfNotExists(file);
      conversations, unkeyedConversations := t.conversations, t.unkeyedConversations;
      messages, unkeyedMessages := t.messages, t.unkeyedMessages;
      memories := t.memories;
      committed := t;
    }

    /** INSERT OR REPLACE INTO conversations */
    method PutConversation(id: Cell, row: Conversation)
      modifies this
      ensures Live() == ApplyWrite(old(Live()), Write.PutConversation(id, row))
      ensures committed == old(committed)
    {
      match id
      case NullCell => unkeyedConversations := unkeyedConversations + [row];
      case Text(k) => conversations := conversations[k := row];
    }

    /** INSERT OR REPLACE INTO messages */
    method PutMessage(id: Cell, row: Message)
      modifies this
      ensures Live() == ApplyWrite(old(Live()), Write.PutMessage(id, row))
      ensures committed == old(committed)
    {
      match id
      case NullCell => unkeyedMessages := unkeyedMessages + [row];
      case Text(k) => messages := messages[k := row];
    }

    /** INSERT OR REPLACE INTO memories */
    method PutMemory(id: string, row: Memory)
      modifies this
      ensures Live() == ApplyWrite(old(Live()), Write.PutMemory(id, row))
      ensures committed == old(committed)
    {
      memories := memories[id := row];
    }

    /** A kept message: its `messages` row, then its `memories` row. */
    method PutPair(p: Pair)
      modifies this
      ensures Live() == Apply(old(Live()), PairWrites(p))
      ensures committed == old(committed)
    {
      PutMessage(p.msgId, p.message);
      PutMemory(p.memId, p.memory);
      ApplyPair(old(Live()), p);
    }

    /** `conn.commit()` */
    method Commit()
      modifies this`committed
      ensures committed == Live()
    {
      committed := Live();
    }
  }
}
