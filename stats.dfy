/** `get_conversation_stats`: per-source counts of conversations, messages
    and memories, and the most recent conversations. */
module Stats {
  import opened Python
  import opened Schema
  import opened Ranking
  import Query

  /** The sources that have at least one conversation row. */
  function Sources(t: Tables): set<string>
  {
    (set id | id in t.conversations :: t.conversations[id].source)
      + (set c | c in t.unkeyedConversations :: c.source)
  }

  function CountSource(cs: seq<Conversation>, src: string): nat
  {
    if cs == [] then 0 else (if cs[0].source == src then 1 else 0) + CountSource(cs[1..], src)
  }

  /** `SELECT source, COUNT(*) FROM conversations GROUP BY source` */
  function ConversationsBySource(t: Tables): map<string, nat>
  {
    map src | src in Sources(t) ::
      |set id | id in t.conversations && t.conversations[id].source == src|
        + CountSource(t.unkeyedConversations, src)
  }

  lemma {:induction false} CountSourcePositive(cs: seq<Conversation>, k: nat)
    requires k < |cs|
    ensures CountSource(cs, cs[k].source) >= 1
  {
    if k > 0 {
      CountSourcePositive(cs[1..], k - 1);
    }
  }

  /** A source has a group exactly when some conversation row carries it,
      and every group counts at least that row. */
  lemma ConversationGroups(t: Tables)
    ensures forall src :: src in ConversationsBySource(t) <==>
              (exists id :: id in t.conversations && t.conversations[id].source == src)
              || (exists k :: 0 <= k < |t.unkeyedConversations| && t.unkeyedConversations[k].source == src)
    ensures forall src :: src in ConversationsBySource(t) ==> ConversationsBySource(t)[src] >= 1
  {
    var r := ConversationsBySource(t);
    forall src | src in r ensures r[src] >= 1 {
      if exists id :: id in t.conversations && t.conversations[id].source == src {
        var id :| id in t.conversations && t.conversations[id].source == src;
        SubMultisetSize(multiset{id}, multiset(set id | id in t.conversations && t.conversations[id].source == src));
      } else {
        var c :| c in t.unkeyedConversations && c.source == src;
        var k :| 0 <= k < |t.unkeyedConversations| && t.unkeyedConversations[k] == c;
        CountSourcePositive(t.unkeyedConversations, k);
      }
    }
    forall src ensures src in r <==>
              (exists id :: id in t.conversations && t.conversations[id].source == src)
              || (exists k :: 0 <= k < |t.unkeyedConversations| && t.unkeyedConversations[k].source == src)
    {
      if exists k :: 0 <= k < |t.unkeyedConversations| && t.unkeyedConversations[k].source == src {
        var k :| 0 <= k < |t.unkeyedConversations| && t.unkeyedConversations[k].source == src;
        assert t.unkeyedConversations[k] in t.unkeyedConversations;
      }
    }
  }

  /** The source of the conversation a message row belongs to, if its
      `conversation_id` names a stored conversation. */
  function OwnerSource(t: Tables, m: Message): Option<string>
  {
    if m.conversationId.Text? && m.conversationId.text in t.conversations
    then Some(t.conversations[m.conversationId.text].source)
    else None
  }

  /** Rows of `conversations c LEFT JOIN messages m ON c.id = m.conversation_id`
      for conversations of `src` whose `m.id` is not NULL, as (c.id, m.id). A
      NULL `c.id` or `m.conversation_id` never equals anything, and a row
      with NULL `m.id` is not counted by `COUNT(m.id)`. */
  function JoinedMessages(t: Tables, src: string): set<(string, string)>
  {
    set cid, mid | cid in t.conversations && mid in t.messages
                   && t.conversations[cid].source == src
                   && t.messages[mid].conversationId == Text(cid) :: (cid, mid)
  }

  /** `SELECT c.source, COUNT(m.id) FROM conversations c LEFT JOIN messages m
      ON c.id = m.conversation_id GROUP BY c.source` */
  function MessagesBySource(t: Tables): map<string, nat>
  {
    map src | src in Sources(t) :: |JoinedMessages(t, src)|
  }

  /** The stored messages that belong to a conversation of `src`. */
  function MessagesOf(t: Tables, src: string): set<string>
  {
    set mid | mid in t.messages && OwnerSource(t, t.messages[mid]) == Some(src)
  }

  /** The join counts each message of a conversation of the source once:
      every source with a conversation has a group, a message counts for
      the source of the conversation it names, and a message whose
      conversation is not stored counts nowhere. */
  lemma MessageCounts(t: Tables, src: string)
    ensures src in MessagesBySource(t) <==> src in ConversationsBySource(t)
    ensures src in MessagesBySource(t) ==> MessagesBySource(t)[src] == |MessagesOf(t, src)|
  {
    var joined := JoinedMessages(t, src);
    var mids := set p | p in joined :: p.1;
    assert mids == MessagesOf(t, src) by {
      forall mid | mid in MessagesOf(t, src) ensures mid in mids {
        assert (t.messages[mid].conversationId.text, mid) in joined;
      }
    }
    ProjectionSize(joined, t);
  }

  /** Each joined row is determined by its message id. */
  lemma ProjectionSize(joined: set<(string, string)>, t: Tables)
    requires forall p | p in joined :: p.1 in t.messages && t.messages[p.1].conversationId == Text(p.0)
    ensures |set p | p in joined :: p.1| == |joined|
    decreases |joined|
  {
    if joined != {} {
      var p :| p in joined;
      var rest := joined - {p};
      ProjectionSize(rest, t);
      var image := set q | q in joined :: q.1;
      var restImage := set q | q in rest :: q.1;
      assert image == restImage + {p.1};
      assert p.1 !in restImage;
    }
  }

  /** A message counts for at most one source, and no source counts more
      messages than are stored. */
  lemma MessagesOfBounded(t: Tables, src: string, other: string)
    ensures src != other ==> MessagesOf(t, src) !! MessagesOf(t, other)
    ensures |MessagesOf(t, src)| <= |t.messages|
  {
    SubMultisetSize(multiset(MessagesOf(t, src)), multiset(t.messages.Keys));
  }

  /** The sources that have at least one memory. */
  function MemorySources(memories: map<string, Memory>): set<string>
  {
    set id | id in memories :: memories[id].source
  }

  /** `SELECT source, COUNT(*) FROM memories GROUP BY source` */
  function MemoriesBySource(memories: map<string, Memory>): map<string, nat>
  {
    map src | src in MemorySources(memories) :: |set id | id in memories && memories[id].source == src|
  }

  /** Every source that has a memory has a group, and the group counts at
      least that memory. */
  lemma MemoryGroups(memories: map<string, Memory>, id: string)
    requires id in memories
    ensures memories[id].source in MemoriesBySource(memories)
    ensures MemoriesBySource(memories)[memories[id].source] >= 1
  {
    var src := memories[id].source;
    SubMultisetSize(multiset{id}, multiset(set i | i in memories && memories[i].source == src));
  }

  /** A row of the recent-conversations query; `id` identifies the row and
      is NULL for conversations stored without one. */
  datatype ConversationRow = ConversationRow(id: Cell, title: Cell, source: string, createdAt: string)

  function RowOf(id: string, c: Conversation): ConversationRow
  {
    ConversationRow(Text(id), c.title, c.source, c.createdAt)
  }

  function UnkeyedRow(c: Conversation): ConversationRow
  {
    ConversationRow(NullCell, c.title, c.source, c.createdAt)
  }

  function RowCreatedAt(r: ConversationRow): string
  {
    r.createdAt
  }

  /** No WHERE clause. */
  function Every(c: Conversation): bool
  {
    true
  }

  function UnkeyedRows(cs: seq<Conversation>): (rows: seq<ConversationRow>)
    ensures |rows| == |cs|
    ensures forall k :: 0 <= k < |cs| ==> rows[k] == UnkeyedRow(cs[k])
  {
    if cs == [] then [] else [UnkeyedRow(cs[0])] + UnkeyedRows(cs[1..])
  }

  /** Every row of `conversations`, the keyed ones in the order `scan`. */
  function ConversationRows(t: Tables, scan: seq<string>): seq<ConversationRow>
  {
    Select(t.conversations, scan, Every, RowOf) + UnkeyedRows(t.unkeyedConversations)
  }

  ghost function AllConversationRows(t: Tables): multiset<ConversationRow>
  {
    Selected(t.conversations, Every, RowOf) + multiset(UnkeyedRows(t.unkeyedConversations))
  }

  /** The LIMIT of the recent-conversations query. */
  const RecentLimit: int := 10

  /** `SELECT title, source, created_at FROM conversations ORDER BY
      created_at DESC LIMIT 10` */
  function Recent(t: Tables, scan: seq<string>): seq<ConversationRow>
  {
    Take(SortDesc(ConversationRows(t, scan), RowCreatedAt), RecentLimit)
  }

  lemma RowOfInjective()
    ensures Injective(RowOf)
  {
    forall a, b, v, w | RowOf(a, v) == RowOf(b, w) ensures a == b {
      assert RowOf(a, v).id == Text(a);
    }
  }

  /** The ten newest conversations, newest first, keyed or not; fewer only
      when there are fewer. */
  lemma RecentIsTop(t: Tables, scan: seq<string>)
    requires Enumerates(scan, t.conversations.Keys)
    ensures TopRows(AllConversationRows(t), RowCreatedAt, RecentLimit, Recent(t, scan))
  {
    RowOfInjective();
    SelectAll(t.conversations, scan, Every, RowOf);
    TopOfSorted(ConversationRows(t, scan), RowCreatedAt, RecentLimit);
  }

  /** Characters of a title shown before the ellipsis. */
  const TitleLength: nat := 60

  /** `title[:60]` and the ellipsis; slicing a NULL title raises. */
  function ShowTitle(title: Cell): Result<string>
  {
    match title
    case NullCell => Raised
    case Text(s) => Ok(Query.Truncate(s, TitleLength))
  }

  /** A title is shown unless it is NULL, cut to 60 characters and marked
      with `...` exactly when it was longer. */
  lemma ShowTitleSpec(title: Cell)
    ensures ShowTitle(title).Raised? <==> title.NullCell?
    ensures title.Text? ==> var r := ShowTitle(title).value;
      && |r| <= TitleLength + 3
      && r[..Query.Min(|title.text|, TitleLength)] == title.text[..Query.Min(|title.text|, TitleLength)]
      && (|title.text| > TitleLength <==> |r| == TitleLength + 3 && r[TitleLength..] == "...")
  {
    if title.Text? {
      Query.TruncateKeepsPrefix(title.text, TitleLength);
    }
  }
}
