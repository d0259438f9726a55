/** `search_memories`: the memories whose content is `LIKE '%query%'`,
    newest first, at most `limit` of them, and what is shown of each. */
module Query {
  import opened Python
  import opened Schema
  import opened SqlLike
  import opened Ranking

  /** The limit `main` searches with. */
  const DefaultLimit: int := 10

  /** Characters of content shown before the ellipsis. */
  const SnippetLength: nat := 200

  /** A selected row: id, content, source, created_at, metadata. */
  datatype Hit = Hit(id: string, content: string, source: string, createdAt: string, metadata: Option<Value>)

  function HitOf(id: string, m: Memory): Hit
  {
    Hit(id, m.content, m.source, m.createdAt, m.metadata)
  }

  function HitCreatedAt(h: Hit): string
  {
    h.createdAt
  }

  /** WHERE content LIKE '%query%' */
  function ContentMatches(query: string): Memory -> bool
  {
    (m: Memory) => Matches(query, m.content)
  }

  /** The SELECT of `search_memories`, the table being scanned in the order
      `scan`. */
  function Search(memories: map<string, Memory>, scan: seq<string>, query: string, limit: int := DefaultLimit): seq<Hit>
  {
    Take(SortDesc(Select(memories, scan, ContentMatches(query), HitOf), HitCreatedAt), limit)
  }

  /** Every memory the WHERE clause accepts. */
  ghost function MatchingHits(memories: map<string, Memory>, query: string): multiset<Hit>
  {
    Selected(memories, ContentMatches(query), HitOf)
  }

  lemma HitOfInjective()
    ensures Injective(HitOf)
  {
    forall a, b, v, w | HitOf(a, v) == HitOf(b, w) ensures a == b {
      assert HitOf(a, v).id == a;
    }
  }

  /** The search returns the newest matching memories: as many as the limit
      allows, newest first, none left out newer than one returned. */
  lemma SearchIsTop(memories: map<string, Memory>, scan: seq<string>, query: string, limit: int)
    requires Enumerates(scan, memories.Keys)
    ensures TopRows(MatchingHits(memories, query), HitCreatedAt, limit, Search(memories, scan, query, limit))
  {
    HitOfInjective();
    SelectAll(memories, scan, ContentMatches(query), HitOf);
    TopOfSorted(Select(memories, scan, ContentMatches(query), HitOf), HitCreatedAt, limit);
  }

  /** Searching with the default limit shows the ten newest matching
      memories, or all of them when fewer match. */
  lemma DefaultSearchShowsTen(memories: map<string, Memory>, scan: seq<string>, query: string)
    requires Enumerates(scan, memories.Keys)
    ensures |Search(memories, scan, query)| == Min(10, |MatchingHits(memories, query)|)
  {
    SearchIsTop(memories, scan, query, DefaultLimit);
  }

  /** Each row returned is a stored memory, as stored, and matches. */
  lemma SearchRowsMatch(memories: map<string, Memory>, scan: seq<string>, query: string, limit: int)
    requires Enumerates(scan, memories.Keys)
    ensures forall r | r in Search(memories, scan, query, limit) ::
              r.id in memories && r == HitOf(r.id, memories[r.id]) && Matches(query, r.content)
  {
    var rows := Search(memories, scan, query, limit);
    SearchIsTop(memories, scan, query, limit);
    forall r | r in rows
      ensures r.id in memories && r == HitOf(r.id, memories[r.id]) && Matches(query, r.content)
    {
      assert r in multiset(rows);
      assert r in (set id | id in memories && ContentMatches(query)(memories[id]) :: HitOf(id, memories[id]));
    }
  }

  /** With a query free of `%` and `_`, each row's content holds the query,
      up to ASCII case. */
  lemma LiteralRowsContainQuery(memories: map<string, Memory>, scan: seq<string>, query: string, limit: int)
    requires Enumerates(scan, memories.Keys)
    requires Literal(query)
    ensures forall r | r in Search(memories, scan, query, limit) ::
              exists i :: 0 <= i <= |r.content| && OccursAt(query, r.content, i)
  {
    SearchRowsMatch(memories, scan, query, limit);
    forall r | r in Search(memories, scan, query, limit)
      ensures exists i :: 0 <= i <= |r.content| && OccursAt(query, r.content, i)
    {
      LiteralMatchIff(query, r.content);
    }
  }

  /** A memory whose content holds the query verbatim is returned, unless
      the limit is reached by memories at least as new. */
  lemma SearchFindsContaining(memories: map<string, Memory>, scan: seq<string>, query: string, limit: int,
                              id: string, before: string, after: string)
    requires Enumerates(scan, memories.Keys)
    requires id in memories && memories[id].content == before + query + after
    ensures var rows := Search(memories, scan, query, limit);
      || HitOf(id, memories[id]) in rows
      || (|rows| == limit && forall j :: 0 <= j < |rows| ==> LexLe(memories[id].createdAt, rows[j].createdAt))
  {
    ContainsImpliesMatch(query, before, after);
    MatchingHitIn(memories, query, id);
    SearchIsTop(memories, scan, query, limit);
    var rows := Search(memories, scan, query, limit);
    if HitOf(id, memories[id]) !in rows {
      LeftOut(MatchingHits(memories, query), HitCreatedAt, limit, rows, HitOf(id, memories[id]));
    }
  }

  /** Every stored memory the WHERE clause accepts is in the pool. */
  lemma MatchingHitIn(memories: map<string, Memory>, query: string, id: string)
    requires id in memories && Matches(query, memories[id].content)
    ensures HitOf(id, memories[id]) in MatchingHits(memories, query)
  {
    assert ContentMatches(query)(memories[id]);
  }


  /** The search comes back empty exactly when the limit is 0 or no memory
      matches. */
  lemma SearchEmptyIff(memories: map<string, Memory>, scan: seq<string>, query: string, limit: int)
    requires Enumerates(scan, memories.Keys)
    ensures Search(memories, scan, query, limit) == []
        <==> limit == 0 || forall id :: id in memories ==> !Matches(query, memories[id].content)
  {
    var rows := Search(memories, scan, query, limit);
    var pool := MatchingHits(memories, query);
    SearchIsTop(memories, scan, query, limit);
    assert |rows| == Capped(|pool|, limit);
    var found := set id | id in memories && ContentMatches(query)(memories[id]) :: HitOf(id, memories[id]);
    assert pool == multiset(found);
    if exists id :: id in memories && Matches(query, memories[id].content) {
      var id :| id in memories && Matches(query, memories[id].content);
      assert HitOf(id, memories[id]) in found;
      assert |pool| == |found| > 0;
    } else {
      assert found == {};
    }
  }

  /** Scanning the table in another order changes at most the order of rows
      created at the same instant. */
  lemma SearchDeterminedUpToTies(memories: map<string, Memory>, scan: seq<string>, other: seq<string>,
                                 query: string, limit: int)
    requires Enumerates(scan, memories.Keys) && Enumerates(other, memories.Keys)
    ensures var a, b := Search(memories, scan, query, limit), Search(memories, other, query, limit);
      |a| == |b| && forall j :: 0 <= j < |a| ==> a[j].createdAt == b[j].createdAt
  {
    SearchIsTop(memories, scan, query, limit);
    SearchIsTop(memories, other, query, limit);
    TopRowsKeysDetermined(MatchingHits(memories, query), HitCreatedAt, limit,
                          Search(memories, scan, query, limit), Search(memories, other, query, limit));
  }

  /** `s[:n]` followed by `...` when `s` is longer than `n`. */
  function Truncate(s: string, n: nat): string
  {
    if |s| > n then s[..n] + "..." else s
  }

  function Min(a: nat, b: nat): nat
  {
    if a < b then a else b
  }

  /** The shown text starts with as much of `s` as fits, is at most three
      characters over, and ends in `...` exactly when `s` was too long. */
  lemma TruncateKeepsPrefix(s: string, n: nat)
    ensures var r := Truncate(s, n);
      && |r| <= n + 3
      && |r| >= Min(|s|, n)
      && r[..Min(|s|, n)] == s[..Min(|s|, n)]
      && (|s| > n <==> |r| == n + 3 && r[n..] == "...")
      && (|s| <= n ==> r == s)
  {
  }

  /** What is shown of one row: source, title, role, date and snippet. */
  datatype Shown = Shown(source: string, title: Value, role: Value, createdAt: string, snippet: string)

  /** `json.loads(metadata_str) if metadata_str else {}` */
  function Metadata(h: Hit): Value
  {
    match h.metadata
    case None => Dict([])
    case Some(v) => v
  }

  /** The fields of one result line; `.get` on metadata that is not a JSON
      object raises. */
  function Show(h: Hit): Result<Shown>
  {
    var md := Metadata(h);
    var title :- Get(md, "conversation_title", Str("Untitled"));
    var role :- Get(md, "role", Str("unknown"));
    Ok(Shown(h.source, title, role, h.createdAt, Truncate(h.content, SnippetLength)))
  }

  /** A row fails to show exactly when its metadata is not a JSON object. */
  lemma ShowRaisesIff(h: Hit)
    ensures Show(h).Raised? <==> h.metadata.Some? && !h.metadata.value.Dict?
  {
  }

  /** Metadata that is a JSON object is shown with its title and role, and
      `Untitled` and `unknown` for the keys it lacks. */
  lemma ShowDefaults(h: Hit)
    requires Metadata(h).Dict?
    ensures Show(h).Ok?
    ensures var es := Metadata(h).entries;
      && Show(h).value.title == (if Lookup(es, "conversation_title").Some? then Lookup(es, "conversation_title").value else Str("Untitled"))
      && Show(h).value.role == (if Lookup(es, "role").Some? then Lookup(es, "role").value else Str("unknown"))
      && Show(h).value.source == h.source && Show(h).value.createdAt == h.createdAt
  {
  }

  /** A row without metadata is shown as 'Untitled' with role 'unknown'. */
  lemma ShowWithoutMetadata(h: Hit)
    requires h.metadata.None?
    ensures Show(h).Ok?
    ensures Show(h).value.title == Str("Untitled") && Show(h).value.role == Str("unknown")
  {
  }

  /** A memory written by either importer is shown with the title and role
      recorded for it. */
  lemma ShowImported(h: Hit, convId: Value, title: Value, role: Value)
    requires h.metadata == Some(MemoryMetadata(convId, title, role))
    ensures Show(h).Ok?
    ensures Show(h).value.title == title && Show(h).value.role == role
    ensures Show(h).value.snippet == Truncate(h.content, SnippetLength)
  {
    var es := MemoryMetadata(convId, title, role).entries;
    assert es[1..][0].0 == "conversation_title";
    assert es[0].0 != "conversation_title" by { assert es[0].0[13] != "conversation_title"[13]; }
    assert Lookup(es, "conversation_title") == Some(title);
    assert es[1..][1..][0].0 == "role";
    assert Lookup(es[1..][1..], "role") == Some(role);
    assert es[1..][0].0 != "role";
    assert Lookup(es[1..], "role") == Some(role);
    assert es[0].0 != "role";
  }
}
