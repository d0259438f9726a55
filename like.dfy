/** SQLite's `LIKE` operator as `search_memories` uses it: no ESCAPE clause,
    `%` matches any run of characters, `_` any single character, and
    letters compare without regard to case in the ASCII range only. */
module SqlLike {

  /** ASCII lower-casing; every other character is left as it is. */
  function Fold(c: char): char
  {
    if 'A' <= c <= 'Z' then (c as int + 32) as char else c
  }

  /** `s LIKE p` */
  predicate Like(p: string, s: string)
    decreases |p| + |s|
  {
    if p == [] then s == []
    else if p[0] == '%' then Like(p[1..], s) || (s != [] && Like(p, s[1..]))
    else s != [] && (p[0] == '_' || Fold(p[0]) == Fold(s[0])) && Like(p[1..], s[1..])
  }

  /** The pattern `f'%{query}%'`. */
  function Pattern(query: string): string
  {
    "%" + query + "%"
  }

  predicate Matches(query: string, content: string)
  {
    Like(Pattern(query), content)
  }

  /** A query with no wildcard characters in it. */
  predicate Literal(query: string)
  {
    forall k :: 0 <= k < |query| ==> query[k] != '%' && query[k] != '_'
  }

  /** Equal up to ASCII case. */
  predicate FoldEq(a: string, b: string)
  {
    |a| == |b| && forall k :: 0 <= k < |a| ==> Fold(a[k]) == Fold(b[k])
  }

  /** `s` holds `query` at position `i`, up to ASCII case. */
  predicate OccursAt(query: string, s: string, i: nat)
  {
    i + |query| <= |s| && FoldEq(query, s[i..i + |query|])
  }

  lemma {:induction false} PercentMatchesAll(s: string)
    ensures Like("%", s)
    decreases |s|
  {
    if s != [] {
      PercentMatchesAll(s[1..]);
    }
  }

  /** A leading `%` skips some prefix of the text. */
  lemma {:induction false} LeadingPercent(r: string, s: string)
    ensures Like("%" + r, s) <==> exists i :: 0 <= i <= |s| && Like(r, s[i..])
    decreases |s|
  {
    var p := "%" + r;
    assert p[0] == '%' && p[1..] == r;
    assert s[0..] == s;
    if s != [] {
      LeadingPercent(r, s[1..]);
      if exists i :: 0 <= i <= |s| && Like(r, s[i..]) {
        var i :| 0 <= i <= |s| && Like(r, s[i..]);
        if i > 0 {
          assert s[1..][i - 1..] == s[i..];
        }
      }
      if exists i :: 0 <= i <= |s[1..]| && Like(r, s[1..][i..]) {
        var i :| 0 <= i <= |s[1..]| && Like(r, s[1..][i..]);
        assert s[1..][i..] == s[i + 1..];
      }
    }
  }

  /** Any pattern followed by `%` matches a text that starts with the
      pattern's own characters: `%` and `_` each match themselves. */
  lemma {:induction false} SelfPrefix(q: string, t: string)
    ensures Like(q + "%", q + t)
    decreases |q|
  {
    var p, s := q + "%", q + t;
    if q == [] {
      assert p == "%" && s == t;
      PercentMatchesAll(t);
    } else {
      SelfPrefix(q[1..], t);
      assert p[1..] == q[1..] + "%" && s[1..] == q[1..] + t;
      if q[0] == '%' {
        assert Like(p[1..], s[1..]);
        assert Like(p, s[1..]);
      }
    }
  }

  /** Literal containment implies a match: every memory whose content holds
      the query verbatim is selected by `LIKE '%query%'`. */
  lemma ContainsImpliesMatch(query: string, a: string, b: string)
    ensures Matches(query, a + query + b)
  {
    var s := a + query + b;
    assert Pattern(query) == "%" + (query + "%");
    assert s[|a|..] == query + b;
    SelfPrefix(query, b);
    LeadingPercent(query + "%", s);
  }

  /** A literal query followed by `%` matches exactly the texts that start
      with the query, up to ASCII case. */
  lemma {:induction false} LiteralPrefix(q: string, t: string)
    requires Literal(q)
    ensures Like(q + "%", t) <==> |q| <= |t| && FoldEq(q, t[..|q|])
    decreases |q|
  {
    var p := q + "%";
    if q == [] {
      assert p == "%";
      PercentMatchesAll(t);
    } else {
      assert p[0] == q[0] && p[1..] == q[1..] + "%";
      assert Literal(q[1..]) by {
        forall k | 0 <= k < |q[1..]| ensures q[1..][k] != '%' && q[1..][k] != '_' {
          assert q[1..][k] == q[k + 1];
        }
      }
      if t != [] {
        LiteralPrefix(q[1..], t[1..]);
        if |q| <= |t| {
          assert FoldEq(q, t[..|q|]) <==> Fold(q[0]) == Fold(t[0]) && FoldEq(q[1..], t[1..][..|q| - 1]) by {
            assert t[1..][..|q| - 1] == t[..|q|][1..];
            if Fold(q[0]) == Fold(t[0]) && FoldEq(q[1..], t[1..][..|q| - 1]) {
              forall k | 0 <= k < |q| ensures Fold(q[k]) == Fold(t[..|q|][k]) {
                if k > 0 { assert q[k] == q[1..][k - 1]; }
              }
            }
          }
        }
      }
    }
  }

  /** For a query without wildcards, `LIKE '%query%'` holds exactly when the
      query occurs somewhere in the content, up to ASCII case. */
  lemma LiteralMatchIff(query: string, content: string)
    requires Literal(query)
    ensures Matches(query, content) <==> exists i :: 0 <= i <= |content| && OccursAt(query, content, i)
  {
    assert Pattern(query) == "%" + (query + "%");
    LeadingPercent(query + "%", content);
    forall i | 0 <= i <= |content|
      ensures Like(query + "%", content[i..]) <==> OccursAt(query, content, i)
    {
      LiteralPrefix(query, content[i..]);
      if i + |query| <= |content| {
        assert content[i..][..|query|] == content[i..i + |query|];
      }
    }
  }
}
