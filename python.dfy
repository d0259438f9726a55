/** The slice of Python's runtime that the importer relies on: decoded JSON
    values, truthiness, `dict.get`, iteration, `str()`, `str.strip`,
    `str.join` and `str.replace`. A Python exception is `Raised`; the
    importer never catches one, so it ends the import of the current file. */
module Python {

  datatype Option<T> = None | Some(value: T)

  /** A Python expression either produces a value or raises. */
  datatype Result<T> = Ok(value: T) | Raised {
    predicate IsFailure() { Raised? }
    function PropagateFailure<U>(): Result<U> requires Raised? { Raised }
    function Extract(): T requires Ok? { value }
  }

  /** A value produced by `json.load`. An object keeps its members in
      document order, which is the order `dict.items()` yields them. */
  datatype Value =
    | Null
    | Bool(b: bool)
    | Int(i: int)
    | Str(s: string)
    | List(items: seq<Value>)
    | Dict(entries: seq<(string, Value)>)

  /** Library behaviour the model does not define itself: `repr` of a list
      or dict, `datetime.fromtimestamp` and `datetime.fromisoformat`. The two
      conversions yield the text SQLite stores for the resulting datetime. */
  datatype Runtime = Runtime(
    repr: Value -> string,
    fromTimestamp: Value -> Result<string>,
    fromIsoFormat: string -> Result<string>)

  /** Python truthiness (`if not x`, `x or y`). */
  predicate Truthy(v: Value)
  {
    match v
    case Null => false
    case Bool(b) => b
    case Int(i) => i != 0
    case Str(s) => s != ""
    case List(xs) => xs != []
    case Dict(es) => es != []
  }

  /** The value stored under `key`, if any (`key in d`, `d[key]`). */
  function Lookup(entries: seq<(string, Value)>, key: string): Option<Value>
  {
    if entries == [] then None
    else if entries[0].0 == key then Some(entries[0].1)
    else Lookup(entries[1..], key)
  }

  /** `v.get(key, default)`: raises AttributeError unless `v` is a dict. */
  function Get(v: Value, key: string, default: Value): Result<Value>
  {
    match v
    case Dict(es) =>
      (match Lookup(es, key)
       case Some(x) => Ok(x)
       case None => Ok(default))
    case _ => Raised
  }

  /** `v[key]` on a dict: raises KeyError when the key is absent. */
  function Index(v: Value, key: string): Result<Value>
  {
    match v
    case Dict(es) =>
      (match Lookup(es, key)
       case Some(x) => Ok(x)
       case None => Raised)
    case _ => Raised
  }

  /** What `for x in v` visits: list items, the one-character strings of a
      string, the keys of a dict; other values raise TypeError. */
  function Iterate(v: Value): (r: Result<seq<Value>>)
    ensures v.List? ==> r == Ok(v.items)
    ensures r.Ok? <==> (v.List? || v.Str? || v.Dict?)
    ensures r.Ok? ==> |r.value| == (match v
                                    case List(xs) => |xs|
                                    case Str(s) => |s|
                                    case Dict(es) => |es|
                                    case _ => 0)
  {
    match v
    case List(xs) => Ok(xs)
    case Str(s) => Ok(seq(|s|, k requires 0 <= k < |s| => Str([s[k]])))
    case Dict(es) => Ok(seq(|es|, k requires 0 <= k < |es| => Str(es[k].0)))
    case _ => Raised
  }

  /** `v.items()`: only a dict has it. */
  function Items(v: Value): Result<seq<(string, Value)>>
  {
    match v
    case Dict(es) => Ok(es)
    case _ => Raised
  }

  /** A Python `for` loop over `xs` whose `k`-th iteration contributes
      `step(xs[k], k)`: the first exception ends the loop and is propagated.
      This is the result after the first `n` iterations. */
  function Collect<T, U>(xs: seq<T>, n: nat, step: (T, nat) -> Result<seq<U>>): Result<seq<U>>
    requires n <= |xs|
  {
    if n == 0 then Ok([])
    else
      var before :- Collect(xs, n - 1, step);
      var these :- step(xs[n - 1], n - 1);
      Ok(before + these)
  }

  /** One more iteration of the loop. */
  lemma CollectNext<T, U>(xs: seq<T>, n: nat, step: (T, nat) -> Result<seq<U>>)
    requires n < |xs|
    requires Collect(xs, n, step).Ok?
    ensures step(xs[n], n).Raised? ==> Collect(xs, n + 1, step).Raised?
    ensures step(xs[n], n).Ok?
            ==> Collect(xs, n + 1, step) == Ok(Collect(xs, n, step).value + step(xs[n], n).value)
  {
  }

  /** Once an iteration has raised, the loop as a whole raises. */
  lemma {:induction false} CollectRaisedPersists<T, U>(xs: seq<T>, n: nat, m: nat, step: (T, nat) -> Result<seq<U>>)
    requires n <= m <= |xs|
    requires Collect(xs, n, step).Raised?
    ensures Collect(xs, m, step).Raised?
    decreases m - n
  {
    if n < m {
      CollectRaisedPersists(xs, n, m - 1, step);
    }
  }

  /** Two loops whose iterations agree on every element agree as a whole. */
  lemma {:induction false} CollectExt<T, U>(xs: seq<T>, n: nat, f: (T, nat) -> Result<seq<U>>, g: (T, nat) -> Result<seq<U>>)
    requires n <= |xs|
    requires forall k :: 0 <= k < n ==> f(xs[k], k) == g(xs[k], k)
    ensures Collect(xs, n, f) == Collect(xs, n, g)
  {
    if n > 0 {
      CollectExt(xs, n - 1, f, g);
    }
  }

  /** What holds of every item each iteration contributes holds of the
      whole result. */
  lemma {:induction false} CollectAll<T, U>(xs: seq<T>, n: nat, step: (T, nat) -> Result<seq<U>>, P: U -> bool)
    requires n <= |xs|
    requires forall k :: 0 <= k < n && step(xs[k], k).Ok? ==>
               forall m :: 0 <= m < |step(xs[k], k).value| ==> P(step(xs[k], k).value[m])
    requires Collect(xs, n, step).Ok?
    ensures forall m :: 0 <= m < |Collect(xs, n, step).value| ==> P(Collect(xs, n, step).value[m])
  {
    if n > 0 {
      CollectAll(xs, n - 1, step, P);
      var before, these := Collect(xs, n - 1, step).value, step(xs[n - 1], n - 1).value;
      forall m | 0 <= m < |before + these| ensures P((before + these)[m]) {
        if m < |before| { assert (before + these)[m] == before[m]; }
        else { assert (before + these)[m] == these[m - |before|]; }
      }
    }
  }

  /** A loop whose every iteration contributes exactly one item yields one
      item per element, in order. */
  lemma {:induction false} CollectSingletons<T, U>(xs: seq<T>, n: nat, step: (T, nat) -> Result<seq<U>>)
    requires n <= |xs|
    requires forall k :: 0 <= k < n && step(xs[k], k).Ok? ==> |step(xs[k], k).value| == 1
    requires Collect(xs, n, step).Ok?
    ensures |Collect(xs, n, step).value| == n
    ensures forall k :: 0 <= k < n ==> step(xs[k], k).Ok? && Collect(xs, n, step).value[k] == step(xs[k], k).value[0]
  {
    if n > 0 {
      CollectSingletons(xs, n - 1, step);
    }
  }

  // ---------------------------------------------------------------- str()

  function Digit(d: nat): (c: char)
    requires d < 10
    ensures '0' <= c <= '9'
  {
    ('0' as int + d) as char
  }

  /** Decimal digits of `n`, as `str(n)` writes them. */
  function NatToString(n: nat): (r: string)
    ensures |r| >= 1
    ensures n < 10 <==> |r| == 1
    ensures forall k :: 0 <= k < |r| ==> '0' <= r[k] <= '9'
  {
    if n < 10 then [Digit(n)] else NatToString(n / 10) + [Digit(n % 10)]
  }

  /** Distinct numbers print differently, so `_msg_{i}` suffixes never collide. */
  lemma {:induction false} NatToStringInjective(a: nat, b: nat)
    requires NatToString(a) == NatToString(b)
    ensures a == b
  {
    var sa, sb := NatToString(a), NatToString(b);
    if a < 10 || b < 10 {
      assert |sa| == 1 && |sb| == 1;
      assert Digit(a) == sa[0] == sb[0] == Digit(b);
    } else {
      assert sa[|sa| - 1] == Digit(a % 10) && sb[|sb| - 1] == Digit(b % 10);
      assert NatToString(a / 10) == sa[..|sa| - 1] == sb[..|sb| - 1] == NatToString(b / 10);
      NatToStringInjective(a / 10, b / 10);
    }
  }

  function IntToString(i: int): string
  {
    if i < 0 then "-" + NatToString(-i) else NatToString(i)
  }

  /** `str(v)` (also what an f-string prints). */
  function PyStr(v: Value, rt: Runtime): string
  {
    match v
    case Null => "None"
    case Bool(b) => if b then "True" else "False"
    case Int(i) => IntToString(i)
    case Str(s) => s
    case _ => rt.repr(v)
  }

  // ---------------------------------------------------------- str.strip()

  /** The characters `str.isspace()` accepts. */
  predicate IsSpace(c: char)
  {
    var n := c as int;
    (9 <= n <= 13) || (28 <= n <= 32) || n == 0x85 || n == 0xA0 || n == 0x1680
    || (0x2000 <= n <= 0x200A) || n == 0x2028 || n == 0x2029 || n == 0x202F
    || n == 0x205F || n == 0x3000
  }

  predicate Blank(s: string)
  {
    forall k :: 0 <= k < |s| ==> IsSpace(s[k])
  }

  function StripStart(s: string): (r: string)
    ensures r != "" ==> !IsSpace(r[0])
  {
    if s != "" && IsSpace(s[0]) then StripStart(s[1..]) else s
  }

  function StripEnd(s: string): string
  {
    if s != "" && IsSpace(s[|s| - 1]) then StripEnd(s[..|s| - 1]) else s
  }

  /** `s.strip()` */
  function Strip(s: string): string
  {
    StripEnd(StripStart(s))
  }

  lemma {:induction false} StripStartBlank(s: string)
    ensures StripStart(s) == "" <==> Blank(s)
  {
    if s != "" && IsSpace(s[0]) {
      StripStartBlank(s[1..]);
      assert Blank(s) <==> Blank(s[1..]) by {
        if Blank(s[1..]) {
          forall k | 0 <= k < |s| ensures IsSpace(s[k]) {
            if k > 0 { assert s[k] == s[1..][k - 1]; }
          }
        }
      }
    }
  }

  lemma {:induction false} StripEndBlank(s: string)
    ensures StripEnd(s) == "" <==> Blank(s)
  {
    if s != "" && IsSpace(s[|s| - 1]) {
      var init := s[..|s| - 1];
      StripEndBlank(init);
      assert Blank(s) <==> Blank(init) by {
        if Blank(init) {
          forall k | 0 <= k < |s| ensures IsSpace(s[k]) {
            if k < |s| - 1 { assert s[k] == init[k]; }
          }
        }
      }
    }
  }

  /** `s.strip()` is empty exactly when every character of `s` is whitespace. */
  lemma StripEmptyIffBlank(s: string)
    ensures Strip(s) == "" <==> Blank(s)
  {
    StripStartBlank(s);
    StripEndBlank(StripStart(s));
  }

  // ----------------------------------------------------------- str.join()

  /** `sep.join(parts)` */
  function Join(sep: string, parts: seq<string>): string
  {
    if |parts| == 0 then ""
    else if |parts| == 1 then parts[0]
    else parts[0] + sep + Join(sep, parts[1..])
  }

  /** `sep.join(items)` on decoded values: TypeError unless every item is a string. */
  function JoinValues(sep: string, items: seq<Value>): (r: Result<string>)
    ensures r.Ok? <==> forall k :: 0 <= k < |items| ==> items[k].Str?
  {
    if forall k :: 0 <= k < |items| ==> items[k].Str?
    then Ok(Join(sep, seq(|items|, k requires 0 <= k < |items| => items[k].s)))
    else Raised
  }

  lemma BlankConcat(a: string, b: string)
    ensures Blank(a + b) <==> Blank(a) && Blank(b)
  {
    if Blank(a) && Blank(b) {
      forall k | 0 <= k < |a + b| ensures IsSpace((a + b)[k]) {
        if k >= |a| { assert (a + b)[k] == b[k - |a|]; }
      }
    }
    if Blank(a + b) {
      forall k | 0 <= k < |a| ensures IsSpace(a[k]) {
        assert (a + b)[k] == a[k];
      }
      forall k | 0 <= k < |b| ensures IsSpace(b[k]) {
        assert (a + b)[|a| + k] == b[k];
      }
    }
  }

  /** Joining with a whitespace separator gives blank text exactly when every
      part is blank, so a message with one part holding a visible character
      is kept. */
  lemma {:induction false} JoinBlank(sep: string, parts: seq<string>)
    requires Blank(sep)
    ensures Blank(Join(sep, parts)) <==> forall k :: 0 <= k < |parts| ==> Blank(parts[k])
  {
    if |parts| >= 2 {
      JoinBlank(sep, parts[1..]);
      BlankConcat(parts[0], sep);
      BlankConcat(parts[0] + sep, Join(sep, parts[1..]));
      if forall k :: 0 <= k < |parts[1..]| ==> Blank(parts[1..][k]) {
        forall k | 0 <= k < |parts| && k > 0 ensures Blank(parts[k]) {
          assert parts[k] == parts[1..][k - 1];
        }
      }
    }
  }

  // -------------------------------------------------------- str.replace()

  /** `s.replace('Z', '+00:00')` */
  function ReplaceZ(s: string): (r: string)
    ensures 'Z' !in r
    ensures |r| >= |s|
  {
    if s == "" then ""
    else (if s[0] == 'Z' then "+00:00" else [s[0]]) + ReplaceZ(s[1..])
  }

  /** The replacement changes a timestamp exactly when it contains a 'Z'. */
  lemma {:induction false} ReplaceZUnchangedIff(s: string)
    ensures ReplaceZ(s) == s <==> 'Z' !in s
  {
    if s != "" {
      ReplaceZUnchangedIff(s[1..]);
      if s[0] == 'Z' {
        assert |ReplaceZ(s)| >= 6 + |s[1..]| > |s|;
      } else {
        assert ReplaceZ(s) == [s[0]] + ReplaceZ(s[1..]);
        assert s == [s[0]] + s[1..];
        assert 'Z' in s <==> 'Z' in s[1..];
        if ReplaceZ(s) == s {
          assert ReplaceZ(s[1..]) == ReplaceZ(s)[1..] == s[1..];
        }
      }
    }
  }
}
