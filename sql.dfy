/** The `sql` tagged-template helper of lib/db.ts: it turns the literal
    fragments of a template and the interpolated values into a parameterised
    query, with `$1 .. $n` in the text and the values passed separately to the
    driver. The connection pool behind `pool.query` is not modelled; a call is
    represented by the text and parameters handed to it. */
module SqlTemplate {
  import opened Common

  /** The arguments of one `pool.query(text, params)` call. */
  datatype QueryCall<V> = QueryCall(text: string, params: seq<V>)

  /** The placeholder for the k-th value, counting from 1. */
  function Placeholder(k: nat): string
  {
    "$" + DecimalText(k)
  }

  /** The placeholders for n values, in order: $1, $2, ..., $n. */
  function Placeholders(n: nat): (ps: seq<string>)
    ensures |ps| == n
    ensures forall i :: 0 <= i < n ==> ps[i] == Placeholder(i + 1)
  {
    if n == 0 then [] else Placeholders(n - 1) + [Placeholder(n)]
  }

  /** The reference reading of a parameterised query: fragments and holes
      alternate, starting and ending with a fragment. */
  function Interleave(fragments: seq<string>, holes: seq<string>): string
    requires |fragments| == |holes| + 1
    decreases |holes|
  {
    if holes == [] then fragments[0]
    else fragments[0] + holes[0] + Interleave(fragments[1..], holes[1..])
  }

  /** The query text after k turns of the builder's loop. */
  function Accumulated(strings: seq<string>, k: nat): string
    requires k < |strings|
    decreases k
  {
    if k == 0 then strings[0] else Accumulated(strings, k - 1) + Placeholder(k) + strings[k]
  }

  lemma {:induction false} InterleaveSnoc(f: seq<string>, h: seq<string>, x: string, s: string)
    requires |f| == |h| + 1
    ensures Interleave(f + [s], h + [x]) == Interleave(f, h) + x + s
    decreases |h|
  {
    if h == [] {
      assert (f + [s])[1..] == [s];
    } else {
      assert (f + [s])[1..] == f[1..] + [s];
      assert (h + [x])[1..] == h[1..] + [x];
      InterleaveSnoc(f[1..], h[1..], x, s);
    }
  }

  /** The loop builds exactly the interleaving of the fragments seen so far
      with the placeholders numbered so far. */
  lemma {:induction false} AccumulatedIsInterleave(strings: seq<string>, k: nat)
    requires k < |strings|
    ensures Accumulated(strings, k) == Interleave(strings[..k + 1], Placeholders(k))
    decreases k
  {
    if k > 0 {
      AccumulatedIsInterleave(strings, k - 1);
      assert strings[..k + 1] == strings[..k] + [strings[k]];
      InterleaveSnoc(strings[..k], Placeholders(k - 1), Placeholder(k), strings[k]);
    }
  }

  /** Once every value has had its turn, the text is the interleaving of all
      the fragments; without values it is the single fragment. */
  lemma FullTemplate(strings: seq<string>, n: nat)
    requires |strings| == n + 1
    ensures Accumulated(strings, n) == Interleave(strings, Placeholders(n))
    ensures n == 0 ==> Interleave(strings, Placeholders(n)) == strings[0]
  {
    AccumulatedIsInterleave(strings, n);
    assert strings[..n + 1] == strings;
  }

  /** `` sql`...${v1}...${vn}...` ``: the text interleaves the template's
      fragments with $1..$n, and the values go to the driver unchanged and in
      order. The text is determined by the fragments and the number of values
      alone: no value is ever spliced into it. */
  method Sql<V>(strings: seq<string>, values: seq<V>) returns (call: QueryCall<V>)
    requires |strings| == |values| + 1
    ensures call.text == Interleave(strings, Placeholders(|values|))
    ensures |values| == 0 ==> call.text == strings[0]
    ensures call.params == values
  {
    var query := strings[0];
    for i := 0 to |values|
      invariant query == Accumulated(strings, i)
    {
      assert Accumulated(strings, i + 1) == Accumulated(strings, i) + Placeholder(i + 1) + strings[i + 1];
      query := query + Placeholder(i + 1) + strings[i + 1];
    }
    FullTemplate(strings, |values|);
    call := QueryCall(query, values);
  }

  /** `sql.raw(text)`: the text goes to the driver as it is, with no values. */
  function Raw<V>(text: string): (call: QueryCall<V>)
    ensures call.text == text && call.params == []
  {
    QueryCall(text, [])
  }

  // ---------------------------------------------------------------------
  // Counting placeholders
  // ---------------------------------------------------------------------

  function Occurrences(c: char, s: string): nat
    decreases |s|
  {
    if s == [] then 0 else (if s[0] == c then 1 else 0) + Occurrences(c, s[1..])
  }

  lemma {:induction false} OccurrencesConcat(c: char, s: string, t: string)
    ensures Occurrences(c, s + t) == Occurrences(c, s) + Occurrences(c, t)
    decreases |s|
  {
    if s == [] {
      assert s + t == t;
    } else {
      assert (s + t)[1..] == s[1..] + t;
      OccurrencesConcat(c, s[1..], t);
    }
  }

  lemma {:induction false} OccurrencesAbsent(c: char, s: string)
    requires c !in s
    ensures Occurrences(c, s) == 0
    decreases |s|
  {
    if s != [] {
      OccurrencesAbsent(c, s[1..]);
    }
  }

  /** Each placeholder contributes exactly one `$`. */
  lemma PlaceholderHasOneDollar(k: nat)
    ensures Occurrences('$', Placeholder(k)) == 1
  {
    var d := DecimalText(k);
    OccurrencesAbsent('$', d);
    assert Placeholder(k)[1..] == d;
  }

  lemma {:induction false} InterleaveDollars(f: seq<string>, n: nat, first: nat)
    requires |f| == n + 1
    requires forall i :: 0 <= i < |f| ==> '$' !in f[i]
    ensures Occurrences('$', Interleave(f, seq(n, i requires 0 <= i < n => Placeholder(first + i)))) == n
    decreases n
  {
    var holes := seq(n, i requires 0 <= i < n => Placeholder(first + i));
    OccurrencesAbsent('$', f[0]);
    if n > 0 {
      var rest := seq(n - 1, i requires 0 <= i < n - 1 => Placeholder(first + 1 + i));
      assert holes[1..] == rest;
      InterleaveDollars(f[1..], n - 1, first + 1);
      PlaceholderHasOneDollar(first);
      OccurrencesConcat('$', f[0], holes[0]);
      OccurrencesConcat('$', f[0] + holes[0], Interleave(f[1..], rest));
    }
  }

  /** When the template's own text has no `$`, the query carries exactly one
      placeholder per value. */
  lemma PlaceholderCount(strings: seq<string>, n: nat)
    requires |strings| == n + 1
    requires forall i :: 0 <= i < |strings| ==> '$' !in strings[i]
    ensures Occurrences('$', Interleave(strings, Placeholders(n))) == n
  {
    var ps := Placeholders(n);
    var holes := seq(n, i requires 0 <= i < n => Placeholder(1 + i));
    assert forall i :: 0 <= i < n ==> ps[i] == holes[i];
    assert ps == holes;
    InterleaveDollars(strings, n, 1);
  }
}
