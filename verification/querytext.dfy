/** The query side: key/value pairs, the parsed multi-map (Go's
    `url.Values`), and the `?k=v&k=v` text Encode returns. Percent-escaping
    is not modelled: keys and values appear verbatim. */
module QueryText {

  type Pair = (string, string)

  /** A parsed query: each key maps to its values in query order. */
  type Query = map<string, seq<string>>

  /** All values of `key`, empty when the key is absent. */
  function Values(q: Query, key: string): (vs: seq<string>)
    ensures key !in q ==> vs == []
  {
    if key in q then q[key] else []
  }

  /** Appends one value to a key, as parsing a query does per `k=v` item. */
  function Add(q: Query, key: string, value: string): (q': Query)
    ensures Values(q', key) == Values(q, key) + [value]
    ensures forall k :: k != key ==> Values(q', k) == Values(q, k)
  {
    q[key := Values(q, key) + [value]]
  }

  /** Reference definition: the values of the pairs whose key is `key`, in
      pair order. */
  function ValuesFor(ps: seq<Pair>, key: string): seq<string> {
    if |ps| == 0 then []
    else ValuesFor(ps[..|ps| - 1], key) + (if ps[|ps| - 1].0 == key then [ps[|ps| - 1].1] else [])
  }

  /** The multi-map of a sequence of pairs: pairs of one key are collected in
      order, however they are interleaved with other keys. */
  function Group(ps: seq<Pair>): (q: Query)
    ensures forall k :: Values(q, k) == ValuesFor(ps, k)
  {
    if |ps| == 0 then map[]
    else Add(Group(ps[..|ps| - 1]), ps[|ps| - 1].0, ps[|ps| - 1].1)
  }

  lemma {:induction false} ValuesForAppend(a: seq<Pair>, b: seq<Pair>, key: string)
    ensures ValuesFor(a + b, key) == ValuesFor(a, key) + ValuesFor(b, key)
  {
    if |b| > 0 {
      ValuesForAppend(a, b[..|b| - 1], key);
      assert (a + b)[..|a + b| - 1] == a + b[..|b| - 1];
    } else {
      assert a + b == a;
    }
  }

  /** Pairs that all carry `key` contribute all their values, in order;
      pairs that never carry it contribute nothing. */
  lemma {:induction false} ValuesForUniformKey(ps: seq<Pair>, key: string, k: string)
    requires forall j :: 0 <= j < |ps| ==> ps[j].0 == key
    ensures k == key ==> |ValuesFor(ps, k)| == |ps|
    ensures k == key ==> forall j :: 0 <= j < |ps| ==> ValuesFor(ps, k)[j] == ps[j].1
    ensures k != key ==> ValuesFor(ps, k) == []
  {
    if |ps| > 0 {
      ValuesForUniformKey(ps[..|ps| - 1], key, k);
    }
  }

  /** `k=v`. */
  function PairText(p: Pair): string {
    p.0 + "=" + p.1
  }

  /** The pairs' texts joined with `&`. */
  function Join(ps: seq<Pair>): string
    requires |ps| > 0
  {
    if |ps| == 1 then PairText(ps[0]) else PairText(ps[0]) + "&" + Join(ps[1..])
  }

  /** The query string: empty when there are no pairs, otherwise `?`
      followed by the `&`-joined `k=v` items in pair order. */
  function Render(ps: seq<Pair>): (s: string)
    ensures s == "" <==> ps == []
    ensures s != "" ==> s[0] == '?'
  {
    if |ps| == 0 then "" else "?" + Join(ps)
  }

  /** Position of the first `c` in `s`. */
  function IndexOf(s: string, c: char): (i: nat)
    requires c in s
    ensures i < |s| && s[i] == c && c !in s[..i]
  {
    if s[0] == c then 0 else 1 + IndexOf(s[1..], c)
  }

  /** The pieces of `s` between occurrences of `c` (at least one piece). */
  function Split(s: string, c: char): (parts: seq<string>)
    ensures |parts| > 0
    decreases |s|
  {
    if c in s then
      var i := IndexOf(s, c);
      [s[..i]] + Split(s[i + 1..], c)
    else [s]
  }

  /** One `k=v` item: split at the first `=`; an item without `=` is a key
      with the empty value. */
  function ParseItem(t: string): Pair {
    if '=' in t then (t[..IndexOf(t, '=')], t[IndexOf(t, '=') + 1..]) else (t, "")
  }

  function ParseItems(items: seq<string>): (ps: seq<Pair>)
    ensures |ps| == |items|
    ensures forall j :: 0 <= j < |items| ==> ps[j] == ParseItem(items[j])
  {
    seq(|items|, j requires 0 <= j < |items| => ParseItem(items[j]))
  }

  /** Reference reading of a rendered query string back into its pairs. */
  function Unrender(s: string): seq<Pair> {
    if s == "" then []
    else ParseItems(Split(if s[0] == '?' then s[1..] else s, '&'))
  }

  /** The text a query-string encoder guarantees: no separator inside a key,
      no `&` inside a value. */
  predicate SeparatorFree(ps: seq<Pair>) {
    forall j :: 0 <= j < |ps| ==> '&' !in ps[j].0 && '=' !in ps[j].0 && '&' !in ps[j].1
  }

  lemma ParseItemText(p: Pair)
    requires '=' !in p.0
    ensures ParseItem(PairText(p)) == p
  {
    var t := PairText(p);
    assert t[|p.0|] == '=';
    assert t[..|p.0|] == p.0;
    assert IndexOf(t, '=') == |p.0|;
    assert t[|p.0| + 1..] == p.1;
  }

  lemma {:induction false} SplitJoin(ps: seq<Pair>)
    requires |ps| > 0 && SeparatorFree(ps)
    ensures |Split(Join(ps), '&')| == |ps|
    ensures forall j :: 0 <= j < |ps| ==> Split(Join(ps), '&')[j] == PairText(ps[j])
  {
    var head := PairText(ps[0]);
    assert '&' !in head;
    if |ps| == 1 {
    } else {
      var s := Join(ps);
      assert s == head + "&" + Join(ps[1..]);
      assert s[|head|] == '&';
      assert IndexOf(s, '&') == |head|;
      assert s[..|head|] == head;
      assert s[|head| + 1..] == Join(ps[1..]);
      assert SeparatorFree(ps[1..]) by {
        forall j | 0 <= j < |ps| - 1
          ensures '&' !in ps[1..][j].0 && '=' !in ps[1..][j].0 && '&' !in ps[1..][j].1
        {
          assert ps[1..][j] == ps[j + 1];
        }
      }
      SplitJoin(ps[1..]);
    }
  }

  /** Rendering loses nothing: the pairs read back from their query string
      whenever their text is free of separators. */
  lemma UnrenderRender(ps: seq<Pair>)
    requires SeparatorFree(ps)
    ensures Unrender(Render(ps)) == ps
  {
    if |ps| > 0 {
      var s := Render(ps);
      assert s[1..] == Join(ps);
      SplitJoin(ps);
      forall j | 0 <= j < |ps| ensures Unrender(s)[j] == ps[j] {
        ParseItemText(ps[j]);
      }
    }
  }
}
