/** The parser of `k=v&k=v` query text. A key runs to the next `=` and may hold `&`; a value runs to
    the next `&` and may hold `=`. Text after the last pair that holds no `=` is dropped. */
module UrlParams {
  import opened Text

  datatype Pair = Pair(key: string, value: string)

  /** The first position of `c` at or after `from`; the length of `s` stands for npos. */
  function Find(s: string, c: char, from: nat): (i: nat)
    requires from <= |s|
    ensures from <= i <= |s|
    ensures i < |s| ==> s[i] == c
    decreases |s| - from
  {
    if from == |s| || s[from] == c then from
    else Find(s, c, from + 1)
  }

  lemma {:induction false} FindIsFirst(s: string, c: char, from: nat)
    requires from <= |s|
    ensures forall k :: from <= k < Find(s, c, from) ==> s[k] != c
    decreases |s| - from
  {
    if from < |s| && s[from] != c {
      FindIsFirst(s, c, from + 1);
    }
  }

  ghost predicate Clean(p: Pair) {
    '=' !in p.key && '&' !in p.value
  }

  ghost predicate AllClean(ps: seq<Pair>) {
    forall i :: 0 <= i < |ps| ==> Clean(ps[i])
  }

  /** Text without `=`, possibly absent. */
  ghost predicate Ignored(rest: Option<string>) {
    rest.Some? ==> '=' !in rest.value
  }

  ghost function PairText(p: Pair): string {
    p.key + "=" + p.value
  }

  /** The pairs joined by `&`, and `&` before `rest` when there is one; just `rest` when there are
      no pairs. */
  ghost function Query(ps: seq<Pair>, rest: Option<string>): string
    decreases |ps|, 0
  {
    if ps != [] then PairText(ps[0]) + Tail(ps[1..], rest)
    else if rest.Some? then rest.value else ""
  }

  /** The text behind a pair: nothing, or `&` and the query of what remains. */
  ghost function Tail(ps: seq<Pair>, rest: Option<string>): string
    decreases |ps|, 1
  {
    if ps == [] && rest.None? then "" else "&" + Query(ps, rest)
  }

  /** `out[key] = value` for each pair in turn. */
  ghost function Overlay(m: map<string, string>, ps: seq<Pair>): map<string, string>
    decreases |ps|
  {
    if ps == [] then m else Overlay(m[ps[0].key := ps[0].value], ps[1..])
  }

  /** The pairs that the text from `pos` on holds. */
  ghost function Pairs(q: string, pos: nat): seq<Pair>
    decreases |q| - pos
  {
    if pos >= |q| || Find(q, '=', pos) == |q| then []
    else
      var eq := Find(q, '=', pos);
      var amp := Find(q, '&', eq);
      [Pair(q[pos..eq], q[eq + 1..amp])] + Pairs(q, amp + 1)
  }

  /** The text that is left when no further `=` is found; None when nothing at all is left. */
  ghost function Rest(q: string, pos: nat): Option<string>
    decreases |q| - pos
  {
    if pos > |q| then None
    else if Find(q, '=', pos) == |q| then Some(q[pos..])
    else Rest(q, Find(q, '&', Find(q, '=', pos)) + 1)
  }

  method ParseUrlParams(query: string, params: map<string, string>) returns (out: map<string, string>)
    ensures out == Overlay(params, Pairs(query, 0))
  {
    out := params;
    var pos := 0;
    while pos < |query|
      invariant Overlay(params, Pairs(query, 0)) == Overlay(out, Pairs(query, pos))
      decreases |query| - pos
    {
      var eq := Find(query, '=', pos);
      if eq == |query| {
        break;
      }
      var amp := Find(query, '&', eq);
      var key := query[pos..eq];
      var value := query[eq + 1..amp];
      Unrolled(query, pos, eq, amp);
      out := out[key := value];
      pos := amp + 1;
    }
  }

  // ---- Every query is a joined list of pairs -------------------------------------------------

  lemma {:induction false} PairsAreClean(q: string, pos: nat)
    ensures AllClean(Pairs(q, pos)) && Ignored(Rest(q, pos))
    decreases |q| - pos
  {
    if pos <= |q| {
      FindIsFirst(q, '=', pos);
      FindIsFirst(q, '&', Find(q, '=', pos));
    }
    if pos <= |q| && Find(q, '=', pos) < |q| {
      PairsAreClean(q, Find(q, '&', Find(q, '=', pos)) + 1);
    }
  }

  lemma PairIsSlice(q: string, pos: nat, eq: nat, amp: nat)
    requires pos <= eq < amp <= |q| && q[eq] == '='
    ensures PairText(Pair(q[pos..eq], q[eq + 1..amp])) == q[pos..amp]
  {
  }

  lemma QueryCons(p: Pair, ps: seq<Pair>, rest: Option<string>)
    ensures Query([p] + ps, rest) == PairText(p) + Tail(ps, rest)
  {
    assert ([p] + ps)[1..] == ps;
  }

  lemma SliceJoins(q: string, pos: nat, amp: nat)
    requires pos <= amp <= |q| && (amp < |q| ==> q[amp] == '&')
    ensures q[pos..] == q[pos..amp] + if amp < |q| then "&" + q[amp + 1..] else ""
  {
  }

  /** A pair cut from the text, and a tail that is what follows it. */
  lemma JoinStep(q: string, pos: nat, amp: nat, p: Pair, ps: seq<Pair>, rest: Option<string>)
    requires pos <= amp <= |q| && (amp < |q| ==> q[amp] == '&') && PairText(p) == q[pos..amp]
    requires Tail(ps, rest) == if amp < |q| then "&" + q[amp + 1..] else ""
    ensures Query([p] + ps, rest) == q[pos..]
  {
    QueryCons(p, ps, rest);
    SliceJoins(q, pos, amp);
  }

  lemma TailFollows(q: string, amp: nat)
    requires amp <= |q|
    requires amp < |q| ==> Query(Pairs(q, amp + 1), Rest(q, amp + 1)) == q[amp + 1..]
    ensures Tail(Pairs(q, amp + 1), Rest(q, amp + 1)) == if amp < |q| then "&" + q[amp + 1..] else ""
  {
  }

  lemma Unrolled(q: string, pos: nat, eq: nat, amp: nat)
    requires pos <= |q| && eq == Find(q, '=', pos) < |q| && amp == Find(q, '&', eq)
    ensures eq < amp && Pairs(q, pos) == [Pair(q[pos..eq], q[eq + 1..amp])] + Pairs(q, amp + 1)
    ensures Rest(q, pos) == Rest(q, amp + 1)
  {
  }

  lemma PairsJoinStep(q: string, pos: nat, eq: nat, amp: nat)
    requires pos <= |q| && eq == Find(q, '=', pos) < |q| && amp == Find(q, '&', eq)
    requires amp < |q| ==> Query(Pairs(q, amp + 1), Rest(q, amp + 1)) == q[amp + 1..]
    ensures Query(Pairs(q, pos), Rest(q, pos)) == q[pos..]
  {
    Unrolled(q, pos, eq, amp);
    PairIsSlice(q, pos, eq, amp);
    TailFollows(q, amp);
    var p, ps, rest := Pair(q[pos..eq], q[eq + 1..amp]), Pairs(q, amp + 1), Rest(q, amp + 1);
    JoinStep(q, pos, amp, p, ps, rest);
  }

  lemma NoPairsJoin(q: string, pos: nat)
    requires pos <= |q| && Find(q, '=', pos) == |q|
    ensures Query(Pairs(q, pos), Rest(q, pos)) == q[pos..]
  {
  }

  lemma {:induction false} PairsJoin(q: string, pos: nat)
    requires pos <= |q|
    ensures Query(Pairs(q, pos), Rest(q, pos)) == q[pos..]
    decreases |q| - pos
  {
    var eq := Find(q, '=', pos);
    if eq < |q| {
      var amp := Find(q, '&', eq);
      if amp < |q| {
        PairsJoin(q, amp + 1);
      }
      PairsJoinStep(q, pos, eq, amp);
    } else {
      NoPairsJoin(q, pos);
    }
  }

  /** Every text is some clean pairs joined by `&` and an ignored rest: nothing else is dropped. */
  lemma EveryQueryDecomposes(q: string)
    ensures AllClean(Pairs(q, 0)) && Ignored(Rest(q, 0))
    ensures Query(Pairs(q, 0), Rest(q, 0)) == q
  {
    PairsAreClean(q, 0);
    PairsJoin(q, 0);
  }

  // ---- Parsing undoes joining ----------------------------------------------------------------

  lemma FindIs(s: string, c: char, from: nat, i: nat)
    requires from <= i <= |s| && (forall k :: from <= k < i ==> s[k] != c) && (i < |s| ==> s[i] == c)
    ensures Find(s, c, from) == i
  {
    var j := Find(s, c, from);
    FindIsFirst(s, c, from);
    assert !(j < i) && !(i < j);
  }

  /** `u` is written in `q` at `pos`. */
  ghost predicate At(q: string, pos: nat, u: string) {
    pos + |u| <= |q| && forall k :: 0 <= k < |u| ==> q[pos + k] == u[k]
  }

  lemma AtEach(q: string, pos: nat, u: string)
    requires At(q, pos, u)
    ensures forall k :: pos <= k < pos + |u| ==> q[k] == u[k - pos]
  {
    forall k | pos <= k < pos + |u|
      ensures q[k] == u[k - pos]
    {
      assert q[pos + (k - pos)] == u[k - pos];
    }
  }

  lemma AtSplit(q: string, pos: nat, a: string, b: string)
    requires At(q, pos, a + b)
    ensures At(q, pos, a) && At(q, pos + |a|, b)
  {
    assert forall k :: 0 <= k < |a| ==> (a + b)[k] == a[k];
    forall k | 0 <= k < |b|
      ensures q[pos + |a| + k] == b[k]
    {
      assert (a + b)[|a| + k] == b[k];
    }
  }

  /** A pair written at `pos`, with `&` or the end of the text behind it. */
  ghost predicate WrittenAt(q: string, pos: nat, p: Pair, amp: nat) {
    && amp == pos + |p.key| + 1 + |p.value| <= |q|
    && At(q, pos, p.key)
    && q[pos + |p.key|] == '='
    && At(q, pos + |p.key| + 1, p.value)
    && (amp < |q| ==> q[amp] == '&')
  }

  lemma WrittenPair(q: string, pos: nat, p: Pair, amp: nat)
    requires At(q, pos, PairText(p)) && amp == pos + |p.key| + 1 + |p.value|
    requires amp < |q| ==> q[amp] == '&'
    ensures WrittenAt(q, pos, p, amp)
  {
    AtSplit(q, pos, p.key + "=", p.value);
    AtSplit(q, pos, p.key, "=");
    AtEach(q, pos + |p.key|, "=");
  }

  lemma Separators(q: string, pos: nat, p: Pair, amp: nat)
    requires Clean(p) && WrittenAt(q, pos, p, amp)
    ensures Find(q, '=', pos) == pos + |p.key| && Find(q, '&', pos + |p.key|) == amp
  {
    var eq := pos + |p.key|;
    AtEach(q, pos, p.key);
    FindIs(q, '=', pos, eq);
    AtEach(q, eq + 1, p.value);
    FindIs(q, '&', eq, amp);
  }

  lemma FirstPair(q: string, pos: nat, p: Pair, amp: nat)
    requires Clean(p) && WrittenAt(q, pos, p, amp)
    ensures Pairs(q, pos) == [p] + Pairs(q, amp + 1)
  {
    var eq := pos + |p.key|;
    Separators(q, pos, p, amp);
    Unrolled(q, pos, eq, amp);
    assert q[pos..eq] == p.key;
    assert q[eq + 1..amp] == p.value;
  }

  lemma NoPairs(q: string, pos: nat, u: string)
    requires At(q, pos, u) && pos + |u| == |q| && '=' !in u
    ensures Pairs(q, pos) == []
  {
    AtEach(q, pos, u);
    FindIs(q, '=', pos, |q|);
  }

  /** Where a pair and its tail lie. */
  lemma PairThenTail(q: string, pos: nat, p: Pair, ps: seq<Pair>, rest: Option<string>, amp: nat)
    requires At(q, pos, PairText(p) + Tail(ps, rest)) && amp == pos + |p.key| + 1 + |p.value|
    requires amp + |Tail(ps, rest)| == |q|
    ensures WrittenAt(q, pos, p, amp)
    ensures Tail(ps, rest) != "" ==> At(q, amp + 1, Query(ps, rest)) && amp + 1 + |Query(ps, rest)| == |q|
  {
    AtSplit(q, pos, PairText(p), Tail(ps, rest));
    if Tail(ps, rest) != "" {
      AtSplit(q, amp, "&", Query(ps, rest));
      AtEach(q, amp, "&");
    }
    WrittenPair(q, pos, p, amp);
  }

  lemma {:induction false} JoinedReads(q: string, pos: nat, ps: seq<Pair>, rest: Option<string>)
    requires At(q, pos, Query(ps, rest)) && pos + |Query(ps, rest)| == |q|
    requires AllClean(ps) && Ignored(rest)
    ensures Pairs(q, pos) == ps
    decreases |ps|
  {
    if ps == [] {
      NoPairs(q, pos, Query(ps, rest));
    } else {
      var p := ps[0];
      var amp := pos + |p.key| + 1 + |p.value|;
      PairThenTail(q, pos, p, ps[1..], rest, amp);
      FirstPair(q, pos, p, amp);
      if Tail(ps[1..], rest) != "" {
        JoinedReads(q, amp + 1, ps[1..], rest);
      }
      assert ps == [p] + ps[1..];
    }
  }

  /** Parsing joined pairs gives those very pairs back, whatever ignored text follows them. */
  lemma ParsingUndoesJoining(ps: seq<Pair>, rest: Option<string>)
    requires AllClean(ps) && Ignored(rest)
    ensures Pairs(Query(ps, rest), 0) == ps
  {
    JoinedReads(Query(ps, rest), 0, ps, rest);
  }

  // ---- The last occurrence of a key wins -----------------------------------------------------

  ghost predicate LastAt(ps: seq<Pair>, k: string, i: nat) {
    i < |ps| && ps[i].key == k && forall j :: i < j < |ps| ==> ps[j].key != k
  }

  ghost predicate Mentions(ps: seq<Pair>, k: string) {
    exists i :: 0 <= i < |ps| && ps[i].key == k
  }

  lemma {:induction false} UnmentionedStays(m: map<string, string>, ps: seq<Pair>, k: string)
    requires !Mentions(ps, k)
    ensures (k in Overlay(m, ps) <==> k in m) && (k in m ==> Overlay(m, ps)[k] == m[k])
    decreases |ps|
  {
    if ps != [] {
      assert ps[0].key != k;
      assert !Mentions(ps[1..], k) by {
        assert forall i :: 0 <= i < |ps[1..]| ==> ps[1..][i] == ps[i + 1];
      }
      UnmentionedStays(m[ps[0].key := ps[0].value], ps[1..], k);
    }
  }

  lemma {:induction false} LastWins(m: map<string, string>, ps: seq<Pair>, k: string, i: nat)
    requires LastAt(ps, k, i)
    ensures k in Overlay(m, ps) && Overlay(m, ps)[k] == ps[i].value
    decreases |ps|
  {
    var m' := m[ps[0].key := ps[0].value];
    if i == 0 {
      UnmentionedStays(m', ps[1..], k);
    } else {
      LastWins(m', ps[1..], k, i - 1);
    }
  }

  /** The result of parsing joined pairs: the value of a key's last pair, and for a key that no pair
      names whatever was there before. */
  lemma JoinedPairsAnswer(m: map<string, string>, ps: seq<Pair>, rest: Option<string>, k: string)
    requires AllClean(ps) && Ignored(rest)
    ensures var out := Overlay(m, Pairs(Query(ps, rest), 0));
            (forall i: nat :: LastAt(ps, k, i) ==> k in out && out[k] == ps[i].value) &&
            (!Mentions(ps, k) ==> (k in out <==> k in m) && (k in m ==> out[k] == m[k]))
  {
    ParsingUndoesJoining(ps, rest);
    forall i: nat | LastAt(ps, k, i)
      ensures k in Overlay(m, ps) && Overlay(m, ps)[k] == ps[i].value
    {
      LastWins(m, ps, k, i);
    }
    if !Mentions(ps, k) {
      UnmentionedStays(m, ps, k);
    }
  }
}
