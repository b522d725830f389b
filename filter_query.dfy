/**
 * The filter-to-query pattern of the event and sport services: for each
 * filter field in a fixed order, `if (filters.f) params.append('f', value)`,
 * so a falsy field (`undefined`, `''`, `0`) adds nothing and a number is
 * appended as its `toString()`.
 */
module FilterQuery {
  import opened Wrappers
  import opened JsValue
  import Text
  import opened UrlEncoding

  /** A parameter the builder may append: its name and, when the filter's value is truthy, the text it appends. */
  type Candidate = (string, Option<string>)

  /** A string filter: appended as it is when truthy. */
  function StringParam(v: Option<string>): (r: Option<string>)
    ensures r.Some? <==> TruthyStr(v)
    ensures r.Some? ==> r == v
  {
    if TruthyStr(v) then v else None
  }

  /** A numeric filter: appended as `v.toString()` when truthy. */
  function NumberParam(v: Option<int>): (r: Option<string>)
    ensures r.Some? <==> TruthyNum(v)
    ensures r.Some? ==> r.value == Text.IntToString(v.value)
  {
    if TruthyNum(v) then Some(Text.IntToString(v.value)) else None
  }

  /** What one `if ... append` adds: the pair when the value is truthy, nothing otherwise. */
  function Emitted(c: Candidate): (r: Params)
    ensures c.1.Some? ==> r == [(c.0, c.1.value)]
    ensures c.1.None? ==> r == []
  {
    if c.1.Some? then [(c.0, c.1.value)] else []
  }

  /** The pairs the `if ... append` chain leaves in the `URLSearchParams`, one candidate after another. */
  function Appended(cands: seq<Candidate>): Params
    decreases |cands|
  {
    if |cands| == 0 then [] else Appended(cands[..|cands| - 1]) + Emitted(cands[|cands| - 1])
  }

  /** One more `if ... append`: the pairs of a longer prefix of the candidates. */
  lemma AppendedStep(cands: seq<Candidate>, k: nat)
    requires k < |cands|
    ensures Appended(cands[..k + 1]) == Appended(cands[..k]) + Emitted(cands[k])
  {
    assert cands[..k + 1][..k] == cands[..k];
  }

  function Names<T>(s: seq<(string, T)>): (r: seq<string>)
    ensures |r| == |s|
  {
    seq(|s|, i requires 0 <= i < |s| => s[i].0)
  }

  predicate Distinct(names: seq<string>)
  {
    forall i, j :: 0 <= i < j < |names| ==> names[i] != names[j]
  }

  /** The index of a name in the fixed order. */
  function Position(names: seq<string>, x: string): (k: nat)
    requires x in names
    ensures k < |names| && names[k] == x
  {
    if names[0] == x then 0 else 1 + Position(names[1..], x)
  }

  lemma PositionOf(names: seq<string>, k: nat)
    requires Distinct(names) && k < |names|
    ensures Position(names, names[k]) == k
  {
    var j := Position(names, names[k]);
    assert names[j] == names[k];
  }

  /** Distinct names stay distinct in the prefix without the last candidate, and keep their positions. */
  lemma {:induction false} PrefixPosition(cands: seq<Candidate>, x: string)
    requires |cands| > 0 && Distinct(Names(cands))
    requires x in Names(cands[..|cands| - 1])
    ensures Distinct(Names(cands[..|cands| - 1]))
    ensures x in Names(cands) && Position(Names(cands), x) == Position(Names(cands[..|cands| - 1]), x) < |cands| - 1
  {
    var names, prefixNames := Names(cands), Names(cands[..|cands| - 1]);
    assert forall i :: 0 <= i < |cands| - 1 ==> prefixNames[i] == names[i];
    var k := Position(prefixNames, x);
    assert names[k] == x;
    PositionOf(names, k);
  }

  lemma PrefixDistinct(cands: seq<Candidate>)
    requires |cands| > 0 && Distinct(Names(cands))
    ensures Distinct(Names(cands[..|cands| - 1]))
  {
    var names := Names(cands);
    assert Names(cands[..|cands| - 1]) == names[..|cands| - 1];
  }

  /** Every appended pair comes from a truthy candidate of the same name, with its value. */
  lemma {:induction false} AppendedFrom(cands: seq<Candidate>)
    requires Distinct(Names(cands))
    ensures forall p :: p in Appended(cands) ==> p.0 in Names(cands) && cands[Position(Names(cands), p.0)].1 == Some(p.1)
    decreases |cands|
  {
    if |cands| > 0 {
      var n := |cands|;
      var pre := cands[..n - 1];
      PrefixDistinct(cands);
      AppendedFrom(pre);
      forall p | p in Appended(cands)
        ensures p.0 in Names(cands) && cands[Position(Names(cands), p.0)].1 == Some(p.1)
      {
        if p in Appended(pre) {
          PrefixPosition(cands, p.0);
        } else {
          PositionOf(Names(cands), n - 1);
        }
      }
    }
  }

  /**
   * The pairs follow the candidates' order; with distinct candidate names,
   * no name is appended twice.
   */
  lemma {:induction false} AppendedInOrder(cands: seq<Candidate>)
    requires Distinct(Names(cands))
    ensures forall p :: p in Appended(cands) ==> p.0 in Names(cands)
    ensures forall i, j :: 0 <= i < j < |Appended(cands)| ==>
      Position(Names(cands), Appended(cands)[i].0) < Position(Names(cands), Appended(cands)[j].0)
    decreases |cands|
  {
    AppendedFrom(cands);
    if |cands| > 0 {
      var n := |cands|;
      var pre := cands[..n - 1];
      PrefixDistinct(cands);
      AppendedInOrder(pre);
      AppendedFrom(pre);
      var r, before := Appended(cands), Appended(pre);
      forall i, j | 0 <= i < j < |r|
        ensures Position(Names(cands), r[i].0) < Position(Names(cands), r[j].0)
      {
        assert r[i] == before[i] && r[i] in before;
        PrefixPosition(cands, r[i].0);
        if j < |before| {
          assert r[j] == before[j] && r[j] in before;
          PrefixPosition(cands, r[j].0);
          assert Position(Names(pre), before[i].0) < Position(Names(pre), before[j].0);
        } else {
          assert r == before + [(cands[n - 1].0, cands[n - 1].1.value)];
          PositionOf(Names(cands), n - 1);
        }
      }
    }
  }

  /** A candidate's name is appended exactly when its value is truthy, and then with that value. */
  lemma {:induction false} AppendedHas(cands: seq<Candidate>, k: nat)
    requires Distinct(Names(cands)) && k < |cands|
    ensures cands[k].0 in Names(Appended(cands)) <==> cands[k].1.Some?
    ensures cands[k].1.Some? ==> (cands[k].0, cands[k].1.value) in Appended(cands)
  {
    var names := Names(cands);
    AppendedFrom(cands);
    if cands[k].0 in Names(Appended(cands)) {
      var r := Appended(cands);
      var i :| 0 <= i < |r| && r[i].0 == cands[k].0;
      assert r[i] in r;
      PositionOf(names, k);
    }
    if cands[k].1.Some? {
      AppendedContains(cands, k);
      var r := Appended(cands);
      var i :| 0 <= i < |r| && r[i] == (cands[k].0, cands[k].1.value);
      assert Names(r)[i] == cands[k].0;
    }
  }

  lemma {:induction false} AppendedContains(cands: seq<Candidate>, k: nat)
    requires k < |cands| && cands[k].1.Some?
    ensures (cands[k].0, cands[k].1.value) in Appended(cands)
    decreases |cands|
  {
    var n := |cands|;
    if k < n - 1 {
      AppendedContains(cands[..n - 1], k);
    }
  }

  /** Falsy candidates add nothing: when none is truthy the query is empty. */
  lemma {:induction false} NothingTruthyAppendsNothing(cands: seq<Candidate>)
    requires forall i :: 0 <= i < |cands| ==> cands[i].1.None?
    ensures Appended(cands) == []
    decreases |cands|
  {
    if |cands| > 0 {
      NothingTruthyAppendsNothing(cands[..|cands| - 1]);
    }
  }

  /** `if (value) params.append(name, value)` for one candidate. */
  method AppendIfTruthy(params: SearchParams, candidate: Candidate)
    modifies params
    ensures params.list == old(params.list) + Emitted(candidate)
  {
    if candidate.1.Some? {
      params.Append(candidate.0, candidate.1.value);
    }
  }

  /**
   * One more `if ... append` of a builder: `done` are the candidates checked
   * so far, and the pairs appended are theirs.
   */
  method AppendNext(params: SearchParams, ghost done: seq<Candidate>, candidate: Candidate) returns (ghost done': seq<Candidate>)
    requires params.list == Appended(done)
    modifies params
    ensures done' == done + [candidate] && params.list == Appended(done')
  {
    AppendIfTruthy(params, candidate);
    done' := done + [candidate];
    assert done'[..|done|] == done;
  }

  /** A name made only of kept characters is written as it is by the form serializer. */
  lemma {:induction false} EscapeKeepsPlain(e: Escaping, s: string)
    requires forall i :: 0 <= i < |s| ==> Keeps(e, s[i])
    ensures Escape(e, s) == s
  {
    if |s| > 0 {
      EscapeKeepsPlain(e, s[1..]);
      assert [s[0]] + s[1..] == s;
    }
  }

  predicate IsPlainName(s: string)
  {
    forall i :: 0 <= i < |s| ==> IsAlphanumeric(s[i])
  }

  /**
   * A template-literal query `n1=v1&n2=v2` with plain names and integral
   * values is what `URLSearchParams` would write for those two pairs, so it
   * reads back as them.
   */
  lemma {:induction false} TwoNumberPairsReadBack(n1: string, v1: int, n2: string, v2: int)
    requires IsPlainName(n1) && IsPlainName(n2)
    ensures ParseQuery(n1 + "=" + Text.IntToString(v1) + "&" + n2 + "=" + Text.IntToString(v2))
         == Some([(n1, Text.IntToString(v1)), (n2, Text.IntToString(v2))])
  {
    var list := [(n1, Text.IntToString(v1)), (n2, Text.IntToString(v2))];
    EscapeKeepsPlain(FormUrlencoded, n1);
    EscapeKeepsPlain(FormUrlencoded, n2);
    IntRenderingIsPlain(FormUrlencoded, v1);
    IntRenderingIsPlain(FormUrlencoded, v2);
    PlainPairs(list[0], list[1]);
    SerializeRoundTrip(list);
  }

  /**
   * A template-literal query `name=${encodeURIComponent(value)}` with a
   * plain name reads back as that one pair, whatever the value holds.
   */
  lemma {:induction false} EncodedPairReadsBack(name: string, value: string)
    requires IsPlainName(name)
    ensures ParseQuery(name + "=" + EncodeUriComponent(value)) == Some([(name, value)])
  {
    var piece := name + "=" + EncodeUriComponent(value);
    EncodedPairParses(name, value);
    assert Text.Split(piece, '&') == [piece];
    var pieces := [piece];
    assert pieces[0] == piece && pieces[0] != "" && pieces[1..] == [];
    assert ParsePieces(pieces[1..]) == Some([]);
    assert ParsePieces(pieces) == Some([(name, value)] + []);
    assert [(name, value)] + [] == [(name, value)];
  }

  /** The one piece holds no `&` and splits at the `=` after the name. */
  lemma {:induction false} EncodedPairParses(name: string, value: string)
    requires IsPlainName(name)
    ensures var piece := name + "=" + EncodeUriComponent(value);
      '&' !in piece && ParsePair(piece) == Some((name, value))
  {
    var enc := EncodeUriComponent(value);
    var piece := name + "=" + enc;
    EscapedHasNoDelimiters(UriComponent, value);
    forall i | 0 <= i < |piece|
      ensures piece[i] != '&'
    {
      if i < |name| {
        assert piece[i] == name[i];
      } else if i > |name| {
        assert piece[i] == enc[i - |name| - 1];
      }
    }
    assert piece[|name|] == '=';
    assert forall i :: 0 <= i < |name| ==> piece[i] == name[i] && IsAlphanumeric(name[i]);
    var k := Text.IndexOf(piece, '=');
    assert k == |name|;
    assert piece[..k] == name && piece[k + 1..] == enc;
    EscapeKeepsPlain(FormUrlencoded, name);
    EscapeRoundTrip(FormUrlencoded, name);
    EscapeRoundTrip(UriComponent, value);
  }

  /** Two pairs whose names and values are written as they are serialize as `a=x&b=y`. */
  lemma {:induction false} PlainPairs(a: (string, string), b: (string, string))
    requires Escape(FormUrlencoded, a.0) == a.0 && Escape(FormUrlencoded, a.1) == a.1
    requires Escape(FormUrlencoded, b.0) == b.0 && Escape(FormUrlencoded, b.1) == b.1
    ensures Serialize([a, b]) == a.0 + "=" + a.1 + "&" + b.0 + "=" + b.1
  {
    var pieces := Pieces([a, b]);
    assert pieces == [EncodePair(a), EncodePair(b)];
    assert Text.Join(pieces, "&") == pieces[0] + "&" + Text.Join(pieces[1..], "&");
  }

  /** The rendering of an integer is written as it is: a minus sign and digits are all kept. */
  lemma IntRenderingIsPlain(e: Escaping, n: int)
    ensures Escape(e, Text.IntToString(n)) == Text.IntToString(n)
  {
    var s := Text.IntToString(n);
    forall i | 0 <= i < |s|
      ensures Keeps(e, s[i])
    {
      if n < 0 && i == 0 {
      } else if n < 0 {
        assert s[i] == s[1..][i - 1];
      }
    }
    EscapeKeepsPlain(e, s);
  }
}
