/**
 * Construction of the API request URL: fixed common parameters are merged
 * with call-specific ones by object spread, and the merged parameters are
 * serialised after the endpoint.  A parameter object is an ordered
 * association list; the serialisation of one key and value is abstract.
 */
module QueryUrl {
  import opened Wrappers
  import WikiPaths

  /** A parameter object, its properties in insertion order. */
  type Params = seq<(string, string)>

  /** Serialisation of one property, such as `key=value` with both parts escaped. */
  type ParamEncoder = (string, string) -> string

  /** The API endpoint. */
  const ApiUrl: string := "https://en.wikivoyage.org/w/api.php"

  /** The parameters every request carries; the number 2 is serialised as "2". */
  const CommonParams: Params := [("origin", "*"), ("format", "json"), ("formatversion", "2")]

  /** The property names of `ps`, in order. */
  function Keys(ps: Params): (ks: seq<string>)
    ensures |ks| == |ps|
    ensures forall i :: 0 <= i < |ps| ==> ks[i] == ps[i].0
  {
    if ps == [] then [] else [ps[0].0] + Keys(ps[1..])
  }

  /** Adding a property at the end adds its name at the end. */
  lemma KeysAppend(ps: Params, p: (string, string))
    ensures Keys(ps + [p]) == Keys(ps) + [p.0]
  {
  }

  /** No property name occurs twice, as in every object. */
  predicate Distinct(ks: seq<string>)
  {
    forall i, j :: 0 <= i < j < |ks| ==> ks[i] != ks[j]
  }

  /** Reading property `k`: the value of its first occurrence, None when absent. */
  function Get(ps: Params, k: string): (r: Option<string>)
    ensures r.None? <==> k !in Keys(ps)
  {
    if ps == [] then None
    else if ps[0].0 == k then Some(ps[0].1)
    else Get(ps[1..], k)
  }

  /**
   * Assigning property `k`: an existing property keeps its place and takes
   * the new value; a new property is added at the end.
   */
  function Put(ps: Params, k: string, v: string): (r: Params)
    ensures k in Keys(ps) ==> Keys(r) == Keys(ps)
    ensures k !in Keys(ps) ==> r == ps + [(k, v)]
  {
    if ps == [] then [(k, v)]
    else if ps[0].0 == k then [(k, v)] + ps[1..]
    else
      var r := [ps[0]] + Put(ps[1..], k, v);
      assert r[1..] == Put(ps[1..], k, v);
      r
  }

  /** After the assignment, `k` reads as `v` and every other name reads as before. */
  lemma {:induction false} PutGet(ps: Params, k: string, v: string, k': string)
    ensures Get(Put(ps, k, v), k') == if k' == k then Some(v) else Get(ps, k')
    decreases ps
  {
    if ps != [] && ps[0].0 != k {
      PutGet(ps[1..], k, v, k');
      assert Put(ps, k, v)[1..] == Put(ps[1..], k, v);
    }
  }

  /** `{ ...target, ...source }`: each property of `source`, in order, assigned onto `target`. */
  function Spread(target: Params, source: Params): Params
    decreases source
  {
    if source == [] then target
    else Spread(Put(target, source[0].0, source[0].1), source[1..])
  }

  /** The names of `ks` not in `seen`, each once, in order of first occurrence. */
  function NewKeys(seen: seq<string>, ks: seq<string>): seq<string>
    decreases ks
  {
    if ks == [] then []
    else if ks[0] in seen then NewKeys(seen, ks[1..])
    else [ks[0]] + NewKeys(seen + [ks[0]], ks[1..])
  }

  /**
   * The spread keeps the target's properties first, in their order, and
   * appends the source's new names in the source's order.
   */
  lemma {:induction false} SpreadKeys(target: Params, source: Params)
    ensures Keys(Spread(target, source)) == Keys(target) + NewKeys(Keys(target), Keys(source))
    decreases source
  {
    if source != [] {
      var (k, v) := source[0];
      var t' := Put(target, k, v);
      assert Spread(target, source) == Spread(t', source[1..]);
      SpreadKeys(t', source[1..]);
      PutKeys(target, k, v);
      assert Keys(source) == [k] + Keys(source[1..]);
      NewKeysCons(Keys(target), k, Keys(source[1..]));
    }
  }

  /** The names after an assignment: unchanged for an existing name, one more for a new one. */
  lemma PutKeys(ps: Params, k: string, v: string)
    ensures Keys(Put(ps, k, v)) == if k in Keys(ps) then Keys(ps) else Keys(ps) + [k]
  {
    if k !in Keys(ps) {
      KeysAppend(ps, (k, v));
    }
  }

  /** One step of collecting new names, seen from the names collected so far. */
  lemma NewKeysCons(seen: seq<string>, k: string, ks: seq<string>)
    ensures var seen' := if k in seen then seen else seen + [k];
      seen + NewKeys(seen, [k] + ks) == seen' + NewKeys(seen', ks)
  {
    assert ([k] + ks)[0] == k && ([k] + ks)[1..] == ks;
    if k !in seen {
      assert seen + ([k] + NewKeys(seen + [k], ks)) == (seen + [k]) + NewKeys(seen + [k], ks);
    }
  }

  /** In the spread, a source property wins; any other keeps the target's value. */
  lemma {:induction false} SpreadGet(target: Params, source: Params, k: string)
    requires Distinct(Keys(source))
    ensures Get(Spread(target, source), k) ==
      if k in Keys(source) then Get(source, k) else Get(target, k)
    decreases source
  {
    if source != [] {
      var (k0, v0) := source[0];
      var rest := source[1..];
      assert Keys(source) == [k0] + Keys(rest);
      assert Distinct(Keys(rest));
      SpreadGet(Put(target, k0, v0), rest, k);
      PutGet(target, k0, v0, k);
    }
  }

  /** A name list with no repeats keeps none once the new names are appended. */
  lemma {:induction false} NewKeysDistinct(seen: seq<string>, ks: seq<string>)
    requires Distinct(seen)
    ensures Distinct(seen + NewKeys(seen, ks))
    decreases ks
  {
    if ks != [] {
      if ks[0] in seen {
        NewKeysDistinct(seen, ks[1..]);
      } else {
        NewKeysDistinct(seen + [ks[0]], ks[1..]);
        assert seen + NewKeys(seen, ks) == (seen + [ks[0]]) + NewKeys(seen + [ks[0]], ks[1..]);
      }
    }
  }

  /** `querystring.stringify`: the encoded properties joined by `&`. */
  function Stringify(ps: Params, enc: ParamEncoder): string
    decreases |ps|, 0
  {
    if ps == [] then "" else enc(ps[0].0, ps[0].1) + Joined(ps[1..], enc)
  }

  /** What follows the first property: nothing, or `&` and the rest. */
  function Joined(rest: Params, enc: ParamEncoder): (r: string)
    ensures r == [] <==> rest == []
    ensures r != [] ==> r[0] == '&' && r[1..] == Stringify(rest, enc)
    decreases |rest|, 1
  {
    if rest == [] then "" else "&" + Stringify(rest, enc)
  }

  /**
   * An encoder whose pieces are never empty, never contain `&`, and tell
   * their key and value apart, as an escaping `key=value` encoder does.
   */
  ghost predicate Separable(enc: ParamEncoder)
  {
    && (forall k, v :: enc(k, v) != [] && '&' !in enc(k, v))
    && (forall k1, v1, k2, v2 :: enc(k1, v1) == enc(k2, v2) ==> k1 == k2 && v1 == v2)
  }

  /** A piece without `&`, followed by nothing or by `&`, ends at the first `&`. */
  lemma PieceEndsAtSeparator(a: string, x: string)
    requires '&' !in a
    requires x == [] || x[0] == '&'
    ensures WikiPaths.FirstIndex(a + x, '&') == |a|
  {
    forall j | 0 <= j < |a| ensures (a + x)[j] != '&' {
      assert (a + x)[j] == a[j];
    }
    WikiPaths.FirstIndexIs(a + x, '&', |a|);
  }

  /** A piece without `&`, followed by nothing or by `&`, can be told apart from what follows it. */
  lemma SplitAtSeparator(a: string, x: string, b: string, y: string)
    requires '&' !in a && '&' !in b
    requires x == [] || x[0] == '&'
    requires y == [] || y[0] == '&'
    requires a + x == b + y
    ensures a == b && x == y
  {
    PieceEndsAtSeparator(a, x);
    PieceEndsAtSeparator(b, y);
    assert a == (a + x)[..|a|];
    assert b == (b + y)[..|b|];
  }

  /** With a separable encoder, the query string determines the parameters. */
  lemma {:induction false} StringifyInjective(ps: Params, qs: Params, enc: ParamEncoder)
    requires Separable(enc)
    requires Stringify(ps, enc) == Stringify(qs, enc)
    ensures ps == qs
    decreases |ps|
  {
    StringifyEmpty(ps, enc);
    StringifyEmpty(qs, enc);
    if ps != [] && qs != [] {
      SeparablePieces(enc, ps[0], qs[0]);
      StringifyHead(ps, qs, enc);
      StringifyInjective(ps[1..], qs[1..], enc);
      assert ps == [ps[0]] + ps[1..];
      assert qs == [qs[0]] + qs[1..];
    }
  }

  /** With a separable encoder, only the empty list serialises to the empty text. */
  lemma StringifyEmpty(ps: Params, enc: ParamEncoder)
    requires Separable(enc)
    ensures Stringify(ps, enc) == [] <==> ps == []
  {
    if ps != [] {
      assert enc(ps[0].0, ps[0].1) != [];
    }
  }

  /** What a separable encoder promises about two pieces. */
  lemma SeparablePieces(enc: ParamEncoder, p: (string, string), q: (string, string))
    requires Separable(enc)
    ensures '&' !in enc(p.0, p.1) && '&' !in enc(q.0, q.1)
    ensures enc(p.0, p.1) == enc(q.0, q.1) ==> p == q
  {
  }

  /** Equal query strings start with the same property, and agree on the rest. */
  lemma StringifyHead(ps: Params, qs: Params, enc: ParamEncoder)
    requires ps != [] && qs != []
    requires '&' !in enc(ps[0].0, ps[0].1) && '&' !in enc(qs[0].0, qs[0].1)
    requires enc(ps[0].0, ps[0].1) == enc(qs[0].0, qs[0].1) ==> ps[0] == qs[0]
    requires Stringify(ps, enc) == Stringify(qs, enc)
    ensures ps[0] == qs[0]
    ensures Stringify(ps[1..], enc) == Stringify(qs[1..], enc)
  {
    var x, y := Joined(ps[1..], enc), Joined(qs[1..], enc);
    SplitAtSeparator(enc(ps[0].0, ps[0].1), x, enc(qs[0].0, qs[0].1), y);
    if x != [] {
      assert x[1..] == y[1..];
    }
  }

  /** The parameters a request carries: `{ ...common, ...special }`. */
  function QueryParams(special: Params): Params
  {
    Spread(CommonParams, special)
  }

  /** `wikiQueryUrl(special)`: endpoint, `?`, then the serialised parameters. */
  function WikiQueryUrl(special: Params, enc: ParamEncoder): (url: string)
    ensures |url| > |ApiUrl| && url[..|ApiUrl| + 1] == ApiUrl + "?"
  {
    ApiUrl + "?" + Stringify(QueryParams(special), enc)
  }

  /**
   * Parameter layout: origin, format and formatversion first; then the new
   * names of the special parameters in their order; a special parameter
   * named like a common one overrides its value in the common one's place.
   */
  lemma QueryParamsLayout(special: Params, k: string)
    requires Distinct(Keys(special))
    ensures Keys(QueryParams(special)) ==
      ["origin", "format", "formatversion"] + NewKeys(Keys(CommonParams), Keys(special))
    ensures Distinct(Keys(QueryParams(special)))
    ensures Get(QueryParams(special), k) ==
      if k in Keys(special) then Get(special, k) else Get(CommonParams, k)
  {
    CommonKeys();
    SpreadKeys(CommonParams, special);
    SpreadGet(CommonParams, special, k);
    NewKeysDistinct(Keys(CommonParams), Keys(special));
  }

  /** The common names, in order, none repeated. */
  lemma CommonKeys()
    ensures Keys(CommonParams) == ["origin", "format", "formatversion"]
    ensures Distinct(Keys(CommonParams))
  {
    assert "origin"[0] != "format"[0] && "origin"[0] != "formatversion"[0];
    assert |"format"| != |"formatversion"|;
  }

  /** The URL names its parameters: equal URLs carry equal parameter lists. */
  lemma QueryUrlInjective(s1: Params, s2: Params, enc: ParamEncoder)
    requires Separable(enc)
    ensures WikiQueryUrl(s1, enc) == WikiQueryUrl(s2, enc) ==> QueryParams(s1) == QueryParams(s2)
  {
    if WikiQueryUrl(s1, enc) == WikiQueryUrl(s2, enc) {
      var n := |ApiUrl + "?"|;
      assert Stringify(QueryParams(s1), enc) == WikiQueryUrl(s1, enc)[n..];
      assert Stringify(QueryParams(s2), enc) == WikiQueryUrl(s2, enc)[n..];
      StringifyInjective(QueryParams(s1), QueryParams(s2), enc);
    }
  }

  /** The special parameters of a prefix search for `searchString`. */
  function SearchParams(searchString: string): Params
  {
    [("action", "query"), ("list", "prefixsearch"), ("pssearch", searchString)]
  }

  /** The special parameters of a request for the parsed text of the page at `path`. */
  function PageParams(path: string): Params
  {
    [("action", "parse"), ("page", WikiPaths.WikiTitle(path)), ("prop", "text")]
  }

  /** The cache key and request URL of `wikiSearch(searchString)`. */
  function SearchUrl(searchString: string, enc: ParamEncoder): string
  {
    WikiQueryUrl(SearchParams(searchString), enc)
  }

  /** The cache key and request URL of `wikiPage(path)`. */
  function PageUrl(path: string, enc: ParamEncoder): string
  {
    WikiQueryUrl(PageParams(path), enc)
  }

  /** No name of `source` is a name of `target`, and none occurs twice in `source`. */
  predicate FreshNames(target: Params, source: Params)
  {
    && (forall i, j :: 0 <= i < |source| && 0 <= j < |target| ==> source[i].0 != target[j].0)
    && (forall i, j :: 0 <= i < j < |source| ==> source[i].0 != source[j].0)
  }

  /** Moving the first fresh property onto the target leaves the others fresh. */
  lemma FreshNamesStep(target: Params, source: Params)
    requires source != [] && FreshNames(target, source)
    ensures source[0].0 !in Keys(target)
    ensures FreshNames(target + [source[0]], source[1..])
  {
    var t', rest := target + [source[0]], source[1..];
    forall i, j | 0 <= i < |rest| && 0 <= j < |t'| ensures rest[i].0 != t'[j].0 {
      assert rest[i] == source[i + 1];
      if j < |target| {
        assert t'[j] == target[j];
      }
    }
  }

  /** Spreading properties whose names are all new simply appends them. */
  lemma {:induction false} SpreadFresh(target: Params, source: Params)
    requires FreshNames(target, source)
    ensures Spread(target, source) == target + source
    decreases |source|
  {
    if source != [] {
      var p, rest := source[0], source[1..];
      FreshNamesStep(target, source);
      assert Spread(target, source) == Spread(target + [p], rest);
      SpreadFresh(target + [p], rest);
      assert target + [p] + rest == target + source;
    }
  }

  /** A search request carries the three common parameters, then action, list and pssearch. */
  lemma SearchQueryParams(searchString: string)
    ensures QueryParams(SearchParams(searchString)) == CommonParams + SearchParams(searchString)
  {
    var sp := SearchParams(searchString);
    SpreadFresh(CommonParams, sp);
  }

  /** A page request carries the three common parameters, then action, page and prop. */
  lemma PageQueryParams(path: string)
    ensures QueryParams(PageParams(path)) == CommonParams + PageParams(path)
  {
    var pp := PageParams(path);
    SpreadFresh(CommonParams, pp);
  }

  /** Distinct search strings never share a cache entry. */
  lemma SearchUrlInjective(a: string, b: string, enc: ParamEncoder)
    requires Separable(enc)
    ensures SearchUrl(a, enc) == SearchUrl(b, enc) ==> a == b
  {
    QueryUrlInjective(SearchParams(a), SearchParams(b), enc);
    SearchQueryParams(a);
    SearchQueryParams(b);
    assert (CommonParams + SearchParams(a))[5] == ("pssearch", a);
    assert (CommonParams + SearchParams(b))[5] == ("pssearch", b);
  }

  /** A search and a page request never share a cache entry. */
  lemma SearchPageUrlsDiffer(searchString: string, path: string, enc: ParamEncoder)
    requires Separable(enc)
    ensures SearchUrl(searchString, enc) != PageUrl(path, enc)
  {
    SearchQueryParams(searchString);
    PageQueryParams(path);
    assert QueryParams(SearchParams(searchString))[3] == ("action", "query");
    assert QueryParams(PageParams(path))[3] == ("action", "parse");
    assert "query"[0] != "parse"[0];
    QueryUrlInjective(SearchParams(searchString), PageParams(path), enc);
  }

  /** Two page requests share a cache entry exactly when their paths name the same title. */
  lemma PageUrlSameTitle(a: string, b: string, enc: ParamEncoder)
    requires Separable(enc)
    ensures PageUrl(a, enc) == PageUrl(b, enc) <==> WikiPaths.WikiTitle(a) == WikiPaths.WikiTitle(b)
  {
    QueryUrlInjective(PageParams(a), PageParams(b), enc);
    PageQueryParams(a);
    PageQueryParams(b);
    assert (CommonParams + PageParams(a))[4] == ("page", WikiPaths.WikiTitle(a));
    assert (CommonParams + PageParams(b))[4] == ("page", WikiPaths.WikiTitle(b));
  }

  /**
   * Two paths with the same title share one cache entry: the page at
   * "/wiki/Paris" and the bare title "Paris" are stored once.
   */
  lemma PageUrlByTitle(enc: ParamEncoder)
    ensures PageUrl("/wiki/Paris", enc) == PageUrl("Paris", enc)
  {
    WikiPaths.ParisTitle();
    WikiPaths.ParisBareTitle();
  }

  /** A special parameter named like a common one takes its value and keeps its place. */
  lemma SpecialOverridesCommonInPlace()
    ensures QueryParams([("format", "xml"), ("action", "query")]) ==
      [("origin", "*"), ("format", "xml"), ("formatversion", "2"), ("action", "query")]
  {
    CommonKeys();
    var t := Put(CommonParams, "format", "xml");
    assert t == [("origin", "*"), ("format", "xml"), ("formatversion", "2")] by {
      assert CommonParams[0].0 != "format" && CommonParams[1].0 == "format";
      assert CommonParams[1..][1..] == [("formatversion", "2")];
    }
    assert "action" !in Keys(t) by {
      assert "action"[0] != "origin"[0] && "action"[0] != "format"[0] && "action"[0] != "formatversion"[0];
    }
  }
}
