/**
 * Cache-aside resolution of API requests.  The browser's string store
 * (localStorage) is keyed by the request URL; an entry holding a
 * non-empty text is a hit and is decoded, anything else is a miss: the
 * remote API is asked, one field of its answer is kept, and the encoded
 * field is written under the URL.  The network and the JSON text codec
 * are outside the model and enter it as functions.
 */
module FetchCache {
  import opened Wrappers
  import QueryUrl

  /** A JSON value as the response parser and the text codec produce it; numbers are kept integral. */
  datatype Json =
    | JNull
    | JBool(b: bool)
    | JNumber(n: int)
    | JString(s: string)
    | JArray(items: seq<Json>)
    | JObject(fields: map<string, Json>)

  /** Why a resolution is rejected. */
  datatype Error =
    | NetworkFailure  // the request failed, or its body was not JSON
    | ParseFailure    // a stored text that the JSON parser rejects
    | TypeError       // a property read on undefined or null
    | Undefined       // the call settles on `undefined`: a page answer that is not null and has no `parse`,
                      // or a search answer whose `query` is present, not null, and has no `prefixsearch`

  /** The remote API: what requesting a URL yields, failure included. */
  type Api = string -> Result<Json, Error>

  /** The JSON text codec: serialisation and parsing. */
  datatype Codec = Codec(stringify: Json -> string, parse: string -> Result<Json, Error>)

  /**
   * The text the store keeps when asked to store `undefined`: the store
   * converts the missing value to this string.
   */
  const UndefinedText: string := "undefined"

  /**
   * Parsing a serialised value gives it back, no value serialises to the
   * empty text, parsing fails only with a syntax error, and the text
   * "undefined" is not JSON.
   */
  ghost predicate Lawful(c: Codec)
  {
    && c.parse(UndefinedText) == Failure(ParseFailure)
    && (forall t :: c.parse(t).Failure? ==> c.parse(t).error == ParseFailure)
    && forall v :: c.stringify(v) != "" && c.parse(c.stringify(v)) == Success(v)
  }

  /** The field each operation keeps: `query.prefixsearch` for a search, `parse` for a page. */
  datatype Extractor = Suggestions | ParsedPage

  /** Reading property `name` of `v`: null throws, any other non-object has no such property. */
  function Property(v: Json, name: string): (r: Result<Option<Json>, Error>)
    ensures r.Failure? <==> v.JNull?
    ensures r.Failure? ==> r.error == TypeError
    ensures r.Success? ==> (r.value.Some? <==> v.JObject? && name in v.fields)
    ensures r.Success? && r.value.Some? ==> r.value.value == v.fields[name]
  {
    match v
    case JNull => Failure(TypeError)
    case JObject(fields) => Success(if name in fields then Some(fields[name]) else None)
    case _ => Success(None)
  }

  /** The field `x` keeps from a response body. */
  function Extract(x: Extractor, body: Json): (r: Result<Json, Error>)
    ensures x == ParsedPage ==>
      (r.Success? <==> body.JObject? && "parse" in body.fields)
    ensures x == ParsedPage && r.Success? ==> r.value == body.fields["parse"]
    ensures x == Suggestions ==>
      (r.Success? <==> body.JObject? && "query" in body.fields
                       && body.fields["query"].JObject? && "prefixsearch" in body.fields["query"].fields)
    ensures x == Suggestions && r.Success? ==> r.value == body.fields["query"].fields["prefixsearch"]
    ensures r.Failure? ==> (r.error == TypeError || r.error == Undefined)
    ensures r == Failure(TypeError) <==>
      body.JNull? || (x == Suggestions && (!body.JObject? || "query" !in body.fields || body.fields["query"].JNull?))
  {
    match x
    case ParsedPage =>
      (match Property(body, "parse")
       case Failure(e) => Failure(e)
       case Success(None) => Failure(Undefined)
       case Success(Some(page)) => Success(page))
    case Suggestions =>
      match Property(body, "query")
      case Failure(e) => Failure(e)
      case Success(None) => Failure(TypeError)
      case Success(Some(query)) =>
        match Property(query, "prefixsearch")
        case Failure(e) => Failure(e)
        case Success(None) => Failure(Undefined)
        case Success(Some(suggestions)) => Success(suggestions)
  }

  /**
   * What a miss yields: a failed request or an unreadable body rejects as
   * a network failure, whatever the oracle reports; otherwise the field
   * kept from the answer.
   */
  function FromResponse(response: Result<Json, Error>, x: Extractor): (r: Result<Json, Error>)
    ensures response.Failure? ==> r == Failure(NetworkFailure)
    ensures response.Success? ==> r == Extract(x, response.value)
    ensures r.Failure? ==> r.error != ParseFailure
    ensures r == Failure(NetworkFailure) <==> response.Failure?
  {
    match response
    case Failure(_) => Failure(NetworkFailure)
    case Success(body) => Extract(x, body)
  }

  /** A stored entry counts only when it holds a non-empty text. */
  predicate IsHit(store: map<string, string>, url: string)
  {
    url in store && store[url] != ""
  }

  /** The result of one resolution, the store after it, and whether the network was asked. */
  datatype Outcome = Outcome(result: Result<Json, Error>, store: map<string, string>, fetched: bool)

  /** Resolving `url` against `store`, keeping field `x` of a fresh answer. */
  function Resolution(store: map<string, string>, url: string, x: Extractor, api: Api, codec: Codec): (o: Outcome)
    ensures o.fetched <==> !IsHit(store, url)
    ensures !o.fetched ==> o.store == store && o.result == codec.parse(store[url])
    ensures o.fetched ==> o.result == FromResponse(api(url), x)
    ensures o.fetched && api(url).Failure? ==> o.result == Failure(NetworkFailure) && o.store == store
    ensures o.result == Failure(ParseFailure) ==> !o.fetched
    ensures o.fetched && o.result.Success? ==> o.store == store[url := codec.stringify(o.result.value)]
    ensures o.fetched && o.result == Failure(Undefined) ==> o.store == store[url := UndefinedText]
    ensures o.result.Failure? && o.result != Failure(Undefined) ==> o.store == store
    ensures o.store.Keys <= store.Keys + {url}
    ensures forall k :: k in store && (k != url || IsHit(store, k)) ==> k in o.store && o.store[k] == store[k]
  {
    if IsHit(store, url) then
      Outcome(codec.parse(store[url]), store, false)
    else
      var r := FromResponse(api(url), x);
      Outcome(r, if r.Success? then store[url := codec.stringify(r.value)]
                 else if r == Failure(Undefined) then store[url := UndefinedText]
                 else store, true)
  }

  /**
   * Resolving the same URL again after a success is a hit: the network is
   * not asked (whatever it would answer), the store stays, and the value
   * is the one returned the first time.
   */
  lemma RepeatIsServedFromStore(store: map<string, string>, url: string, x: Extractor, api: Api, codec: Codec,
                                x': Extractor, api': Api)
    requires Lawful(codec)
    requires Resolution(store, url, x, api, codec).result.Success?
    ensures var o := Resolution(store, url, x, api, codec);
      Resolution(o.store, url, x', api', codec) == Outcome(o.result, o.store, false)
  {
    var o := Resolution(store, url, x, api, codec);
    if o.fetched {
      var v := o.result.value;
      assert codec.stringify(v) != "" && codec.parse(codec.stringify(v)) == Success(v);
      assert IsHit(o.store, url);
    }
  }

  /**
   * When a call settles on `undefined` (a page answer that is not null and
   * has no `parse`, or a search answer whose `query` is present, not null,
   * and has no `prefixsearch`), the text "undefined" is stored; it is not
   * empty, so every later resolution of that URL is a hit that fails to
   * parse, and the network is never asked again.  An answer that makes
   * the field read throw stores nothing and is asked again.
   */
  lemma MissingFieldSticks(store: map<string, string>, url: string, x: Extractor, api: Api, codec: Codec,
                           x': Extractor, api': Api)
    requires Lawful(codec)
    requires Resolution(store, url, x, api, codec).result == Failure(Undefined)
    ensures var o := Resolution(store, url, x, api, codec);
      Resolution(o.store, url, x', api', codec) == Outcome(Failure(ParseFailure), o.store, false)
  {
    var o := Resolution(store, url, x, api, codec);
    assert o.store[url] == UndefinedText;
  }

  /**
   * An entry holding the empty text is falsy, so it counts as a miss: the
   * network is asked again, as if the entry were absent.
   */
  lemma EmptyEntryIsRefetched(store: map<string, string>, url: string, x: Extractor, api: Api, codec: Codec)
    ensures Resolution(store[url := ""], url, x, api, codec).fetched
    ensures Resolution(store[url := ""], url, x, api, codec).result == Resolution(store - {url}, url, x, api, codec).result
  {
  }

  /** A request the client makes: the URL and the field to keep. */
  datatype Request = Request(url: string, x: Extractor)

  /** The URLs of a series of requests. */
  function Urls(reqs: seq<Request>): set<string>
  {
    if reqs == [] then {} else {reqs[0].url} + Urls(reqs[1..])
  }

  /** The store after a series of requests, and the URLs sent to the network, in order. */
  datatype Session = Session(store: map<string, string>, fetched: seq<string>)

  /** Resolving the requests one after the other. */
  function Run(store: map<string, string>, reqs: seq<Request>, api: Api, codec: Codec): Session
    decreases |reqs|
  {
    if reqs == [] then Session(store, [])
    else
      var o := Resolution(store, reqs[0].url, reqs[0].x, api, codec);
      var rest := Run(o.store, reqs[1..], api, codec);
      Session(rest.store, (if o.fetched then [reqs[0].url] else []) + rest.fetched)
  }

  /**
   * Nothing is evicted, and an entry holding a non-empty text is never
   * changed: it keeps its text and its URL is never sent to the network.
   */
  lemma {:induction false} RunKeepsFilledEntries(store: map<string, string>, reqs: seq<Request>, api: Api,
                                                codec: Codec, k: string)
    ensures store.Keys <= Run(store, reqs, api, codec).store.Keys
    ensures IsHit(store, k) ==>
      Run(store, reqs, api, codec).store[k] == store[k] && k !in Run(store, reqs, api, codec).fetched
    decreases |reqs|
  {
    if reqs != [] {
      var o := Resolution(store, reqs[0].url, reqs[0].x, api, codec);
      RunKeepsFilledEntries(o.store, reqs[1..], api, codec, k);
    }
  }

  /** Only requested URLs are written or sent to the network. */
  lemma {:induction false} RunTouchesOnlyRequested(store: map<string, string>, reqs: seq<Request>, api: Api,
                                                  codec: Codec, k: string)
    ensures var s := Run(store, reqs, api, codec);
      k !in Urls(reqs) ==> k !in s.fetched && (k in s.store <==> k in store) && (k in store ==> s.store[k] == store[k])
    decreases |reqs|
  {
    if reqs != [] {
      var o := Resolution(store, reqs[0].url, reqs[0].x, api, codec);
      RunTouchesOnlyRequested(o.store, reqs[1..], api, codec, k);
    }
  }

  /**
   * A URL resolved successfully is asked of the network at most once:
   * no later request, of any kind, sends it again.
   */
  lemma FetchedAtMostOnce(store: map<string, string>, url: string, x: Extractor, api: Api, codec: Codec,
                          later: seq<Request>)
    requires Lawful(codec)
    requires Resolution(store, url, x, api, codec).result.Success?
    ensures url !in Run(Resolution(store, url, x, api, codec).store, later, api, codec).fetched
  {
    var o := Resolution(store, url, x, api, codec);
    RepeatIsServedFromStore(store, url, x, api, codec, x, api);
    RunKeepsFilledEntries(o.store, later, api, codec, url);
  }

  /** The suggestions `[{title: "Tokyo"}]`. */
  function TokyoSuggestions(): Json
  {
    JArray([JObject(map["title" := JString("Tokyo")])])
  }

  /**
   * A first search for "Tokyo" on an empty store asks the API, returns the
   * suggestions and stores them under the search URL; a second search with
   * the network gone is served from the store with the same suggestions.
   */
  lemma TokyoSearchScenario(enc: QueryUrl.ParamEncoder, api: Api, offline: Api, codec: Codec)
    requires Lawful(codec)
    requires api(QueryUrl.SearchUrl("Tokyo", enc)) ==
      Success(JObject(map["query" := JObject(map["prefixsearch" := TokyoSuggestions()])]))
    requires forall u :: offline(u) == Failure(NetworkFailure)
    ensures var url := QueryUrl.SearchUrl("Tokyo", enc);
      var first := Resolution(map[], url, Suggestions, api, codec);
      && first == Outcome(Success(TokyoSuggestions()), map[url := codec.stringify(TokyoSuggestions())], true)
      && Resolution(first.store, url, Suggestions, offline, codec) == Outcome(Success(TokyoSuggestions()), first.store, false)
  {
    var url := QueryUrl.SearchUrl("Tokyo", enc);
    RepeatIsServedFromStore(map[], url, Suggestions, api, codec, Suggestions, offline);
  }

  /**
   * The client: the browser's store, the URLs it has sent to the network,
   * and the collaborators it cannot see (the API, the JSON codec and the
   * query-string encoding of one parameter).
   */
  class WikiClient {
    var store: map<string, string>
    ghost var fetched: seq<string>
    const api: Api
    const codec: Codec
    const encodeParam: QueryUrl.ParamEncoder

    constructor (initial: map<string, string>, api: Api, codec: Codec, encodeParam: QueryUrl.ParamEncoder)
      ensures store == initial && fetched == []
      ensures this.api == api && this.codec == codec && this.encodeParam == encodeParam
    {
      store := initial;
      fetched := [];
      this.api := api;
      this.codec := codec;
      this.encodeParam := encodeParam;
    }

    /** Sends one request to the network. */
    method Fetch(url: string) returns (response: Result<Json, Error>)
      modifies this`fetched
      ensures fetched == old(fetched) + [url]
      ensures response == api(url)
    {
      fetched := fetched + [url];
      response := api(url);
    }

    /** Looks `url` up in the store; on a miss asks the network and stores the kept field. */
    method Resolve(url: string, x: Extractor) returns (r: Result<Json, Error>)
      modifies this
      ensures var o := Resolution(old(store), url, x, api, codec);
        r == o.result && store == o.store && fetched == old(fetched) + (if o.fetched then [url] else [])
    {
      var cached := if url in store then Some(store[url]) else None;
      if cached.Some? && cached.value != "" {
        r := codec.parse(cached.value);
      } else {
        var response := Fetch(url);
        r := FromResponse(response, x);
        if r.Success? {
          store := store[url := codec.stringify(r.value)];
        } else if r == Failure(Undefined) {
          store := store[url := UndefinedText];
        }
      }
    }

    /** `wikiSearch(searchString)`: the prefix-search suggestions for a search string. */
    method Search(searchString: string) returns (r: Result<Json, Error>)
      modifies this
      ensures var url := QueryUrl.SearchUrl(searchString, encodeParam);
        var o := Resolution(old(store), url, Suggestions, api, codec);
        r == o.result && store == o.store && fetched == old(fetched) + (if o.fetched then [url] else [])
    {
      var url := QueryUrl.SearchUrl(searchString, encodeParam);
      r := Resolve(url, Suggestions);
    }

    /** `wikiPage(path)`: the parsed page whose title `path` names. */
    method Page(path: string) returns (r: Result<Json, Error>)
      modifies this
      ensures var url := QueryUrl.PageUrl(path, encodeParam);
        var o := Resolution(old(store), url, ParsedPage, api, codec);
        r == o.result && store == o.store && fetched == old(fetched) + (if o.fetched then [url] else [])
    {
      var url := QueryUrl.PageUrl(path, encodeParam);
      r := Resolve(url, ParsedPage);
    }
  }
}
