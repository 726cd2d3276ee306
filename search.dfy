/** The search cursor: how each request target is chosen, and how the pages
    of one run are fetched and flattened into a single stream of raw records. */
module Search {
  import opened Wrappers
  import opened JsonValues

  /** Endpoint every request goes to. */
  const BaseUrl: string := "http://search.twitter.com/search.json"
  /** Results requested per page. */
  const ResultsPerPage: int := 100
  /** Safety net: no run fetches more pages than this. */
  const MaxPages: nat := 20

  /** A value of the query-parameter dictionary handed to the URL encoder. */
  datatype ParamValue = Text(text: string) | Number(n: int)

  /** The URL encoder (`urllib.urlencode`), left abstract: it turns the
      parameter dictionary into a query string. */
  type Encoder = map<string, ParamValue> -> string

  /** What the search API sends about the following page. */
  datatype Link =
    | NoLink              // the reply has no `next_page` key
    | NullLink            // `next_page` is present but JSON null
    | Token(suffix: string) // the opaque suffix to append to the endpoint

  /** Why a fetch failed; either ends the run with exit status 1. */
  datatype FetchError = HttpError(code: int) | UrlError(reason: string)

  /** The decoded reply to one request. `results` is `None` when the reply
      has no `results` key. */
  datatype Reply =
    | Page(results: Option<seq<Record>>, next: Link)
    | Failed(error: FetchError)

  /** The answer the server gives to the k-th request of the run (counting from 0). */
  type Server = nat -> Reply

  /** The cursor's fields other than the continuation token. */
  datatype SearchConfig = SearchConfig(baseUrl: string, query: string, rpp: int, sinceId: Option<int>)

  /** The parameter dictionary built when no continuation token is held. */
  function SearchParams(cfg: SearchConfig): (d: map<string, ParamValue>)
    ensures "q" in d && d["q"] == Text(cfg.query)
    ensures "rpp" in d && d["rpp"] == Number(cfg.rpp)
    ensures "since_id" in d <==> cfg.sinceId.Some?
    ensures cfg.sinceId.Some? ==> d["since_id"] == Number(cfg.sinceId.value)
    ensures d.Keys <= {"q", "rpp", "since_id"}
  {
    var data := map["q" := Text(cfg.query), "rpp" := Number(cfg.rpp)];
    if cfg.sinceId.Some? then data["since_id" := Number(cfg.sinceId.value)] else data
  }

  /** The request target for a cursor whose continuation token is `nextPage`. */
  function SearchUrl(cfg: SearchConfig, nextPage: Option<string>, encode: Encoder): (url: string)
    ensures |cfg.baseUrl| <= |url| && url[..|cfg.baseUrl|] == cfg.baseUrl
  {
    if nextPage.Some? then cfg.baseUrl + nextPage.value
    else cfg.baseUrl + "?" + encode(SearchParams(cfg))
  }

  /** A held token decides the target alone: query, page size and since-id are not consulted. */
  lemma TokenTakesPrecedence(cfg: SearchConfig, other: SearchConfig, token: string, encode: Encoder, encode': Encoder)
    requires cfg.baseUrl == other.baseUrl
    ensures SearchUrl(cfg, Some(token), encode) == cfg.baseUrl + token
    ensures SearchUrl(cfg, Some(token), encode) == SearchUrl(other, Some(token), encode')
  {
  }

  /** Without a token the target is the endpoint, `?`, and the encoded
      dictionary, which carries `since_id` exactly when the cursor has one. */
  lemma BuiltTarget(cfg: SearchConfig, encode: Encoder)
    ensures SearchUrl(cfg, None, encode) == cfg.baseUrl + "?" + encode(SearchParams(cfg))
    ensures "since_id" in SearchParams(cfg) <==> cfg.sinceId.Some?
  {
  }

  /** Does fetching go on after this reply? */
  predicate Continues(r: Reply) {
    r.Page? && !r.next.NoLink?
  }

  /** The token in force after a reply that continues the run. */
  function TokenAfter(r: Reply): Option<string> {
    if r.Page? && r.next.Token? then Some(r.next.suffix) else None
  }

  /** The records a reply contributes: its `results`, or nothing. */
  function PageRecords(r: Reply): seq<Record> {
    if r.Page? && r.results.Some? then r.results.value else []
  }

  /** Reference definition: the records of replies `lo` up to (not including) `hi`, in order. */
  function RecordsBetween(server: Server, lo: nat, hi: nat): seq<Record>
    decreases hi - lo
  {
    if hi <= lo then [] else PageRecords(server(lo)) + RecordsBetween(server, lo + 1, hi)
  }

  /** What a run of the cursor produces: the records yielded, the targets
      requested, the token held at the end, and the fetch error that ended the run, if any. */
  datatype Fetched = Fetched(records: seq<Record>, requests: seq<string>, nextPage: Option<string>, error: Option<FetchError>)

  /** The cursor's behaviour from the k-th request on, holding `token`, after
      `records` have been yielded and `requests` made. */
  function Continue(cfg: SearchConfig, encode: Encoder, server: Server, k: nat, token: Option<string>,
                    records: seq<Record>, requests: seq<string>): (f: Fetched)
    ensures k < MaxPages ==> |requests| + 1 <= |f.requests| <= |requests| + MaxPages - k
    ensures k >= MaxPages ==> f == Fetched(records, requests, token, None)
    decreases MaxPages - k
  {
    if k >= MaxPages then Fetched(records, requests, token, None)
    else
      var url := SearchUrl(cfg, token, encode);
      var reply := server(k);
      match reply
      case Failed(e) => Fetched(records, requests + [url], token, Some(e))
      case Page(_, NoLink) => Fetched(records + PageRecords(reply), requests + [url], token, None)
      case Page(_, _) => Continue(cfg, encode, server, k + 1, TokenAfter(reply), records + PageRecords(reply), requests + [url])
  }

  /** A whole run of the cursor, starting with `token` held. */
  function Paginate(cfg: SearchConfig, encode: Encoder, server: Server, token: Option<string>): (f: Fetched)
    ensures 1 <= |f.requests| <= MaxPages
  {
    Continue(cfg, encode, server, 0, token, [], [])
  }

  /** Fetching stops right after the first reply that does not continue, or at the cap;
      the run ends in error exactly when its last reply is a failed fetch. */
  lemma {:induction false} ContinueStops(cfg: SearchConfig, encode: Encoder, server: Server, k: nat, token: Option<string>,
                                         records: seq<Record>, requests: seq<string>)
    requires k < MaxPages
    ensures var f := Continue(cfg, encode, server, k, token, records, requests);
      var n := |f.requests| - |requests|;
      && (forall j :: k <= j < k + n - 1 ==> Continues(server(j)))
      && (k + n == MaxPages || !Continues(server(k + n - 1)))
      && (f.error.Some? <==> server(k + n - 1).Failed?)
    decreases MaxPages - k
  {
    var reply := server(k);
    if Continues(reply) && k + 1 < MaxPages {
      ContinueStops(cfg, encode, server, k + 1, TokenAfter(reply), records + PageRecords(reply),
                    requests + [SearchUrl(cfg, token, encode)]);
    }
  }

  /** The records yielded are those already yielded followed by the fetched replies' results. */
  lemma {:induction false} ContinueRecords(cfg: SearchConfig, encode: Encoder, server: Server, k: nat, token: Option<string>,
                                           records: seq<Record>, requests: seq<string>)
    ensures var f := Continue(cfg, encode, server, k, token, records, requests);
      f.records == records + RecordsBetween(server, k, k + |f.requests| - |requests|)
    decreases MaxPages - k
  {
    var f := Continue(cfg, encode, server, k, token, records, requests);
    if k < MaxPages {
      var reply := server(k);
      var n := |f.requests| - |requests|;
      var got := records + PageRecords(reply);
      if Continues(reply) && k + 1 < MaxPages {
        ContinueRecords(cfg, encode, server, k + 1, TokenAfter(reply), got, requests + [SearchUrl(cfg, token, encode)]);
        assert f.records == got + RecordsBetween(server, k + 1, k + n);
        assert RecordsBetween(server, k, k + n) == PageRecords(reply) + RecordsBetween(server, k + 1, k + n);
        assert got + RecordsBetween(server, k + 1, k + n) == records + (PageRecords(reply) + RecordsBetween(server, k + 1, k + n));
      } else {
        assert n == 1;
        assert RecordsBetween(server, k + 1, k + 1) == [];
        assert RecordsBetween(server, k, k + 1) == PageRecords(reply) + [];
        assert PageRecords(reply) + [] == PageRecords(reply);
        if reply.Failed? {
          assert f.records == records;
          assert records + [] == records;
        } else {
          assert f.records == got;
        }
      }
    }
  }

  /** Requests already made stay in place; the next one uses the token held now,
      and each later one the token left by the reply before it. */
  lemma {:induction false} ContinueRequests(cfg: SearchConfig, encode: Encoder, server: Server, k: nat, token: Option<string>,
                                            records: seq<Record>, requests: seq<string>)
    requires k < MaxPages
    ensures var f := Continue(cfg, encode, server, k, token, records, requests);
      && f.requests[..|requests|] == requests
      && f.requests[|requests|] == SearchUrl(cfg, token, encode)
      && (forall i :: |requests| < i < |f.requests| ==>
            f.requests[i] == SearchUrl(cfg, TokenAfter(server(k + i - |requests| - 1)), encode))
    decreases MaxPages - k
  {
    var reply := server(k);
    var url := SearchUrl(cfg, token, encode);
    var f := Continue(cfg, encode, server, k, token, records, requests);
    var asked := requests + [url];
    assert asked[..|requests|] == requests;
    if Continues(reply) && k + 1 < MaxPages {
      var next := TokenAfter(reply);
      assert f == Continue(cfg, encode, server, k + 1, next, records + PageRecords(reply), asked);
      ContinueRequests(cfg, encode, server, k + 1, next, records + PageRecords(reply), asked);
      assert f.requests[..|requests|] == f.requests[..|asked|][..|requests|];
      forall i | |requests| < i < |f.requests|
        ensures f.requests[i] == SearchUrl(cfg, TokenAfter(server(k + i - |requests| - 1)), encode)
      {
        if i == |asked| {
          assert k + i - |requests| - 1 == k;
        } else {
          assert (k + 1) + i - |asked| - 1 == k + i - |requests| - 1;
        }
      }
    } else {
      assert f.requests == asked;
    }
  }

  /** Against a server that always offers a further page, a run makes exactly `MaxPages` requests. */
  lemma EndlessServerHitsCap(cfg: SearchConfig, encode: Encoder, server: Server, token: Option<string>)
    requires forall j :: Continues(server(j))
    ensures |Paginate(cfg, encode, server, token).requests| == MaxPages
  {
    ContinueStops(cfg, encode, server, 0, token, [], []);
  }

  /** Once a token is stored it is kept: when no reply sends a null `next_page`,
      every request after the first is the endpoint plus the previous reply's token. */
  lemma LaterRequestsUseToken(cfg: SearchConfig, encode: Encoder, server: Server, token: Option<string>)
    requires forall j :: server(j).Page? ==> !server(j).next.NullLink?
    ensures var f := Paginate(cfg, encode, server, token);
      && f.requests[0] == SearchUrl(cfg, token, encode)
      && forall i :: 0 < i < |f.requests| ==>
           server(i - 1).Page? && server(i - 1).next.Token? &&
           f.requests[i] == cfg.baseUrl + server(i - 1).next.suffix
  {
    var f := Paginate(cfg, encode, server, token);
    ContinueStops(cfg, encode, server, 0, token, [], []);
    ContinueRequests(cfg, encode, server, 0, token, [], []);
    forall i | 0 < i < |f.requests|
      ensures server(i - 1).Page? && server(i - 1).next.Token?
      ensures f.requests[i] == cfg.baseUrl + server(i - 1).next.suffix
    {
      assert Continues(server(i - 1));
    }
  }

  /** The records a run yields are, in order, the results of the replies it fetched. */
  lemma PaginateRecords(cfg: SearchConfig, encode: Encoder, server: Server, token: Option<string>)
    ensures var f := Paginate(cfg, encode, server, token);
      f.records == RecordsBetween(server, 0, |f.requests|)
  {
    ContinueRecords(cfg, encode, server, 0, token, [], []);
  }

  /** How many requests a run makes: one more than the number of replies that
      continue it, up to the cap; its error is the last reply's, if that failed. */
  lemma PaginateStops(cfg: SearchConfig, encode: Encoder, server: Server, token: Option<string>)
    ensures var f := Paginate(cfg, encode, server, token);
      var n := |f.requests|;
      && 1 <= n <= MaxPages
      && (forall j :: 0 <= j < n - 1 ==> Continues(server(j)))
      && (n == MaxPages || !Continues(server(n - 1)))
      && (f.error.Some? <==> server(n - 1).Failed?)
      && (f.error.Some? ==> server(n - 1) == Failed(f.error.value))
  {
    ContinueStops(cfg, encode, server, 0, token, [], []);
    ContinueError(cfg, encode, server, 0, token, [], []);
  }

  /** The error a run ends with is the one its last reply carries. */
  lemma {:induction false} ContinueError(cfg: SearchConfig, encode: Encoder, server: Server, k: nat, token: Option<string>,
                                         records: seq<Record>, requests: seq<string>)
    requires k < MaxPages
    ensures var f := Continue(cfg, encode, server, k, token, records, requests);
      f.error.Some? ==> server(k + |f.requests| - |requests| - 1) == Failed(f.error.value)
    decreases MaxPages - k
  {
    var reply := server(k);
    if Continues(reply) && k + 1 < MaxPages {
      ContinueError(cfg, encode, server, k + 1, TokenAfter(reply), records + PageRecords(reply),
                    requests + [SearchUrl(cfg, token, encode)]);
    }
  }

  /** Yields the records of one page, front first, as `tweets.pop(0)` does until the
      list is empty, onto the stream produced so far. */
  method Drain(stream: seq<Record>, page: seq<Record>) returns (out: seq<Record>)
    ensures out == stream + page
  {
    out := stream;
    var rest := page;
    while |rest| > 0
      invariant out + rest == stream + page
      decreases |rest|
    {
      out, rest := out + [rest[0]], rest[1..];
      assert out + rest == stream + page by {
        assert out + rest == out[..|out| - 1] + ([out[|out| - 1]] + rest);
      }
    }
  }

  /** Handles calls to the search API and the paging of its results. */
  class TwitterSearch {
    var baseUrl: string
    var query: string
    var rpp: int
    var nextPage: Option<string>
    var sinceId: Option<int>

    constructor (query: string)
      ensures this.baseUrl == BaseUrl && this.query == query && rpp == ResultsPerPage
      ensures nextPage.None? && sinceId.None?
    {
      this.baseUrl := BaseUrl;
      this.query := query;
      this.rpp := ResultsPerPage;
      this.nextPage := None;
      this.sinceId := None;
    }

    /** The fields the request target is built from, apart from the token. */
    function Config(): SearchConfig
      reads this
    {
      SearchConfig(baseUrl, query, rpp, sinceId)
    }

    /** The target of the next request. */
    function GetSearchUrl(encode: Encoder): (url: string)
      reads this
      ensures nextPage.Some? ==> url == baseUrl + nextPage.value
      ensures nextPage.None? ==> url == baseUrl + "?" + encode(SearchParams(Config()))
    {
      SearchUrl(Config(), nextPage, encode)
    }

    /** One request: the target it goes to and the server's reply.
        A failed reply stands for the run's exit with status 1. */
    method DoQuery(server: Server, k: nat, encode: Encoder) returns (url: string, reply: Reply)
      ensures url == SearchUrl(Config(), nextPage, encode) && reply == server(k)
    {
      url := GetSearchUrl(encode);
      reply := server(k);
    }

    /** Fetches pages until one has no `next_page` or the cap is reached,
        draining each page's results in order; a failed fetch ends the run. */
    method GetTweets(server: Server, encode: Encoder) returns (tweets: seq<Record>, requests: seq<string>, error: Option<FetchError>)
      modifies this
      ensures baseUrl == old(baseUrl) && query == old(query) && rpp == old(rpp) && sinceId == old(sinceId)
      ensures var f := old(Paginate(Config(), encode, server, nextPage));
        tweets == f.records && requests == f.requests && nextPage == f.nextPage && error == f.error
    {
      ghost var cfg := Config();
      ghost var whole := Paginate(cfg, encode, server, nextPage);
      tweets, requests, error := [], [], None;
      var n := 0;
      var done := false;
      while !done && n < MaxPages
        invariant 0 <= n <= MaxPages
        invariant baseUrl == cfg.baseUrl && query == cfg.query && rpp == cfg.rpp && sinceId == cfg.sinceId
        invariant !done ==> error.None? && whole == Continue(cfg, encode, server, n, nextPage, tweets, requests)
        invariant done ==> whole == Fetched(tweets, requests, nextPage, error)
        decreases MaxPages - n, !done
      {
        ghost var before := tweets;
        var url, reply := DoQuery(server, n, encode);
        n := n + 1;
        requests := requests + [url];
        if reply.Failed? {
          error := Some(reply.error);
          done := true;
        } else {
          if reply.results.Some? {
            tweets := Drain(tweets, reply.results.value);
          }
          assert tweets == before + PageRecords(reply);
          if reply.next.NoLink? {
            done := true;
          } else {
            nextPage := TokenAfter(reply);
          }
        }
      }
    }
  }
}
