/** The script as it actually runs: `get_tweets` is a generator, so each
    page is fetched only after every record of the pages before it has been
    inserted. This module defines that interleaved run page by page and
    proves that it leaves the same table and ends the same way as the
    fetch-then-insert run of `Ingest.ArchiveRun`, having made a prefix of its
    requests. */
module Interleaving {
  import opened Wrappers
  import opened JsonValues
  import opened Tweets
  import opened Search
  import opened Ingest

  /** One record's turn of the insert loop, from progress `p` that has not
      failed: build the row, then insert it and count it if it committed. */
  function Step(p: Progress, raw: Record, parseDate: DateParser, reprGeo: GeoRepr): Progress {
    match Normalise(raw, parseDate, reprGeo)
    case Failure(e) => Progress(p.store, p.added, Some(e))
    case Success(t) =>
      var ins := Insert(p.store, t);
      Progress(ins.store, if ins.key.Some? then p.added + 1 else p.added, None)
  }

  /** `Step` as a value, for `Fold`. */
  function StepWith(parseDate: DateParser, reprGeo: GeoRepr): (Progress, Record) -> Progress {
    (p, raw) => Step(p, raw, parseDate, reprGeo)
  }

  /** Applies `step` to the records from index `i` on, stopping at the first
      failure. */
  function Fold(step: (Progress, Record) -> Progress, records: seq<Record>, i: nat, p: Progress): (q: Progress)
    ensures p.failure.Some? ==> q == p
    decreases |records| - i
  {
    if i >= |records| || p.failure.Some? then p else Fold(step, records, i + 1, step(p, records[i]))
  }

  /** The insert loop takes one record via `Step`, and stops if it failed. */
  lemma IngestStep(records: seq<Record>, i: nat, store: Store, added: nat,
                   parseDate: DateParser, reprGeo: GeoRepr)
    requires i < |records|
    ensures var q := Step(Progress(store, added, None), records[i], parseDate, reprGeo);
      IngestFrom(records, i, store, added, parseDate, reprGeo)
        == if q.failure.Some? then q else IngestFrom(records, i + 1, q.store, q.added, parseDate, reprGeo)
  {
    var r := Normalise(records[i], parseDate, reprGeo);
    if r.Success? {
      var ins := Insert(store, r.value);
      var q := Progress(ins.store, if ins.key.Some? then added + 1 else added, None);
      assert Step(Progress(store, added, None), records[i], parseDate, reprGeo) == q;
      assert IngestFrom(records, i, store, added, parseDate, reprGeo)
          == IngestFrom(records, i + 1, q.store, q.added, parseDate, reprGeo);
    }
  }

  /** The insert loop is the fold of `Step` over the records. */
  lemma {:induction false} IngestIsFold(records: seq<Record>, i: nat, store: Store, added: nat,
                                        parseDate: DateParser, reprGeo: GeoRepr)
    ensures IngestFrom(records, i, store, added, parseDate, reprGeo)
         == Fold(StepWith(parseDate, reprGeo), records, i, Progress(store, added, None))
    decreases |records| - i
  {
    if i < |records| {
      IngestStep(records, i, store, added, parseDate, reprGeo);
      var q := Step(Progress(store, added, None), records[i], parseDate, reprGeo);
      if q.failure.None? {
        IngestIsFold(records, i + 1, q.store, q.added, parseDate, reprGeo);
      }
    }
  }

  /** Folding from index `|a| + j` of `a + b` is folding from index `j` of `b`. */
  lemma {:induction false} FoldShift(step: (Progress, Record) -> Progress, a: seq<Record>, b: seq<Record>,
                                     j: nat, p: Progress)
    ensures Fold(step, a + b, |a| + j, p) == Fold(step, b, j, p)
    decreases |b| - j
  {
    if j < |b| {
      assert (a + b)[|a| + j] == b[j];
      if p.failure.None? {
        FoldShift(step, a, b, j + 1, step(p, b[j]));
      }
    }
  }

  /** Folding `a + b` from index `i <= |a|` is folding `a` from `i`, then `b`. */
  lemma {:induction false} FoldSplit(step: (Progress, Record) -> Progress, a: seq<Record>, b: seq<Record>,
                                     i: nat, p: Progress)
    requires i <= |a|
    ensures Fold(step, a + b, i, p) == Fold(step, b, 0, Fold(step, a, i, p))
    decreases |a| - i
  {
    if i < |a| {
      assert (a + b)[i] == a[i];
      if p.failure.None? {
        FoldSplit(step, a, b, i + 1, step(p, a[i]));
      }
    } else {
      FoldShift(step, a, b, 0, p);
    }
  }

  /** Inserting `a + b` is inserting `a`, then, unless `a` failed, `b` from
      where `a` left off. */
  lemma IngestConcat(a: seq<Record>, b: seq<Record>, ab: seq<Record>, store: Store, added: nat,
                     parseDate: DateParser, reprGeo: GeoRepr)
    requires ab == a + b
    ensures var pa := IngestFrom(a, 0, store, added, parseDate, reprGeo);
      IngestFrom(ab, 0, store, added, parseDate, reprGeo)
        == if pa.failure.Some? then pa else IngestFrom(b, 0, pa.store, pa.added, parseDate, reprGeo)
  {
    var step := StepWith(parseDate, reprGeo);
    var pa := IngestFrom(a, 0, store, added, parseDate, reprGeo);
    IngestIsFold(ab, 0, store, added, parseDate, reprGeo);
    IngestIsFold(a, 0, store, added, parseDate, reprGeo);
    FoldSplit(step, a, b, 0, Progress(store, added, None));
    if pa.failure.None? {
      IngestIsFold(b, 0, pa.store, pa.added, parseDate, reprGeo);
    }
  }

  /** What the interleaved run leaves: the table, how it ends, and the
      requests it made. */
  datatype Outcome = Outcome(store: Store, exit: Exit, requests: seq<string>)

  /** The interleaved run from the k-th request on, holding `token`, with the
      table and count the earlier pages left and `requests` made so far: fetch
      one page, insert its records, and only then fetch the next. */
  function LazyRun(cfg: SearchConfig, encode: Encoder, server: Server, k: nat, token: Option<string>,
                   store: Store, added: nat, requests: seq<string>,
                   parseDate: DateParser, reprGeo: GeoRepr): (o: Outcome)
    decreases MaxPages - k
  {
    if k >= MaxPages then Outcome(store, Completed(added), requests)
    else
      var asked := requests + [SearchUrl(cfg, token, encode)];
      var reply := server(k);
      if reply.Failed? then Outcome(store, FetchAborted(reply.error), asked)
      else
        var p := IngestFrom(PageRecords(reply), 0, store, added, parseDate, reprGeo);
        if p.failure.Some? then Outcome(p.store, DateAborted(p.failure.value), asked)
        else if reply.next.NoLink? then Outcome(p.store, Completed(p.added), asked)
        else LazyRun(cfg, encode, server, k + 1, TokenAfter(reply), p.store, p.added, asked, parseDate, reprGeo)
  }

  /** Whether `xs` is a prefix of `ys`. */
  predicate IsPrefix(xs: seq<string>, ys: seq<string>) {
    |xs| <= |ys| && ys[..|xs|] == xs
  }

  /** The interleaved outcome `o` agrees with the fetch-then-insert run `f`
      whose records were inserted as `p`: same table, same end, and the
      requests a prefix, all of them unless a date error came first. */
  predicate Agrees(o: Outcome, f: Fetched, p: Progress) {
    && o.store == p.store
    && o.exit == RunExit(f, p)
    && IsPrefix(o.requests, f.requests)
    && (!o.exit.DateAborted? ==> o.requests == f.requests)
  }

  /** The interleaved run from request k agrees with the fetch-then-insert run
      from the same point, given that inserting the records fetched so far
      from `store0` succeeded and left `store` and `added`. */
  lemma {:induction false} LazyMatchesEager(cfg: SearchConfig, encode: Encoder, server: Server, k: nat,
                                           token: Option<string>, records: seq<Record>, requests: seq<string>,
                                           store0: Store, store: Store, added: nat,
                                           parseDate: DateParser, reprGeo: GeoRepr)
    requires IngestFrom(records, 0, store0, 0, parseDate, reprGeo) == Progress(store, added, None)
    ensures var f := Continue(cfg, encode, server, k, token, records, requests);
      Agrees(LazyRun(cfg, encode, server, k, token, store, added, requests, parseDate, reprGeo),
             f, IngestFrom(f.records, 0, store0, 0, parseDate, reprGeo))
    decreases MaxPages - k
  {
    var reply := server(k);
    if k >= MaxPages || reply.Failed? || reply.next.NoLink? {
      LazyLastStep(cfg, encode, server, k, token, records, requests, store0, store, added, parseDate, reprGeo);
    } else {
      var got := records + PageRecords(reply);
      var asked := requests + [SearchUrl(cfg, token, encode)];
      var p := IngestFrom(PageRecords(reply), 0, store, added, parseDate, reprGeo);
      IngestConcat(records, PageRecords(reply), got, store0, 0, parseDate, reprGeo);
      ContinueStep(cfg, encode, server, k, token, records, requests);
      if p.failure.Some? {
        LazyDateStep(cfg, encode, server, k, token, records, requests, store0, store, added, parseDate, reprGeo);
      } else {
        assert LazyRun(cfg, encode, server, k, token, store, added, requests, parseDate, reprGeo)
            == LazyRun(cfg, encode, server, k + 1, TokenAfter(reply), p.store, p.added, asked, parseDate, reprGeo);
        LazyMatchesEager(cfg, encode, server, k + 1, TokenAfter(reply), got, asked,
                         store0, p.store, p.added, parseDate, reprGeo);
      }
    }
  }

  /** The step that ends both runs at once: the cap, a failed fetch, or a
      page without `next_page`. */
  lemma LazyLastStep(cfg: SearchConfig, encode: Encoder, server: Server, k: nat,
                     token: Option<string>, records: seq<Record>, requests: seq<string>,
                     store0: Store, store: Store, added: nat,
                     parseDate: DateParser, reprGeo: GeoRepr)
    requires IngestFrom(records, 0, store0, 0, parseDate, reprGeo) == Progress(store, added, None)
    requires k >= MaxPages || server(k).Failed? || server(k).next.NoLink?
    ensures var f := Continue(cfg, encode, server, k, token, records, requests);
      Agrees(LazyRun(cfg, encode, server, k, token, store, added, requests, parseDate, reprGeo),
             f, IngestFrom(f.records, 0, store0, 0, parseDate, reprGeo))
  {
    var reply := server(k);
    var f := Continue(cfg, encode, server, k, token, records, requests);
    var o := LazyRun(cfg, encode, server, k, token, store, added, requests, parseDate, reprGeo);
    if k >= MaxPages {
      assert f == Fetched(records, requests, token, None);
      assert o == Outcome(store, Completed(added), requests);
    } else {
      var asked := requests + [SearchUrl(cfg, token, encode)];
      if reply.Failed? {
        assert f == Fetched(records, asked, token, Some(reply.error));
        assert o == Outcome(store, FetchAborted(reply.error), asked);
      } else {
        var got := records + PageRecords(reply);
        var p := IngestFrom(PageRecords(reply), 0, store, added, parseDate, reprGeo);
        IngestConcat(records, PageRecords(reply), got, store0, 0, parseDate, reprGeo);
        assert f == Fetched(got, asked, token, None);
        assert IngestFrom(f.records, 0, store0, 0, parseDate, reprGeo) == p;
        assert o == (if p.failure.Some? then Outcome(p.store, DateAborted(p.failure.value), asked)
                     else Outcome(p.store, Completed(p.added), asked));
      }
    }
  }

  /** A page that would continue the run but holds an unparsable date: the
      interleaved run stops there, while the fetch-then-insert run fetches on,
      and its insertion stops at the same record. */
  lemma LazyDateStep(cfg: SearchConfig, encode: Encoder, server: Server, k: nat,
                     token: Option<string>, records: seq<Record>, requests: seq<string>,
                     store0: Store, store: Store, added: nat,
                     parseDate: DateParser, reprGeo: GeoRepr)
    requires IngestFrom(records, 0, store0, 0, parseDate, reprGeo) == Progress(store, added, None)
    requires k < MaxPages && Continues(server(k))
    ensures IngestFrom(PageRecords(server(k)), 0, store, added, parseDate, reprGeo).failure.Some? ==>
      var f := Continue(cfg, encode, server, k, token, records, requests);
      Agrees(LazyRun(cfg, encode, server, k, token, store, added, requests, parseDate, reprGeo),
             f, IngestFrom(f.records, 0, store0, 0, parseDate, reprGeo))
  {
    var reply := server(k);
    if IngestFrom(PageRecords(reply), 0, store, added, parseDate, reprGeo).failure.Some? {
      var got := records + PageRecords(reply);
      var asked := requests + [SearchUrl(cfg, token, encode)];
      ContinueStep(cfg, encode, server, k, token, records, requests);
      EagerDateStop(cfg, encode, server, k, token, records, requests, store0, store, added, parseDate, reprGeo);
      PrefixOfContinue(cfg, encode, server, k + 1, TokenAfter(reply), got, asked);
      LazyDateStop(cfg, encode, server, k, token, store, added, requests, parseDate, reprGeo);
    }
  }

  /** A reply that continues the run hands over to the next request. */
  lemma ContinueStep(cfg: SearchConfig, encode: Encoder, server: Server, k: nat, token: Option<string>,
                     records: seq<Record>, requests: seq<string>)
    requires k < MaxPages && Continues(server(k))
    ensures Continue(cfg, encode, server, k, token, records, requests)
         == Continue(cfg, encode, server, k + 1, TokenAfter(server(k)), records + PageRecords(server(k)),
                     requests + [SearchUrl(cfg, token, encode)])
  {
  }

  /** The interleaved run stops at a page holding an unparsable date, with
      the table as inserting that page left it. */
  lemma LazyDateStop(cfg: SearchConfig, encode: Encoder, server: Server, k: nat, token: Option<string>,
                     store: Store, added: nat, requests: seq<string>,
                     parseDate: DateParser, reprGeo: GeoRepr)
    requires k < MaxPages && server(k).Page?
    ensures var p := IngestFrom(PageRecords(server(k)), 0, store, added, parseDate, reprGeo);
      p.failure.Some? ==>
        LazyRun(cfg, encode, server, k, token, store, added, requests, parseDate, reprGeo)
          == Outcome(p.store, DateAborted(p.failure.value), requests + [SearchUrl(cfg, token, encode)])
  {
  }

  /** When the page fetched by request k holds an unparsable date, inserting
      everything the fetch-then-insert run fetches ends as inserting up to that
      page does, however many pages follow. */
  lemma EagerDateStop(cfg: SearchConfig, encode: Encoder, server: Server, k: nat,
                      token: Option<string>, records: seq<Record>, requests: seq<string>,
                      store0: Store, store: Store, added: nat,
                      parseDate: DateParser, reprGeo: GeoRepr)
    requires IngestFrom(records, 0, store0, 0, parseDate, reprGeo) == Progress(store, added, None)
    requires k < MaxPages && Continues(server(k))
    ensures IngestFrom(PageRecords(server(k)), 0, store, added, parseDate, reprGeo).failure.Some? ==>
        IngestFrom(Continue(cfg, encode, server, k + 1, TokenAfter(server(k)), records + PageRecords(server(k)),
                            requests + [SearchUrl(cfg, token, encode)]).records, 0, store0, 0, parseDate, reprGeo)
          == IngestFrom(PageRecords(server(k)), 0, store, added, parseDate, reprGeo)
  {
    var reply := server(k);
    var got := records + PageRecords(reply);
    IngestConcat(records, PageRecords(reply), got, store0, 0, parseDate, reprGeo);
    var asked := requests + [SearchUrl(cfg, token, encode)];
    var f := Continue(cfg, encode, server, k + 1, TokenAfter(reply), got, asked);
    ContinueExtends(cfg, encode, server, k + 1, TokenAfter(reply), got, asked);
    var rest :| f.records == got + rest;
    FailedStaysFailed(got, rest, f.records, store0, 0, parseDate, reprGeo);
  }

  /** Once inserting `a` has failed, appending `b` changes nothing. */
  lemma FailedStaysFailed(a: seq<Record>, b: seq<Record>, ab: seq<Record>, store: Store, added: nat,
                          parseDate: DateParser, reprGeo: GeoRepr)
    requires ab == a + b
    ensures IngestFrom(a, 0, store, added, parseDate, reprGeo).failure.Some? ==>
      IngestFrom(ab, 0, store, added, parseDate, reprGeo) == IngestFrom(a, 0, store, added, parseDate, reprGeo)
  {
    IngestConcat(a, b, ab, store, added, parseDate, reprGeo);
  }

  /** A continuation only appends to the records already yielded. */
  lemma ContinueExtends(cfg: SearchConfig, encode: Encoder, server: Server, k: nat,
                        token: Option<string>, records: seq<Record>, requests: seq<string>)
    ensures exists rest :: Continue(cfg, encode, server, k, token, records, requests).records == records + rest
  {
    var f := Continue(cfg, encode, server, k, token, records, requests);
    ContinueRecords(cfg, encode, server, k, token, records, requests);
    var rest := RecordsBetween(server, k, k + |f.requests| - |requests|);
    assert f.records == records + rest;
  }

  /** The requests made so far stay a prefix of every continuation. */
  lemma PrefixOfContinue(cfg: SearchConfig, encode: Encoder, server: Server, k: nat, token: Option<string>,
                         records: seq<Record>, requests: seq<string>)
    ensures IsPrefix(requests, Continue(cfg, encode, server, k, token, records, requests).requests)
  {
    if k < MaxPages {
      ContinueRequests(cfg, encode, server, k, token, records, requests);
    }
  }

  /** The interleaved script run leaves the same table and ends the same way
      as `Ingest.ArchiveRun` specifies; its requests are a prefix of those,
      and all of them unless an unparsable date stopped it. */
  lemma LazyRunAgrees(query: string, store: Store, server: Server, encode: Encoder,
                      parseDate: DateParser, reprGeo: GeoRepr)
    ensures var cfg := RunConfig(query, store);
      var f := Paginate(cfg, encode, server, None);
      var p := Ingestion(store, f.records, parseDate, reprGeo);
      var o := LazyRun(cfg, encode, server, 0, None, store, 0, [], parseDate, reprGeo);
      && o.store == p.store
      && o.exit == RunExit(f, p)
      && IsPrefix(o.requests, f.requests)
      && (!o.exit.DateAborted? ==> o.requests == f.requests)
  {
    LazyMatchesEager(RunConfig(query, store), encode, server, 0, None, [], [], store, store, 0, parseDate, reprGeo);
  }
}
