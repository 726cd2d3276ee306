/** The archiving run: the `tweets` table as a store keyed by id, the seeding
    of `since_id` from its largest key, and the insert-or-skip loop over the
    fetched records. */
module Ingest {
  import opened Wrappers
  import opened JsonValues
  import opened Tweets
  import opened Search

  /** The `tweets` table: rows by their integer primary key. */
  type Store = map<int, Tweet>

  /** A set with no member is empty. */
  lemma EmptyWithoutMembers(keys: set<int>)
    ensures (forall x :: x !in keys) ==> keys == {}
  {
    if forall x :: x !in keys {
      assert keys == {};
    }
  }

  /** Every non-empty set of integers has a largest element. */
  lemma {:induction false} MaxExists(keys: set<int>)
    requires keys != {}
    ensures exists m :: m in keys && forall k :: k in keys ==> k <= m
    decreases keys
  {
    EmptyWithoutMembers(keys);
    var x :| x in keys;
    var rest := keys - {x};
    if rest == {} {
      assert forall k :: k in keys ==> k == x || k in rest;
    } else {
      MaxExists(rest);
      var m :| m in rest && forall k :: k in rest ==> k <= m;
      var top := if m < x then x else m;
      assert forall k :: k in keys ==> k <= top by {
        forall k | k in keys ensures k <= top {
          if k != x { assert k in rest; }
        }
      }
      assert top in keys;
    }
  }

  /** The largest key of a non-empty store. */
  function MaxKey(store: Store): (m: int)
    requires store != map[]
    ensures m in store && forall k :: k in store ==> k <= m
  {
    MaxExists(store.Keys);
    var m :| m in store && forall k :: k in store ==> k <= m;
    m
  }

  /** `SELECT MAX(id) FROM tweets`: NULL on an empty table. */
  function MaxStoredId(store: Store): (m: Option<int>)
    ensures m.None? <==> store == map[]
    ensures m.Some? ==> m.value in store && forall k :: k in store ==> k <= m.value
  {
    if store == map[] then None else Some(MaxKey(store))
  }

  /** The primary key SQLite derives from a row's `id` column. */
  datatype RowKey =
    | Explicit(n: int) // an integer id (a boolean binds as 0 or 1)
    | Generated        // no id: SQLite picks the rowid
    | Mismatch         // an id that is no integer: the insert fails with "datatype mismatch"

  function KeyOf(t: Tweet): RowKey {
    match t.id
    case None => Generated
    case Some(JNum(n)) => Explicit(n)
    case Some(JBool(b)) => Explicit(if b then 1 else 0)
    case Some(_) => Mismatch
  }

  /** The rowid SQLite assigns when a row comes without one: one more than the
      largest key, or 1 in an empty table. */
  function NextRowId(store: Store): (n: int)
    ensures n !in store
    ensures store == map[] ==> n == 1
    ensures store != map[] ==> n - 1 in store && forall k :: k in store ==> k < n
  {
    if store == map[] then 1 else MaxKey(store) + 1
  }

  /** The row as stored under `key`: its `id` column holds the key. */
  function Stored(t: Tweet, key: int): Tweet {
    t.(id := Some(JNum(key)))
  }

  /** The outcome of one `add` + `commit`: the new table, and the key of the
      inserted row, or `None` when the commit failed and was rolled back. */
  datatype Insertion = Insertion(store: Store, key: Option<int>)

  /** One insert. It fails, leaving the table as it was, exactly when the id
      is already a key or is no integer; otherwise the row is added under
      its id, or under a fresh rowid when it has none. */
  function Insert(store: Store, t: Tweet): (ins: Insertion)
    ensures ins.key.None? <==> KeyOf(t).Mismatch? || (KeyOf(t).Explicit? && KeyOf(t).n in store)
    ensures ins.key.None? ==> ins.store == store
    ensures ins.key.Some? ==> ins.key.value !in store && ins.store == store[ins.key.value := Stored(t, ins.key.value)]
    ensures ins.key.Some? && KeyOf(t).Explicit? ==> ins.key.value == KeyOf(t).n
    ensures KeyOf(t).Generated? ==> ins.key == Some(NextRowId(store))
    ensures |ins.store| == |store| + (if ins.key.Some? then 1 else 0)
  {
    match KeyOf(t)
    case Mismatch => Insertion(store, None)
    case Generated =>
      var key := NextRowId(store);
      Insertion(store[key := Stored(t, key)], Some(key))
    case Explicit(n) =>
      if n in store then Insertion(store, None)
      else Insertion(store[n := Stored(t, n)], Some(n))
  }

  /** Each row's `id` column holds its key. */
  predicate WellKeyed(store: Store) {
    forall k :: k in store ==> store[k].id == Some(JNum(k))
  }

  /** An insert keeps every row's `id` equal to its key. */
  lemma InsertKeepsWellKeyed(store: Store, t: Tweet)
    requires WellKeyed(store)
    ensures WellKeyed(Insert(store, t).store)
  {
  }

  /** The state of the insert loop: the table, the `n_tweets` counter, and
      the unparsable date that stopped the run, if one did. */
  datatype Progress = Progress(store: Store, added: nat, failure: Option<NormaliseError>)

  /** The insert loop from record `i` on, starting from `store` with `added`
      rows counted. Each counted insert adds exactly one key. */
  function IngestFrom(records: seq<Record>, i: nat, store: Store, added: nat,
                      parseDate: DateParser, reprGeo: GeoRepr): (p: Progress)
    ensures |store| <= |p.store|
    ensures p.added == added + |p.store| - |store|
    decreases |records| - i
  {
    if i >= |records| then Progress(store, added, None)
    else
      match Normalise(records[i], parseDate, reprGeo)
      case Failure(e) => Progress(store, added, Some(e))
      case Success(t) =>
        var ins := Insert(store, t);
        IngestFrom(records, i + 1, ins.store, if ins.key.Some? then added + 1 else added, parseDate, reprGeo)
  }

  /** The whole insert loop over one run's records. */
  function Ingestion(store: Store, records: seq<Record>, parseDate: DateParser, reprGeo: GeoRepr): (p: Progress)
    ensures p.added == |p.store| - |store|
  {
    IngestFrom(records, 0, store, 0, parseDate, reprGeo)
  }

  /** The loop never removes or rewrites a row. */
  lemma {:induction false} IngestKeepsRows(records: seq<Record>, i: nat, store: Store, added: nat,
                                          parseDate: DateParser, reprGeo: GeoRepr)
    ensures var p := IngestFrom(records, i, store, added, parseDate, reprGeo);
      forall k :: k in store ==> k in p.store && p.store[k] == store[k]
    decreases |records| - i
  {
    if i < |records| {
      match Normalise(records[i], parseDate, reprGeo)
      case Failure(_) =>
      case Success(t) =>
        var ins := Insert(store, t);
        IngestKeepsRows(records, i + 1, ins.store, if ins.key.Some? then added + 1 else added, parseDate, reprGeo);
    }
  }

  /** The loop ends without a failure exactly when every record from `i` on
      has a parsable date (or none). */
  lemma {:induction false} IngestFailureNone(records: seq<Record>, i: nat, store: Store, added: nat,
                                            parseDate: DateParser, reprGeo: GeoRepr)
    ensures IngestFrom(records, i, store, added, parseDate, reprGeo).failure.None?
        <==> forall j :: i <= j < |records| ==> Normalise(records[j], parseDate, reprGeo).Success?
    decreases |records| - i
  {
    if i < |records| {
      match Normalise(records[i], parseDate, reprGeo)
      case Failure(e) =>
      case Success(t) =>
        var ins := Insert(store, t);
        IngestFailureNone(records, i + 1, ins.store, if ins.key.Some? then added + 1 else added, parseDate, reprGeo);
    }
  }

  /** When the loop fails, it fails at the first record whose date cannot be
      parsed, with that record's error. */
  lemma {:induction false} IngestFailureFirst(records: seq<Record>, i: nat, store: Store, added: nat,
                                             parseDate: DateParser, reprGeo: GeoRepr)
    ensures var p := IngestFrom(records, i, store, added, parseDate, reprGeo);
      p.failure.Some? ==>
        exists j :: i <= j < |records| && Normalise(records[j], parseDate, reprGeo) == Failure(p.failure.value)
                    && forall l :: i <= l < j ==> Normalise(records[l], parseDate, reprGeo).Success?
    decreases |records| - i
  {
    if i < |records| {
      var r := Normalise(records[i], parseDate, reprGeo);
      if r.Success? {
        var ins := Insert(store, r.value);
        var added' := if ins.key.Some? then added + 1 else added;
        var p := IngestFrom(records, i + 1, ins.store, added', parseDate, reprGeo);
        assert IngestFrom(records, i, store, added, parseDate, reprGeo) == p;
        IngestFailureFirst(records, i + 1, ins.store, added', parseDate, reprGeo);
        if p.failure.Some? {
          var j :| i + 1 <= j < |records| && Normalise(records[j], parseDate, reprGeo) == Failure(p.failure.value)
                   && forall l :: i + 1 <= l < j ==> Normalise(records[l], parseDate, reprGeo).Success?;
          assert forall l :: i <= l < j ==> Normalise(records[l], parseDate, reprGeo).Success?;
        }
      }
    }
  }

  /** Whether the loop stops does not depend on the table. */
  lemma {:induction false} FailureIgnoresStore(records: seq<Record>, i: nat, store: Store, added: nat,
                                              store': Store, added': nat,
                                              parseDate: DateParser, reprGeo: GeoRepr)
    ensures IngestFrom(records, i, store, added, parseDate, reprGeo).failure
         == IngestFrom(records, i, store', added', parseDate, reprGeo).failure
    decreases |records| - i
  {
    if i < |records| {
      match Normalise(records[i], parseDate, reprGeo)
      case Failure(_) =>
      case Success(t) =>
        var ins := Insert(store, t);
        var ins' := Insert(store', t);
        FailureIgnoresStore(records, i + 1, ins.store, if ins.key.Some? then added + 1 else added,
                            ins'.store, if ins'.key.Some? then added' + 1 else added', parseDate, reprGeo);
    }
  }

  /** A row is already accounted for: its id is a stored key, or no integer. */
  predicate Known(store: Store, t: Tweet) {
    KeyOf(t).Mismatch? || (KeyOf(t).Explicit? && KeyOf(t).n in store)
  }

  /** Every record the loop would reach from `i` on, up to the first
      unparsable date, is already accounted for in `store`. */
  predicate KnownFrom(records: seq<Record>, i: nat, store: Store, parseDate: DateParser, reprGeo: GeoRepr)
    decreases |records| - i
  {
    i < |records| ==>
      match Normalise(records[i], parseDate, reprGeo)
      case Failure(_) => true
      case Success(t) => Known(store, t) && KnownFrom(records, i + 1, store, parseDate, reprGeo)
  }

  /** Every record carries an id. */
  predicate AllHaveIds(records: seq<Record>) {
    forall j :: 0 <= j < |records| ==> Has(records[j], "id")
  }

  /** Knowledge survives a table that only grows. */
  lemma {:induction false} KnownFromGrows(records: seq<Record>, i: nat, store: Store, bigger: Store,
                                         parseDate: DateParser, reprGeo: GeoRepr)
    requires KnownFrom(records, i, store, parseDate, reprGeo)
    requires store.Keys <= bigger.Keys
    ensures KnownFrom(records, i, bigger, parseDate, reprGeo)
    decreases |records| - i
  {
    if i < |records| {
      match Normalise(records[i], parseDate, reprGeo)
      case Failure(_) =>
      case Success(t) =>
        KnownFromGrows(records, i + 1, store, bigger, parseDate, reprGeo);
    }
  }

  /** After the loop, every record it reached and that carries an id is
      accounted for in the final table. */
  lemma {:induction false} IngestCovers(records: seq<Record>, i: nat, store: Store, added: nat,
                                       parseDate: DateParser, reprGeo: GeoRepr)
    requires AllHaveIds(records)
    ensures KnownFrom(records, i, IngestFrom(records, i, store, added, parseDate, reprGeo).store, parseDate, reprGeo)
    decreases |records| - i
  {
    if i < |records| {
      match Normalise(records[i], parseDate, reprGeo)
      case Failure(_) =>
      case Success(t) =>
        var ins := Insert(store, t);
        var added' := if ins.key.Some? then added + 1 else added;
        var p := IngestFrom(records, i + 1, ins.store, added', parseDate, reprGeo);
        IngestCovers(records, i + 1, ins.store, added', parseDate, reprGeo);
        IngestKeepsRows(records, i + 1, ins.store, added', parseDate, reprGeo);
        assert Known(ins.store, t);
        assert Known(p.store, t);
    }
  }

  /** Every record the loop would reach from `i` on, up to the first
      unparsable date, is accounted for in `store` if it carries an id. */
  predicate KnownWhereId(records: seq<Record>, i: nat, store: Store, parseDate: DateParser, reprGeo: GeoRepr)
    decreases |records| - i
  {
    i < |records| ==>
      match Normalise(records[i], parseDate, reprGeo)
      case Failure(_) => true
      case Success(t) =>
        (Has(records[i], "id") ==> Known(store, t)) && KnownWhereId(records, i + 1, store, parseDate, reprGeo)
  }

  /** After the loop, each record it reached that carries an id is accounted
      for in the final table, whatever the other records are. */
  lemma {:induction false} IngestCoversEach(records: seq<Record>, i: nat, store: Store, added: nat,
                                           parseDate: DateParser, reprGeo: GeoRepr)
    ensures KnownWhereId(records, i, IngestFrom(records, i, store, added, parseDate, reprGeo).store, parseDate, reprGeo)
    decreases |records| - i
  {
    if i < |records| {
      match Normalise(records[i], parseDate, reprGeo)
      case Failure(_) =>
      case Success(t) =>
        var ins := Insert(store, t);
        var added' := if ins.key.Some? then added + 1 else added;
        var p := IngestFrom(records, i + 1, ins.store, added', parseDate, reprGeo);
        IngestCoversEach(records, i + 1, ins.store, added', parseDate, reprGeo);
        IngestKeepsRows(records, i + 1, ins.store, added', parseDate, reprGeo);
        if Has(records[i], "id") {
          assert Known(ins.store, t);
          assert Known(p.store, t);
        }
    }
  }

  /** Over records already accounted for, the loop changes nothing and counts nothing. */
  lemma {:induction false} IngestKnownIsNoop(records: seq<Record>, i: nat, store: Store, added: nat,
                                            parseDate: DateParser, reprGeo: GeoRepr)
    requires KnownFrom(records, i, store, parseDate, reprGeo)
    ensures var p := IngestFrom(records, i, store, added, parseDate, reprGeo);
      p.store == store && p.added == added
    decreases |records| - i
  {
    if i < |records| {
      match Normalise(records[i], parseDate, reprGeo)
      case Failure(_) =>
      case Success(t) =>
        assert Insert(store, t) == Insertion(store, None);
        IngestKnownIsNoop(records, i + 1, store, added, parseDate, reprGeo);
    }
  }

  /** Feeding the same records, all carrying ids, into the table a run left
      behind adds nothing, keeps the table, and stops where the run stopped. */
  lemma IngestIdempotent(store: Store, records: seq<Record>, parseDate: DateParser, reprGeo: GeoRepr)
    requires AllHaveIds(records)
    ensures var once := Ingestion(store, records, parseDate, reprGeo);
      var twice := Ingestion(once.store, records, parseDate, reprGeo);
      twice.store == once.store && twice.added == 0 && twice.failure == once.failure
  {
    var once := Ingestion(store, records, parseDate, reprGeo);
    IngestCovers(records, 0, store, 0, parseDate, reprGeo);
    IngestKnownIsNoop(records, 0, once.store, 0, parseDate, reprGeo);
    FailureIgnoresStore(records, 0, store, 0, once.store, 0, parseDate, reprGeo);
  }

  /** Without an id idempotence fails: any record without an id whose date
      parses is stored again under a fresh rowid on every run. */
  lemma IdlessRecordStoredTwice(store: Store, raw: Record, parseDate: DateParser, reprGeo: GeoRepr)
    requires !Has(raw, "id") && Normalise(raw, parseDate, reprGeo).Success?
    ensures var once := Ingestion(store, [raw], parseDate, reprGeo);
      var twice := Ingestion(once.store, [raw], parseDate, reprGeo);
      once.added == 1 && twice.added == 1 && |twice.store| == |store| + 2
  {
    var t := Normalise(raw, parseDate, reprGeo).value;
    assert KeyOf(t).Generated?;
    var ins := Insert(store, t);
    assert Ingestion(store, [raw], parseDate, reprGeo) == IngestFrom([raw], 1, ins.store, 1, parseDate, reprGeo);
    var ins2 := Insert(ins.store, t);
    assert Ingestion(ins.store, [raw], parseDate, reprGeo) == IngestFrom([raw], 1, ins2.store, 1, parseDate, reprGeo);
  }

  /** The search settings of a run over `store`: `since_id` is the largest
      stored key, or unset on an empty table. */
  function RunConfig(query: string, store: Store): (cfg: SearchConfig)
    ensures cfg.sinceId.None? <==> store == map[]
    ensures cfg.sinceId.Some? ==> cfg.sinceId.value == MaxKey(store)
  {
    SearchConfig(BaseUrl, query, ResultsPerPage, MaxStoredId(store))
  }

  /** The first request of a run over a non-empty table asks only for ids
      above the largest stored one; over an empty table it asks for no bound. */
  lemma FirstRequestSeedsSinceId(query: string, store: Store, encode: Encoder, server: Server)
    ensures var cfg := RunConfig(query, store);
      var params := SearchParams(cfg);
      && Paginate(cfg, encode, server, None).requests[0] == BaseUrl + "?" + encode(params)
      && ("since_id" in params <==> store != map[])
      && (store != map[] ==> params["since_id"] == Number(MaxKey(store)))
      && params["q"] == Text(query) && params["rpp"] == Number(ResultsPerPage)
  {
    ContinueRequests(RunConfig(query, store), encode, server, 0, None, [], []);
  }

  /** The SQLite table behind the session. */
  class Database {
    var rows: Store

    constructor (rows: Store)
      ensures this.rows == rows
    {
      this.rows := rows;
    }

    /** `session.add` + `session.commit`, with `session.rollback` when the
        commit raises an integrity error. */
    method Add(t: Tweet) returns (committed: bool)
      modifies this
      ensures var ins := Insert(old(rows), t); rows == ins.store && committed == ins.key.Some?
    {
      var ins := Insert(rows, t);
      if ins.key.Some? {
        rows := ins.store;
        committed := true;
      } else {
        committed := false;
      }
    }
  }

  /** Normalises and inserts each record in turn, counting the commits; an
      unparsable date ends the loop with what was committed so far. */
  method InsertAll(db: Database, records: seq<Record>, parseDate: DateParser, reprGeo: GeoRepr)
    returns (nTweets: nat, failure: Option<NormaliseError>)
    modifies db
    ensures var p := Ingestion(old(db.rows), records, parseDate, reprGeo);
      db.rows == p.store && nTweets == p.added && failure == p.failure
  {
    ghost var whole := Ingestion(db.rows, records, parseDate, reprGeo);
    nTweets, failure := 0, None;
    var i := 0;
    while i < |records| && failure.None?
      invariant 0 <= i <= |records|
      invariant failure.None? ==> whole == IngestFrom(records, i, db.rows, nTweets, parseDate, reprGeo)
      invariant failure.Some? ==> whole == Progress(db.rows, nTweets, failure)
      decreases |records| - i
    {
      var row := Normalise(records[i], parseDate, reprGeo);
      if row.Failure? {
        failure := Some(row.error);
      } else {
        var committed := db.Add(row.value);
        if committed {
          nTweets := nTweets + 1;
        }
      }
      i := i + 1;
    }
  }

  /** How a run ends: with the count it reports, or by exiting on a failed
      fetch or on an exception from the date parser. */
  datatype Exit = Completed(added: nat) | FetchAborted(fetchError: FetchError) | DateAborted(dateError: NormaliseError)

  /** The outcome of a run in terms of the search and ingestion specifications:
      records are ingested in fetch order, and an unparsable date, which can
      only come from a page fetched before any failed one, takes precedence. */
  function RunExit(f: Fetched, p: Progress): (e: Exit)
    ensures e.Completed? <==> p.failure.None? && f.error.None?
    ensures e.Completed? ==> e.added == p.added
    ensures e.DateAborted? <==> p.failure.Some?
    ensures e.DateAborted? ==> e.dateError == p.failure.value
    ensures e.FetchAborted? ==> e.fetchError == f.error.value
  {
    if p.failure.Some? then DateAborted(p.failure.value)
    else if f.error.Some? then FetchAborted(f.error.value)
    else Completed(p.added)
  }

  /** One archiving run: seed `since_id` from the table, fetch the pages,
      and insert every record, skipping those whose id is already stored. */
  method ArchiveRun(db: Database, query: string, server: Server, encode: Encoder,
                    parseDate: DateParser, reprGeo: GeoRepr)
    returns (requests: seq<string>, exit: Exit)
    modifies db
    ensures var f := Paginate(RunConfig(query, old(db.rows)), encode, server, None);
      var p := Ingestion(old(db.rows), f.records, parseDate, reprGeo);
      && requests == f.requests
      && db.rows == p.store
      && exit == RunExit(f, p)
  {
    var ts := new TwitterSearch(query);
    var top := MaxStoredId(db.rows);
    if top.Some? {
      ts.sinceId := top;
    }
    assert ts.Config() == RunConfig(query, db.rows);
    var tweets, reqs, error := ts.GetTweets(server, encode);
    requests := reqs;
    var nTweets, failure := InsertAll(db, tweets, parseDate, reprGeo);
    if failure.Some? {
      exit := DateAborted(failure.value);
    } else if error.Some? {
      exit := FetchAborted(error.value);
    } else {
      exit := Completed(nTweets);
    }
  }

  /** A completed run reports exactly the rows it added, and no run loses or
      rewrites a row it found. */
  lemma RunReport(store: Store, query: string, server: Server, encode: Encoder,
                  parseDate: DateParser, reprGeo: GeoRepr)
    ensures var f := Paginate(RunConfig(query, store), encode, server, None);
      var p := Ingestion(store, f.records, parseDate, reprGeo);
      && (RunExit(f, p).Completed? ==> RunExit(f, p).added == |p.store| - |store|)
      && (forall k :: k in store ==> k in p.store && p.store[k] == store[k])
  {
    var f := Paginate(RunConfig(query, store), encode, server, None);
    IngestKeepsRows(f.records, 0, store, 0, parseDate, reprGeo);
  }
}
