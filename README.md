# Twitter search archiver, modelled in Dafny

`archive_twitter_search.py` polls the Twitter search API for one query and
stores each result it has not seen before as a row of an SQLite table
`tweets`, keyed by the tweet id. This project models the core of that script
and proves properties of the model:

- **the search cursor** (`TwitterSearch`, module `Search`, `search.dfy`). Its
  fields are the endpoint, the query, the page size, the continuation token
  `next_page` and the `since_id` floor. `get_search_url` picks the request
  target, and `get_tweets` pages through the replies. A run makes at most 20
  requests, drains each page's `results` in order, and ends at the first
  reply that has no `next_page` key;
- **normalisation** (`Tweet.__init__`, module `Tweets`, `tweets.dfy`). It maps
  a raw result record, where any key may be missing, to the eleven columns of
  a row;
- **the archiving run** (module `Ingest`, `ingest.dfy`). It seeds `since_id`
  with the largest stored id. It then inserts each fetched record with its own
  commit, and rolls back and skips a record whose insert breaks the
  primary-key constraint. It counts the rows it commits;
- **the interleaved run** (module `Interleaving`, `lazy.dfy`). `get_tweets` is
  a generator, so the script inserts each page's records before it requests
  the next page. `LazyRun` defines that run page by page. It is proved to
  leave the same table and end the same way as `Ingest.ArchiveRun`, which
  fetches every page first.

`json.dfy` (module `JsonValues`) holds decoded JSON values and the
`defaultdict(lambda: None)` lookup. `wrappers.dfy` holds `Option` and `Result`.

The search server is a function `Server = nat -> Reply`, giving the reply to
the k-th request of a run. A `Failed` reply stands for the `HTTPError`/`URLError`
that makes `do_query` exit with status 1. The URL encoder, the date parser and
`repr` of the geo value are parameters of the model. The SQLite table is a
`map<int, Tweet>` inside a `Database` object.

Two behaviours of the code that are easy to miss are modelled as the code has them:

- a reply that holds `next_page` with a JSON null value clears the token
  (`self.next_page = None`). The following request is then built from `q`,
  `rpp` and `since_id` again. So a token, once set, overrides the query
  parameters only while replies keep sending one (`Link.NullLink`,
  `Search.LaterRequestsUseToken` assumes no such reply);
- a record without an id is not dropped. SQLite gives it a fresh rowid (one
  above the largest key, or 1 in an empty table). So re-ingesting the same
  records adds nothing only when every record carries an id
  (`Ingest.IngestIdempotent`, `Ingest.IdlessRecordStoredTwice`).

## Model

| member | source | states |
|---|---|---|
| JsonValues.Field | archive_twitter_search.py:122-123 | a key reads as present exactly when the record holds a non-null value under it, and then as that value |
| Search.SearchParams | archive_twitter_search.py:53-55 | the parameters always carry `q` (the query) and `rpp` (the page size); they carry `since_id` exactly when the cursor has one, and then with its value; no other key |
| Search.SearchUrl | archive_twitter_search.py:47-56 | every request target starts with the endpoint |
| Search.TokenTakesPrecedence | archive_twitter_search.py:49-50 | with a token held, the target is the endpoint plus the token, whatever the query, page size, since-id or encoder |
| Search.BuiltTarget | archive_twitter_search.py:53-56 | with no token, the target is endpoint + `?` + the encoded parameters, which carry `since_id` iff the cursor has one |
| Search.Continue | archive_twitter_search.py:76-96 | from the k-th request on, a run adds at least one and at most `MaxPages - k` requests; at the cap it changes nothing |
| Search.Paginate | archive_twitter_search.py:76-81 | a run makes between 1 and 20 requests, whatever the replies |
| Search.ContinueStops | archive_twitter_search.py:80-96 | every reply except the last continues the run; the run stops at the cap or after a reply without `next_page` or a failed fetch; it ends in error iff the last reply failed |
| Search.ContinueRecords | archive_twitter_search.py:87-90 | the records yielded are those already yielded followed by the `results` of each fetched reply, in order; a reply without `results` adds none |
| Search.ContinueRequests | archive_twitter_search.py:84-94 | each request goes to the target that the token left by the previous reply selects; the first one uses the token held at the start |
| Search.ContinueError | archive_twitter_search.py:61-68 | the error a run ends with is the one the last fetched reply carries |
| Search.EndlessServerHitsCap | archive_twitter_search.py:73-81 | against a server that always sends `next_page`, a run makes exactly 20 requests |
| Search.LaterRequestsUseToken | archive_twitter_search.py:49-94 | when no reply sends a null `next_page`, every request after the first is the endpoint plus the token of the reply before it |
| Search.PaginateRecords | archive_twitter_search.py:87-90 | a run yields exactly the concatenated `results` of the replies it fetched, in order |
| Search.PaginateStops | archive_twitter_search.py:80-96 | the request count, stop condition and final error of a whole run, as for `ContinueStops` and `ContinueError` |
| Search.Drain | archive_twitter_search.py:88-90 | popping a page's results from the front onto the stream appends the whole page, in order |
| Search.TwitterSearch.constructor | archive_twitter_search.py:39-44 | a new cursor has the search endpoint, the given query, page size 100, and neither token nor since-id |
| Search.TwitterSearch.GetSearchUrl | archive_twitter_search.py:47-56 | the target is endpoint + token when a token is held, and endpoint + `?` + encoded parameters otherwise |
| Search.TwitterSearch.DoQuery | archive_twitter_search.py:59-69 | one request goes to the current target and returns the server's reply to it |
| Search.TwitterSearch.GetTweets | archive_twitter_search.py:72-96 | the loop yields the records, makes the requests and leaves the token and error of `Paginate`; it changes only the token |
| Tweets.CreatedAt | archive_twitter_search.py:130-133 | the date is absent iff the record has none; otherwise it is the parser's result, and an unparsable value is an error |
| Tweets.Normalise | archive_twitter_search.py:120-148 | each copied column is absent exactly when its key is missing or null, and otherwise holds the input value; `source` comes from `from_source`; the date is parsed and `geo` rendered only when present; building fails only on an unparsable date |
| Tweets.NormaliseEmpty | archive_twitter_search.py:122-124 | an empty record becomes a row with every column absent |
| Tweets.NormaliseTotalWithoutDate | archive_twitter_search.py:130-133 | a record without a date always yields a row, with no date |
| Tweets.NormaliseIgnoresParserWithoutDate | archive_twitter_search.py:130-133 | without a `created_at` value the parser is not consulted: any parser gives the same row |
| Tweets.NormaliseIgnoresReprWithoutGeo | archive_twitter_search.py:145-148 | without a `geo` value `repr` is not applied: any renderer gives the same row |
| Tweets.NormaliseReadsOnlySourceKeys | archive_twitter_search.py:125-148 | records that agree on the eleven keys read give the same row or error |
| Tweets.SourceKeyIgnored | archive_twitter_search.py:140 | for every record, a `source` key changes neither the row nor the error: the `source` column is filled from `from_source` only |
| Ingest.MaxExists | archive_twitter_search.py:158-159 | a non-empty set of ids has a largest element |
| Ingest.MaxKey | archive_twitter_search.py:158-159 | `MAX(id)` of a non-empty table is a stored key no smaller than any other |
| Ingest.MaxStoredId | archive_twitter_search.py:158-161 | `MAX(id)` is NULL exactly on an empty table, and otherwise the largest key |
| Ingest.NextRowId | archive_twitter_search.py:170-171 | the rowid given to a row without an id is not yet a key: 1 in an empty table, otherwise one above the largest key |
| Ingest.Insert | archive_twitter_search.py:169-176 | an insert fails and leaves the table unchanged exactly when the id is already a key or is no integer; otherwise it adds one row under its id, or under a fresh rowid, and nothing else changes; a boolean id binds as the key 1 (true) or 0 (false) |
| Ingest.InsertKeepsWellKeyed | archive_twitter_search.py:108-125 | every row's `id` column keeps holding its key |
| Ingest.IngestFrom | archive_twitter_search.py:165-176 | the `n_tweets` counter grows by exactly the number of keys added to the table |
| Ingest.Ingestion | archive_twitter_search.py:165-176 | over a whole run, `n_tweets` equals the number of new keys |
| Ingest.IngestKeepsRows | archive_twitter_search.py:167-176 | the loop never removes or rewrites a stored row |
| Ingest.IngestFailureNone | archive_twitter_search.py:166-167 | the loop ends without an exception iff every record has a parsable date or none |
| Ingest.IngestFailureFirst | archive_twitter_search.py:166-167 | an exception comes from the first record with an unparsable date and carries its error |
| Ingest.FailureIgnoresStore | archive_twitter_search.py:166-167 | where the loop stops does not depend on the table's contents |
| Ingest.KnownFromGrows | archive_twitter_search.py:167-176 | records already stored stay accounted for as the table grows |
| Ingest.IngestCovers | archive_twitter_search.py:167-176 | when every record carries an id, every record the loop reached is stored or can never be |
| Ingest.IngestCoversEach | archive_twitter_search.py:165-176 | whatever the other records, each record the loop reached that carries an id is stored after the loop or can never be |
| Ingest.IngestKnownIsNoop | archive_twitter_search.py:173-176 | over records already stored, the loop changes nothing and counts nothing |
| Ingest.IngestIdempotent | archive_twitter_search.py:165-176 | feeding the same records, all with ids, to the table a run left adds 0 rows, keeps the table, and stops at the same point |
| Ingest.IdlessRecordStoredTwice | archive_twitter_search.py:165-172 | any record without an id whose date parses is stored again on every run: two runs over it add a row each, and the table grows by two |
| Ingest.RunConfig | archive_twitter_search.py:155-162 | the run's `since_id` is unset exactly on an empty table, and otherwise the largest stored key |
| Ingest.FirstRequestSeedsSinceId | archive_twitter_search.py:155-162 | the first request of a run carries `q` and `rpp`, and carries `since_id` iff the table is non-empty, with its largest key |
| Ingest.Database.constructor | archive_twitter_search.py:151-152 | the table object holds the given rows |
| Ingest.Database.Add | archive_twitter_search.py:169-176 | `add` + `commit`, or `rollback` on an integrity error, leaves the table `Insert` gives and reports whether it committed |
| Ingest.InsertAll | archive_twitter_search.py:165-176 | the loop leaves the table, the counter and the exception of `Ingestion` |
| Ingest.RunExit | archive_twitter_search.py:63-178 | a run completes iff there was neither an unparsable date nor a failed fetch, and then reports the rows added; a date error takes precedence over a fetch error |
| Ingest.ArchiveRun | archive_twitter_search.py:155-176 | a run seeds `since_id` from the table, makes the requests of `Paginate`, and leaves the table of `Ingestion` over the fetched records and the exit of `RunExit` |
| Ingest.RunReport | archive_twitter_search.py:165-178 | a completed run reports exactly the rows it added, and no run loses or rewrites a row it found |
| Interleaving.IngestStep | archive_twitter_search.py:166-176 | the insert loop takes one record at a time: it stops at that record if its date fails to parse, and otherwise goes on with the table and count that record left |
| Interleaving.IngestIsFold | archive_twitter_search.py:165-176 | the insert loop is the fold of the one-record step over the records, stopping at the first failure |
| Interleaving.IngestConcat | archive_twitter_search.py:165-176 | inserting the records of two page batches in turn is inserting the first batch, then, unless it failed, the second batch from the table and count it left |
| Interleaving.FailedStaysFailed | archive_twitter_search.py:166-167 | once a record's date has failed, records fetched after it change neither the table nor the error |
| Interleaving.ContinueStep | archive_twitter_search.py:78-96 | a reply that continues the cursor hands over to the next request with the reply's token, its records appended and one more request made |
| Interleaving.ContinueExtends | archive_twitter_search.py:87-90 | later pages only append to the records already yielded |
| Interleaving.PrefixOfContinue | archive_twitter_search.py:78-94 | later pages only append to the requests already made |
| Interleaving.LazyDateStop | archive_twitter_search.py:166-167 | the interleaved run ends at a page holding an unparsable date, with the table that inserting the page up to that record left, and requests nothing more |
| Interleaving.EagerDateStop | archive_twitter_search.py:166-167 | with every page fetched first, inserting still ends at that same record with the same table |
| Interleaving.LazyLastStep | archive_twitter_search.py:78-96 | at the cap, at a failed fetch and at a page without `next_page`, both runs end with the same table and exit; the interleaved requests are a prefix of the others, and the same unless a date error stopped it |
| Interleaving.LazyDateStep | archive_twitter_search.py:78-176 | at an unparsable date in a page that would continue the run, both runs leave the same table and the date error, and the interleaved requests are a prefix of the other run's |
| Interleaving.LazyMatchesEager | archive_twitter_search.py:78-176 | from any request on, the interleaved run leaves the table and exit of the fetch-then-insert run; its requests are a prefix of that run's, and the same unless a date error stopped it |
| Interleaving.LazyRunAgrees | archive_twitter_search.py:155-176 | the script as it runs leaves the table and exit that `Ingest.ArchiveRun` specifies; its requests are a prefix of `Paginate`'s, and the same unless a date error stopped it |

## Left out

- HTTP transport (`urllib2.Request`/`urlopen`): the server is a function from request number to reply. The messages printed before `sys.exit(1)` are not modelled.
- JSON decoding: replies arrive already structured. JSON numbers are integers only. Malformed replies that crash the script cannot be expressed: a `results` key holding `null` (`len(None)`) or any other non-list (line 89), a `next_page` that is neither a string nor null (the string concatenation at line 50), and a result entry that is not an object (`data.update` at line 123).
- `urllib.urlencode`, `dateutil.parser.parse` and `repr`: these are parameters of the model. The model fixes only when they are called and what is done with their result. A parser exception is a `None` result.
- Generator laziness in the class model: `GetTweets` collects all pages before insertion starts. The interleaving itself is modelled on values by `Interleaving.LazyRun`, and `Interleaving.LazyRunAgrees` proves the table, the count and the exit equal.
- Ingest.ArchiveRun: its `requests` can include pages that the lazy script would never request, because an unparsable date stops the script before the next page is fetched. `Interleaving.LazyRunAgrees` proves that the script's requests are a prefix of them, and all of them when no date error occurs.
- SQLite column affinity: an id that is a string spelling an integer is treated as a mismatch rather than converted. A value the driver cannot bind (for example a nested object in a text column) is not modelled. The 64-bit rowid range is not modelled: ids are unbounded, and rowid generation at the largest 64-bit key is left out.
- Ingest.KeyOf: a boolean id binds as the integer key 1 or 0, as Python's `bool` does. An id that is a JSON array or object is skipped as a mismatch. In the script such an id cannot be hashed or bound, and the uncaught error ends the run.
- Storage errors other than integrity errors, such as a locked database or an I/O error, end the script uncaught. The model has no such path: every insert either commits or is rolled back and skipped.
- SQLAlchemy engine, session and table setup, the raw SQL text, and the session's identity map: the table is a map, and an integrity error is "the key is already present" or "the id is no integer".
- The final `print` with `datetime.now()`: this is output plus a wall-clock read. The count it prints is `Exit.Completed.added`.
- The module-level `query` and `db_path` settings: `query` is a parameter of `ArchiveRun`, and the table is passed in.
