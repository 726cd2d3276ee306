/** Normalisation of one raw search result into the fixed record that the
    `tweets` table stores (the `Tweet` constructor of the script). */
module Tweets {
  import opened Wrappers
  import opened JsonValues

  /** A point in time, as seconds since the epoch in UTC. */
  datatype Instant = Instant(utcSeconds: int)

  /** The date parser (`dateutil.parser.parse`), left abstract: it yields
      `None` for a value it cannot parse, where the library raises. */
  type DateParser = Json -> Option<Instant>

  /** `repr` of a decoded geo value, left abstract. */
  type GeoRepr = Json -> string

  /** One row of the `tweets` table. Every column may be absent (SQL NULL).
      The columns copied verbatim keep their JSON value. */
  datatype Tweet = Tweet(
    id: Option<Json>,
    isoLanguageCode: Option<Json>,
    text: Option<Json>,
    createdAt: Option<Instant>,
    profileImageUrl: Option<Json>,
    toUser: Option<Json>,
    toUserId: Option<Json>,
    fromUser: Option<Json>,
    fromUserId: Option<Json>,
    source: Option<Json>,
    geo: Option<string>)

  /** The one way building a row can fail: the date parser rejects the value. */
  datatype NormaliseError = UnparsableDate(value: Json)

  /** The input keys the constructor looks at. */
  const SourceKeys: set<string> := {"id", "iso_language_code", "text", "created_at",
    "profile_image_url", "to_user", "to_user_id", "from_user", "from_user_id",
    "from_source", "geo"}

  /** A column copied verbatim from `key`: absent exactly when the record
      lacks the key or holds null there, and otherwise the value itself. */
  predicate CopiedFrom(column: Option<Json>, raw: Record, key: string) {
    && (column.None? <==> !Has(raw, key))
    && (column.Some? ==> column.value == raw[key])
  }

  /** The stored date: absent when the record has none, otherwise the parse
      of the given value. */
  function CreatedAt(raw: Record, parseDate: DateParser): (r: Result<Option<Instant>, NormaliseError>)
    ensures r.Failure? <==> Has(raw, "created_at") && parseDate(raw["created_at"]).None?
    ensures r.Failure? ==> r.error == UnparsableDate(raw["created_at"])
    ensures r.Success? ==> r.value == (if Has(raw, "created_at") then parseDate(raw["created_at"]) else None)
  {
    match Field(raw, "created_at")
    case None => Success(None)
    case Some(v) =>
      match parseDate(v)
      case None => Failure(UnparsableDate(v))
      case Some(t) => Success(Some(t))
  }

  /** Builds the row for one raw record. Missing keys and keys holding null
      become absent columns; `created_at` is parsed and `geo` rendered with
      `repr` only when present; `source` comes from the input key
      `from_source`; `id` is copied, never invented. */
  function Normalise(raw: Record, parseDate: DateParser, reprGeo: GeoRepr): (r: Result<Tweet, NormaliseError>)
    ensures r.Failure? <==> Has(raw, "created_at") && parseDate(raw["created_at"]).None?
    ensures r.Failure? ==> r.error == UnparsableDate(raw["created_at"])
    ensures r.Success? ==>
      var t := r.value;
      && CopiedFrom(t.id, raw, "id")
      && CopiedFrom(t.isoLanguageCode, raw, "iso_language_code")
      && CopiedFrom(t.text, raw, "text")
      && CopiedFrom(t.profileImageUrl, raw, "profile_image_url")
      && CopiedFrom(t.toUser, raw, "to_user")
      && CopiedFrom(t.toUserId, raw, "to_user_id")
      && CopiedFrom(t.fromUser, raw, "from_user")
      && CopiedFrom(t.fromUserId, raw, "from_user_id")
      && CopiedFrom(t.source, raw, "from_source")
      && (t.createdAt.None? <==> !Has(raw, "created_at"))
      && (t.createdAt.Some? ==> parseDate(raw["created_at"]) == t.createdAt)
      && (t.geo.None? <==> !Has(raw, "geo"))
      && (t.geo.Some? ==> t.geo.value == reprGeo(raw["geo"]))
  {
    match CreatedAt(raw, parseDate)
    case Failure(e) => Failure(e)
    case Success(createdAt) =>
      Success(Tweet(
        id := Field(raw, "id"),
        isoLanguageCode := Field(raw, "iso_language_code"),
        text := Field(raw, "text"),
        createdAt := createdAt,
        profileImageUrl := Field(raw, "profile_image_url"),
        toUser := Field(raw, "to_user"),
        toUserId := Field(raw, "to_user_id"),
        fromUser := Field(raw, "from_user"),
        fromUserId := Field(raw, "from_user_id"),
        source := Field(raw, "from_source"),
        geo := if Has(raw, "geo") then Some(reprGeo(raw["geo"])) else None))
  }

  /** The row with every column absent. */
  const EmptyRow := Tweet(None, None, None, None, None, None, None, None, None, None, None)

  /** An empty record normalises to the row with every column absent. */
  lemma NormaliseEmpty(parseDate: DateParser, reprGeo: GeoRepr)
    ensures Normalise(map[], parseDate, reprGeo) == Success(EmptyRow)
  {
  }

  /** Without a date the constructor cannot fail, whatever the parser. */
  lemma NormaliseTotalWithoutDate(raw: Record, parseDate: DateParser, reprGeo: GeoRepr)
    requires !Has(raw, "created_at")
    ensures Normalise(raw, parseDate, reprGeo).Success?
    ensures Normalise(raw, parseDate, reprGeo).value.createdAt.None?
  {
  }

  /** The parser is consulted only for a present `created_at`: without
      one, any parser gives the same result. */
  lemma NormaliseIgnoresParserWithoutDate(raw: Record, parseDate: DateParser, parseDate': DateParser,
                                          reprGeo: GeoRepr)
    requires !Has(raw, "created_at")
    ensures Normalise(raw, parseDate, reprGeo) == Normalise(raw, parseDate', reprGeo)
  {
  }

  /** `repr` is applied only to a present `geo`: without one, any renderer
      gives the same result. */
  lemma NormaliseIgnoresReprWithoutGeo(raw: Record, parseDate: DateParser,
                                       reprGeo: GeoRepr, reprGeo': GeoRepr)
    requires !Has(raw, "geo")
    ensures Normalise(raw, parseDate, reprGeo) == Normalise(raw, parseDate, reprGeo')
  {
  }

  /** Only the eleven source keys matter: two records that agree on them
      (reading missing and null alike) give the same row or the same error. */
  lemma NormaliseReadsOnlySourceKeys(raw: Record, raw': Record, parseDate: DateParser, reprGeo: GeoRepr)
    requires forall k :: k in SourceKeys ==> Field(raw, k) == Field(raw', k)
    ensures Normalise(raw, parseDate, reprGeo) == Normalise(raw', parseDate, reprGeo)
  {
    assert Field(raw, "created_at") == Field(raw', "created_at");
    assert Field(raw, "geo") == Field(raw', "geo");
    assert Field(raw, "id") == Field(raw', "id");
    assert Field(raw, "iso_language_code") == Field(raw', "iso_language_code");
    assert Field(raw, "text") == Field(raw', "text");
    assert Field(raw, "profile_image_url") == Field(raw', "profile_image_url");
    assert Field(raw, "to_user") == Field(raw', "to_user");
    assert Field(raw, "to_user_id") == Field(raw', "to_user_id");
    assert Field(raw, "from_user") == Field(raw', "from_user");
    assert Field(raw, "from_user_id") == Field(raw', "from_user_id");
    assert Field(raw, "from_source") == Field(raw', "from_source");
  }

  /** The `source` column is filled from `from_source` only: setting a
      `source` key in any record changes neither its row nor its error. */
  lemma SourceKeyIgnored(raw: Record, v: Json, parseDate: DateParser, reprGeo: GeoRepr)
    ensures Normalise(raw["source" := v], parseDate, reprGeo) == Normalise(raw, parseDate, reprGeo)
  {
    NormaliseReadsOnlySourceKeys(raw["source" := v], raw, parseDate, reprGeo);
  }
}
