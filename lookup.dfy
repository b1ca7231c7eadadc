/** The reply of `get_movie_recommendation` (app.py:185-210) once the
    `ILIKE ... LIMIT 1` query has produced its outcome: a formatted summary
    of the row, the not-found sentence, or the apology for an exception. */
module Lookup {
  import opened Wrappers
  import opened Text
  import opened Records

  /** One row of `SELECT title, overview, genres, vote_average, "cast"`
      (app.py:191). Overview, genres and rating are the text they render to. */
  datatype TitleRow = TitleRow(
    title: string, overview: string, genres: string, rating: string, cast: CastValue)

  /** What the query step left behind: the first matching row, no row, or
      an exception raised while connecting or querying (app.py:188-199). */
  datatype QueryOutcome = Found(row: TitleRow) | NoRow | QueryFailed

  const NotFoundReply: string := "I couldn't find that movie in my database."
  const WarningSign: string := "\U{26A0}\U{FE0F}"
  const ErrorReply: string := WarningSign + " Error retrieving movie data. Try again later."

  /** Shown in place of the names when there is no cast (app.py:204). */
  const NoCast: string := "N/A"

  /** How many cast names the summary shows (app.py:204). */
  const CastShown: nat := 5

  /** `cast_list` of app.py:203: a text is handed to `json.loads` (None when
      it raises, the empty text included), any other value is used as it
      is. A NULL cast stands as the empty list: both are falsy at app.py:204. */
  function CastList(v: CastValue, decode: JsonDecoder): (r: Option<seq<string>>)
    ensures r.None? <==> v.TextCast? && decode(v.text).None?
    ensures v == TextCast("") ==> r.None?
    ensures v.ListCast? ==> r == Some(v.names)
    ensures v.TextCast? ==> r == decode(v.text)
    ensures v.NullCast? ==> r == Some([])
  {
    match v
    case TextCast(text) => decode(text)
    case ListCast(names) => Some(names)
    case NullCast => Some([])
  }

  /** `cast_names` of app.py:204: the first five names joined by ", ", or
      "N/A" for an empty cast. */
  function CastNames(cast: seq<string>): (names: string)
    ensures cast == [] ==> names == NoCast
  {
    if |cast| == 0 then NoCast else Join(", ", cast[..Min(CastShown, |cast|)])
  }

  /** The five lines of the summary f-string of app.py:205, in order. */
  function SummaryLines(row: TitleRow, castNames: string): seq<string> {
    [ "\U{1F3AC} " + row.title,
      "\U{1F4D6} " + row.overview,
      "\U{2B50} Genre: " + row.genres,
      "\U{1F4AF} Rating: " + row.rating,
      "\U{1F3AD} Cast: " + castNames ]
  }

  /** The reply of `get_movie_recommendation` for the outcome of its query.
      A cast text that `json.loads` rejects raises inside the `try`, so it
      gets the same apology as a failed query. */
  function Recommendation(outcome: QueryOutcome, decode: JsonDecoder): (reply: string)
    ensures outcome.NoRow? ==> reply == NotFoundReply
    ensures outcome.QueryFailed? ==> reply == ErrorReply
    ensures outcome.Found? ==>
      (reply == ErrorReply <==> CastList(outcome.row.cast, decode).None?)
    ensures outcome.Found? && CastList(outcome.row.cast, decode).Some? ==>
      reply == Join("\n", SummaryLines(outcome.row, CastNames(CastList(outcome.row.cast, decode).value)))
  {
    match outcome
    case NoRow => NotFoundReply
    case QueryFailed => ErrorReply
    case Found(row) =>
      match CastList(row.cast, decode)
      case None => ErrorReply
      case Some(cast) =>
        var lines := SummaryLines(row, CastNames(cast));
        JoinStartsWithFirst("\n", lines);
        assert Join("\n", lines)[0] == lines[0][0] == '\U{1F3AC}';
        assert ErrorReply[0] == WarningSign[0] == '\U{26A0}';
        Join("\n", lines)
  }

  lemma {:induction false} JoinStartsWithFirst(sep: string, xs: seq<string>)
    requires |xs| >= 1
    ensures |Join(sep, xs)| >= |xs[0]| && Join(sep, xs)[..|xs[0]|] == xs[0]
  {
    if |xs| > 1 {
      assert Join(sep, xs) == xs[0] + (sep + Join(sep, xs[1..]));
    }
  }

  /** A join avoids a character that neither the separator nor any item contains. */
  lemma {:induction false} JoinAvoids(c: char, sep: string, xs: seq<string>)
    requires c !in sep
    requires forall k :: 0 <= k < |xs| ==> c !in xs[k]
    ensures c !in Join(sep, xs)
  {
    if |xs| > 1 {
      JoinAvoids(c, sep, xs[1..]);
    }
  }

  /** Names after the fifth never reach the summary. */
  lemma CastNamesIgnoresTail(cast: seq<string>)
    ensures CastNames(cast) == CastNames(cast[..Min(CastShown, |cast|)])
  {
    var shown := cast[..Min(CastShown, |cast|)];
    assert shown[..Min(CastShown, |shown|)] == shown;
  }

  /** For a non-empty cast whose names contain no comma, splitting the cast
      line at the commas gives back exactly the first min(5, |cast|) names
      in cast order, each after the first preceded by the space of ", ". */
  lemma CastNamesTopFive(cast: seq<string>)
    requires |cast| > 0
    requires forall k :: 0 <= k < |cast| ==> ',' !in cast[k]
    ensures Split(CastNames(cast), ',') == [cast[0]] + Indented(cast[1..Min(CastShown, |cast|)])
    ensures |Split(CastNames(cast), ',')| == Min(CastShown, |cast|)
  {
    var shown := cast[..Min(CastShown, |cast|)];
    SplitCommaJoin("", shown);
    assert "" + Join(", ", shown) == Join(", ", shown);
    assert "" + shown[0] == cast[0];
    assert shown[1..] == cast[1..Min(CastShown, |cast|)];
  }

  /** With no line break inside the fields, the summary reads as five lines:
      title, overview, genre, rating and cast, in that order. */
  lemma SummaryLayout(row: TitleRow, decode: JsonDecoder)
    requires CastList(row.cast, decode).Some?
    requires '\n' !in row.title && '\n' !in row.overview
    requires '\n' !in row.genres && '\n' !in row.rating
    requires var cast := CastList(row.cast, decode).value;
      forall k :: 0 <= k < |cast| ==> '\n' !in cast[k]
    ensures var cast := CastList(row.cast, decode).value;
      Split(Recommendation(Found(row), decode), '\n') == SummaryLines(row, CastNames(cast))
  {
    var cast := CastList(row.cast, decode).value;
    var names := CastNames(cast);
    if |cast| > 0 {
      JoinAvoids('\n', ", ", cast[..Min(CastShown, |cast|)]);
    }
    assert '\n' !in names;
    var lines := SummaryLines(row, names);
    forall k | 0 <= k < |lines|
      ensures '\n' !in lines[k]
    {
      assert k in {0, 1, 2, 3, 4};
    }
    SplitJoin(lines, '\n');
  }

  /** An empty cast, NULL or an empty list, shows "N/A" on the cast line. */
  lemma EmptyCastShowsNoCast(row: TitleRow, decode: JsonDecoder)
    requires row.cast == NullCast || row.cast == ListCast([])
    ensures Recommendation(Found(row), decode)
      == Join("\n", SummaryLines(row, NoCast))
  {
  }

  /** An empty cast text reaches `json.loads`, which raises: the reply is the apology. */
  lemma EmptyCastTextIsError(row: TitleRow, decode: JsonDecoder)
    requires row.cast == TextCast("")
    ensures Recommendation(Found(row), decode) == ErrorReply
  {
  }
}
