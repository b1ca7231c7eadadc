/** Movie records as `fetch_movies` builds them from the rows of the
    `movies_full` table (app.py:41-65). The database itself is outside the
    model: the rows arrive as a parameter. */
module Records {
  import opened Wrappers

  /** The raw `"cast"` column as the database driver hands it over: SQL NULL,
      a serialised JSON text, or an already decoded list of names. */
  datatype CastValue = NullCast | TextCast(text: string) | ListCast(names: seq<string>)

  /** A model of `json.loads` applied to a cast text: the list of names it
      decodes to, or None when it raises (or decodes to something other than
      a list of names). The empty text is never valid JSON. */
  type JsonDecoder = decode: string -> Option<seq<string>> | decode("") == None
    witness (s: string) => None

  /** One row of `SELECT movie_id, title, genres, overview, vote_average, "cast"`.
      Genres, overview and rating are kept as the text they render to. */
  datatype MovieRow = MovieRow(
    id: int, title: string, genres: string, overview: string, voteAverage: string,
    cast: CastValue)

  /** A loaded movie: the row with its cast normalised to a list of names. */
  datatype Movie = Movie(
    id: int, title: string, genres: string, overview: string, voteAverage: string,
    cast: seq<string>)

  /** `json.loads` raised on the cast of the row at this position. */
  datatype LoadError = MalformedCast(row: nat)

  /** The cast expression of app.py:59: a list is kept as it is, a falsy value
      (NULL or the empty text) becomes the empty list, any other text is decoded. */
  function NormaliseCast(v: CastValue, decode: JsonDecoder): (r: Option<seq<string>>)
    ensures v.ListCast? ==> r == Some(v.names)
    ensures v == NullCast || v == TextCast("") ==> r == Some([])
    ensures v.TextCast? && v.text != "" ==> r == decode(v.text)
    ensures r.None? <==> v.TextCast? && v.text != "" && decode(v.text).None?
  {
    match v
    case ListCast(names) => Some(names)
    case NullCast => Some([])
    case TextCast(text) => if text == "" then Some([]) else decode(text)
  }

  /** The record of app.py:53-60 for a row whose cast normalised to `cast`. */
  function ToMovie(row: MovieRow, cast: seq<string>): Movie {
    Movie(row.id, row.title, row.genres, row.overview, row.voteAverage, cast)
  }

  /** The row loop of `fetch_movies` (app.py:51-61): one movie per row, in row
      order. A cast text that does not decode makes `json.loads` raise, which
      `fetch_movies` does not catch, so the whole load fails at that row. */
  method FetchMovies(rows: seq<MovieRow>, decode: JsonDecoder)
    returns (r: Result<seq<Movie>, LoadError>)
    ensures r.Success? ==>
      && |r.value| == |rows|
      && forall k :: 0 <= k < |rows| ==>
           NormaliseCast(rows[k].cast, decode).Some? &&
           r.value[k] == ToMovie(rows[k], NormaliseCast(rows[k].cast, decode).value)
    ensures r.Failure? ==>
      && r.error.row < |rows|
      && NormaliseCast(rows[r.error.row].cast, decode).None?
      && forall k :: 0 <= k < r.error.row ==> NormaliseCast(rows[k].cast, decode).Some?
  {
    var movies: seq<Movie> := [];
    var i := 0;
    while i < |rows|
      invariant 0 <= i <= |rows|
      invariant |movies| == i
      invariant forall k :: 0 <= k < i ==>
        NormaliseCast(rows[k].cast, decode).Some? &&
        movies[k] == ToMovie(rows[k], NormaliseCast(rows[k].cast, decode).value)
    {
      var cast := NormaliseCast(rows[i].cast, decode);
      if cast.None? {
        return Failure(MalformedCast(i));
      }
      movies := movies + [ToMovie(rows[i], cast.value)];
      i := i + 1;
    }
    r := Success(movies);
  }
}
