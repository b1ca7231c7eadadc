# MovieBot corpus and lookup model

A Dafny model of the deterministic core of a Telegram movie chatbot
(`app.py`):

- **Loading movies** (`fetch_movies`): each `movies_full` row becomes a movie
  record. Its `"cast"` column is normalised to a list of names: a list is
  kept, NULL or the empty text becomes `[]`, and any other text goes
  through `json.loads`. A text that does not decode raises, and
  `fetch_movies` does not catch it, so the load fails at that row.
- **Template corpus generator** (`generate_movie_conversations`): for each
  movie, in list order, it appends rendered prompt/response strings to a
  flat list. There are 9 recommendation pairs, 5 description pairs,
  5 genre pairs, 4 rating pairs, and 8 pairs per cast member in cast
  order. The f-strings are modelled as templates: sequences of literal
  pieces and replacement fields (`Templates`). The five phrase tables
  (`Phrasebook`) copy the source's literals. The generator is a method
  with nested loops. It is proved equal to a reference definition
  (`Corpus.CorpusEntries` flattened), and the lemmas below are about that
  definition.
- **Direct lookup reply** (`get_movie_recommendation`): the query result
  is given as a parameter. The reply is one of three things: a five-line
  summary (title, overview, genre, rating, and the first five cast names
  or `N/A`), the not-found sentence, or the apology for any exception.
  A cast text that `json.loads` rejects counts as an exception. The empty
  text is one such text.
- **Stored response table** (`load_chatbot_data_from_db`): the dict
  comprehension keeps the last row for each repeated input.

`json.loads` is a parameter of type `Records.JsonDecoder`. It is any
function from text to an optional list of names that rejects the empty
text. The title, genres, overview and rating are treated as the text they
render to.

Two consequences of the code are worth spelling out:

- `fetch_movies` does not catch a `json.loads` error (app.py:59), so one
  undecodable cast aborts the whole load; the model returns
  `MalformedCast(row)`.
- `get_movie_recommendation` passes an empty cast text to `json.loads`
  (app.py:203), which raises, so the reply is the apology
  (`Lookup.EmptyCastTextIsError`).

## Model

| member | source | states |
|---|---|---|
| `Records.NormaliseCast` | app.py:59 | A list is returned unchanged. NULL and the empty text give `[]`. Other text gives the decoder's result. The result is missing exactly when a non-empty text fails to decode. |
| `Records.FetchMovies` | app.py:51-61 | On success, there is one movie per row, in row order, with the row's fields and its normalised cast. On failure, the reported row is the first one whose cast does not decode, and all earlier rows decode. |
| `Templates.Render` | app.py:85-132 | Evaluates an f-string: its segments' values in order. No contract of its own; `Templates.RenderShowsField` states what it guarantees. |
| `Templates.RenderGroup` | app.py:84-133 | The list one `extend` call adds, before flattening: one rendered pair per template pair, so as many pairs as the table has. |
| `Templates.RenderShowsField` | app.py:85-132 | A rendered f-string contains the value of every replacement field its template has. |
| `Templates.RenderGroupIgnoresCastText` | app.py:81-120 | A group of templates without `{cast}` renders the same whatever the cast text is. |
| `Phrasebook.TableSizes` | app.py:84-133 | The five phrase tables (`Recommendations`, `Descriptions`, `GenreQuestions`, `RatingQuestions`, `ActorQuestions`) hold 9, 5, 5, 4 and 8 template pairs, copied literal for literal from the source. |
| `Phrasebook.RecommendationFields` | app.py:84-94 | Every recommendation response has `{title}`. No recommendation template has `{actor}` or `{cast}`. |
| `Phrasebook.DescriptionFields` | app.py:97-103 | Every description response has `{title}`. No description template has `{actor}` or `{cast}`. |
| `Phrasebook.GenreFields` | app.py:106-112 | Every genre response has `{title}`. No genre template has `{actor}` or `{cast}`. |
| `Phrasebook.RatingFields` | app.py:115-120 | Every rating response has `{title}`. No rating template has `{actor}` or `{cast}`. |
| `Phrasebook.ActorFields` | app.py:123-133 | Every actor response has `{actor}` and `{title}`. The co-star response (question 6) has `{cast}`. |
| `Text.Join` | app.py:81 | Python's `str.join`, also used at app.py:204. No contract of its own; `Text.JoinContainsEach` and `Text.SplitJoin` state its properties. |
| `Text.JoinContainsEach` | app.py:81 | Every item of a join occurs in the joined string. |
| `Text.SplitJoin` | app.py:205 | Joining a non-empty list of items with a one-character separator (the summary's line breaks) and splitting at it gives the items back when no item contains that character. |
| `Corpus.CastPhrase` | app.py:81 | The cast text names every cast member; it is `"unknown actors"` when the cast is empty. |
| `Corpus.CorpusEntries` | app.py:76-133 | The reference corpus: each movie's pairs, movie by movie in list order. No contract of its own; the lemmas below state its properties. |
| `Corpus.Flatten` | app.py:84-133 | Each pair as its prompt then its response, the way `extend` adds them. No contract of its own; `Corpus.FlattenPairs` states its layout. |
| `Corpus.GenerateMovieConversations` | app.py:72-135 | The list built by the nested loops equals the flattened reference corpus. It holds 46 + 16·\|cast\| strings per movie. |
| `Corpus.FlattenPairs` | app.py:84-133 | The flat list has even length. Index 2k holds the prompt of pair k and index 2k+1 holds its response. |
| `Corpus.CorpusAppend` | app.py:76-133 | The corpus of a concatenated movie list is the concatenation of the two corpora, so movies contribute in list order. |
| `Corpus.MovieEntriesCount` | app.py:84-133 | A movie contributes 23 pairs plus 8 per cast member, which is 46 + 16·\|cast\| strings. |
| `Corpus.CorpusLength` | app.py:76-133 | The whole list has the sum over movies of 46 + 16·\|cast\| strings. |
| `Corpus.MovieBlockPosition` | app.py:76-133 | Movie k's strings appear as one block. The block starts right after the strings of movies 0..k-1 and equals that movie's own rendering. |
| `Corpus.CorpusSplit` | app.py:76-133 | The list is the strings of the movies before movie k, then movie k's own strings, then those of the movies after it. |
| `Corpus.ActorGroupAt` | app.py:123-133 | Pairs 8j to 8j+7 of a movie's actor part are the actor templates rendered for cast member j. |
| `Corpus.EmptyCastBlock` | app.py:81-133 | A movie with an empty cast contributes exactly the 23 fixed pairs, which is 46 strings. |
| `Corpus.CastRemovalKeepsFixed` | app.py:81-133 | Removing the whole cast removes every actor pair. The 23 fixed pairs stay exactly as they were with the cast. |
| `Corpus.FallbackNeverRendered` | app.py:81-131 | Every movie's pairs are the same as if the cast text were always the plain join of the cast. The `"unknown actors"` fallback never affects the output. |
| `Corpus.ResponsesMentionTitle` | app.py:85-132 | Every response generated for a movie contains that movie's title. |
| `Corpus.ActorGroupMentions` | app.py:123-133 | Every response in cast member j's group contains that actor's name and the title. |
| `Corpus.CoStarListsCast` | app.py:81-131 | Each co-star response contains the whole cast joined by `", "`, and so it names every cast member. |
| `Lookup.CastList` | app.py:203 | A text gives exactly the decoder's result, a list is used as it is, and NULL gives `[]` (Python keeps `None`; both are falsy, so both reach `"N/A"`). The result is missing exactly when a text fails to decode, which is always the case for the empty text. |
| `Lookup.CastNames` | app.py:204 | An empty cast gives `"N/A"`. |
| `Lookup.SummaryLines` | app.py:205 | The five lines of the summary f-string. No contract of its own; `Lookup.SummaryLayout` states their order. |
| `Lookup.CastNamesIgnoresTail` | app.py:204 | Names after the fifth never reach the cast line. |
| `Lookup.CastNamesTopFive` | app.py:204 | If the names contain no comma, splitting the cast line at commas gives min(5, \|cast\|) parts: the first name, then the next names in cast order, each still carrying the leading space of the `", "` separator. |
| `Lookup.Recommendation` | app.py:201-210 | No row gives the fixed not-found sentence. A failed query gives the fixed apology. With a row, the reply is the apology exactly when the cast text fails to decode; otherwise it is the summary lines joined by newlines. |
| `Lookup.SummaryLayout` | app.py:205 | If the fields have no line breaks, the summary splits into five lines: title, overview, genre, rating and cast, in that order. |
| `Lookup.EmptyCastShowsNoCast` | app.py:203-205 | A NULL or empty-list cast gives a summary whose cast line reads `N/A`. |
| `Lookup.EmptyCastTextIsError` | app.py:203-210 | An empty cast text gives the apology, because `json.loads("")` raises. |
| `Knowledge.ResponseTable` | app.py:156 | The table's keys are exactly the inputs of the rows. |
| `Knowledge.LastRowWins` | app.py:156 | An input maps to the response of the last row that has it. |

## Left out

- ChatterBot (`ChatBot`, `ListTrainer`, the `BestMatch` adapter with its 0.90 similarity threshold, app.py:138-147, 162-176) is a foreign library with floating-point scoring.
- PostgreSQL access is database I/O. This covers `get_db_connection`, the cursors, the `SELECT` statements and the `ILIKE ... LIMIT 1` title match with its unescaped `%` and `_`. The rows and the query outcome are parameters instead.
- The Telegram handlers, the FastAPI webhook, uvicorn start-up and `nest_asyncio` (app.py:213-322) are asynchronous network plumbing. `handle_message` replies with a constant anyway.
- Other side effects and environment are left out: loading the spaCy model, `.env` and logging set-up, the `training_data.json` write and the `TRAIN_BOT` switch.
- Rendering of `vote_average`, `genres` and `overview` is left out. This covers Python's float formatting, list repr, and `None` rendered as `"None"`. These fields are opaque strings.
- The module-level `movies_data` global is left out. The generator takes the movie list as a parameter.
- `Records.JsonDecoder`: JSON values other than a list of names count as decoding failures. Python would instead carry them on: `null` gives a `None` cast, and a number or a string fails or is iterated later.
- Non-string cast entries are not modelled. In Python they make `", ".join` raise.
