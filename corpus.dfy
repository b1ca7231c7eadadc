/** The template corpus generator `generate_movie_conversations`
    (app.py:72-135). For each movie, in list order, it appends the rendered
    recommendation, description, genre and rating pairs and then one actor
    group per cast member, as a flat list of alternating prompts and
    responses. The movie list is a parameter here; the source reads the
    module-level `movies_data`. */
module Corpus {
  import opened Text
  import opened Templates
  import opened Phrasebook
  import opened Records
  import opened Seqs

  /** Stands in for the joined cast when the cast is empty (app.py:81). */
  const UnknownActors: string := "unknown actors"

  /** The `cast` local of app.py:81: it names every cast member, and falls
      back to "unknown actors" only for an empty cast. */
  function CastPhrase(cast: seq<string>): (phrase: string)
    ensures forall k :: 0 <= k < |cast| ==> Contains(phrase, cast[k])
    ensures cast == [] ==> phrase == UnknownActors
  {
    if |cast| > 0 then JoinContainsAll(", ", cast); Join(", ", cast) else UnknownActors
  }

  /** The locals `title`, `genre`, `overview`, `rating` and `cast` of
      app.py:77-81; `actor` is bound by the inner loop. */
  function MovieBindings(m: Movie): Bindings {
    Bindings(m.title, m.genres, m.overview, m.voteAverage, "", CastPhrase(m.cast))
  }

  /** The 23 pairs every movie contributes (app.py:84-120). */
  function FixedEntries(b: Bindings): seq<Entry> {
    RenderGroup(Recommendations, b) + RenderGroup(Descriptions, b)
    + RenderGroup(GenreQuestions, b) + RenderGroup(RatingQuestions, b)
  }

  /** The actor template group rendered for each cast member (app.py:123-133). */
  function ActorGroups(cast: seq<string>, b: Bindings): seq<seq<Entry>> {
    seq(|cast|, k requires 0 <= k < |cast| => RenderGroup(ActorQuestions, b.(actor := cast[k])))
  }

  /** One actor group per cast member, in cast order. */
  function ActorEntries(cast: seq<string>, b: Bindings): seq<Entry> {
    Concat(ActorGroups(cast, b))
  }

  /** All pairs one movie contributes, in the order they are appended. */
  function MovieEntries(m: Movie): seq<Entry> {
    FixedEntries(MovieBindings(m)) + ActorEntries(m.cast, MovieBindings(m))
  }

  /** The pairs of each movie. */
  function MovieBlocks(movies: seq<Movie>): seq<seq<Entry>> {
    seq(|movies|, k requires 0 <= k < |movies| => MovieEntries(movies[k]))
  }

  /** The pairs of all movies, movie by movie in list order. */
  function CorpusEntries(movies: seq<Movie>): seq<Entry> {
    Concat(MovieBlocks(movies))
  }

  /** The flat list `extend` builds: each pair as its prompt then its response. */
  function Flatten(es: seq<Entry>): seq<string> {
    if |es| == 0 then [] else [es[0].prompt, es[0].response] + Flatten(es[1..])
  }

  /** 46 strings per movie plus 16 per cast member. */
  function ConversationCount(movies: seq<Movie>): nat {
    if |movies| == 0 then 0 else 46 + 16 * |movies[0].cast| + ConversationCount(movies[1..])
  }

  // ---------------------------------------------------------------------
  // The generator

  /** `generate_movie_conversations` over the given movie list. */
  method GenerateMovieConversations(movies: seq<Movie>) returns (conversations: seq<string>)
    ensures conversations == Flatten(CorpusEntries(movies))
    ensures |conversations| == ConversationCount(movies)
  {
    conversations := [];
    var i := 0;
    while i < |movies|
      invariant 0 <= i <= |movies|
      invariant conversations == Flatten(CorpusEntries(movies[..i]))
    {
      var movie := movies[i];
      var b := MovieBindings(movie);
      ghost var before := conversations;
      conversations := conversations + Flatten(RenderGroup(Recommendations, b));
      conversations := conversations + Flatten(RenderGroup(Descriptions, b));
      conversations := conversations + Flatten(RenderGroup(GenreQuestions, b));
      conversations := conversations + Flatten(RenderGroup(RatingQuestions, b));
      ExtendFixed(before, b);
      ghost var prefix := before + Flatten(FixedEntries(b));
      var j := 0;
      while j < |movie.cast|
        invariant 0 <= j <= |movie.cast|
        invariant conversations == prefix + Flatten(ActorEntries(movie.cast[..j], b))
      {
        var actor := movie.cast[j];
        var group := Flatten(RenderGroup(ActorQuestions, b.(actor := actor)));
        ghost var done := Flatten(ActorEntries(movie.cast[..j], b));
        conversations := conversations + group;
        ActorEntriesSnoc(movie.cast, j, b);
        AppendAssociative(prefix, done, group);
        j := j + 1;
      }
      TakeAll(movie.cast);
      CorpusSnoc(movies, i);
      i := i + 1;
    }
    TakeAll(movies);
    CorpusLength(movies);
  }

  /** One more cast member appends that actor's rendered group. */
  lemma ActorEntriesSnoc(cast: seq<string>, j: nat, b: Bindings)
    requires j < |cast|
    ensures Flatten(ActorEntries(cast[..j + 1], b))
      == Flatten(ActorEntries(cast[..j], b)) + Flatten(RenderGroup(ActorQuestions, b.(actor := cast[j])))
  {
    var group := RenderGroup(ActorQuestions, b.(actor := cast[j]));
    assert ActorGroups(cast[..j + 1], b) == ActorGroups(cast[..j], b) + [group];
    ConcatSnoc(ActorGroups(cast[..j], b), group);
    FlattenAppend(ActorEntries(cast[..j], b), group);
  }

  /** One more movie appends that movie's fixed pairs and then its actor groups. */
  lemma CorpusSnoc(movies: seq<Movie>, i: nat)
    requires i < |movies|
    ensures Flatten(CorpusEntries(movies[..i + 1]))
      == Flatten(CorpusEntries(movies[..i])) + Flatten(FixedEntries(MovieBindings(movies[i])))
         + Flatten(ActorEntries(movies[i].cast, MovieBindings(movies[i])))
  {
    var m := movies[i];
    var fixed, actors := FixedEntries(MovieBindings(m)), ActorEntries(m.cast, MovieBindings(m));
    assert MovieBlocks(movies[..i + 1]) == MovieBlocks(movies[..i]) + [MovieEntries(m)];
    ConcatSnoc(MovieBlocks(movies[..i]), MovieEntries(m));
    FlattenAppend(CorpusEntries(movies[..i]), MovieEntries(m));
    FlattenAppend(fixed, actors);
    assert Flatten(CorpusEntries(movies[..i])) + (Flatten(fixed) + Flatten(actors))
        == Flatten(CorpusEntries(movies[..i])) + Flatten(fixed) + Flatten(actors);
  }

  // ---------------------------------------------------------------------
  // Structure of the flat list

  lemma {:induction false} FlattenAppend(a: seq<Entry>, b: seq<Entry>)
    ensures Flatten(a + b) == Flatten(a) + Flatten(b)
  {
    if |a| > 0 {
      AppendFirst(a, b);
      FlattenAppend(a[1..], b);
    } else {
      EmptyAppend(a, b);
    }
  }

  /** The four fixed `extend` calls append the fixed pairs of the movie. */
  lemma ExtendFixed(before: seq<string>, b: Bindings)
    ensures before + Flatten(RenderGroup(Recommendations, b)) + Flatten(RenderGroup(Descriptions, b))
      + Flatten(RenderGroup(GenreQuestions, b)) + Flatten(RenderGroup(RatingQuestions, b))
      == before + Flatten(FixedEntries(b))
  {
    var r, d, g, t := RenderGroup(Recommendations, b), RenderGroup(Descriptions, b),
                      RenderGroup(GenreQuestions, b), RenderGroup(RatingQuestions, b);
    FlattenAppend(r + d + g, t);
    FlattenAppend(r + d, g);
    FlattenAppend(r, d);
    AppendAssociativeTail(before, Flatten(r), Flatten(d), Flatten(g), Flatten(t));
  }

  /** The flat list has even length, holds the prompt of pair `k` at index
      `2k` and its response at index `2k + 1`. */
  lemma {:induction false} FlattenPairs(es: seq<Entry>)
    ensures |Flatten(es)| == 2 * |es|
    ensures forall k :: 0 <= k < |es| ==>
      Flatten(es)[2 * k] == es[k].prompt && Flatten(es)[2 * k + 1] == es[k].response
  {
    if |es| > 0 {
      FlattenPairs(es[1..]);
      forall k | 0 < k < |es|
        ensures Flatten(es)[2 * k] == es[k].prompt && Flatten(es)[2 * k + 1] == es[k].response
      {
        assert Flatten(es)[2 * k] == Flatten(es[1..])[2 * (k - 1)];
        assert Flatten(es)[2 * k + 1] == Flatten(es[1..])[2 * (k - 1) + 1];
      }
    }
  }

  /** The corpus of a concatenated movie list is the concatenation of the
      corpora: movies contribute their blocks in list order. */
  lemma CorpusAppend(a: seq<Movie>, c: seq<Movie>)
    ensures CorpusEntries(a + c) == CorpusEntries(a) + CorpusEntries(c)
  {
    assert MovieBlocks(a + c) == MovieBlocks(a) + MovieBlocks(c);
    ConcatAppend(MovieBlocks(a), MovieBlocks(c));
  }

  /** The first movie's pairs come first, then those of the rest. */
  lemma CorpusCons(movies: seq<Movie>)
    requires |movies| > 0
    ensures CorpusEntries(movies) == MovieEntries(movies[0]) + CorpusEntries(movies[1..])
  {
    assert MovieBlocks(movies)[1..] == MovieBlocks(movies[1..]);
  }

  // ---------------------------------------------------------------------
  // Counts

  lemma ActorEntriesCount(cast: seq<string>, b: Bindings)
    ensures |ActorEntries(cast, b)| == 8 * |cast|
  {
    ConcatLength(ActorGroups(cast, b), 8);
  }

  /** A movie contributes 23 pairs plus 8 per cast member. */
  lemma MovieEntriesCount(m: Movie)
    ensures |MovieEntries(m)| == 23 + 8 * |m.cast|
    ensures |Flatten(MovieEntries(m))| == 46 + 16 * |m.cast|
  {
    ActorEntriesCount(m.cast, MovieBindings(m));
    FlattenPairs(MovieEntries(m));
  }

  /** The generated list holds 46 + 16 * |cast| strings per movie. */
  lemma {:induction false} CorpusLength(movies: seq<Movie>)
    ensures |Flatten(CorpusEntries(movies))| == ConversationCount(movies)
  {
    if |movies| > 0 {
      CorpusCons(movies);
      CorpusLength(movies[1..]);
      MovieEntriesCount(movies[0]);
      FlattenAppend(MovieEntries(movies[0]), CorpusEntries(movies[1..]));
    }
  }

  /** Movie `k`'s block sits in the generated list right after the blocks of
      the movies before it, and depends on that movie alone. */
  lemma MovieBlockPosition(movies: seq<Movie>, k: nat)
    requires k < |movies|
    ensures var start := ConversationCount(movies[..k]);
      && start + 46 + 16 * |movies[k].cast| <= |Flatten(CorpusEntries(movies))|
      && Flatten(CorpusEntries(movies))[start..start + 46 + 16 * |movies[k].cast|]
         == Flatten(MovieEntries(movies[k]))
  {
    var m, before, after := movies[k], movies[..k], movies[k + 1..];
    CorpusSplit(movies, k);
    CorpusLength(before);
    MovieEntriesCount(m);
    MiddleSlice(Flatten(CorpusEntries(before)), Flatten(MovieEntries(m)), Flatten(CorpusEntries(after)));
  }

  /** The generated list around movie `k`: the movies before it, its own
      block, then the movies after it. */
  lemma CorpusSplit(movies: seq<Movie>, k: nat)
    requires k < |movies|
    ensures Flatten(CorpusEntries(movies)) == Flatten(CorpusEntries(movies[..k]))
      + (Flatten(MovieEntries(movies[k])) + Flatten(CorpusEntries(movies[k + 1..])))
  {
    var blocks := MovieBlocks(movies);
    ConcatSplit(blocks, k);
    assert blocks[..k] == MovieBlocks(movies[..k]);
    assert blocks[k + 1..] == MovieBlocks(movies[k + 1..]);
    FlattenAppend(CorpusEntries(movies[..k]), MovieEntries(movies[k]) + CorpusEntries(movies[k + 1..]));
    FlattenAppend(MovieEntries(movies[k]), CorpusEntries(movies[k + 1..]));
  }

  /** Index `q` of `x + y`, where `y` holds `g` from position `s` on. */
  lemma IndexIntoSlice<T>(x: seq<T>, y: seq<T>, g: seq<T>, s: nat, q: nat)
    requires s + |g| <= |y| && y[s..s + |g|] == g
    requires |x| + s <= q < |x| + s + |g|
    ensures (x + y)[q] == g[q - |x| - s]
  {
    assert (x + y)[q] == y[q - |x|];
    assert y[q - |x|] == y[s..s + |g|][q - |x| - s];
  }

  /** Actor group `j` of a movie's actor pairs is the actor template group
      rendered for the `j`-th cast member. */
  lemma ActorGroupAt(cast: seq<string>, b: Bindings, j: nat)
    requires j < |cast|
    ensures |ActorEntries(cast, b)| == 8 * |cast|
    ensures ActorEntries(cast, b)[8 * j..8 * j + 8] == RenderGroup(ActorQuestions, b.(actor := cast[j]))
  {
    var groups := ActorGroups(cast, b);
    ActorEntriesCount(cast, b);
    ConcatBlockAt(groups, j);
    assert groups[..j] == ActorGroups(cast[..j], b);
    ActorEntriesCount(cast[..j], b);
  }

  // ---------------------------------------------------------------------
  // The empty cast and the "unknown actors" fallback

  /** A movie with no cast contributes exactly the 23 fixed pairs, 46 strings. */
  lemma EmptyCastBlock(m: Movie)
    requires m.cast == []
    ensures MovieEntries(m) == FixedEntries(MovieBindings(m))
    ensures |Flatten(MovieEntries(m))| == 46
  {
    MovieEntriesCount(m);
  }

  /** Dropping the whole cast removes every actor pair and leaves the 23
      fixed pairs exactly as they were with the cast. */
  lemma CastRemovalKeepsFixed(m: Movie)
    ensures MovieEntries(m.(cast := [])) == FixedEntries(MovieBindings(m))
    ensures |MovieEntries(m)| == 23 + 8 * |m.cast|
    ensures MovieEntries(m)[..23] == MovieEntries(m.(cast := []))
  {
    var b, e := MovieBindings(m), MovieBindings(m.(cast := []));
    assert e == b.(castText := e.castText);
    RecommendationFields();
    DescriptionFields();
    GenreFields();
    RatingFields();
    RenderGroupIgnoresCastText(Recommendations, b, e.castText);
    RenderGroupIgnoresCastText(Descriptions, b, e.castText);
    RenderGroupIgnoresCastText(GenreQuestions, b, e.castText);
    RenderGroupIgnoresCastText(RatingQuestions, b, e.castText);
    EmptyCastBlock(m.(cast := []));
    MovieEntriesCount(m);
    assert |FixedEntries(b)| == 23;
    assert MovieEntries(m)[..23] == FixedEntries(b);
  }

  /** The fallback text never reaches the output: every movie's pairs are
      the ones it would get if the cast text were always the plain join of
      the cast, because only the actor groups read it and they exist only
      for a non-empty cast. */
  lemma FallbackNeverRendered(m: Movie)
    ensures var b := MovieBindings(m).(castText := Join(", ", m.cast));
      MovieEntries(m) == FixedEntries(b) + ActorEntries(m.cast, b)
  {
    var b := MovieBindings(m);
    var joined := Join(", ", m.cast);
    if |m.cast| == 0 {
      RecommendationFields();
      DescriptionFields();
      GenreFields();
      RatingFields();
      RenderGroupIgnoresCastText(Recommendations, b, joined);
      RenderGroupIgnoresCastText(Descriptions, b, joined);
      RenderGroupIgnoresCastText(GenreQuestions, b, joined);
      RenderGroupIgnoresCastText(RatingQuestions, b, joined);
    } else {
      assert b.(castText := joined) == b;
    }
  }

  // ---------------------------------------------------------------------
  // Which fields appear in the responses

  lemma ActorResponsesMention(cast: seq<string>, b: Bindings)
    ensures forall k :: 0 <= k < |ActorEntries(cast, b)| ==>
      Contains(ActorEntries(cast, b)[k].response, b.title)
  {
    ActorEntriesCount(cast, b);
    ActorFields();
    forall k | 0 <= k < |ActorEntries(cast, b)|
      ensures Contains(ActorEntries(cast, b)[k].response, b.title)
    {
      var j := k / 8;
      var ba := b.(actor := cast[j]);
      ActorGroupAt(cast, b, j);
      assert ActorEntries(cast, b)[k] == RenderGroup(ActorQuestions, ba)[k - 8 * j];
      GroupResponsesShow(ActorQuestions, ba, Title);
    }
  }

  /** Every response generated for a movie contains the movie's title. */
  lemma ResponsesMentionTitle(m: Movie)
    ensures forall k :: 0 <= k < |MovieEntries(m)| ==>
      Contains(MovieEntries(m)[k].response, m.title)
  {
    var b := MovieBindings(m);
    RecommendationFields();
    DescriptionFields();
    GenreFields();
    RatingFields();
    GroupResponsesShow(Recommendations, b, Title);
    GroupResponsesShow(Descriptions, b, Title);
    GroupResponsesShow(GenreQuestions, b, Title);
    GroupResponsesShow(RatingQuestions, b, Title);
    ActorResponsesMention(m.cast, b);
  }

  /** Every response of cast member `j`'s group contains that actor's name
      and the title; the group occupies pairs `23 + 8j` to `30 + 8j`. */
  lemma ActorGroupMentions(m: Movie, j: nat)
    requires j < |m.cast|
    ensures |MovieEntries(m)| == 23 + 8 * |m.cast|
    ensures forall q :: 8 * j + 23 <= q < 8 * j + 31 ==>
      && Contains(MovieEntries(m)[q].response, m.cast[j])
      && Contains(MovieEntries(m)[q].response, m.title)
  {
    var b := MovieBindings(m);
    var ba := b.(actor := m.cast[j]);
    var fixed, actors := FixedEntries(b), ActorEntries(m.cast, b);
    var group := RenderGroup(ActorQuestions, ba);
    MovieEntriesCount(m);
    ActorGroupAt(m.cast, b, j);
    assert |fixed| == 23;
    ActorFields();
    GroupResponsesShow(ActorQuestions, ba, Actor);
    GroupResponsesShow(ActorQuestions, ba, Title);
    assert Value(Actor, ba) == m.cast[j] && Value(Title, ba) == m.title;
    forall q | 8 * j + 23 <= q < 8 * j + 31
      ensures Contains(MovieEntries(m)[q].response, m.cast[j])
      ensures Contains(MovieEntries(m)[q].response, m.title)
    {
      IndexIntoSlice(fixed, actors, group, 8 * j, q);
      assert Contains(group[q - 8 * j - 23].response, Value(Actor, ba));
      assert Contains(group[q - 8 * j - 23].response, Value(Title, ba));
    }
  }

  /** The co-star response of cast member `j` lists the whole cast joined by
      ", " (never the fallback text), so it names every cast member. */
  lemma CoStarListsCast(m: Movie, j: nat)
    requires j < |m.cast|
    ensures |MovieEntries(m)| == 23 + 8 * |m.cast|
    ensures Contains(MovieEntries(m)[8 * j + 23 + CoStarQuestion].response, Join(", ", m.cast))
    ensures forall k :: 0 <= k < |m.cast| ==>
      Contains(MovieEntries(m)[8 * j + 23 + CoStarQuestion].response, m.cast[k])
  {
    var b := MovieBindings(m);
    var ba := b.(actor := m.cast[j]);
    assert Value(CastText, ba) == Join(", ", m.cast);
    var group := RenderGroup(ActorQuestions, ba);
    MovieEntriesCount(m);
    ActorGroupAt(m.cast, b, j);
    assert |FixedEntries(b)| == 23;
    IndexIntoSlice(FixedEntries(b), ActorEntries(m.cast, b), group, 8 * j, 8 * j + 23 + CoStarQuestion);
    ActorFields();
    GroupResponseShows(ActorQuestions, ba, CastText, CoStarQuestion);
    forall k | 0 <= k < |m.cast|
      ensures Contains(MovieEntries(m)[8 * j + 23 + CoStarQuestion].response, m.cast[k])
    {
      JoinContainsEach(", ", m.cast, k);
      ContainsTransitive(MovieEntries(m)[8 * j + 23 + CoStarQuestion].response, Join(", ", m.cast), m.cast[k]);
    }
  }
}
