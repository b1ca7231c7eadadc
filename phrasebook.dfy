/** The phrasing tables of `generate_movie_conversations`: each pair is one
    prompt f-string and the response f-string after it in an `extend` call.
    `\U{2019}` is the typographic apostrophe the source uses in three prompts. */
module Phrasebook {
  import opened Templates

  /** Generic recommendation questions, mapped to this movie (app.py:84-94). */
  const Recommendations: seq<Pair> := [
    Pair([Lit("Can you recommend a movie?")],
         [Lit("You should watch "), Title, Lit(". It's a "), Genre, Lit(" film with a rating of "), Rating, Lit(".")]),
    Pair([Lit("Suggest a good movie.")],
         [Lit("You might like "), Title, Lit(", a highly rated "), Genre, Lit(" film.")]),
    Pair([Lit("What\U{2019}s a great movie to watch?")],
         [Lit("I recommend "), Title, Lit(". It's a "), Genre, Lit(" movie with a "), Rating, Lit(" rating.")]),
    Pair([Lit("Give me a movie suggestion.")],
         [Lit("Sure! Try "), Title, Lit(", a fantastic "), Genre, Lit(" film.")]),
    Pair([Lit("What is a popular movie right now?")],
         [Title, Lit(" is trending! It's a "), Genre, Lit(" movie with a rating of "), Rating, Lit(".")]),
    Pair([Lit("I want to watch something interesting.")],
         [Lit("How about "), Title, Lit("? It's a "), Genre, Lit(" film with a compelling story.")]),
    Pair([Lit("Give me a critically acclaimed movie.")],
         [Title, Lit(" has received great reviews and has a rating of "), Rating, Lit(".")]),
    Pair([Lit("What movie should I watch tonight?")],
         [Lit("Try watching "), Title, Lit(", a top-rated "), Genre, Lit(" film.")]),
    Pair([Lit("Surprise me with a movie!")],
         [Lit("You might enjoy "), Title, Lit(", a highly rated "), Genre, Lit(" movie.")])
  ]

  /** Questions about one movie's story (app.py:97-103). */
  const Descriptions: seq<Pair> := [
    Pair([Lit("Tell me about "), Title, Lit(".")],
         [Title, Lit(" is a "), Genre, Lit(" movie. Overview: "), Overview]),
    Pair([Lit("What\U{2019}s "), Title, Lit(" about?")],
         [Title, Lit(" is a "), Genre, Lit(" movie. Here's the synopsis: "), Overview]),
    Pair([Lit("Can you describe "), Title, Lit("?")],
         [Title, Lit(" is a "), Genre, Lit(" film with this storyline: "), Overview]),
    Pair([Lit("What makes "), Title, Lit(" special?")],
         [Title, Lit(" is a fan favorite, known for its "), Genre, Lit(" story and a rating of "), Rating, Lit(".")]),
    Pair([Lit("Why is "), Title, Lit(" famous?")],
         [Title, Lit(" is well-known for its "), Genre, Lit(" storyline and outstanding performances.")])
  ]

  /** Genre questions (app.py:106-112). */
  const GenreQuestions: seq<Pair> := [
    Pair([Lit("What genre is "), Title, Lit("?")],
         [Title, Lit(" falls under the "), Genre, Lit(" genre.")]),
    Pair([Lit("Is "), Title, Lit(" an action movie?")],
         [Title, Lit(" is a "), Genre, Lit(" movie.")]),
    Pair([Lit("Does "), Title, Lit(" have any comedy?")],
         [Title, Lit(" is a "), Genre, Lit(" film.")]),
    Pair([Lit("I like "), Genre, Lit(" movies. Any suggestions?")],
         [Lit("You might like "), Title, Lit(", a great "), Genre, Lit(" film!")]),
    Pair([Lit("What are some must-watch "), Genre, Lit(" films?")],
         [Title, Lit(" is one of the best "), Genre, Lit(" movies!")])
  ]

  /** Rating questions (app.py:115-120). */
  const RatingQuestions: seq<Pair> := [
    Pair([Lit("Is "), Title, Lit(" a good movie?")],
         [Title, Lit(" has a rating of "), Rating, Lit(". Many viewers liked it!")]),
    Pair([Lit("Would you recommend "), Title, Lit("?")],
         [Lit("Yes! "), Title, Lit(" has a rating of "), Rating, Lit(" and is well-received.")]),
    Pair([Lit("What do people think about "), Title, Lit("?")],
         [Title, Lit(" has a "), Rating, Lit(" rating and is considered a "), Genre, Lit(" classic.")]),
    Pair([Lit("Should I watch "), Title, Lit("?")],
         [Lit("If you enjoy "), Genre, Lit(" movies, you'll probably like "), Title, Lit(". It has a "), Rating, Lit(" rating.")])
  ]

  /** Questions about one cast member, rendered once per actor (app.py:123-133). */
  const ActorQuestions: seq<Pair> := [
    Pair([Lit("Which movies feature "), Actor, Lit("?")],
         [Actor, Lit(" stars in "), Title, Lit(".")]),
    Pair([Lit("Has "), Actor, Lit(" been in any famous movies?")],
         [Lit("Yes! "), Actor, Lit(" appeared in "), Title, Lit(", a popular "), Genre, Lit(" film.")]),
    Pair([Lit("Tell me a movie with "), Actor, Lit(".")],
         [Actor, Lit(" is in "), Title, Lit(", which is a "), Genre, Lit(" movie.")]),
    Pair([Lit("Give me a list of "), Actor, Lit("\U{2019}s movies.")],
         [Actor, Lit(" starred in "), Title, Lit(" and more films.")]),
    Pair([Lit("Is "), Actor, Lit(" a good actor?")],
         [Actor, Lit(" is well known for their performances in movies like "), Title, Lit(".")]),
    Pair([Lit("What is "), Actor, Lit(" best known for?")],
         [Actor, Lit(" is famous for starring in movies like "), Title, Lit(".")]),
    Pair([Lit("Who are some co-stars of "), Actor, Lit("?")],
         [Lit("In "), Title, Lit(", "), Actor, Lit(" starred alongside "), CastText, Lit(".")]),
    Pair([Lit("Has "), Actor, Lit(" worked in "), Genre, Lit(" movies?")],
         [Lit("Yes, "), Actor, Lit(" has appeared in "), Genre, Lit(" movies like "), Title, Lit(".")])
  ]

  /** Position of the co-star question within an actor group. */
  const CoStarQuestion: nat := 6

  /* The facts below are read off the tables: every response of the four
     movie-level groups contains `{title}` and none of their templates
     contains `{actor}` or `{cast}`; every actor response contains `{actor}`
     and `{title}`; `{cast}` occurs only in the co-star response. */

  /** The number of template pairs in each table. */
  lemma TableSizes()
    ensures |Recommendations| == 9 && |Descriptions| == 5 && |GenreQuestions| == 5
    ensures |RatingQuestions| == 4 && |ActorQuestions| == 8
  {
  }

  lemma RecommendationFields()
    ensures EveryResponseUses(Recommendations, Title)
    ensures NoneUses(Recommendations, Actor) && NoneUses(Recommendations, CastText)
  {
    forall k | 0 <= k < |Recommendations|
      ensures Title in Recommendations[k].response
      ensures Actor !in Recommendations[k].prompt && Actor !in Recommendations[k].response
      ensures CastText !in Recommendations[k].prompt && CastText !in Recommendations[k].response
    {
      assert k in {0,1,2,3,4,5,6,7,8};
    }
  }

  lemma DescriptionFields()
    ensures EveryResponseUses(Descriptions, Title)
    ensures NoneUses(Descriptions, Actor) && NoneUses(Descriptions, CastText)
  {
    forall k | 0 <= k < |Descriptions|
      ensures Title in Descriptions[k].response
      ensures Actor !in Descriptions[k].prompt && Actor !in Descriptions[k].response
      ensures CastText !in Descriptions[k].prompt && CastText !in Descriptions[k].response
    {
      assert k in {0,1,2,3,4};
    }
  }

  lemma GenreFields()
    ensures EveryResponseUses(GenreQuestions, Title)
    ensures NoneUses(GenreQuestions, Actor) && NoneUses(GenreQuestions, CastText)
  {
    forall k | 0 <= k < |GenreQuestions|
      ensures Title in GenreQuestions[k].response
      ensures Actor !in GenreQuestions[k].prompt && Actor !in GenreQuestions[k].response
      ensures CastText !in GenreQuestions[k].prompt && CastText !in GenreQuestions[k].response
    {
      assert k in {0,1,2,3,4};
    }
  }

  lemma RatingFields()
    ensures EveryResponseUses(RatingQuestions, Title)
    ensures NoneUses(RatingQuestions, Actor) && NoneUses(RatingQuestions, CastText)
  {
    forall k | 0 <= k < |RatingQuestions|
      ensures Title in RatingQuestions[k].response
      ensures Actor !in RatingQuestions[k].prompt && Actor !in RatingQuestions[k].response
      ensures CastText !in RatingQuestions[k].prompt && CastText !in RatingQuestions[k].response
    {
      assert k in {0,1,2,3};
    }
  }

  lemma ActorFields()
    ensures EveryResponseUses(ActorQuestions, Title) && EveryResponseUses(ActorQuestions, Actor)
    ensures CoStarQuestion < |ActorQuestions| && CastText in ActorQuestions[CoStarQuestion].response
  {
    forall k | 0 <= k < |ActorQuestions|
      ensures Title in ActorQuestions[k].response && Actor in ActorQuestions[k].response
    {
      assert k in {0,1,2,3,4,5,6,7};
    }
  }
}
