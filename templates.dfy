/** The Python f-strings of the conversation generator, as data: a template
    is its sequence of literal pieces and replacement fields, and rendering
    substitutes every field. */
module Templates {
  import opened Text

  /** A literal piece of an f-string, or one of the replacement fields
      `{title}`, `{genre}`, `{overview}`, `{rating}`, `{actor}`, `{cast}`. */
  datatype Segment =
    | Lit(text: string)
    | Title
    | Genre
    | Overview
    | Rating
    | Actor
    | CastText

  type Template = seq<Segment>

  /** The local variables the f-strings read (app.py:77-81, 123). */
  datatype Bindings = Bindings(
    title: string, genre: string, overview: string, rating: string,
    actor: string, castText: string)

  /** What one segment renders to under `b`. */
  function Value(seg: Segment, b: Bindings): string {
    match seg
    case Lit(text) => text
    case Title => b.title
    case Genre => b.genre
    case Overview => b.overview
    case Rating => b.rating
    case Actor => b.actor
    case CastText => b.castText
  }

  /** The string an f-string evaluates to: its segments' values in order. */
  function Render(t: Template, b: Bindings): string {
    if |t| == 0 then "" else Value(t[0], b) + Render(t[1..], b)
  }

  /** A prompt template and the response template paired with it. */
  datatype Pair = Pair(prompt: Template, response: Template)

  /** One rendered (prompt, response) pair of the training corpus. */
  datatype Entry = Entry(prompt: string, response: string)

  /** A group of pairs rendered under the same bindings, in group order. */
  function RenderGroup(group: seq<Pair>, b: Bindings): (entries: seq<Entry>)
    ensures |entries| == |group|
  {
    seq(|group|, k requires 0 <= k < |group| =>
      Entry(Render(group[k].prompt, b), Render(group[k].response, b)))
  }

  /** Every response template of the group contains the field `seg`. */
  predicate EveryResponseUses(group: seq<Pair>, seg: Segment) {
    forall k :: 0 <= k < |group| ==> seg in group[k].response
  }

  /** No template of the group, prompt or response, contains the field `seg`. */
  predicate NoneUses(group: seq<Pair>, seg: Segment) {
    forall k :: 0 <= k < |group| ==> seg !in group[k].prompt && seg !in group[k].response
  }

  /** A field of the template shows up, with its value, in the rendered text. */
  lemma {:induction false} RenderShowsField(t: Template, b: Bindings, seg: Segment)
    requires seg in t
    ensures Contains(Render(t, b), Value(seg, b))
  {
    if t[0] == seg {
      ContainsSelf(Value(seg, b));
      ContainsBeforeSuffix(Value(seg, b), Render(t[1..], b), Value(seg, b));
    } else {
      assert seg in t[1..];
      RenderShowsField(t[1..], b, seg);
      ContainsAfterPrefix(Value(t[0], b), Render(t[1..], b), Value(seg, b));
    }
  }

  /** Rendering does not read the cast text of templates that lack `{cast}`. */
  lemma {:induction false} RenderIgnoresCastText(t: Template, b: Bindings, castText: string)
    requires CastText !in t
    ensures Render(t, b) == Render(t, b.(castText := castText))
  {
    if |t| > 0 {
      assert CastText !in t[1..];
      RenderIgnoresCastText(t[1..], b, castText);
    }
  }

  /** A group whose templates lack `{cast}` renders the same under any cast text. */
  lemma RenderGroupIgnoresCastText(group: seq<Pair>, b: Bindings, castText: string)
    requires NoneUses(group, CastText)
    ensures RenderGroup(group, b) == RenderGroup(group, b.(castText := castText))
  {
    forall k | 0 <= k < |group|
      ensures RenderGroup(group, b)[k] == RenderGroup(group, b.(castText := castText))[k]
    {
      RenderIgnoresCastText(group[k].prompt, b, castText);
      RenderIgnoresCastText(group[k].response, b, castText);
    }
  }

  /** In a group whose every response uses `seg`, every rendered response
      contains that field's value. */
  lemma GroupResponsesShow(group: seq<Pair>, b: Bindings, seg: Segment)
    requires EveryResponseUses(group, seg)
    ensures forall k :: 0 <= k < |group| ==>
      Contains(RenderGroup(group, b)[k].response, Value(seg, b))
  {
    forall k | 0 <= k < |group|
      ensures Contains(RenderGroup(group, b)[k].response, Value(seg, b))
    {
      RenderShowsField(group[k].response, b, seg);
    }
  }

  /** The `k`-th rendered response of a group shows a field its template uses. */
  lemma GroupResponseShows(group: seq<Pair>, b: Bindings, seg: Segment, k: nat)
    requires k < |group| && seg in group[k].response
    ensures Contains(RenderGroup(group, b)[k].response, Value(seg, b))
  {
    RenderShowsField(group[k].response, b, seg);
  }
}
