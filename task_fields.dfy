/**
 * The normalisation shared by the create and edit dialogs: the title must be
 * non-blank after trimming, blank optional fields become absent, and the tag
 * text is split on commas.
 */
module TaskFields {
  import opened Types
  import opened Text

  const TitleRequired: string := "Title is required"

  /** The five text inputs of a task form, as typed. */
  datatype FormInput = FormInput(
    title: string,
    description: string,
    priority: Priority,
    dueDate: string,
    tags: string)

  /** The default form: every text empty and priority `Medium`. */
  const EmptyForm: FormInput := FormInput("", "", Medium, "", "")

  /** `s || undefined`: the empty string stands for an absent value. */
  function Optional(s: string): (r: Option<string>)
    ensures r.None? <==> s == []
    ensures r.Some? ==> r.value == s
  {
    if s == [] then None else Some(s)
  }

  /**
   * A task as both dialogs save it: a non-empty trimmed title, a description
   * that is absent or non-empty and trimmed, a due date that is absent or
   * non-empty, and well-formed tags.
   */
  predicate FormShaped(t: Task)
  {
    && t.title != [] && Trimmed(t.title)
    && (t.description.Some? ==> t.description.value != [] && Trimmed(t.description.value))
    && (t.dueDate.Some? ==> t.dueDate.value != [])
    && forall k :: 0 <= k < |t.tags| ==> WellFormedTag(t.tags[k])
  }

  /** `x || ''`: an absent value is shown as the empty string. */
  function OrEmpty(o: Option<string>): (r: string)
    ensures o.Some? ==> r == o.value
    ensures o.None? ==> r == []
  {
    match o
    case None => []
    case Some(s) => s
  }

  /** `.map((tag) => tag.trim()).filter(Boolean)` over the pieces of the tag text. */
  function CleanTags(pieces: seq<string>): (r: seq<string>)
    ensures |r| <= |pieces|
    ensures forall k :: 0 <= k < |r| ==> r[k] != [] && Trimmed(r[k])
  {
    if pieces == [] then []
    else
      var t := Trim(pieces[0]);
      (if t == [] then [] else [t]) + CleanTags(pieces[1..])
  }

  /** A tag as the form produces it: non-empty, no surrounding white space, no comma. */
  predicate WellFormedTag(t: string)
  {
    t != [] && Trimmed(t) && ',' !in t
  }

  /** A comma cannot appear in a trimmed piece of text that had none. */
  lemma TrimKeepsCommaOut(s: string)
    requires ',' !in s
    ensures ',' !in Trim(s)
  {
    var r := Trim(s);
    var k :| OccursAt(s, r, k);
    forall i | 0 <= i < |r| ensures r[i] != ',' {
      assert r[i] == s[k + i];
    }
  }

  /** The tag text one comma-free piece yields: its trimmed text, unless that is empty. */
  function PieceTags(piece: string): seq<string>
  {
    var t := Trim(piece);
    if t == [] then [] else [t]
  }

  /**
   * `tags.split(',').map((tag) => tag.trim()).filter(Boolean)`: the comma-separated
   * pieces, trimmed, empty ones dropped, in entry order.
   */
  function ParseTags(input: string): (r: seq<string>)
    ensures forall k :: 0 <= k < |r| ==> WellFormedTag(r[k])
    ensures AllWhitespace(input) ==> r == []
  {
    var pieces := SplitCommas(input);
    var r := CleanTags(pieces);
    assert forall k :: 0 <= k < |r| ==> ',' !in r[k] by {
      CleanTagsCommaFree(pieces);
    }
    assert AllWhitespace(input) ==> r == [] by {
      if AllWhitespace(input) {
        BlankHasNoComma(input);
        SplitCommasPrefix(input, []);
        assert input + [] == input;
        assert pieces == [input];
      }
    }
    r
  }

  lemma {:induction false} CleanTagsCommaFree(pieces: seq<string>)
    requires forall k :: 0 <= k < |pieces| ==> ',' !in pieces[k]
    ensures forall k :: 0 <= k < |CleanTags(pieces)| ==> ',' !in CleanTags(pieces)[k]
  {
    if pieces != [] {
      CleanTagsCommaFree(pieces[1..]);
      TrimKeepsCommaOut(pieces[0]);
    }
  }

  /** A comma-free input is a single piece. */
  lemma ParseTagsPiece(piece: string)
    requires ',' !in piece
    ensures ParseTags(piece) == PieceTags(piece)
  {
    SplitCommasPrefix(piece, []);
    assert piece + [] == piece;
    assert SplitCommas(piece) == [piece];
  }

  /**
   * The first comma splits the input: the tag of the first piece (if any)
   * comes before every tag of the rest, so tags keep their entry order.
   */
  lemma ParseTagsAtComma(piece: string, rest: string)
    requires ',' !in piece
    ensures ParseTags(piece + "," + rest) == PieceTags(piece) + ParseTags(rest)
  {
    SplitCommasAtComma(piece, rest);
    assert ([piece] + SplitCommas(rest))[1..] == SplitCommas(rest);
  }

  /** Blank text has no comma in it. */
  lemma BlankHasNoComma(s: string)
    requires AllWhitespace(s)
    ensures ',' !in s
  {
    assert !IsWhitespace(',');
  }

  /** Blank text in front of a piece is dropped with the leading white space. */
  lemma {:induction false} TrimStartAfterBlank(p: string, s: string)
    requires AllWhitespace(p)
    ensures TrimStart(p + s) == TrimStart(s)
  {
    if p != [] {
      TrimStartAfterBlank(p[1..], s);
      assert (p + s)[0] == p[0] && (p + s)[1..] == p[1..] + s;
    } else {
      assert p + s == s;
    }
  }

  /**
   * Round trip of the edit form: tags shown as `tags.join(', ')` and parsed
   * again come back unchanged, behind any blank prefix.
   */
  lemma {:induction false} ParseJoinedTags(p: string, tags: seq<string>)
    requires AllWhitespace(p)
    requires forall k :: 0 <= k < |tags| ==> WellFormedTag(tags[k])
    ensures ParseTags(p + Join(tags, ", ")) == tags
    decreases |tags|
  {
    BlankHasNoComma(p);
    if tags == [] {
      assert p + Join(tags, ", ") == p;
      assert AllWhitespace(p + Join(tags, ", "));
    } else {
      var t := tags[0];
      TrimStartAfterBlank(p, t);
      TrimOfTrimmed(t);
      assert ',' !in p + t;
      if |tags| == 1 {
        ParseTagsPiece(p + t);
      } else {
        var rest := Join(tags[1..], ", ");
        assert p + Join(tags, ", ") == (p + t) + "," + (" " + rest);
        ParseTagsAtComma(p + t, " " + rest);
        ParseJoinedTags(" ", tags[1..]);
        assert [t] + tags[1..] == tags;
      }
    }
  }

  /** `tags.join(', ')` parsed by the form gives the tags back. */
  lemma TagsRoundTrip(tags: seq<string>)
    requires forall k :: 0 <= k < |tags| ==> WellFormedTag(tags[k])
    ensures ParseTags(Join(tags, ", ")) == tags
  {
    ParseJoinedTags([], tags);
    assert [] + Join(tags, ", ") == Join(tags, ", ");
  }
}
