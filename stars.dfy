/** The star-rating fragment shown in every map popup and sidebar card
    (getStarRating in main.js). A rating is either absent or an integer; a
    falsy rating renders a grey "Not rated" marker, any other rating renders a
    row of five glyphs, filled for the positions at or below the rating and
    hollow for the rest. */
module Stars {

  datatype Option<T> = None | Some(value: T)

  /** A restaurant's rating field: NoRating stands for JavaScript's undefined
      or null, Score for a whole-number rating. */
  datatype Rating = NoRating | Score(value: int)

  /** The guard `!rating || rating === 0`. */
  predicate IsFalsy(r: Rating) {
    r.NoRating? || r.value == 0
  }

  /** Markup returned for a falsy rating. */
  const NotRated: string := "<span style=\"color:#ccc;\">Not rated</span>"
  /** HTML entities of the filled and hollow star glyphs. */
  const FullGlyph: string := "&#9733;"
  const HollowGlyph: string := "&#9734;"
  const GlyphWidth: nat := 7
  /** The loop runs over positions 1 to RowLength. */
  const RowLength: nat := 5

  datatype Star = Full | Hollow

  function Glyph(s: Star): (g: string)
    ensures |g| == GlyphWidth && g[0] == '&'
    ensures g == FullGlyph <==> s == Full
  {
    if s == Full then FullGlyph else HollowGlyph
  }

  /** The text of a row of stars: the glyphs one after the other. */
  function RenderRow(row: seq<Star>): (s: string)
    ensures |s| == GlyphWidth * |row|
  {
    if row == [] then "" else Glyph(row[0]) + RenderRow(row[1..])
  }

  /** Reads a text back as a row of star glyphs; None when it is anything else. */
  function Parse(s: string): (r: Option<seq<Star>>)
    ensures r.Some? ==> |s| == GlyphWidth * |r.value|
    decreases |s|
  {
    if s == [] then Some([])
    else if |s| < GlyphWidth then None
    else
      var head :=
        if s[..GlyphWidth] == FullGlyph then Some(Full)
        else if s[..GlyphWidth] == HollowGlyph then Some(Hollow)
        else None;
      match (head, Parse(s[GlyphWidth..]))
      case (Some(h), Some(t)) => Some([h] + t)
      case _ => None
  }

  lemma {:induction false} RenderRowAppend(row: seq<Star>, s: Star)
    ensures RenderRow(row + [s]) == RenderRow(row) + Glyph(s)
  {
    if row == [] {
      assert row + [s] == [s];
    } else {
      assert (row + [s])[1..] == row[1..] + [s];
      RenderRowAppend(row[1..], s);
    }
  }

  /** Parsing undoes rendering: no information about the row is lost. */
  lemma {:induction false} ParseRender(row: seq<Star>)
    ensures Parse(RenderRow(row)) == Some(row)
  {
    if row != [] {
      var s := RenderRow(row);
      assert s[..GlyphWidth] == Glyph(row[0]);
      assert s[GlyphWidth..] == RenderRow(row[1..]);
      ParseRender(row[1..]);
      assert [row[0]] + row[1..] == row;
    }
  }

  /** Rendering undoes parsing: a text that parses is exactly that row's glyphs. */
  lemma {:induction false} RenderParse(s: string)
    requires Parse(s).Some?
    ensures RenderRow(Parse(s).value) == s
    decreases |s|
  {
    if s != [] {
      RenderParse(s[GlyphWidth..]);
      var row := Parse(s).value;
      assert row[1..] == Parse(s[GlyphWidth..]).value;
      assert s == s[..GlyphWidth] + s[GlyphWidth..];
    }
  }

  /** The row the loop builds for an integer rating: position i (counted from
      1, as the loop counts) is filled exactly when i <= rating. */
  function StarsFor(rating: int): (row: seq<Star>)
    ensures |row| == RowLength
    ensures FullsFirst(row)
  {
    seq(RowLength, i requires 0 <= i < RowLength => if i + 1 <= rating then Full else Hollow)
  }

  /** The number of filled stars, min(rating, 5) clamped below at 0. */
  function FilledCount(rating: int): (k: nat)
    ensures k <= RowLength
  {
    if rating <= 0 then 0 else if rating >= RowLength then RowLength else rating
  }

  function Repeat(s: Star, n: nat): (r: seq<Star>)
    ensures |r| == n
    ensures forall i :: 0 <= i < n ==> r[i] == s
  {
    if n == 0 then [] else [s] + Repeat(s, n - 1)
  }

  lemma {:induction false} RepeatCount(s: Star, n: nat)
    ensures multiset(Repeat(s, n))[s] == n
    ensures forall t :: t != s ==> multiset(Repeat(s, n))[t] == 0
  {
    if n > 0 {
      RepeatCount(s, n - 1);
      assert multiset(Repeat(s, n)) == multiset{s} + multiset(Repeat(s, n - 1));
    }
  }

  /** The row is some filled stars followed by all the hollow ones, never
      interleaved, and the filled ones number FilledCount(rating). */
  lemma StarsForShape(rating: int)
    ensures StarsFor(rating) == Repeat(Full, FilledCount(rating)) + Repeat(Hollow, RowLength - FilledCount(rating))
  {
  }

  /** A filled star never follows a hollow one. */
  predicate FullsFirst(row: seq<Star>) {
    forall i, j :: 0 <= i < j < |row| && row[j] == Full ==> row[i] == Full
  }

  /** Exactly FilledCount(rating) filled stars and the rest hollow. */
  lemma StarsForCount(rating: int)
    ensures multiset(StarsFor(rating))[Full] == FilledCount(rating)
    ensures multiset(StarsFor(rating))[Hollow] == RowLength - FilledCount(rating)
  {
    var k := FilledCount(rating);
    var fulls, hollows := Repeat(Full, k), Repeat(Hollow, RowLength - k);
    StarsForShape(rating);
    RepeatCount(Full, k);
    RepeatCount(Hollow, RowLength - k);
    assert multiset(fulls + hollows) == multiset(fulls) + multiset(hollows);
  }

  /** A higher rating never shows fewer filled stars. */
  lemma FilledMonotone(lo: int, hi: int)
    requires lo <= hi
    ensures multiset(StarsFor(lo))[Full] <= multiset(StarsFor(hi))[Full]
  {
    StarsForCount(lo);
    StarsForCount(hi);
  }

  /** What getStarRating returns. */
  function StarRatingHtml(rating: Rating): string {
    if IsFalsy(rating) then NotRated else RenderRow(StarsFor(rating.value))
  }

  /** The "Not rated" marker is returned exactly for a falsy rating. */
  lemma NotRatedIffFalsy(rating: Rating)
    ensures StarRatingHtml(rating) == NotRated <==> IsFalsy(rating)
  {
  }

  /** A non-falsy rating yields exactly five glyphs, which read back as the
      row for that rating. */
  lemma RatedIsFiveGlyphs(rating: Rating)
    requires !IsFalsy(rating)
    ensures |StarRatingHtml(rating)| == GlyphWidth * RowLength
    ensures Parse(StarRatingHtml(rating)) == Some(StarsFor(rating.value))
  {
    ParseRender(StarsFor(rating.value));
  }

  /** A star glyph, filled or hollow, starts at index i of s. */
  predicate GlyphAt(s: string, i: nat) {
    i + GlyphWidth <= |s| && (s[i..i + GlyphWidth] == FullGlyph || s[i..i + GlyphWidth] == HollowGlyph)
  }

  /** The "Not rated" marker holds no star glyph anywhere and is not a star row. */
  lemma NotRatedHasNoGlyph()
    ensures forall i: nat :: !GlyphAt(NotRated, i)
    ensures Parse(NotRated) == None
  {
    forall i: nat | i + GlyphWidth <= |NotRated|
      ensures !GlyphAt(NotRated, i)
    {
      assert NotRated[i..i + GlyphWidth][0] == NotRated[i] != '&';
    }
    assert !GlyphAt(NotRated, 0);
  }

  /** getStarRating: the early return for a falsy rating, then the loop over
      positions 1..5 appending a filled or hollow glyph. */
  method GetStarRating(rating: Rating) returns (html: string)
    ensures html == StarRatingHtml(rating)
  {
    if IsFalsy(rating) {
      return NotRated;
    }
    ghost var row := StarsFor(rating.value);
    var stars := "";
    var i := 1;
    while i <= RowLength
      invariant 1 <= i <= RowLength + 1
      invariant stars == RenderRow(row[..i - 1])
    {
      assert row[..i] == row[..i - 1] + [row[i - 1]];
      RenderRowAppend(row[..i - 1], row[i - 1]);
      stars := stars + (if i <= rating.value then FullGlyph else HollowGlyph);
      i := i + 1;
    }
    assert row[..RowLength] == row;
    return stars;
  }
}
