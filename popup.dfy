/** The text of a restaurant's map popup (createPopupContent in main.js) and
    of its sidebar card (the card-content assembly in the sidebar loop of
    main.js). Both are a fixed run of five mandatory lines, name, English
    name, cuisine, address and star rating, followed by optional blocks that
    appear only when their field is non-empty: notes (popup only), then the
    visited date.

    The content of either text is described abstractly as a list of blocks,
    each a field and the text shown for it; Render turns a block list into
    the exact markup of one view. */
module Popup {

  import opened Stars

  /** A restaurant record. Coordinates are left out; notes and dateVisited
      are strings whose JavaScript truthiness is being non-empty. */
  datatype Restaurant = Restaurant(
    id: int,
    name: string,
    englishName: string,
    address: string,
    cuisine: string,
    rating: Rating,
    notes: string,
    dateVisited: string)

  /** The two places a restaurant is rendered. */
  datatype View = PopupView | CardView

  /** The fields a view can show, in the order they are emitted. */
  datatype Field = Title | EnglishName | Cuisine | Address | StarRow | Notes | Visited

  datatype Block = Block(field: Field, text: string)

  function Rank(f: Field): nat {
    match f
    case Title => 0
    case EnglishName => 1
    case Cuisine => 2
    case Address => 3
    case StarRow => 4
    case Notes => 5
    case Visited => 6
  }

  /** The card never shows notes. */
  predicate Shows(v: View, f: Field) {
    v == PopupView || f != Notes
  }

  /** The opening markup of field f in view v. Each mandatory line of the
      template literal starts with a newline and four spaces. */
  function Open(v: View, f: Field): string
    requires Shows(v, f)
  {
    match (v, f)
    case (PopupView, Title) => "\n    <div class=\"popup-title\">"
    case (PopupView, EnglishName) => "\n    <div class=\"popup-english\">"
    case (PopupView, Cuisine) => "\n    <div class=\"popup-cuisine\">"
    case (PopupView, Address) => "\n    <div class=\"popup-address\">"
    case (PopupView, StarRow) => "\n    <div class=\"popup-rating\">"
    case (PopupView, Notes) => "<div class=\"popup-notes\">\""
    case (PopupView, Visited) => "<div class=\"popup-date\">Visited: "
    case (CardView, Title) => "\n    <h3>"
    case (CardView, EnglishName) => "\n    <div class=\"english-name\">"
    case (CardView, Cuisine) => "\n    <span class=\"cuisine\">"
    case (CardView, Address) => "\n    <div class=\"address\">"
    case (CardView, StarRow) => "\n    <div class=\"rating\">"
    case (CardView, Visited) => "<div class=\"details\">Visited: "
  }

  /** The rating line also closes the template literal, whose last line is a
      newline and two spaces. */
  function Close(v: View, f: Field): string
    requires Shows(v, f)
  {
    match f
    case Title => if v == PopupView then "</div>" else "</h3>"
    case Cuisine => if v == PopupView then "</div>" else "</span>"
    case StarRow => "</div>\n  "
    case Notes => "\"</div>"
    case _ => "</div>"
  }

  predicate AllShown(v: View, bs: seq<Block>) {
    forall i :: 0 <= i < |bs| ==> Shows(v, bs[i].field)
  }

  function RenderBlock(v: View, b: Block): string
    requires Shows(v, b.field)
  {
    Open(v, b.field) + b.text + Close(v, b.field)
  }

  /** The markup of a block list in view v: the blocks one after the other. */
  function Render(v: View, bs: seq<Block>): string
    requires AllShown(v, bs)
  {
    if bs == [] then "" else RenderBlock(v, bs[0]) + Render(v, bs[1..])
  }

  /** The blocks a restaurant shows in view v. */
  function Blocks(v: View, r: Restaurant): (bs: seq<Block>)
    ensures AllShown(v, bs)
  {
    [ Block(Title, r.name),
      Block(EnglishName, r.englishName),
      Block(Cuisine, r.cuisine),
      Block(Address, r.address),
      Block(StarRow, StarRatingHtml(r.rating)) ]
    + (if v == PopupView && r.notes != "" then [Block(Notes, r.notes)] else [])
    + (if r.dateVisited != "" then [Block(Visited, r.dateVisited)] else [])
  }

  // ---------------------------------------------------------------------
  // What a block list must look like, stated without building one

  /** Fields strictly in emission order: no field twice, none out of place. */
  predicate Ordered(bs: seq<Block>) {
    forall i, j :: 0 <= i < j < |bs| ==> Rank(bs[i].field) < Rank(bs[j].field)
  }

  /** The text shown for field f, if any block shows it. */
  function TextOf(bs: seq<Block>, f: Field): (t: Option<string>)
    ensures t.Some? <==> exists i :: 0 <= i < |bs| && bs[i].field == f
  {
    if bs == [] then None
    else if bs[0].field == f then Some(bs[0].text)
    else
      var t := TextOf(bs[1..], f);
      assert forall i :: 0 < i < |bs| ==> bs[i] == bs[1..][i - 1];
      t
  }

  /** What view v must show for field f of restaurant r: every mandatory
      field with its value, notes only in the popup and only when non-empty,
      the visited date only when non-empty. */
  function Expected(v: View, r: Restaurant, f: Field): Option<string> {
    match f
    case Title => Some(r.name)
    case EnglishName => Some(r.englishName)
    case Cuisine => Some(r.cuisine)
    case Address => Some(r.address)
    case StarRow => Some(StarRatingHtml(r.rating))
    case Notes => if v == PopupView && r.notes != "" then Some(r.notes) else None
    case Visited => if r.dateVisited != "" then Some(r.dateVisited) else None
  }

  /** Blocks meets the description: ordered, and each field shown exactly
      as Expected says. */
  lemma BlocksMeetExpected(v: View, r: Restaurant)
    ensures Ordered(Blocks(v, r))
    ensures forall f :: TextOf(Blocks(v, r), f) == Expected(v, r, f)
  {
    var bs := Blocks(v, r);
    BlocksOrdered(v, r);
    forall f ensures TextOf(bs, f) == Expected(v, r, f) {
      if Expected(v, r, f).Some? {
        var k := if f == Visited then |bs| - 1 else Rank(f);
        assert bs[k] == Block(f, Expected(v, r, f).value);
        TextOfOrdered(bs, k);
      } else {
        assert forall i :: 0 <= i < |bs| ==> bs[i].field != f;
      }
    }
  }

  /** The blocks come in emission order: the k-th mandatory block has rank k
      and the optional ones rank above all of them. */
  lemma BlocksOrdered(v: View, r: Restaurant)
    ensures Ordered(Blocks(v, r))
  {
    var bs := Blocks(v, r);
    assert forall k :: 0 <= k < 5 ==> Rank(bs[k].field) == k;
    assert forall k :: 5 <= k < |bs| ==> Rank(bs[k].field) >= 5;
    assert |bs| == 7 ==> Rank(bs[5].field) < Rank(bs[6].field);
  }

  /** In an ordered list, the lookup of a field finds the block holding it. */
  lemma {:induction false} TextOfOrdered(bs: seq<Block>, k: nat)
    requires Ordered(bs) && k < |bs|
    ensures TextOf(bs, bs[k].field) == Some(bs[k].text)
  {
    if k > 0 {
      assert Rank(bs[0].field) < Rank(bs[k].field);
      assert bs[1..][k - 1] == bs[k];
      TextOfOrdered(bs[1..], k - 1);
    }
  }

  /** The description fixes the list: two ordered lists that show the same
      text for every field are equal. */
  lemma {:induction false} OrderedLookupUnique(bs: seq<Block>, cs: seq<Block>)
    requires Ordered(bs) && Ordered(cs)
    requires forall f :: TextOf(bs, f) == TextOf(cs, f)
    ensures bs == cs
    decreases |bs|
  {
    assert bs != [] ==> TextOf(bs, bs[0].field).Some?;
    assert cs != [] ==> TextOf(cs, cs[0].field).Some?;
    if bs == [] || cs == [] {
      assert bs == [] && cs == [];
    } else {
      var b, c := bs[0], cs[0];
      TextOfOrdered(bs, 0);
      TextOfOrdered(cs, 0);
      var j :| 0 <= j < |cs| && cs[j].field == b.field;
      var i :| 0 <= i < |bs| && bs[i].field == c.field;
      assert i > 0 ==> Rank(bs[0].field) < Rank(bs[i].field);
      assert j > 0 ==> Rank(cs[0].field) < Rank(cs[j].field);
      assert b.field == c.field;
      assert b == c;
      forall f ensures TextOf(bs[1..], f) == TextOf(cs[1..], f) {
        if f == b.field {
          NotInTail(bs, f);
          NotInTail(cs, f);
        } else {
          assert TextOf(bs, f) == TextOf(bs[1..], f);
          assert TextOf(cs, f) == TextOf(cs[1..], f);
        }
      }
      OrderedLookupUnique(bs[1..], cs[1..]);
      assert bs == [b] + bs[1..] && cs == [c] + cs[1..];
    }
  }

  lemma NotInTail(bs: seq<Block>, f: Field)
    requires Ordered(bs) && bs != [] && bs[0].field == f
    ensures TextOf(bs[1..], f) == None
  {
  }

  /** Blocks is the one ordered list that shows what Expected says. */
  lemma BlocksCharacterized(v: View, r: Restaurant, bs: seq<Block>)
    requires Ordered(bs)
    requires forall f :: TextOf(bs, f) == Expected(v, r, f)
    ensures bs == Blocks(v, r)
  {
    BlocksMeetExpected(v, r);
    OrderedLookupUnique(bs, Blocks(v, r));
  }

  /** Every view opens with the five mandatory fields in order, carrying the
      record's values and its star rating. */
  lemma MandatoryPrefix(v: View, r: Restaurant)
    ensures |Blocks(v, r)| >= 5
    ensures forall i :: 0 <= i < 5 ==> Rank(Blocks(v, r)[i].field) == i
    ensures forall i :: 0 <= i < 5 ==> Some(Blocks(v, r)[i].text) == Expected(v, r, Blocks(v, r)[i].field)
  {
  }

  /** The visited-date block is the last one exactly when the date is
      non-empty; the notes block, when present, comes before it. */
  lemma VisitedIsLast(v: View, r: Restaurant)
    ensures var bs := Blocks(v, r);
      bs[|bs| - 1].field == Visited <==> r.dateVisited != ""
    ensures var bs := Blocks(v, r);
      forall i, j :: 0 <= i < |bs| && 0 <= j < |bs| && bs[i].field == Notes && bs[j].field == Visited ==> i < j
  {
  }

  /** The block count: five, plus one for each optional block shown. */
  lemma BlockCount(v: View, r: Restaurant)
    ensures |Blocks(v, r)| == 5 + (if v == PopupView && r.notes != "" then 1 else 0)
                                 + (if r.dateVisited != "" then 1 else 0)
  {
  }

  function DropNotes(bs: seq<Block>): (cs: seq<Block>)
    ensures forall i :: 0 <= i < |cs| ==> cs[i].field != Notes
  {
    if bs == [] then []
    else if bs[0].field == Notes then DropNotes(bs[1..])
    else [bs[0]] + DropNotes(bs[1..])
  }

  /** The card shows what the popup shows, less the notes. */
  lemma {:induction false} CardIsPopupWithoutNotes(r: Restaurant)
    ensures Blocks(CardView, r) == DropNotes(Blocks(PopupView, r))
  {
    var p, c := Blocks(PopupView, r), Blocks(CardView, r);
    var tail := p[5..];
    assert p == c[..5] + tail;
    DropNotesAppend(c[..5], tail);
    KeepsNotesFree(c[..5]);
    if r.notes != "" && r.dateVisited != "" {
      assert tail == [tail[0]] + [tail[1]];
      DropNotesAppend([tail[0]], [tail[1]]);
      assert [tail[1]][1..] == [];
    } else if tail != [] {
      assert tail == [tail[0]] && tail[1..] == [];
    }
  }

  /** A list without notes passes through DropNotes unchanged. */
  lemma {:induction false} KeepsNotesFree(bs: seq<Block>)
    requires forall i :: 0 <= i < |bs| ==> bs[i].field != Notes
    ensures DropNotes(bs) == bs
  {
    if bs != [] {
      KeepsNotesFree(bs[1..]);
      assert bs == [bs[0]] + bs[1..];
    }
  }

  lemma {:induction false} DropNotesAppend(a: seq<Block>, b: seq<Block>)
    ensures DropNotes(a + b) == DropNotes(a) + DropNotes(b)
  {
    if a == [] {
      assert a + b == b;
    } else {
      assert (a + b)[0] == a[0];
      assert (a + b)[1..] == a[1..] + b;
      DropNotesAppend(a[1..], b);
      if a[0].field != Notes {
        assert [a[0]] + (DropNotes(a[1..]) + DropNotes(b)) == ([a[0]] + DropNotes(a[1..])) + DropNotes(b);
      }
    }
  }

  // ---------------------------------------------------------------------
  // The markup

  lemma {:induction false} RenderAppend(v: View, a: seq<Block>, b: seq<Block>)
    requires AllShown(v, a) && AllShown(v, b)
    ensures AllShown(v, a + b)
    ensures Render(v, a + b) == Render(v, a) + Render(v, b)
  {
    if a == [] {
      assert a + b == b;
    } else {
      assert (a + b)[0] == a[0];
      assert (a + b)[1..] == a[1..] + b;
      RenderAppend(v, a[1..], b);
      var x, y, z := RenderBlock(v, a[0]), Render(v, a[1..]), Render(v, b);
      assert x + (y + z) == (x + y) + z;
    }
  }

  /** The text up to and including the rating line: what the opening
      template literal produces. */
  function Header(v: View, r: Restaurant): string {
    Render(v, Blocks(v, r.(notes := "", dateVisited := "")))
  }

  /** The rendered text always starts with the header, which depends on the
      five mandatory fields only. */
  lemma HeaderIsPrefix(v: View, r: Restaurant)
    ensures Header(v, r) <= Render(v, Blocks(v, r))
  {
    var bs := Blocks(v, r);
    assert Blocks(v, r.(notes := "", dateVisited := "")) == bs[..5];
    RenderPrefix(v, bs, 5);
  }

  /** With a non-empty date the text ends with the "Visited:" block. */
  lemma EndsWithVisited(v: View, r: Restaurant)
    requires r.dateVisited != ""
    ensures EndsWith(Render(v, Blocks(v, r)), Open(v, Visited) + r.dateVisited + "</div>")
  {
    var bs := Blocks(v, r);
    RenderEndsWithLast(v, bs);
    assert bs[|bs| - 1] == Block(Visited, r.dateVisited);
    assert Close(v, Visited) == "</div>";
  }

  /** With neither optional block shown the text is the header alone. */
  lemma HeaderAlone(v: View, r: Restaurant)
    requires v == CardView || r.notes == ""
    requires r.dateVisited == ""
    ensures Render(v, Blocks(v, r)) == Header(v, r)
  {
    assert Blocks(v, r) == Blocks(v, r.(notes := "", dateVisited := ""));
  }

  predicate EndsWith(s: string, suffix: string) {
    |suffix| <= |s| && s[|s| - |suffix|..] == suffix
  }

  lemma EndsWithTrans(a: string, b: string, c: string)
    requires EndsWith(a, b) && EndsWith(b, c)
    ensures EndsWith(a, c)
  {
    assert a[|a| - |c|..] == a[|a| - |b|..][|b| - |c|..];
  }

  /** Rendering a prefix of a block list gives a prefix of the text. */
  lemma RenderPrefix(v: View, bs: seq<Block>, k: nat)
    requires AllShown(v, bs) && k <= |bs|
    ensures Render(v, bs[..k]) <= Render(v, bs)
  {
    assert bs == bs[..k] + bs[k..];
    RenderAppend(v, bs[..k], bs[k..]);
  }

  /** The text of a non-empty block list ends with its last block's markup. */
  lemma RenderEndsWithLast(v: View, bs: seq<Block>)
    requires AllShown(v, bs) && bs != []
    ensures EndsWith(Render(v, bs), RenderBlock(v, bs[|bs| - 1]))
  {
    var n := |bs|;
    assert bs == bs[..n - 1] + [bs[n - 1]];
    RenderPush(v, bs[..n - 1], bs[n - 1]);
    SuffixOfConcat(Render(v, bs[..n - 1]), RenderBlock(v, bs[n - 1]));
  }

  /** The card has no free-text block after the rating line, so there the
      string alone does tell: the card text ends in "</div>" exactly when it
      carries a visited date; without one it ends in the template literal's
      closing newline and two spaces. */
  lemma CardEndsInDivIffDated(r: Restaurant)
    ensures EndsWith(Render(CardView, Blocks(CardView, r)), "</div>") <==> r.dateVisited != ""
    ensures r.dateVisited == "" ==> EndsWith(Render(CardView, Blocks(CardView, r)), "</div>\n  ")
  {
    var bs := Blocks(CardView, r);
    var text := Render(CardView, bs);
    RenderEndsWithLast(CardView, bs);
    var last := RenderBlock(CardView, bs[|bs| - 1]);
    if r.dateVisited == "" {
      assert bs[|bs| - 1].field == StarRow;
      assert last == (Open(CardView, StarRow) + bs[|bs| - 1].text) + "</div>\n  ";
      SuffixOfConcat(Open(CardView, StarRow) + bs[|bs| - 1].text, "</div>\n  ");
      EndsWithTrans(text, last, "</div>\n  ");
      assert last[|last| - 1] == ' ';
      assert text[|text| - 1] == text[|text| - |last|..][|last| - 1];
      assert text[|text| - 1] == ' ';
    } else {
      assert bs[|bs| - 1].field == Visited;
      assert last == (Open(CardView, Visited) + r.dateVisited) + "</div>";
      assert EndsWith(last, "</div>");
      EndsWithTrans(text, last, "</div>");
    }
  }

  /** Nothing is escaped, so the string alone does not tell whether a
      "Visited:" block was emitted: a record with no visit date whose note
      starts like a "Visited:" block's opening markup renders a popup that
      ends in exactly the markup of a "Visited:" block. The block list does
      tell the two apart (VisitedIsLast). */
  lemma NotesCanMimicVisited(r: Restaurant, d: string)
    requires r.dateVisited == "" && r.notes == Open(PopupView, Visited) + d
    ensures EndsWith(Render(PopupView, Blocks(PopupView, r)), RenderBlock(PopupView, Block(Visited, d + "\"")))
  {
    var bs := Blocks(PopupView, r);
    RenderEndsWithLast(PopupView, bs);
    assert bs[|bs| - 1] == Block(Notes, r.notes);
    NotesMarkupMimicsVisited(d);
    EndsWithTrans(Render(PopupView, bs), RenderBlock(PopupView, Block(Notes, r.notes)),
                  RenderBlock(PopupView, Block(Visited, d + "\"")));
  }

  /** The notes markup of a note that starts like a "Visited:" opening ends
      in a complete "Visited:" block. */
  lemma NotesMarkupMimicsVisited(d: string)
    ensures EndsWith(RenderBlock(PopupView, Block(Notes, Open(PopupView, Visited) + d)),
                     RenderBlock(PopupView, Block(Visited, d + "\"")))
  {
    var ov, on, q := Open(PopupView, Visited), Open(PopupView, Notes), "\"</div>";
    var mimic := RenderBlock(PopupView, Block(Visited, d + "\""));
    assert mimic == ov + ((d + "\"") + "</div>");
    assert (d + "\"") + "</div>" == d + q;
    var t := RenderBlock(PopupView, Block(Notes, ov + d));
    assert t == (on + (ov + d)) + q;
    assert t == on + ((ov + d) + q);
    assert t == on + mimic;
    SuffixOfConcat(on, mimic);
  }

  lemma SuffixOfConcat(a: string, b: string)
    ensures EndsWith(a + b, b)
  {
    assert (a + b)[|a|..] == b;
  }

  // ---------------------------------------------------------------------
  // The two builders as the source writes them

  /** Appending one block appends its markup. */
  lemma RenderPush(v: View, bs: seq<Block>, b: Block)
    requires AllShown(v, bs) && Shows(v, b.field)
    ensures AllShown(v, bs + [b])
    ensures Render(v, bs + [b]) == Render(v, bs) + RenderBlock(v, b)
  {
    RenderAppend(v, bs, [b]);
    assert [b][1..] == [];
    assert RenderBlock(v, b) + "" == RenderBlock(v, b);
  }

  /** A text that renders bs, followed by the line of block b, renders bs + [b]. */
  lemma AppendLine(v: View, bs: seq<Block>, b: Block, text: string, line: string)
    requires AllShown(v, bs) && Shows(v, b.field)
    requires text == Render(v, bs) && line == RenderBlock(v, b)
    ensures AllShown(v, bs + [b])
    ensures text + line == Render(v, bs + [b])
  {
    RenderPush(v, bs, b);
  }

  /** The markup from block k on is block k's line followed by the rest. */
  lemma RenderStep(v: View, bs: seq<Block>, k: nat)
    requires AllShown(v, bs) && k < |bs|
    ensures Render(v, bs[k..]) == RenderBlock(v, bs[k]) + Render(v, bs[k + 1..])
  {
    assert bs[k..][1..] == bs[k + 1..];
  }

  /** Five lines, each the rendering of one block, render the five blocks. */
  lemma RenderFive(v: View, hs: seq<Block>, l0: string, l1: string, l2: string, l3: string, l4: string)
    requires |hs| == 5 && AllShown(v, hs)
    requires l0 == RenderBlock(v, hs[0]) && l1 == RenderBlock(v, hs[1]) && l2 == RenderBlock(v, hs[2])
    requires l3 == RenderBlock(v, hs[3]) && l4 == RenderBlock(v, hs[4])
    ensures l0 + (l1 + (l2 + (l3 + l4))) == Render(v, hs)
  {
    assert hs[5..] == [];
    assert l4 + "" == l4;
    RenderStep(v, hs, 4);
    RenderStep(v, hs, 3);
    RenderStep(v, hs, 2);
    RenderStep(v, hs, 1);
    RenderStep(v, hs, 0);
    assert hs[0..] == hs;
  }

  /** createPopupContent: the template literal for the mandatory lines, then
      the notes block when notes is non-empty, then the date block when
      dateVisited is non-empty. */
  method CreatePopupContent(r: Restaurant) returns (content: string)
    ensures content == Render(PopupView, Blocks(PopupView, r))
  {
    var stars := GetStarRating(r.rating);
    var title := "\n    <div class=\"popup-title\">" + r.name + "</div>";
    var english := "\n    <div class=\"popup-english\">" + r.englishName + "</div>";
    var cuisine := "\n    <div class=\"popup-cuisine\">" + r.cuisine + "</div>";
    var address := "\n    <div class=\"popup-address\">" + r.address + "</div>";
    var rating := "\n    <div class=\"popup-rating\">" + stars + "</div>\n  ";
    content := title + (english + (cuisine + (address + rating)));
    ghost var shown := [Block(Title, r.name), Block(EnglishName, r.englishName), Block(Cuisine, r.cuisine),
                        Block(Address, r.address), Block(StarRow, stars)];
    RenderFive(PopupView, shown, title, english, cuisine, address, rating);
    if r.notes != "" {
      var notes := "<div class=\"popup-notes\">\"" + r.notes + "\"</div>";
      AppendLine(PopupView, shown, Block(Notes, r.notes), content, notes);
      content := content + notes;
      shown := shown + [Block(Notes, r.notes)];
    }
    if r.dateVisited != "" {
      var date := "<div class=\"popup-date\">Visited: " + r.dateVisited + "</div>";
      AppendLine(PopupView, shown, Block(Visited, r.dateVisited), content, date);
      content := content + date;
      shown := shown + [Block(Visited, r.dateVisited)];
    }
    assert shown == Blocks(PopupView, r);
  }

  /** The sidebar card: the same mandatory lines in the card's markup, no
      notes, then the date block when dateVisited is non-empty. */
  method BuildCardContent(r: Restaurant) returns (cardContent: string)
    ensures cardContent == Render(CardView, Blocks(CardView, r))
  {
    var stars := GetStarRating(r.rating);
    var title := "\n    <h3>" + r.name + "</h3>";
    var english := "\n    <div class=\"english-name\">" + r.englishName + "</div>";
    var cuisine := "\n    <span class=\"cuisine\">" + r.cuisine + "</span>";
    var address := "\n    <div class=\"address\">" + r.address + "</div>";
    var rating := "\n    <div class=\"rating\">" + stars + "</div>\n  ";
    cardContent := title + (english + (cuisine + (address + rating)));
    ghost var shown := [Block(Title, r.name), Block(EnglishName, r.englishName), Block(Cuisine, r.cuisine),
                        Block(Address, r.address), Block(StarRow, stars)];
    RenderFive(CardView, shown, title, english, cuisine, address, rating);
    if r.dateVisited != "" {
      var details := "<div class=\"details\">Visited: " + r.dateVisited + "</div>";
      AppendLine(CardView, shown, Block(Visited, r.dateVisited), cardContent, details);
      cardContent := cardContent + details;
      shown := shown + [Block(Visited, r.dateVisited)];
    }
    assert shown == Blocks(CardView, r);
  }
}
