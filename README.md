# Bay Area restaurant map: popup and card text

A model, in Dafny, of the text-rendering core of a personal restaurant map.
Each restaurant becomes a map pin whose popup shows its name, English name,
cuisine, address and a star rating, followed by the owner's notes and the
date of the visit when those are filled in, and a sidebar card that shows the
same mandatory lines (with different markup), no notes, and the visit date
when there is one.

- `stars.dfy` (module `Stars`): `getStarRating`. A rating is either absent
  (`NoRating`, JavaScript's `undefined`/`null`) or an integer `Score`. A
  falsy rating (absent or 0) gives a grey "Not rated" span; any other rating
  gives five glyphs, `&#9733;` for each position `i` in 1..5 with
  `i <= rating` and `&#9734;` for the rest. The row is modelled as a
  `seq<Star>` (`StarsFor`), its text as `RenderRow` of that row, and `Parse`
  reads a text back as a row. `GetStarRating` is the source's early return
  and loop, proved equal to `StarRatingHtml`.
- `popup.dfy` (module `Popup`): `createPopupContent` and the card-content
  assembly of the sidebar loop. What a view shows is a list of blocks
  (`Blocks`), each a field and the text shown for it; `Render` turns a block
  list into the exact markup of one view, including the template literal's
  newlines and indentation. `Expected` states, field by field, what each view
  must show, and `Ordered` that the fields come in their fixed order; the
  lemmas prove that `Blocks` is the one list meeting both. The methods
  `CreatePopupContent` and `BuildCardContent` build the string as the source
  does (the template literal, then conditional appends) and are proved equal
  to `Render` of `Blocks`.
- `seed.dfy` (module `Seed`): the three built-in restaurants of `data.js` as
  a fixture.

The source performs no HTML escaping, and the model does not add any: every
field is pasted into the markup verbatim. `NotesCanMimicVisited` shows the
consequence: a note can end in text that looks exactly like a trailing
"Visited:" block, so "the popup ends in a Visited block iff the date is
non-empty" holds of the block list, not of the string.

## Model

| member | source | states |
|---|---|---|
| Stars.GetStarRating | main.js:23-30 | the early return and the five-step loop return exactly `StarRatingHtml(rating)`: the "Not rated" span when the rating is falsy, otherwise the glyph text of `StarsFor(rating)` |
| Stars.NotRatedIffFalsy | main.js:24 | the "Not rated" span is returned if and only if the rating is absent or 0 |
| Stars.NotRatedHasNoGlyph | main.js:24 | the "Not rated" span contains no filled or hollow star glyph at any offset and does not read as a star row |
| Stars.RatedIsFiveGlyphs | main.js:25-29 | for a non-falsy rating the result is five glyphs (35 characters) and reads back as exactly the row `StarsFor(rating)` |
| Stars.StarsForShape | main.js:26-28 | the row is `FilledCount(rating)` filled stars followed by the remaining hollow ones |
| Stars.StarsFor | main.js:26-28 | the row has exactly five positions and a filled star never follows a hollow one |
| Stars.StarsForCount | main.js:26-27 | the row holds exactly min(rating, 5) filled stars for rating >= 1, none for rating <= 0, and hollow stars for the rest of the five |
| Stars.FilledMonotone | main.js:27 | a higher rating never shows fewer filled stars |
| Stars.ParseRender | main.js:25-29 | reading the glyph text of any star row gives that row back |
| Stars.RenderParse | main.js:25-29 | any text that reads as a star row is exactly that row's glyph text |
| Popup.CreatePopupContent | main.js:33-51 | the template literal followed by the conditional notes and date appends is exactly the popup rendering of `Blocks(PopupView, r)` |
| Popup.BuildCardContent | main.js:70-80 | the card's template literal followed by the conditional date append is exactly the card rendering of `Blocks(CardView, r)` |
| Popup.BlocksMeetExpected | main.js:34-48 | the blocks of either view come in the fixed field order and show every mandatory field with the record's value, notes (popup only) exactly when non-empty, and the date exactly when non-empty |
| Popup.BlocksCharacterized | main.js:34-48 | any ordered block list showing what `Expected` prescribes equals `Blocks`: the description determines the output |
| Popup.MandatoryPrefix | main.js:34-40 | both views open with name, English name, cuisine, address and star rating, in that order, with the record's values |
| Popup.VisitedIsLast | main.js:42-48 | the last block is the visit date if and only if `dateVisited` is non-empty, and a notes block always precedes a date block |
| Popup.BlockCount | main.js:34-48 | five blocks, plus one for non-empty notes in the popup, plus one for a non-empty date |
| Popup.CardIsPopupWithoutNotes | main.js:70-80 | the card shows exactly the popup's blocks with the notes block removed |
| Popup.HeaderIsPrefix | main.js:34-40 | the rendered text of either view always starts with the header built from the five mandatory fields alone |
| Popup.EndsWithVisited | main.js:46-48 | with a non-empty `dateVisited` the text ends with the "Visited:" opening, the date and `</div>` |
| Popup.HeaderAlone | main.js:34-50 | with no notes shown and an empty date the text is exactly the header |
| Popup.CardEndsInDivIffDated | main.js:70-80 | the card text ends in `</div>` if and only if `dateVisited` is non-empty; without a date it ends in `</div>` followed by the template literal's closing newline and two spaces |
| Popup.NotesCanMimicVisited | main.js:42-48 | for every record with an empty date whose notes start with the "Visited:" opening markup followed by some `d`, the popup text ends in exactly the markup of a "Visited:" block whose date is `d` followed by a quote character, because notes are inserted unescaped |
| Popup.NotesMarkupMimicsVisited | main.js:43 | the notes line of such a note ends in a complete "Visited:" block |
| Seed.SeedsRenderMandatoryOnly | data.js:2-39 | every built-in restaurant renders "Not rated" and only the five mandatory blocks, identical in popup and card |
| Seed.SeedIdsDistinct | data.js:2-39 | the built-in ids are distinct |

## Left out

- Leaflet: map creation, tile layer, marker icon, `bindPopup`, `flyTo`, `fitBounds` and the feature group (main.js:1-20, 53-60, 99-103) are calls into a mapping library.
- DOM work: creating the card element, `dataset.id`, `classList` toggling, the click listener and `appendChild` (main.js:62-69, 82-97) are browser UI.
- Coordinates (`lat`, `lng`) are floating point and only feed the map; the `Restaurant` datatype omits them.
- Ratings are integers or absent. Fractional ratings, `NaN`, `false`, the empty string and numeric strings (which JavaScript coerces in `i <= rating`) are not modelled.
- Fields are strings. A missing `name`, `englishName`, `cuisine` or `address`, which a template literal would print as `undefined`, is not modelled; a missing or `null` `notes`/`dateVisited` is modelled as the empty string, which is falsy in the same way.
- HTML escaping: the source does none, so none is modelled.
- The custom-restaurant store, the visit log and export/import merging are not part of this model: none of their code is in main.js or data.js.
