/** The built-in restaurant list of data.js, as a fixture for the renderers.
    Coordinates are not part of the record here. */
module Seed {

  import opened Stars
  import opened Popup

  const Seeds: seq<Restaurant> := [
    Restaurant(1, "小满飯糰", "Xiaoman Riceburrito", "573 E El Camino Real, Sunnyvale, CA",
               "Taiwanese Breakfast", Score(0), "", ""),
    Restaurant(2, "京味轩", "Taste Good Beijing Cuisine", "76 S Abel St, Milpitas, CA",
               "Beijing / Northern Chinese", Score(0), "", ""),
    Restaurant(3, "天惠居", "Famous Food Restaurant", "872 Old San Francisco Rd, Sunnyvale, CA 94086",
               "Tianjin-style Chinese", Score(0), "", "")
  ]

  /** Every seed is unrated and has neither notes nor a visit date, so each
      popup and each card shows the "Not rated" marker and only the five
      mandatory lines, and the card shows the same blocks as the popup. */
  lemma SeedsRenderMandatoryOnly()
    ensures forall i :: 0 <= i < |Seeds| ==>
      StarRatingHtml(Seeds[i].rating) == NotRated &&
      |Blocks(PopupView, Seeds[i])| == 5 &&
      Blocks(CardView, Seeds[i]) == Blocks(PopupView, Seeds[i])
  {
  }

  /** The seed ids are distinct. */
  lemma SeedIdsDistinct()
    ensures forall i, j :: 0 <= i < j < |Seeds| ==> Seeds[i].id != Seeds[j].id
  {
  }
}
