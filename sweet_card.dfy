/**
 * A catalog card (SweetCard.tsx): the category badge and the two places
 * on the card that open the sweet.
 */
module SweetCard {
  import opened Domain

  /** The badge text for each category. */
  function CategoryLabel(c: Category): (r: string)
    ensures r != [] && 'A' <= r[0] <= 'Z'
  {
    match c
    case Chocolate => "Chocolate"
    case Cake => "Cake"
    case Candy => "Candy"
    case Glucose => "Glucose"
    case Toffee => "Toffee"
    case Other => "Other"
  }

  /** The mapping is total, never empty, and no two categories share a label. */
  lemma CategoryLabelsDistinct(a: Category, b: Category)
    ensures CategoryLabel(a) != ""
    ensures CategoryLabel(a) == CategoryLabel(b) ==> a == b
  {
    if a != b {
      var la, lb := CategoryLabel(a), CategoryLabel(b);
      assert la[0] != lb[0] || la[2] != lb[2];
    }
  }

  /** The parts of a card a user can click. */
  datatype CardRegion = ImageArea | Details | ViewDetailsButton

  /**
   * The handler a click on `region` runs: the image area (with its badge)
   * and the "View Details" button both run the card's `onClick`; the text
   * in between has no handler.
   */
  function ClickHandler<A>(region: CardRegion, onClick: A): (r: Option<A>)
    ensures r.Some? <==> region != Details
    ensures r.Some? ==> r.value == onClick
  {
    if region == Details then None else Some(onClick)
  }
}
