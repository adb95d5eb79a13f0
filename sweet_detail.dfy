/**
 * The detail page (SweetDetailPage.tsx): which of spinner, "not found" or
 * the sweet it shows, its category badge, and where its buttons lead.
 */
module SweetDetail {
  import opened Domain
  import App
  import SweetCard

  /** What the page shows. */
  datatype DetailView = Loading | NotFound | Found(sweet: Sweet)

  /**
   * The page's decision: a spinner while the catalog loads; otherwise
   * "not found" on an error, a missing catalog, or an index that names no
   * element; otherwise exactly the element at the selected index.
   */
  function ViewFor(isLoading: bool, hasError: bool, sweets: Option<seq<Sweet>>, sweetIndex: int): (v: DetailView)
    ensures isLoading <==> v == Loading
    ensures v.Found? <==> !isLoading && !hasError && sweets.Some? && 0 <= sweetIndex < |sweets.value|
    ensures v.Found? ==> v.sweet == sweets.value[sweetIndex]
  {
    if isLoading then Loading
    else if hasError || sweets.None? || !(0 <= sweetIndex < |sweets.value|) then NotFound
    else Found(sweets.value[sweetIndex])
  }

  /**
   * The page's own copy of the badge text for each category, which agrees
   * with the catalog card's label for every category.
   */
  function CategoryLabel(c: Category): (r: string)
    ensures r == SweetCard.CategoryLabel(c)
  {
    match c
    case Chocolate => "Chocolate"
    case Cake => "Cake"
    case Candy => "Candy"
    case Glucose => "Glucose"
    case Toffee => "Toffee"
    case Other => "Other"
  }

  /**
   * The pages the buttons of each view lead to: "Back to Catalog" on the
   * not-found view, and "Back to Catalog" and "Browse More Sweets" on a
   * found sweet; the spinner has no buttons. All of them lead to the catalog.
   */
  function Targets(v: DetailView): (r: seq<App.Page>)
    ensures v.Loading? <==> r == []
    ensures forall i :: 0 <= i < |r| ==> r[i] == App.Catalog
  {
    match v
    case Loading => []
    case NotFound => [App.Catalog]
    case Found(_) => [App.Catalog, App.Catalog]
  }
}
