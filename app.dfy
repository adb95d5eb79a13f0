/**
 * The application shell (App.tsx): which page is current, which catalog
 * position is selected, and which page component that state renders.
 */
module App {
  import opened Domain

  /** The five pages of the single-page application. */
  datatype Page = Home | Catalog | Hygiene | SweetDetail | Owner

  /** The page components the shell can mount. */
  datatype PageComponent =
    | LandingPage
    | CatalogPage
    | HygienePage
    | SweetDetailPage(sweetIndex: int)
    | OwnerCatalogPage

  /** The page a mounted component belongs to. */
  function PageOf(c: PageComponent): Page {
    match c
    case LandingPage => Home
    case CatalogPage => Catalog
    case HygienePage => Hygiene
    case SweetDetailPage(_) => SweetDetail
    case OwnerCatalogPage => Owner
  }

  /**
   * The components the shell mounts: one conditional per page, of which
   * exactly one holds, so exactly one component is mounted and it belongs
   * to the current page; the detail page gets the selected index.
   */
  function Rendered(currentPage: Page, selectedSweetIndex: int): (r: seq<PageComponent>)
    ensures |r| == 1
    ensures PageOf(r[0]) == currentPage
    ensures r[0].SweetDetailPage? ==> r[0].sweetIndex == selectedSweetIndex
  {
    (if currentPage == Home then [LandingPage] else [])
    + (if currentPage == Catalog then [CatalogPage] else [])
    + (if currentPage == Hygiene then [HygienePage] else [])
    + (if currentPage == SweetDetail then [SweetDetailPage(selectedSweetIndex)] else [])
    + (if currentPage == Owner then [OwnerCatalogPage] else [])
  }

  /** The shell's two pieces of state. */
  class AppState {
    var currentPage: Page
    var selectedSweetIndex: int

    /** The app opens on the landing page with the first catalog position selected. */
    constructor ()
      ensures currentPage == Home && selectedSweetIndex == 0
    {
      currentPage := Home;
      selectedSweetIndex := 0;
    }

    /**
     * `navigateTo(page, sweetIndex?)`: the page always changes; the
     * selection changes only when an index is supplied.
     */
    method NavigateTo(page: Page, sweetIndex: Option<int>)
      modifies this
      ensures currentPage == page
      ensures selectedSweetIndex == if sweetIndex.Some? then sweetIndex.value else old(selectedSweetIndex)
    {
      currentPage := page;
      if sweetIndex.Some? {
        selectedSweetIndex := sweetIndex.value;
      }
    }
  }
}
