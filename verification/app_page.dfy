/**
 * The single-page shell: a `currentPage` name chooses which page component
 * is rendered, and a loading flag shows a skeleton in its place while a page
 * change settles.
 */
module AppPage {

  /** The page components the shell can render. */
  datatype PageView = HomeView | EncartesView | LojasView | ParceirosView | TrabalheView

  /** The page names the switch knows, each with the component it renders. */
  const Routes: map<string, PageView> := map[
    "home" := HomeView,
    "encartes" := EncartesView,
    "lojas" := LojasView,
    "parceiros" := ParceirosView,
    "trabalhe" := TrabalheView
  ]

  /** `renderPage`: the known names pick their component; any other name falls back to the home page. */
  function RenderPage(currentPage: string): (view: PageView)
    ensures currentPage in Routes ==> view == Routes[currentPage]
    ensures currentPage !in Routes ==> view == HomeView
  {
    match currentPage
    case "home" => HomeView
    case "encartes" => EncartesView
    case "lojas" => LojasView
    case "parceiros" => ParceirosView
    case "trabalhe" => TrabalheView
    case _ => HomeView
  }

  /** The page name under which the switch renders a component. */
  function PageName(view: PageView): (name: string)
    ensures name in Routes && Routes[name] == view
  {
    match view
    case HomeView => "home"
    case EncartesView => "encartes"
    case LojasView => "lojas"
    case ParceirosView => "parceiros"
    case TrabalheView => "trabalhe"
  }

  /** Every component is reachable: naming a component's page renders that component. */
  lemma RenderPageName(view: PageView)
    ensures RenderPage(PageName(view)) == view
  {
  }

  /**
   * On the known names the switch is one-to-one, and the name of what it
   * renders is the name it was given; an unknown name renders what "home" does.
   */
  lemma PageNameOfRender(currentPage: string)
    ensures currentPage in Routes ==> PageName(RenderPage(currentPage)) == currentPage
    ensures currentPage !in Routes ==> RenderPage(currentPage) == RenderPage("home")
  {
    if currentPage in Routes {
      var view := RenderPage(currentPage);
      assert Routes[PageName(view)] == view;
      RoutesInjective(currentPage, PageName(view));
    }
  }

  /** No two known names render the same component. */
  lemma RoutesInjective(a: string, b: string)
    requires a in Routes && b in Routes && Routes[a] == Routes[b]
    ensures a == b
  {
  }

  /** What the shell's `main` area shows. */
  datatype Screen = Skeleton | Content(view: PageView)

  /** The shell's React state. */
  class App {
    var currentPage: string
    var isLoading: bool

    /** The skeleton while loading, otherwise the routed page. */
    function Shown(): (s: Screen)
      reads this
      ensures s == Skeleton <==> isLoading
      ensures !isLoading ==> s.view == RenderPage(currentPage)
    {
      if isLoading then Skeleton else Content(RenderPage(currentPage))
    }

    /** Initial state: the home page, still loading, so the skeleton is shown. */
    constructor ()
      ensures currentPage == "home" && isLoading
      ensures Shown() == Skeleton
    {
      currentPage := "home";
      isLoading := true;
    }

    /**
     * The setter handed to the header. A new name re-renders the shell and the
     * effect on `currentPage` turns the loading flag on; setting the same name
     * again changes nothing, so the effect does not run.
     */
    method SetCurrentPage(page: string)
      modifies this
      ensures currentPage == page
      ensures page != old(currentPage) ==> isLoading && Shown() == Skeleton
      ensures page == old(currentPage) ==> isLoading == old(isLoading)
    {
      if page != currentPage {
        currentPage := page;
        isLoading := true;
      }
    }

    /** A pending timer fires: loading ends and the routed page is shown. */
    method FinishLoading()
      modifies this
      ensures currentPage == old(currentPage) && !isLoading
      ensures Shown() == Content(RenderPage(currentPage))
    {
      isLoading := false;
    }
  }
}
