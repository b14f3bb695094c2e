/** `NavigationSystem.navigateTo`: the current page and the page-level state that follows it. */
module Navigation {

  /** The site navigator. `pageIds` are the ids of the `.page` elements, `linkPages` the
      `data-page` attributes of the desktop links followed by the mobile links. */
  class NavigationSystem {
    const pageIds: seq<string>
    const linkPages: seq<string>
    var currentPage: string
    /** The ids of the `.page` elements carrying `active`. */
    var activePages: set<string>
    /** The `active` flag of each navigation link, position by position with `linkPages`. */
    var linkActive: seq<bool>
    /** Whether the persistent sparkles are shown. */
    var sparklesVisible: bool
    /** Whether body scrolling is switched off (`overflow: hidden`). */
    var bodyScrollLocked: bool
    /** The pages announced by `pageNavigated` events, oldest first. */
    var notified: seq<string>

    /** Everything the last navigation set up agrees with `currentPage`. */
    ghost predicate InSync()
      reads this
    {
      && activePages == (if currentPage in pageIds then {currentPage} else {})
      && |linkActive| == |linkPages|
      && (forall k :: 0 <= k < |linkPages| ==> (linkActive[k] <==> linkPages[k] == currentPage))
      && sparklesVisible == (currentPage == "home")
      && bodyScrollLocked == (currentPage == "project-detail")
    }

    /** The constructor: the page starts as `work`; the classes the markup carries before the first
        navigation are not modelled, so nothing starts active. */
    constructor (pageIds: seq<string>, linkPages: seq<string>)
      ensures this.pageIds == pageIds && this.linkPages == linkPages && currentPage == "work"
      ensures activePages == {} && linkActive == seq(|linkPages|, _ => false)
      ensures !sparklesVisible && !bodyScrollLocked && notified == []
    {
      this.pageIds := pageIds;
      this.linkPages := linkPages;
      currentPage := "work";
      activePages := {};
      linkActive := seq(|linkPages|, _ => false);
      sparklesVisible := false;
      bodyScrollLocked := false;
      notified := [];
    }

    /** `updateNavigation(page)`: each link is active exactly when it points at `page`. */
    method UpdateNavigation(page: string)
      modifies this
      ensures |linkActive| == |linkPages|
      ensures forall k :: 0 <= k < |linkPages| ==> (linkActive[k] <==> linkPages[k] == page)
      ensures currentPage == old(currentPage) && activePages == old(activePages) && notified == old(notified)
      ensures sparklesVisible == old(sparklesVisible) && bodyScrollLocked == old(bodyScrollLocked)
    {
      var flags: seq<bool> := [];
      for k := 0 to |linkPages|
        invariant |flags| == k
        invariant forall j :: 0 <= j < k ==> (flags[j] <==> linkPages[j] == page)
      {
        flags := flags + [linkPages[k] == page];
      }
      linkActive := flags;
    }

    /** `navigateTo(page)`: nothing happens when `page` is already current; otherwise the page, the
        links, the sparkles and the body scroll follow `page`, and one event announces it. */
    method NavigateTo(page: string)
      modifies this
      ensures old(currentPage) == page ==> unchanged(this)
      ensures old(currentPage) != page ==> currentPage == page && InSync() && notified == old(notified) + [page]
    {
      if page == currentPage {
        return;
      }
      activePages := if page in pageIds then {page} else {};
      UpdateNavigation(page);
      sparklesVisible := page == "home";
      bodyScrollLocked := page == "project-detail";
      currentPage := page;
      notified := notified + [page];
    }
  }
}
