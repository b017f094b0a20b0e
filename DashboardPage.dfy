/** The page object of `pages/DashboardPage.js`: the landing page, its counters, its sidebar and its navigation links. */
module DashboardPage {
  import opened Values
  import opened JsString
  import opened Browser
  import opened ElementHelper
  import opened PageFlows

  /** The locator `getSidebarLinks` builds: `${sidebarMenu} a`. */
  function LinksSelector(sidebarMenu: string): (sel: string)
    ensures |sel| == |sidebarMenu| + 2
    ensures sel[..|sidebarMenu|] == sidebarMenu && sel[|sidebarMenu|..] == " a"
  {
    sidebarMenu + " a"
  }

  /**
   * The links are collected only when the sidebar itself matches; they are
   * then the trimmed, truthy `textContent` of every match of the composed
   * locator, in index order, never more than there are matches.
   */
  lemma SidebarLinksGuard(doc: Document, sidebarMenu: string)
    ensures var links := GuardedCollect(doc, sidebarMenu, LinksSelector(sidebarMenu));
      && (doc.Count(sidebarMenu) == 0 ==> links == [])
      && (doc.Count(sidebarMenu) > 0 ==> links == CollectTexts(doc.Locate(LinksSelector(sidebarMenu))))
      && |links| <= doc.Count(LinksSelector(sidebarMenu))
  {
  }

  class DashboardPage {
    const page: BrowserPage
    const elementHelper: ElementHelper

    const dashboardTitle: string := "h1:has-text(\"Profiles\"), .dashboard-title"
    const sidebarMenu: string := ".sidebar-menu, .side-nav"
    const profilesLink: string := "a:has-text(\"Profiles\"), a[href*=\"profiles\"]"
    const settingsLink: string := "a:has-text(\"Settings\"), a[href*=\"settings\"]"
    const recycleBinLink: string := "a:has-text(\"Recycle Bin\"), a[href*=\"recycle\"]"
    const userRoleLabel: string := ".user-role, .role-indicator"
    const logoutButton: string := "button.logout-button, button:has-text(\"Logout\"), button:has-text(\"Log out\")"
    const payflowsCounter: string := ".payflows-counter, .counter:has-text(\"Payflows\")"
    const usersCounter: string := ".users-counter, .counter:has-text(\"Users\")"

    /** The helper drives the same page as the page object. */
    predicate Valid() {
      elementHelper.page == page
    }

    constructor (page: BrowserPage)
      ensures this.page == page && Valid()
    {
      this.page := page;
      elementHelper := new ElementHelper(page);
    }

    /** `isDashboardLoaded()` */
    method IsDashboardLoaded() returns (b: bool)
      requires Valid()
      ensures b <==> page.doc.Count(dashboardTitle) > 0
    {
      b := elementHelper.Exists(dashboardTitle);
    }

    /** `getDashboardTitle()` */
    method GetDashboardTitle(outcomes: seq<Outcome>) returns (r: Completion<Option<string>>)
      requires Valid()
      modifies page
      ensures r == GuardedRead(page.doc, dashboardTitle, outcomes).result
      ensures page.log == old(page.log) + GuardedRead(page.doc, dashboardTitle, outcomes).events
    {
      var present := elementHelper.Exists(dashboardTitle);
      if present {
        r := elementHelper.GetTextWithRetry(dashboardTitle, DefaultRetryOptions, outcomes);
      } else {
        r := Normal(Some(""));
      }
    }

    /** `navigateToProfiles()` */
    method NavigateToProfiles(outcomes: seq<Outcome>) returns (r: Completion<()>)
      requires Valid()
      modifies page
      ensures r == ClickThenLoad(page.doc, profilesLink, outcomes).result
      ensures page.log == old(page.log) + ClickThenLoad(page.doc, profilesLink, outcomes).events
    {
      var clicked := elementHelper.ClickWithRetry(profilesLink, DefaultRetryOptions, outcomes);
      if clicked.Abrupt? {
        return Abrupt(clicked.message);
      }
      page.WaitForLoadState(NetworkIdle);
      r := Normal(());
    }

    /** `navigateToSettings()` */
    method NavigateToSettings(outcomes: seq<Outcome>) returns (r: Completion<()>)
      requires Valid()
      modifies page
      ensures r == ClickThenLoad(page.doc, settingsLink, outcomes).result
      ensures page.log == old(page.log) + ClickThenLoad(page.doc, settingsLink, outcomes).events
    {
      var clicked := elementHelper.ClickWithRetry(settingsLink, DefaultRetryOptions, outcomes);
      if clicked.Abrupt? {
        return Abrupt(clicked.message);
      }
      page.WaitForLoadState(NetworkIdle);
      r := Normal(());
    }

    /** `navigateToRecycleBin()` */
    method NavigateToRecycleBin(outcomes: seq<Outcome>) returns (r: Completion<()>)
      requires Valid()
      modifies page
      ensures r == ClickThenLoad(page.doc, recycleBinLink, outcomes).result
      ensures page.log == old(page.log) + ClickThenLoad(page.doc, recycleBinLink, outcomes).events
    {
      var clicked := elementHelper.ClickWithRetry(recycleBinLink, DefaultRetryOptions, outcomes);
      if clicked.Abrupt? {
        return Abrupt(clicked.message);
      }
      page.WaitForLoadState(NetworkIdle);
      r := Normal(());
    }

    /** `getUserRole()` */
    method GetUserRole(outcomes: seq<Outcome>) returns (r: Completion<Option<string>>)
      requires Valid()
      modifies page
      ensures r == GuardedRead(page.doc, userRoleLabel, outcomes).result
      ensures page.log == old(page.log) + GuardedRead(page.doc, userRoleLabel, outcomes).events
    {
      var present := elementHelper.Exists(userRoleLabel);
      if present {
        r := elementHelper.GetTextWithRetry(userRoleLabel, DefaultRetryOptions, outcomes);
      } else {
        r := Normal(Some(""));
      }
    }

    /** `logout()` */
    method Logout(outcomes: seq<Outcome>) returns (r: Completion<()>)
      requires Valid()
      modifies page
      ensures r == ClickThenLoad(page.doc, logoutButton, outcomes).result
      ensures page.log == old(page.log) + ClickThenLoad(page.doc, logoutButton, outcomes).events
    {
      var clicked := elementHelper.ClickWithRetry(logoutButton, DefaultRetryOptions, outcomes);
      if clicked.Abrupt? {
        return Abrupt(clicked.message);
      }
      page.WaitForLoadState(NetworkIdle);
      r := Normal(());
    }

    /** `getPayflowsCount()`: the counter's text, as a string. */
    method GetPayflowsCount(outcomes: seq<Outcome>) returns (r: Completion<Option<string>>)
      requires Valid()
      modifies page
      ensures r == GuardedRead(page.doc, payflowsCounter, outcomes).result
      ensures page.log == old(page.log) + GuardedRead(page.doc, payflowsCounter, outcomes).events
    {
      var present := elementHelper.Exists(payflowsCounter);
      if present {
        r := elementHelper.GetTextWithRetry(payflowsCounter, DefaultRetryOptions, outcomes);
      } else {
        r := Normal(Some(""));
      }
    }

    /** `getUsersCount()`: the counter's text, as a string. */
    method GetUsersCount(outcomes: seq<Outcome>) returns (r: Completion<Option<string>>)
      requires Valid()
      modifies page
      ensures r == GuardedRead(page.doc, usersCounter, outcomes).result
      ensures page.log == old(page.log) + GuardedRead(page.doc, usersCounter, outcomes).events
    {
      var present := elementHelper.Exists(usersCounter);
      if present {
        r := elementHelper.GetTextWithRetry(usersCounter, DefaultRetryOptions, outcomes);
      } else {
        r := Normal(Some(""));
      }
    }

    /** `isSidebarVisible()` */
    method IsSidebarVisible() returns (b: bool)
      requires Valid()
      ensures b <==> page.doc.Count(sidebarMenu) > 0
    {
      b := elementHelper.Exists(sidebarMenu);
    }

    /** `getSidebarLinks()`: the trimmed, truthy `textContent` of every match of `${sidebarMenu} a`, in index order. */
    method GetSidebarLinks() returns (links: seq<string>)
      requires Valid()
      ensures links == GuardedCollect(page.doc, sidebarMenu, LinksSelector(sidebarMenu))
    {
      links := [];
      var present := elementHelper.Exists(sidebarMenu);
      if present {
        var linksLocator := LinksSelector(sidebarMenu);
        var items := page.doc.Locate(linksLocator);
        var count := page.doc.Count(linksLocator);
        for i := 0 to count
          invariant links == CollectTexts(items[..i])
        {
          var text := items[i].textContent;
          if text.Some? && text.value != "" {
            links := links + [Trim(text.value)];
          }
          assert items[..i + 1][..i] == items[..i];
        }
        assert items[..count] == items;
      }
    }
  }
}
