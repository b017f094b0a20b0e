/** The page object of `pages/ProfilesListPage.js`: the list of profiles, its search, sort, filter and paging controls. */
module ProfilesListPage {
  import opened Values
  import opened JsString
  import opened Browser
  import opened ElementHelper
  import opened PageFlows

  class ProfilesListPage {
    const page: BrowserPage
    const elementHelper: ElementHelper

    const profilesTitle: string := "h1:has-text(\"Profiles\"), .profiles-title, [data-testid=\"profiles-title\"]"
    const profilesList: string := ".profiles-list, .list-container, table, [data-testid=\"profiles-list\"]"
    const profileItems: string := ".profile-item, tr, .list-item, [data-testid=\"profile-item\"]"
    const searchInput: string := "input[type=\"search\"], input[placeholder*=\"Search\"], [data-testid=\"search-input\"]"
    const filterButton: string := "button:has-text(\"Filter\"), [data-testid=\"filter-button\"]"
    const sortButton: string := "button:has-text(\"Sort\"), [data-testid=\"sort-button\"]"
    const paginationControls: string := ".pagination, nav[aria-label=\"pagination\"], [data-testid=\"pagination\"]"
    const nextPageButton: string := "button:has-text(\"Next\"), [aria-label=\"next page\"], [data-testid=\"next-page\"]"
    const prevPageButton: string := "button:has-text(\"Previous\"), [aria-label=\"previous page\"], [data-testid=\"prev-page\"]"

    /** The helper drives the same page as the page object. */
    predicate Valid() {
      elementHelper.page == page
    }

    constructor (page: BrowserPage)
      ensures this.page == page && Valid()
    {
      this.page := page;
      elementHelper := new ElementHelper(page);
    }

    /** `isProfilesListLoaded()` */
    method IsProfilesListLoaded() returns (b: bool)
      requires Valid()
      ensures b <==> page.doc.Count(profilesList) > 0
    {
      b := elementHelper.Exists(profilesList);
    }

    /** `getProfilesListTitle()` */
    method GetProfilesListTitle(outcomes: seq<Outcome>) returns (r: Completion<Option<string>>)
      requires Valid()
      modifies page
      ensures r == GuardedRead(page.doc, profilesTitle, outcomes).result
      ensures page.log == old(page.log) + GuardedRead(page.doc, profilesTitle, outcomes).events
    {
      var present := elementHelper.Exists(profilesTitle);
      if present {
        r := elementHelper.GetTextWithRetry(profilesTitle, DefaultRetryOptions, outcomes);
      } else {
        r := Normal(Some(""));
      }
    }

    /** `getProfileItemsCount()`: 0 when no item matches, the number of matches otherwise. */
    method GetProfileItemsCount() returns (n: nat)
      requires Valid()
      ensures n == |page.doc.Locate(profileItems)|
      ensures n == 0 <==> page.doc.Locate(profileItems) == []
    {
      var present := elementHelper.Exists(profileItems);
      if present {
        n := page.doc.Count(profileItems);
      } else {
        n := 0;
      }
    }

    /** `searchProfiles(searchText)` */
    method SearchProfiles(searchText: string, outcomes: seq<Outcome>) returns (r: Completion<()>)
      requires Valid()
      modifies page
      ensures r == SearchFlow(page.doc, searchInput, searchText, outcomes).result
      ensures page.log == old(page.log) + SearchFlow(page.doc, searchInput, searchText, outcomes).events
    {
      var present := elementHelper.Exists(searchInput);
      if present {
        var filled := elementHelper.FillWithRetry(searchInput, searchText, DefaultRetryOptions, outcomes);
        if filled.Abrupt? {
          return Abrupt(filled.message);
        }
        page.PressKey("Enter");
        page.WaitForLoadState(NetworkIdle);
        r := Normal(());
      } else {
        page.ConsoleLog(SearchInputMissing);
        r := Normal(());
      }
    }

    /** `clickFilterButton()` */
    method ClickFilterButton(outcomes: seq<Outcome>) returns (r: Completion<Option<string>>)
      requires Valid()
      modifies page
      ensures r == RetryRun(page.doc, Click, filterButton, DefaultRetryOptions, outcomes).result
      ensures page.log == old(page.log) + RetryRun(page.doc, Click, filterButton, DefaultRetryOptions, outcomes).events
    {
      r := elementHelper.ClickWithRetry(filterButton, DefaultRetryOptions, outcomes);
    }

    /** `clickSortButton()` */
    method ClickSortButton(outcomes: seq<Outcome>) returns (r: Completion<Option<string>>)
      requires Valid()
      modifies page
      ensures r == RetryRun(page.doc, Click, sortButton, DefaultRetryOptions, outcomes).result
      ensures page.log == old(page.log) + RetryRun(page.doc, Click, sortButton, DefaultRetryOptions, outcomes).events
    {
      r := elementHelper.ClickWithRetry(sortButton, DefaultRetryOptions, outcomes);
    }

    /** `isPaginationVisible()` */
    method IsPaginationVisible() returns (b: bool)
      requires Valid()
      ensures b <==> page.doc.Count(paginationControls) > 0
    {
      b := elementHelper.Exists(paginationControls);
    }

    /** `goToNextPage()` */
    method GoToNextPage(outcomes: seq<Outcome>) returns (r: Completion<bool>)
      requires Valid()
      modifies page
      ensures r == NavigateIfPresent(page.doc, nextPageButton, outcomes).result
      ensures page.log == old(page.log) + NavigateIfPresent(page.doc, nextPageButton, outcomes).events
    {
      var present := elementHelper.Exists(nextPageButton);
      if !present {
        return Normal(false);
      }
      var clicked := elementHelper.ClickWithRetry(nextPageButton, DefaultRetryOptions, outcomes);
      if clicked.Abrupt? {
        return Abrupt(clicked.message);
      }
      page.WaitForLoadState(NetworkIdle);
      r := Normal(true);
    }

    /** `goToPreviousPage()` */
    method GoToPreviousPage(outcomes: seq<Outcome>) returns (r: Completion<bool>)
      requires Valid()
      modifies page
      ensures r == NavigateIfPresent(page.doc, prevPageButton, outcomes).result
      ensures page.log == old(page.log) + NavigateIfPresent(page.doc, prevPageButton, outcomes).events
    {
      var present := elementHelper.Exists(prevPageButton);
      if !present {
        return Normal(false);
      }
      var clicked := elementHelper.ClickWithRetry(prevPageButton, DefaultRetryOptions, outcomes);
      if clicked.Abrupt? {
        return Abrupt(clicked.message);
      }
      page.WaitForLoadState(NetworkIdle);
      r := Normal(true);
    }

    /** `clickProfileItem(index)` */
    method ClickProfileItem(index: int) returns (r: Completion<()>)
      requires Valid()
      modifies page
      ensures r == ClickItemIfPresent(page.doc, profileItems, index).result
      ensures page.log == old(page.log) + ClickItemIfPresent(page.doc, profileItems, index).events
    {
      var present := elementHelper.Exists(profileItems);
      if present {
        var clicked := page.ClickNth(profileItems, index);
        if clicked.Abrupt? {
          return Abrupt(clicked.message);
        }
        page.WaitForLoadState(NetworkIdle);
      }
      r := Normal(());
    }

    /** `getProfileItemsText()`: the trimmed, truthy `textContent` of every item, in index order. */
    method GetProfileItemsText() returns (texts: seq<string>)
      requires Valid()
      ensures texts == GuardedCollect(page.doc, profileItems, profileItems)
    {
      texts := [];
      var present := elementHelper.Exists(profileItems);
      if present {
        var items := page.doc.Locate(profileItems);
        var count := page.doc.Count(profileItems);
        for i := 0 to count
          invariant texts == CollectTexts(items[..i])
        {
          var text := items[i].textContent;
          if text.Some? && text.value != "" {
            texts := texts + [Trim(text.value)];
          }
          assert items[..i + 1][..i] == items[..i];
        }
        assert items[..count] == items;
      }
    }

    /** `isSearchInputVisible()` */
    method IsSearchInputVisible() returns (b: bool)
      requires Valid()
      ensures b <==> page.doc.Count(searchInput) > 0
    {
      b := elementHelper.Exists(searchInput);
    }
  }
}
