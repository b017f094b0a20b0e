/** The page object of `pages/ProfilePage.js`: one profile, its tabs, its edit/save/cancel controls and its sections. */
module ProfilePage {
  import opened Values
  import opened JsString
  import opened Browser
  import opened ElementHelper
  import opened PageFlows

  /** The argument of `clickTab`: a tab name (a JavaScript string) or a tab index (anything else, a number in practice). */
  datatype TabRef = Name(name: string) | Index(index: int)

  /** The locator `clickTab` builds for a tab name: `${tabItems}:has-text("${name}")`. */
  function TabSelector(tabItems: string, name: string): (sel: string)
    ensures |tabItems| <= |sel| && sel[..|tabItems|] == tabItems
    ensures sel[|tabItems|..] == ":has-text(\"" + name + "\")"
  {
    tabItems + ":has-text(\"" + name + "\")"
  }

  /** `clickTab(tabNameOrIndex)`: a retried click on the named tab, or a direct click on the tab at the index; then settle. */
  function ClickTabFlow(doc: Document, tabItems: string, tab: TabRef, outcomes: seq<Outcome>): Run<()> {
    match tab
    case Name(name) => ClickThenLoad(doc, TabSelector(tabItems, name), outcomes)
    case Index(index) => NthClickThenLoad(doc, tabItems, index)
  }

  /**
   * A tab name clicks with retry on the composed selector and never clicks by
   * index; a completed click ends with exactly one load wait right after the
   * one successful click, a failed one waits for no load.
   */
  lemma ClickTabByName(doc: Document, tabItems: string, name: string, outcomes: seq<Outcome>)
    ensures var run := ClickTabFlow(doc, tabItems, Name(name), outcomes);
      && (forall e :: e in run.events ==> !e.ClickedNth?)
      && (run.result.Normal? ==>
            && Tally(run.events, LoadKind) == 1
            && Tally(run.events, SuccessKind) == 1
            && run.events[|run.events| - 1] == LoadStateWaited(NetworkIdle)
            && run.events[|run.events| - 2] == Acted(Click, TabSelector(tabItems, name), true))
      && (run.result.Abrupt? ==> Tally(run.events, LoadKind) == 0)
  {
    var sel := TabSelector(tabItems, name);
    ClickThenLoadOrder(doc, sel, outcomes);
    RetryStaysOnTarget(doc, Click, sel, DefaultRetryOptions, outcomes, 0);
  }

  /**
   * A tab index clicks the tab at that index once, directly, without any wait
   * or retry; a completed click ends with exactly one load wait.
   */
  lemma ClickTabByIndex(doc: Document, tabItems: string, index: int, outcomes: seq<Outcome>)
    ensures var run := ClickTabFlow(doc, tabItems, Index(index), outcomes);
      && Tally(run.events, WaitKind) == 0
      && Tally(run.events, SleepKind) == 0
      && run.events[0] == ClickedNth(tabItems, index, run.result.Normal?)
      && (run.result.Normal? <==> NthClickable(doc, tabItems, index))
      && Tally(run.events, LoadKind) == (if run.result.Normal? then 1 else 0)
  {
    NthClickThenLoadOnce(doc, tabItems, index);
  }

  class ProfilePage {
    const page: BrowserPage
    const elementHelper: ElementHelper

    const profileTitle: string := "h1:has-text(\"Profile\"), .profile-title, [data-testid=\"profile-title\"]"
    const profileDetails: string := ".profile-details, .details-container, [data-testid=\"profile-details\"]"
    const tabsContainer: string := ".tabs, .tab-container, [role=\"tablist\"], [data-testid=\"tabs\"]"
    const tabItems: string := "[role=\"tab\"], .tab, .tab-item, [data-testid=\"tab\"]"
    const editButton: string := "button:has-text(\"Edit\"), [aria-label=\"edit\"], [data-testid=\"edit-button\"]"
    const saveButton: string := "button:has-text(\"Save\"), [aria-label=\"save\"], [data-testid=\"save-button\"]"
    const cancelButton: string := "button:has-text(\"Cancel\"), [aria-label=\"cancel\"], [data-testid=\"cancel-button\"]"
    const versionHistory: string := ".version-history, .history, [data-testid=\"version-history\"]"
    const childProfiles: string := ".child-profiles, .children, [data-testid=\"child-profiles\"]"
    const documentsSection: string := ".documents, .attachments, [data-testid=\"documents\"]"

    /** The helper drives the same page as the page object. */
    predicate Valid() {
      elementHelper.page == page
    }

    constructor (page: BrowserPage)
      ensures this.page == page && Valid()
    {
      this.page := page;
      elementHelper := new ElementHelper(page);
    }

    /** `isProfilePageLoaded()` */
    method IsProfilePageLoaded() returns (b: bool)
      requires Valid()
      ensures b <==> page.doc.Count(profileDetails) > 0
    {
      b := elementHelper.Exists(profileDetails);
    }

    /** `getProfileTitle()` */
    method GetProfileTitle(outcomes: seq<Outcome>) returns (r: Completion<Option<string>>)
      requires Valid()
      modifies page
      ensures r == GuardedRead(page.doc, profileTitle, outcomes).result
      ensures page.log == old(page.log) + GuardedRead(page.doc, profileTitle, outcomes).events
    {
      var present := elementHelper.Exists(profileTitle);
      if present {
        r := elementHelper.GetTextWithRetry(profileTitle, DefaultRetryOptions, outcomes);
      } else {
        r := Normal(Some(""));
      }
    }

    /** `getAvailableTabs()`: the trimmed, truthy `textContent` of every tab, in index order. */
    method GetAvailableTabs() returns (tabs: seq<string>)
      requires Valid()
      ensures tabs == GuardedCollect(page.doc, tabItems, tabItems)
    {
      tabs := [];
      var present := elementHelper.Exists(tabItems);
      if present {
        var items := page.doc.Locate(tabItems);
        var count := page.doc.Count(tabItems);
        for i := 0 to count
          invariant tabs == CollectTexts(items[..i])
        {
          var text := items[i].textContent;
          if text.Some? && text.value != "" {
            tabs := tabs + [Trim(text.value)];
          }
          assert items[..i + 1][..i] == items[..i];
        }
        assert items[..count] == items;
      }
    }

    /** `clickTab(tabNameOrIndex)` */
    method ClickTab(tab: TabRef, outcomes: seq<Outcome>) returns (r: Completion<()>)
      requires Valid()
      modifies page
      ensures r == ClickTabFlow(page.doc, tabItems, tab, outcomes).result
      ensures page.log == old(page.log) + ClickTabFlow(page.doc, tabItems, tab, outcomes).events
    {
      if tab.Name? {
        var clicked := elementHelper.ClickWithRetry(TabSelector(tabItems, tab.name), DefaultRetryOptions, outcomes);
        if clicked.Abrupt? {
          return Abrupt(clicked.message);
        }
      } else {
        var clicked := page.ClickNth(tabItems, tab.index);
        if clicked.Abrupt? {
          return Abrupt(clicked.message);
        }
      }
      page.WaitForLoadState(NetworkIdle);
      r := Normal(());
    }

    /** `clickEdit()` */
    method ClickEdit(outcomes: seq<Outcome>) returns (r: Completion<()>)
      requires Valid()
      modifies page
      ensures r == ClickThenLoad(page.doc, editButton, outcomes).result
      ensures page.log == old(page.log) + ClickThenLoad(page.doc, editButton, outcomes).events
    {
      var clicked := elementHelper.ClickWithRetry(editButton, DefaultRetryOptions, outcomes);
      if clicked.Abrupt? {
        return Abrupt(clicked.message);
      }
      page.WaitForLoadState(NetworkIdle);
      r := Normal(());
    }

    /** `clickSave()` */
    method ClickSave(outcomes: seq<Outcome>) returns (r: Completion<()>)
      requires Valid()
      modifies page
      ensures r == ClickThenLoad(page.doc, saveButton, outcomes).result
      ensures page.log == old(page.log) + ClickThenLoad(page.doc, saveButton, outcomes).events
    {
      var clicked := elementHelper.ClickWithRetry(saveButton, DefaultRetryOptions, outcomes);
      if clicked.Abrupt? {
        return Abrupt(clicked.message);
      }
      page.WaitForLoadState(NetworkIdle);
      r := Normal(());
    }

    /** `clickCancel()` */
    method ClickCancel(outcomes: seq<Outcome>) returns (r: Completion<()>)
      requires Valid()
      modifies page
      ensures r == ClickThenLoad(page.doc, cancelButton, outcomes).result
      ensures page.log == old(page.log) + ClickThenLoad(page.doc, cancelButton, outcomes).events
    {
      var clicked := elementHelper.ClickWithRetry(cancelButton, DefaultRetryOptions, outcomes);
      if clicked.Abrupt? {
        return Abrupt(clicked.message);
      }
      page.WaitForLoadState(NetworkIdle);
      r := Normal(());
    }

    /** `isVersionHistoryVisible()` */
    method IsVersionHistoryVisible() returns (b: bool)
      requires Valid()
      ensures b <==> page.doc.Count(versionHistory) > 0
    {
      b := elementHelper.Exists(versionHistory);
    }

    /** `isChildProfilesVisible()` */
    method IsChildProfilesVisible() returns (b: bool)
      requires Valid()
      ensures b <==> page.doc.Count(childProfiles) > 0
    {
      b := elementHelper.Exists(childProfiles);
    }

    /** `isDocumentsSectionVisible()` */
    method IsDocumentsSectionVisible() returns (b: bool)
      requires Valid()
      ensures b <==> page.doc.Count(documentsSection) > 0
    {
      b := elementHelper.Exists(documentsSection);
    }

    /** `getProfileDetailsText()` */
    method GetProfileDetailsText(outcomes: seq<Outcome>) returns (r: Completion<Option<string>>)
      requires Valid()
      modifies page
      ensures r == GuardedRead(page.doc, profileDetails, outcomes).result
      ensures page.log == old(page.log) + GuardedRead(page.doc, profileDetails, outcomes).events
    {
      var present := elementHelper.Exists(profileDetails);
      if present {
        r := elementHelper.GetTextWithRetry(profileDetails, DefaultRetryOptions, outcomes);
      } else {
        r := Normal(Some(""));
      }
    }

    /** `isEditModeActive()`: edit mode is on exactly when a save button exists. */
    method IsEditModeActive() returns (b: bool)
      requires Valid()
      ensures b <==> page.doc.Count(saveButton) > 0
    {
      b := elementHelper.Exists(saveButton);
    }
  }
}
