/**
 * What the page objects of `pages/` do with the retrying accessor, stated once
 * as functions of the page snapshot and the attempt oracle: the guarded read
 * that answers `''` when its element is absent, the click-then-settle
 * sequences, the navigation helpers that report whether they clicked, the
 * search sequence, the direct `nth(i)` click, and the loops that collect the
 * trimmed `textContent` of every match.
 *
 * Every page object calls the accessor with its default options
 * (`{ timeout: 5000, retries: 3 }`), and its `waitForPageLoad` waits for the
 * `'networkidle'` load state.
 */
module PageFlows {
  import opened Values
  import opened JsString
  import opened Browser
  import opened ElementHelper

  /** The load state `waitForPageLoad` waits for. */
  const NetworkIdle: string := "networkidle"

  /** What `searchProfiles` logs when there is no search input. */
  const SearchInputMissing: string := "Search input not found"

  /** `if (await exists(sel)) return await getTextWithRetry(sel); return '';` */
  function GuardedRead(doc: Document, selector: string, outcomes: seq<Outcome>): Run<Option<string>> {
    if doc.Count(selector) == 0 then Run([], Normal(Some("")))
    else RetryRun(doc, InnerText, selector, DefaultRetryOptions, outcomes)
  }

  /** `await clickWithRetry(sel); await waitForPageLoad();` -- a failed click propagates before the load wait. */
  function ClickThenLoad(doc: Document, selector: string, outcomes: seq<Outcome>): Run<()> {
    var click := RetryRun(doc, Click, selector, DefaultRetryOptions, outcomes);
    match click.result
    case Abrupt(m) => Run(click.events, Abrupt(m))
    case Normal(_) => Run(click.events + [LoadStateWaited(NetworkIdle)], Normal(()))
  }

  /** `goToNextPage` / `goToPreviousPage`: click and settle when the button exists, and say whether it did. */
  function NavigateIfPresent(doc: Document, selector: string, outcomes: seq<Outcome>): Run<bool> {
    if doc.Count(selector) == 0 then Run([], Normal(false))
    else
      var c := ClickThenLoad(doc, selector, outcomes);
      match c.result
      case Abrupt(m) => Run(c.events, Abrupt(m))
      case Normal(_) => Run(c.events, Normal(true))
  }

  /** `searchProfiles(text)`: fill the input, press Enter and settle; without an input only log. */
  function SearchFlow(doc: Document, input: string, text: string, outcomes: seq<Outcome>): Run<()> {
    if doc.Count(input) == 0 then Run([ConsoleLogged(SearchInputMissing)], Normal(()))
    else
      var fill := RetryRun(doc, Fill(text), input, DefaultRetryOptions, outcomes);
      match fill.result
      case Abrupt(m) => Run(fill.events, Abrupt(m))
      case Normal(_) => Run(fill.events + [PressedKey("Enter"), LoadStateWaited(NetworkIdle)], Normal(()))
  }

  /** `locator(sel).nth(index).click(); waitForPageLoad();` -- one direct click, no retry. */
  function NthClickThenLoad(doc: Document, selector: string, index: int): Run<()> {
    if NthClickable(doc, selector, index) then
      Run([ClickedNth(selector, index, true), LoadStateWaited(NetworkIdle)], Normal(()))
    else
      Run([ClickedNth(selector, index, false)], Abrupt(ClickTimeoutMessage))
  }

  /** `clickProfileItem(index)`: the direct click, only when some item exists. */
  function ClickItemIfPresent(doc: Document, selector: string, index: int): Run<()> {
    if doc.Count(selector) == 0 then Run([], Normal(())) else NthClickThenLoad(doc, selector, index)
  }

  /** Whether an element's `textContent` is truthy, so that the collect loop keeps it. */
  predicate HasText(e: Element) {
    e.textContent.Some? && e.textContent.value != ""
  }

  /** What one matched element adds to a collected list: `if (text) list.push(text.trim())`. */
  function Kept(e: Element): seq<string> {
    if HasText(e) then [Trim(e.textContent.value)] else []
  }

  /** The list a collect loop builds over `items`, in index order. */
  function CollectTexts(items: seq<Element>): (texts: seq<string>)
    ensures |texts| <= |items|
  {
    if items == [] then [] else CollectTexts(items[..|items| - 1]) + Kept(items[|items| - 1])
  }

  /** How many of `items` have truthy `textContent`. */
  function CountWithText(items: seq<Element>): nat {
    if items == [] then 0 else CountWithText(items[..|items| - 1]) + (if HasText(items[|items| - 1]) then 1 else 0)
  }

  /** `getAvailableTabs` / `getSidebarLinks` / `getProfileItemsText`: nothing unless the guard matches, then the collected texts of the items. */
  function GuardedCollect(doc: Document, guard: string, items: string): seq<string> {
    if doc.Count(guard) == 0 then [] else CollectTexts(doc.Locate(items))
  }

  // ---------------------------------------------------------------------
  // Guarded reads
  // ---------------------------------------------------------------------

  /**
   * A guarded read does nothing and answers `''` exactly when its element is
   * absent; when present it waits at least once, and whatever it answers is
   * the element's `innerText` verbatim -- never `undefined`.
   */
  lemma GuardedReadAnswers(doc: Document, selector: string, outcomes: seq<Outcome>)
    ensures var run := GuardedRead(doc, selector, outcomes);
      && (run.events == [] <==> doc.Count(selector) == 0)
      && (doc.Count(selector) == 0 ==> run.result == Normal(Some("")))
      && (doc.Count(selector) > 0 && run.result.Normal? ==> run.result.value == Some(doc.InnerText(selector)))
      && (run.result.Normal? ==> run.result.value.Some?)
      && Tally(run.events, LoadKind) == 0
  {
    if doc.Count(selector) > 0 {
      RetryFromCounts(doc, InnerText, selector, DefaultRetryOptions, outcomes, 0);
      RetryFromEndsWithSuccess(doc, InnerText, selector, DefaultRetryOptions, outcomes, 0);
    }
  }

  /**
   * An element that matches but never becomes visible passes the guard, and
   * the read then throws after three waits of 5000 ms each and two pauses.
   */
  lemma GuardedReadNeverVisible(doc: Document, selector: string, outcomes: seq<Outcome>)
    requires doc.Count(selector) > 0 && !doc.IsVisible(selector)
    ensures var run := GuardedRead(doc, selector, outcomes);
      && run.result == Abrupt(ExhaustedMessage(InnerText, selector, 3, WaitTimeoutMessage(Some(5000))))
      && Tally(run.events, WaitKind) == 3
      && Tally(run.events, SleepKind) == 2
      && Tally(run.events, SuccessKind) == 0
      && (forall e :: e in run.events && e.Waited? ==> e == Waited(selector, Visible, Some(5000)))
  {
    RetryStaysOnTarget(doc, InnerText, selector, DefaultRetryOptions, outcomes, 0);
    forall j | 0 <= j < 3
      ensures AttemptFails(doc, InnerText, selector, DefaultRetryOptions, outcomes, j)
    {
    }
    RetryExhausts(doc, InnerText, selector, DefaultRetryOptions, outcomes);
  }

  /** A visible element read on the first attempt answers its `innerText` untrimmed, after one wait and no pause. */
  lemma GuardedReadFirstTry(doc: Document, selector: string, outcomes: seq<Outcome>)
    requires doc.IsVisible(selector)
    requires OutcomeAt(outcomes, 0) == Ok
    ensures var run := GuardedRead(doc, selector, outcomes);
      && run.result == Normal(Some(doc.Locate(selector)[0].innerText))
      && run.events == [Waited(selector, Visible, Some(5000)), Acted(InnerText, selector, true)]
  {
  }

  // ---------------------------------------------------------------------
  // Click-then-settle sequences
  // ---------------------------------------------------------------------

  /**
   * A click-then-settle either fails with the click's error before any load
   * wait, or ends with exactly one load wait that directly follows the one
   * successful click.
   */
  lemma ClickThenLoadOrder(doc: Document, selector: string, outcomes: seq<Outcome>)
    ensures var run := ClickThenLoad(doc, selector, outcomes);
      var click := RetryRun(doc, Click, selector, DefaultRetryOptions, outcomes);
      && (run.result.Abrupt? <==> click.result.Abrupt?)
      && (run.result.Abrupt? ==> run.result.message == click.result.message && run.events == click.events
                                 && Tally(run.events, LoadKind) == 0 && Tally(run.events, SuccessKind) == 0)
      && (run.result.Normal? ==>
            && |run.events| >= 2
            && run.events[|run.events| - 1] == LoadStateWaited(NetworkIdle)
            && run.events[|run.events| - 2] == Acted(Click, selector, true)
            && Tally(run.events, LoadKind) == 1
            && Tally(run.events, SuccessKind) == 1)
  {
    var click := RetryRun(doc, Click, selector, DefaultRetryOptions, outcomes);
    RetryFromCounts(doc, Click, selector, DefaultRetryOptions, outcomes, 0);
    RetryFromEndsWithSuccess(doc, Click, selector, DefaultRetryOptions, outcomes, 0);
    if click.result.Normal? {
      TallyAppend(click.events, [LoadStateWaited(NetworkIdle)], LoadKind);
      TallyAppend(click.events, [LoadStateWaited(NetworkIdle)], SuccessKind);
      assert [LoadStateWaited(NetworkIdle)][1..] == [];
    }
  }

  /**
   * The navigation helpers answer `false` and do nothing exactly when the
   * control is absent; an answer `true` means one successful click followed
   * by one load wait.
   */
  lemma NavigateIfPresentAnswers(doc: Document, selector: string, outcomes: seq<Outcome>)
    ensures var run := NavigateIfPresent(doc, selector, outcomes);
      && (run.result == Normal(false) <==> doc.Count(selector) == 0)
      && (doc.Count(selector) == 0 ==> run.events == [])
      && (run.result == Normal(true) ==>
            && Tally(run.events, SuccessKind) == 1
            && Tally(run.events, LoadKind) == 1
            && run.events[|run.events| - 1] == LoadStateWaited(NetworkIdle))
      && (run.result.Abrupt? ==> Tally(run.events, LoadKind) == 0)
  {
    if doc.Count(selector) > 0 {
      ClickThenLoadOrder(doc, selector, outcomes);
    }
  }

  /**
   * Without a search input the search only logs -- no fill, no key press, no
   * load wait. With one it fills `text` unchanged, then presses Enter, then
   * waits for the load state; a fill that fails presses nothing.
   */
  lemma SearchFlowOrder(doc: Document, input: string, text: string, outcomes: seq<Outcome>)
    ensures var run := SearchFlow(doc, input, text, outcomes);
      && (doc.Count(input) == 0 ==> run == Run([ConsoleLogged(SearchInputMissing)], Normal(())))
      && (doc.Count(input) > 0 && run.result.Normal? ==>
            && |run.events| >= 3
            && run.events[|run.events| - 3] == Acted(Fill(text), input, true)
            && run.events[|run.events| - 2] == PressedKey("Enter")
            && run.events[|run.events| - 1] == LoadStateWaited(NetworkIdle))
      && (doc.Count(input) > 0 && run.result.Abrupt? ==>
            forall e :: e in run.events ==> !e.PressedKey? && !e.LoadStateWaited? && !e.ConsoleLogged?)
  {
    if doc.Count(input) > 0 {
      var fill := RetryRun(doc, Fill(text), input, DefaultRetryOptions, outcomes);
      if fill.result.Normal? {
        RetryFromEndsWithSuccess(doc, Fill(text), input, DefaultRetryOptions, outcomes, 0);
      } else {
        RetryStaysOnTarget(doc, Fill(text), input, DefaultRetryOptions, outcomes, 0);
      }
    }
  }

  /** A direct `nth(index)` click never waits or retries; it settles with one load wait exactly when it succeeds. */
  lemma NthClickThenLoadOnce(doc: Document, selector: string, index: int)
    ensures var run := NthClickThenLoad(doc, selector, index);
      && Tally(run.events, WaitKind) == 0
      && Tally(run.events, SleepKind) == 0
      && run.events[0] == ClickedNth(selector, index, run.result.Normal?)
      && (run.result.Normal? <==> NthClickable(doc, selector, index))
      && Tally(run.events, LoadKind) == (if run.result.Normal? then 1 else 0)
  {
    var run := NthClickThenLoad(doc, selector, index);
    if run.result.Normal? {
      TallyOfTwo(run.events);
    } else {
      assert run.events[1..] == [];
    }
  }

  /** `clickProfileItem` does nothing at all when no item exists, and otherwise is the direct click. */
  lemma ClickItemIfPresentGuard(doc: Document, selector: string, index: int)
    ensures var run := ClickItemIfPresent(doc, selector, index);
      && (run.events == [] <==> doc.Count(selector) == 0)
      && (doc.Count(selector) == 0 ==> run.result == Normal(()))
      && (doc.Count(selector) > 0 ==> run.events[0] == ClickedNth(selector, index, run.result.Normal?))
  {
  }

  // ---------------------------------------------------------------------
  // Collect loops
  // ---------------------------------------------------------------------

  /** Collecting over two runs of items is collecting over each in turn. */
  lemma {:induction false} CollectTextsAppend(a: seq<Element>, b: seq<Element>)
    ensures CollectTexts(a + b) == CollectTexts(a) + CollectTexts(b)
    decreases |b|
  {
    if b == [] {
      assert a + b == a;
    } else {
      var b' := b[..|b| - 1];
      assert (a + b)[..|a + b| - 1] == a + b';
      CollectTextsAppend(a, b');
    }
  }

  /** The list holds one entry per item with truthy `textContent`: filtering comes before trimming. */
  lemma {:induction false} CollectTextsLength(items: seq<Element>)
    ensures |CollectTexts(items)| == CountWithText(items)
    decreases |items|
  {
    if items != [] {
      CollectTextsLength(items[..|items| - 1]);
    }
  }

  /** When every item has truthy `textContent`, entry `i` is the trimmed text of item `i`. */
  lemma {:induction false} CollectTextsPointwise(items: seq<Element>)
    requires forall i :: 0 <= i < |items| ==> HasText(items[i])
    ensures |CollectTexts(items)| == |items|
    ensures forall i :: 0 <= i < |items| ==> items[i].textContent.Some? && CollectTexts(items)[i] == Trim(items[i].textContent.value)
    decreases |items|
  {
    if items != [] {
      var init := items[..|items| - 1];
      var last := items[|items| - 1];
      assert forall i :: 0 <= i < |init| ==> HasText(init[i]) by {
        assert forall i :: 0 <= i < |init| ==> init[i] == items[i];
      }
      CollectTextsPointwise(init);
      var prev := CollectTexts(init);
      var t := Trim(last.textContent.value);
      assert HasText(last);
      assert CollectTexts(items) == prev + [t];
      forall i | 0 <= i < |items|
        ensures items[i].textContent.Some? && CollectTexts(items)[i] == Trim(items[i].textContent.value)
      {
        if i < |init| {
          assert items[i] == init[i];
          assert (prev + [t])[i] == prev[i];
        } else {
          assert items[i] == last && (prev + [t])[i] == t;
        }
      }
    }
  }

  /** Items whose `textContent` is null or `''` contribute nothing. */
  lemma {:induction false} CollectTextsSkipsEmpty(items: seq<Element>)
    requires forall i :: 0 <= i < |items| ==> !HasText(items[i])
    ensures CollectTexts(items) == []
    decreases |items|
  {
    if items != [] {
      CollectTextsSkipsEmpty(items[..|items| - 1]);
    }
  }

  /** A whitespace-only `textContent` is truthy, so it is kept -- and trims to `''`. */
  lemma WhitespaceItemGivesEmptyEntry(items: seq<Element>, i: nat)
    requires i < |items| && HasText(items[i])
    requires forall k :: 0 <= k < |items[i].textContent.value| ==> IsWhitespace(items[i].textContent.value[k])
    ensures CollectTexts(items[..i + 1]) == CollectTexts(items[..i]) + [""]
  {
    TrimEmptyIffBlank(items[i].textContent.value);
    assert items[..i + 1][..i] == items[..i];
  }

  /** A guarded collect is empty whenever its guard matches nothing, whatever the items are. */
  lemma GuardedCollectAbsent(doc: Document, guard: string, items: string)
    ensures doc.Count(guard) == 0 ==> GuardedCollect(doc, guard, items) == []
    ensures |GuardedCollect(doc, guard, items)| <= doc.Count(items)
    ensures doc.Count(guard) > 0 ==> |GuardedCollect(doc, guard, items)| == CountWithText(doc.Locate(items))
  {
    CollectTextsLength(doc.Locate(items));
  }
}
