/**
 * An abstract stand-in for the browser page that every helper and page object
 * drives. The document is a snapshot: for each selector string it lists the
 * elements the selector matches, in document order. What the page does over
 * time is recorded in a ghost event log. Faults that a real browser produces
 * from timing (an element that is still animating, a click that is
 * intercepted) are supplied per attempt by an outcome oracle.
 */
module Browser {
  import opened Values
  import opened JsString

  /** One matched DOM element: whether it is rendered visibly, its `innerText` and its `textContent` (null for `None`). */
  datatype Element = Element(visible: bool, innerText: string, textContent: Option<string>)

  /** The elements each selector matches; a selector that is not a key matches nothing. */
  datatype Document = Document(matches: map<string, seq<Element>>) {
    function Locate(selector: string): seq<Element> {
      if selector in matches then matches[selector] else []
    }

    /** `page.locator(selector).count()` */
    function Count(selector: string): nat {
      |Locate(selector)|
    }

    /** Whether the element a locator acts on (its first match) is rendered visibly. */
    predicate IsVisible(selector: string) {
      Count(selector) > 0 && Locate(selector)[0].visible
    }

    /** `innerText()` of the element a locator acts on. */
    function InnerText(selector: string): string {
      if Count(selector) > 0 then Locate(selector)[0].innerText else ""
    }
  }

  /** The `state` option of `locator.waitFor`. */
  datatype WaitState = Attached | Detached | Visible | Hidden

  /** Whether the document already is in the state a `waitFor` asks for. */
  predicate Satisfies(doc: Document, selector: string, state: WaitState) {
    match state
    case Attached => doc.Count(selector) > 0
    case Detached => doc.Count(selector) == 0
    case Visible => doc.IsVisible(selector)
    case Hidden => !doc.IsVisible(selector)
  }

  /** The three locator actions the retry helper performs. */
  datatype Action = Click | Fill(value: string) | InnerText

  /**
   * What the browser does on one attempt apart from what the snapshot decides:
   * nothing goes wrong, the wait fails anyway (the element became visible too
   * late), or the action itself is rejected.
   */
  datatype Outcome = Ok | WaitRejects(message: string) | ActionRejects(message: string)

  /** The observable side effects of the suite on the page, in order. */
  datatype Event =
    | Waited(selector: string, state: WaitState, timeout: Option<int>)
    | Acted(action: Action, selector: string, ok: bool)
    | Slept(ms: int)
    | ClickedNth(selector: string, index: int, ok: bool)
    | PressedKey(key: string)
    | LoadStateWaited(loadState: string)
    | ConsoleLogged(message: string)

  /** The message of a `waitFor` that timed out. */
  function WaitTimeoutMessage(timeout: Option<int>): string {
    match timeout
    case Some(t) => "locator.waitFor: Timeout " + IntToString(t) + "ms exceeded."
    case None => "locator.waitFor: Timeout exceeded."
  }

  /** The message of a direct `nth(i).click()` whose target never became clickable. */
  const ClickTimeoutMessage: string := "locator.click: Timeout exceeded."

  /** How `locator(selector).waitFor({ state, timeout })` settles. */
  function WaitResult(doc: Document, selector: string, state: WaitState, timeout: Option<int>, o: Outcome): Completion<()> {
    if !Satisfies(doc, selector, state) then Abrupt(WaitTimeoutMessage(timeout))
    else if o.WaitRejects? then Abrupt(o.message)
    else Normal(())
  }

  /** How `click()`, `fill(value)` or `innerText()` settles once the wait has passed; only `innerText` yields a value. */
  function ActionResult(doc: Document, action: Action, selector: string, o: Outcome): Completion<Option<string>> {
    if o.ActionRejects? then Abrupt(o.message)
    else Normal(if action.InnerText? then Some(doc.InnerText(selector)) else None)
  }

  /** Whether `locator(selector).nth(index).click()` finds a visible element to click. */
  predicate NthClickable(doc: Document, selector: string, index: int) {
    0 <= index < doc.Count(selector) && doc.Locate(selector)[index].visible
  }

  /** The kinds of event the properties count. */
  datatype EventKind = WaitKind | SleepKind | SuccessKind | LoadKind

  predicate IsKind(e: Event, kind: EventKind) {
    match kind
    case WaitKind => e.Waited?
    case SleepKind => e.Slept?
    case SuccessKind => e.Acted? && e.ok
    case LoadKind => e.LoadStateWaited?
  }

  /** How many events of a kind a log holds. */
  function Tally(events: seq<Event>, kind: EventKind): nat {
    if events == [] then 0 else (if IsKind(events[0], kind) then 1 else 0) + Tally(events[1..], kind)
  }

  /** A log of two events tallies each of them. */
  lemma TallyOfTwo(events: seq<Event>)
    requires |events| == 2
    ensures forall kind :: Tally(events, kind) == (if IsKind(events[0], kind) then 1 else 0) + (if IsKind(events[1], kind) then 1 else 0)
  {
    forall kind
      ensures Tally(events, kind) == (if IsKind(events[0], kind) then 1 else 0) + (if IsKind(events[1], kind) then 1 else 0)
    {
      var t := events[1..];
      assert t[0] == events[1] && t[1..] == [];
      assert Tally(t, kind) == (if IsKind(t[0], kind) then 1 else 0) + Tally(t[1..], kind);
    }
  }

  /** A tally is at most the length of the log; it is 0 exactly when no event is of the kind, and the length exactly when every event is. */
  lemma {:induction false} TallyBounds(events: seq<Event>, kind: EventKind)
    ensures Tally(events, kind) <= |events|
    ensures Tally(events, kind) == 0 <==> forall i :: 0 <= i < |events| ==> !IsKind(events[i], kind)
    ensures Tally(events, kind) == |events| <==> forall i :: 0 <= i < |events| ==> IsKind(events[i], kind)
  {
    if events != [] {
      var t := events[1..];
      TallyBounds(t, kind);
      assert forall i :: 1 <= i < |events| ==> events[i] == t[i - 1];
    }
  }

  lemma {:induction false} TallyAppend(a: seq<Event>, b: seq<Event>, kind: EventKind)
    ensures Tally(a + b, kind) == Tally(a, kind) + Tally(b, kind)
  {
    if a != [] {
      assert (a + b)[1..] == a[1..] + b;
      TallyAppend(a[1..], b, kind);
    } else {
      assert a + b == b;
    }
  }

  /** The Playwright `page` object, as far as the suite uses it. */
  class BrowserPage {
    const doc: Document
    ghost var log: seq<Event>

    constructor (doc: Document)
      ensures this.doc == doc && log == []
    {
      this.doc := doc;
      log := [];
    }

    /** `locator(selector).waitFor({ state, timeout })` */
    method WaitFor(selector: string, state: WaitState, timeout: Option<int>, o: Outcome) returns (r: Completion<()>)
      modifies this
      ensures r == WaitResult(doc, selector, state, timeout, o)
      ensures log == old(log) + [Waited(selector, state, timeout)]
    {
      log := log + [Waited(selector, state, timeout)];
      if !Satisfies(doc, selector, state) {
        r := Abrupt(WaitTimeoutMessage(timeout));
      } else if o.WaitRejects? {
        r := Abrupt(o.message);
      } else {
        r := Normal(());
      }
    }

    /** `locator(selector).click()`, `.fill(value)` or `.innerText()` on an element the caller has waited for. */
    method Perform(action: Action, selector: string, o: Outcome) returns (r: Completion<Option<string>>)
      modifies this
      ensures r == ActionResult(doc, action, selector, o)
      ensures log == old(log) + [Acted(action, selector, r.Normal?)]
    {
      if o.ActionRejects? {
        r := Abrupt(o.message);
      } else if action.InnerText? {
        r := Normal(Some(doc.InnerText(selector)));
      } else {
        r := Normal(None);
      }
      log := log + [Acted(action, selector, r.Normal?)];
    }

    /** `new Promise(resolve => setTimeout(resolve, ms))` */
    method Sleep(ms: int)
      modifies this
      ensures log == old(log) + [Slept(ms)]
    {
      log := log + [Slept(ms)];
    }

    /** `locator(selector).nth(index).click()`, with no wait of the suite's own before it. */
    method ClickNth(selector: string, index: int) returns (r: Completion<()>)
      modifies this
      ensures r == if NthClickable(doc, selector, index) then Normal(()) else Abrupt(ClickTimeoutMessage)
      ensures log == old(log) + [ClickedNth(selector, index, r.Normal?)]
    {
      r := if NthClickable(doc, selector, index) then Normal(()) else Abrupt(ClickTimeoutMessage);
      log := log + [ClickedNth(selector, index, r.Normal?)];
    }

    /** `keyboard.press(key)` */
    method PressKey(key: string)
      modifies this
      ensures log == old(log) + [PressedKey(key)]
    {
      log := log + [PressedKey(key)];
    }

    /** `waitForLoadState(state)`; the page objects' `waitForPageLoad` asks for `'networkidle'`. */
    method WaitForLoadState(state: string)
      modifies this
      ensures log == old(log) + [LoadStateWaited(state)]
    {
      log := log + [LoadStateWaited(state)];
    }

    /** `console.log(message)` */
    method ConsoleLog(message: string)
      modifies this
      ensures log == old(log) + [ConsoleLogged(message)]
    {
      log := log + [ConsoleLogged(message)];
    }
  }
}
