/**
 * The retrying element accessor of `utils/ElementHelper.js`: waiting for an
 * element, clicking, filling and reading text with a bounded number of
 * attempts and a fixed pause between them, and a single, non-retrying
 * existence query.
 */
module ElementHelper {
  import opened Values
  import opened JsString
  import opened Browser

  /** The options object `waitForElement` accepts; an absent field is `None`. */
  datatype WaitOptions = WaitOptions(state: Option<WaitState>, timeout: Option<int>)

  /** What `waitFor` is finally asked for, once the defaults are merged in. */
  datatype WaitRequest = WaitRequest(state: WaitState, timeout: Option<int>)

  /** The default argument of `waitForElement`: `{ timeout: 5000 }`. */
  const DefaultWaitOptions: WaitOptions := WaitOptions(None, Some(5000))

  /** `{ state: 'visible', ...options }`, with `options` defaulting to `{ timeout: 5000 }` when omitted. */
  function WaitRequestFor(options: Option<WaitOptions>): WaitRequest {
    var given := options.GetOr(DefaultWaitOptions);
    WaitRequest(given.state.GetOr(Visible), given.timeout)
  }

  /** Omitted options wait 5000 ms for visibility; a caller's fields override both defaults, field by field. */
  lemma WaitRequestDefaults(options: WaitOptions)
    ensures WaitRequestFor(None) == WaitRequest(Visible, Some(5000))
    ensures WaitRequestFor(Some(options)).timeout == options.timeout
    ensures WaitRequestFor(Some(options)).state == if options.state.Some? then options.state.value else Visible
  {
  }

  /** The options object of the retry helpers; an absent field is `None`. */
  datatype RetryOptions = RetryOptions(timeout: Option<int>, retries: Option<int>)

  /** The default argument of the retry helpers: `{ timeout: 5000, retries: 3 }`. */
  const DefaultRetryOptions: RetryOptions := RetryOptions(Some(5000), Some(3))

  /** The pause between two attempts, in milliseconds. */
  const RetryDelayMs: int := 1000

  /** The verb each helper's exhaustion message uses. */
  function Verb(action: Action): string {
    match action
    case Click => "click"
    case Fill(_) => "fill"
    case InnerText => "get text from"
  }

  /** The single error a helper throws once its attempts are used up. */
  function ExhaustedMessage(action: Action, selector: string, retries: int, last: string): string {
    "Failed to " + Verb(action) + " element " + selector + " after " + IntToString(retries) + " attempts: " + last
  }

  /** The oracle's outcome for attempt `k` (counted from 0); attempts past its end meet no fault. */
  function OutcomeAt(outcomes: seq<Outcome>, k: nat): Outcome {
    if k < |outcomes| then outcomes[k] else Ok
  }

  /** The side effects of a piece of the suite and how it settles. */
  datatype Run<+T> = Run(events: seq<Event>, result: Completion<T>)

  /** The events of one attempt: a wait for visibility, then the action if the wait passed. */
  function AttemptEvents(doc: Document, action: Action, selector: string, timeout: Option<int>, o: Outcome): seq<Event> {
    [Waited(selector, Visible, timeout)]
    + if WaitResult(doc, selector, Visible, timeout, o).Normal? then [Acted(action, selector, !o.ActionRejects?)] else []
  }

  /** How one attempt settles: the wait's error, or else the action's result. */
  function AttemptResult(doc: Document, action: Action, selector: string, timeout: Option<int>, o: Outcome): Completion<Option<string>> {
    match WaitResult(doc, selector, Visible, timeout, o)
    case Abrupt(m) => Abrupt(m)
    case Normal(_) => ActionResult(doc, action, selector, o)
  }

  /** The value a successful attempt returns: the element's `innerText` for a read, `undefined` otherwise. */
  function SuccessValue(doc: Document, action: Action, selector: string): Option<string> {
    if action.InnerText? then Some(doc.InnerText(selector)) else None
  }

  /**
   * The retry loop from the moment `attempts` attempts have failed: while
   * `attempts < options.retries`, attempt; on success return; on failure count
   * it, throw if no attempt remains, and pause otherwise. A loop whose guard is
   * false at once (retries absent or at most `attempts`) returns `undefined`.
   */
  function RetryFrom(doc: Document, action: Action, selector: string, options: RetryOptions, outcomes: seq<Outcome>, attempts: nat): Run<Option<string>>
    decreases if options.retries.Some? then options.retries.value - attempts else 0
  {
    if options.retries.None? || attempts >= options.retries.value then Run([], Normal(None))
    else
      var o := OutcomeAt(outcomes, attempts);
      var events := AttemptEvents(doc, action, selector, options.timeout, o);
      match AttemptResult(doc, action, selector, options.timeout, o)
      case Normal(v) => Run(events, Normal(v))
      case Abrupt(m) =>
        if attempts + 1 >= options.retries.value then
          Run(events, Abrupt(ExhaustedMessage(action, selector, options.retries.value, m)))
        else
          var rest := RetryFrom(doc, action, selector, options, outcomes, attempts + 1);
          Run(events + [Slept(RetryDelayMs)] + rest.events, rest.result)
  }

  /** A whole call of `clickWithRetry`, `fillWithRetry` or `getTextWithRetry`. */
  function RetryRun(doc: Document, action: Action, selector: string, options: RetryOptions, outcomes: seq<Outcome>): Run<Option<string>> {
    RetryFrom(doc, action, selector, options, outcomes, 0)
  }

  /** Attempt `k` of a call fails. */
  predicate AttemptFails(doc: Document, action: Action, selector: string, options: RetryOptions, outcomes: seq<Outcome>, k: nat) {
    AttemptResult(doc, action, selector, options.timeout, OutcomeAt(outcomes, k)).Abrupt?
  }

  /** One attempt waits once; it ends in a successful action exactly when it succeeds, and never pauses. */
  lemma AttemptTallies(doc: Document, action: Action, selector: string, timeout: Option<int>, o: Outcome)
    ensures var events := AttemptEvents(doc, action, selector, timeout, o);
      && 1 <= |events| <= 2
      && events[0] == Waited(selector, Visible, timeout)
      && Tally(events, WaitKind) == 1
      && Tally(events, SleepKind) == 0
      && Tally(events, LoadKind) == 0
      && Tally(events, SuccessKind) == (if AttemptResult(doc, action, selector, timeout, o).Normal? then 1 else 0)
      && (AttemptResult(doc, action, selector, timeout, o).Normal? ==> events[|events| - 1] == Acted(action, selector, true))
  {
    var events := AttemptEvents(doc, action, selector, timeout, o);
    if |events| == 2 {
      TallyOfTwo(events);
    } else {
      assert events[1..] == [];
    }
  }

  /** The tallies of an attempt followed by a pause and the rest of the loop. */
  lemma TallyStep(events: seq<Event>, rest: seq<Event>, kind: EventKind)
    ensures Tally(events + [Slept(RetryDelayMs)] + rest, kind)
            == Tally(events, kind) + (if kind == SleepKind then 1 else 0) + Tally(rest, kind)
  {
    TallyAppend(events, [Slept(RetryDelayMs)], kind);
    TallyAppend(events + [Slept(RetryDelayMs)], rest, kind);
    assert [Slept(RetryDelayMs)][1..] == [];
  }

  /** One turn of the loop, as `RetryFrom` defines it. */
  lemma RetryFromUnfold(doc: Document, action: Action, selector: string, options: RetryOptions, outcomes: seq<Outcome>, a: nat)
    requires options.retries.Some? && a < options.retries.value
    ensures var o := OutcomeAt(outcomes, a);
      var events := AttemptEvents(doc, action, selector, options.timeout, o);
      var res := AttemptResult(doc, action, selector, options.timeout, o);
      var run := RetryFrom(doc, action, selector, options, outcomes, a);
      && (res.Normal? ==> run == Run(events, res))
      && (res.Abrupt? && a + 1 >= options.retries.value ==>
            run == Run(events, Abrupt(ExhaustedMessage(action, selector, options.retries.value, res.message))))
      && (res.Abrupt? && a + 1 < options.retries.value ==>
            var rest := RetryFrom(doc, action, selector, options, outcomes, a + 1);
            run == Run(events + [Slept(RetryDelayMs)] + rest.events, rest.result))
  {
  }

  /**
   * Whatever the oracle says, a call with at least one attempt left either
   * returns after exactly one successful action, or throws after using every
   * attempt without a successful action; it pauses once between each two
   * attempts and never after the last, and never waits for a load state.
   */
  lemma {:induction false} RetryFromCounts(doc: Document, action: Action, selector: string, options: RetryOptions, outcomes: seq<Outcome>, a: nat)
    requires options.retries.Some? && a < options.retries.value
    ensures var run := RetryFrom(doc, action, selector, options, outcomes, a);
      var n := Tally(run.events, WaitKind);
      && 1 <= n <= options.retries.value - a
      && Tally(run.events, SleepKind) == n - 1
      && Tally(run.events, LoadKind) == 0
      && Tally(run.events, SuccessKind) == (if run.result.Normal? then 1 else 0)
      && (run.result.Abrupt? ==> n == options.retries.value - a)
    decreases options.retries.value - a
  {
    var o := OutcomeAt(outcomes, a);
    var events := AttemptEvents(doc, action, selector, options.timeout, o);
    AttemptTallies(doc, action, selector, options.timeout, o);
    RetryFromUnfold(doc, action, selector, options, outcomes, a);
    var res := AttemptResult(doc, action, selector, options.timeout, o);
    if res.Abrupt? && a + 1 < options.retries.value {
      var rest := RetryFrom(doc, action, selector, options, outcomes, a + 1);
      RetryFromCounts(doc, action, selector, options, outcomes, a + 1);
      TallyStep(events, rest.events, WaitKind);
      TallyStep(events, rest.events, SleepKind);
      TallyStep(events, rest.events, SuccessKind);
      TallyStep(events, rest.events, LoadKind);
    }
  }

  /** A call that completes returns the successful action's value, and that action is the last thing it does. */
  lemma {:induction false} RetryFromEndsWithSuccess(doc: Document, action: Action, selector: string, options: RetryOptions, outcomes: seq<Outcome>, a: nat)
    requires options.retries.Some? && a < options.retries.value
    ensures var run := RetryFrom(doc, action, selector, options, outcomes, a);
      run.result.Normal? ==>
        && run.result.value == SuccessValue(doc, action, selector)
        && run.events != []
        && run.events[|run.events| - 1] == Acted(action, selector, true)
    decreases options.retries.value - a
  {
    var o := OutcomeAt(outcomes, a);
    var events := AttemptEvents(doc, action, selector, options.timeout, o);
    AttemptTallies(doc, action, selector, options.timeout, o);
    RetryFromUnfold(doc, action, selector, options, outcomes, a);
    var res := AttemptResult(doc, action, selector, options.timeout, o);
    if res.Abrupt? && a + 1 < options.retries.value {
      var rest := RetryFrom(doc, action, selector, options, outcomes, a + 1);
      RetryFromEndsWithSuccess(doc, action, selector, options, outcomes, a + 1);
      if rest.result.Normal? {
        var all := events + [Slept(RetryDelayMs)] + rest.events;
        assert all[|all| - 1] == rest.events[|rest.events| - 1];
      }
    }
  }

  /** A call with no attempt to make (retries absent, zero or negative) does nothing and returns `undefined`. */
  lemma RetryNeverRuns(doc: Document, action: Action, selector: string, options: RetryOptions, outcomes: seq<Outcome>)
    requires options.retries.None? || options.retries.value <= 0
    ensures RetryRun(doc, action, selector, options, outcomes) == Run([], Normal(None))
  {
  }

  /**
   * When attempts `a` to `k - 1` fail and attempt `k` succeeds, the call
   * returns the successful action's value after `k - a + 1` waits and `k - a` pauses.
   */
  lemma {:induction false} RetrySucceedsFrom(doc: Document, action: Action, selector: string, options: RetryOptions, outcomes: seq<Outcome>, a: nat, k: nat)
    requires options.retries.Some? && a <= k < options.retries.value
    requires forall j :: a <= j < k ==> AttemptFails(doc, action, selector, options, outcomes, j)
    requires !AttemptFails(doc, action, selector, options, outcomes, k)
    ensures var run := RetryFrom(doc, action, selector, options, outcomes, a);
      && run.result == Normal(SuccessValue(doc, action, selector))
      && Tally(run.events, WaitKind) == k - a + 1
      && Tally(run.events, SleepKind) == k - a
    decreases k - a
  {
    var o := OutcomeAt(outcomes, a);
    var events := AttemptEvents(doc, action, selector, options.timeout, o);
    AttemptTallies(doc, action, selector, options.timeout, o);
    RetryFromUnfold(doc, action, selector, options, outcomes, a);
    if a < k {
      assert AttemptFails(doc, action, selector, options, outcomes, a);
      RetrySucceedsFrom(doc, action, selector, options, outcomes, a + 1, k);
      var rest := RetryFrom(doc, action, selector, options, outcomes, a + 1);
      TallyStep(events, rest.events, WaitKind);
      TallyStep(events, rest.events, SleepKind);
    }
  }

  /**
   * If attempt `k` is the first to succeed, the call returns that attempt's
   * value (`innerText` verbatim for a read) after `k + 1` waits, `k` pauses and
   * exactly one successful action, which is the last thing it does.
   */
  lemma RetrySucceedsOnAttempt(doc: Document, action: Action, selector: string, options: RetryOptions, outcomes: seq<Outcome>, k: nat)
    requires options.retries.Some? && k < options.retries.value
    requires forall j :: 0 <= j < k ==> AttemptFails(doc, action, selector, options, outcomes, j)
    requires !AttemptFails(doc, action, selector, options, outcomes, k)
    ensures var run := RetryRun(doc, action, selector, options, outcomes);
      && run.result == Normal(SuccessValue(doc, action, selector))
      && Tally(run.events, WaitKind) == k + 1
      && Tally(run.events, SleepKind) == k
      && Tally(run.events, SuccessKind) == 1
      && run.events[|run.events| - 1] == Acted(action, selector, true)
  {
    RetrySucceedsFrom(doc, action, selector, options, outcomes, 0, k);
    RetryFromCounts(doc, action, selector, options, outcomes, 0);
    RetryFromEndsWithSuccess(doc, action, selector, options, outcomes, 0);
  }

  /**
   * When attempts `a` onwards all fail, the call throws the aggregated error
   * built from the last attempt's message, after `retries - a` waits.
   */
  lemma {:induction false} RetryExhaustsFrom(doc: Document, action: Action, selector: string, options: RetryOptions, outcomes: seq<Outcome>, a: nat)
    requires options.retries.Some? && a < options.retries.value
    requires forall j :: a <= j < options.retries.value ==> AttemptFails(doc, action, selector, options, outcomes, j)
    ensures var r := options.retries.value;
      var last := AttemptResult(doc, action, selector, options.timeout, OutcomeAt(outcomes, r - 1));
      && last.Abrupt?
      && RetryFrom(doc, action, selector, options, outcomes, a).result == Abrupt(ExhaustedMessage(action, selector, r, last.message))
    decreases options.retries.value - a
  {
    assert AttemptFails(doc, action, selector, options, outcomes, a);
    assert AttemptFails(doc, action, selector, options, outcomes, options.retries.value - 1);
    RetryFromUnfold(doc, action, selector, options, outcomes, a);
    if a + 1 < options.retries.value {
      RetryExhaustsFrom(doc, action, selector, options, outcomes, a + 1);
    }
  }

  /**
   * If every attempt fails, exactly `retries` attempts run with `retries - 1`
   * pauses between them, no action succeeds, and one error is thrown:
   * "Failed to <verb> element <selector> after <retries> attempts: <last message>".
   */
  lemma RetryExhausts(doc: Document, action: Action, selector: string, options: RetryOptions, outcomes: seq<Outcome>)
    requires options.retries.Some? && options.retries.value >= 1
    requires forall j :: 0 <= j < options.retries.value ==> AttemptFails(doc, action, selector, options, outcomes, j)
    ensures var r := options.retries.value;
      var run := RetryRun(doc, action, selector, options, outcomes);
      var last := AttemptResult(doc, action, selector, options.timeout, OutcomeAt(outcomes, r - 1));
      && last.Abrupt?
      && run.result == Abrupt(ExhaustedMessage(action, selector, r, last.message))
      && Tally(run.events, WaitKind) == r
      && Tally(run.events, SleepKind) == r - 1
      && Tally(run.events, SuccessKind) == 0
  {
    RetryExhaustsFrom(doc, action, selector, options, outcomes, 0);
    RetryFromCounts(doc, action, selector, options, outcomes, 0);
  }

  /**
   * A turn of the loop whose attempt succeeds returns that attempt's result;
   * what is left to do is the attempt and nothing more. The events are stated
   * after the log `pre` the page already holds, the form in which the retry
   * methods' loops use them.
   */
  lemma RetryStepReturns(doc: Document, action: Action, selector: string, options: RetryOptions, outcomes: seq<Outcome>, a: nat, pre: seq<Event>)
    requires options.retries.Some? && a < options.retries.value
    requires !AttemptFails(doc, action, selector, options, outcomes, a)
    ensures var run := RetryFrom(doc, action, selector, options, outcomes, a);
      && pre + run.events == pre + AttemptEvents(doc, action, selector, options.timeout, OutcomeAt(outcomes, a))
      && run.result == AttemptResult(doc, action, selector, options.timeout, OutcomeAt(outcomes, a))
  {
  }

  /**
   * A turn of the loop whose attempt fails with no attempt left does that
   * attempt and throws the aggregated error (events after a log `pre`, as above).
   */
  lemma RetryStepThrows(doc: Document, action: Action, selector: string, options: RetryOptions, outcomes: seq<Outcome>, a: nat, message: string, pre: seq<Event>)
    requires options.retries.Some? && a < options.retries.value <= a + 1
    requires AttemptResult(doc, action, selector, options.timeout, OutcomeAt(outcomes, a)) == Abrupt(message)
    ensures var run := RetryFrom(doc, action, selector, options, outcomes, a);
      && pre + run.events == pre + AttemptEvents(doc, action, selector, options.timeout, OutcomeAt(outcomes, a))
      && run.result == Abrupt(ExhaustedMessage(action, selector, options.retries.value, message))
  {
  }

  /**
   * A turn of the loop whose attempt fails with attempts left does that
   * attempt, pauses, and leaves the rest to the next turn (events after a log
   * `pre`, regrouped as the loop appends them).
   */
  lemma RetryStepContinues(doc: Document, action: Action, selector: string, options: RetryOptions, outcomes: seq<Outcome>, a: nat, pre: seq<Event>)
    requires options.retries.Some? && a + 1 < options.retries.value
    requires AttemptFails(doc, action, selector, options, outcomes, a)
    ensures var run := RetryFrom(doc, action, selector, options, outcomes, a);
      var rest := RetryFrom(doc, action, selector, options, outcomes, a + 1);
      && pre + run.events == pre + AttemptEvents(doc, action, selector, options.timeout, OutcomeAt(outcomes, a)) + [Slept(RetryDelayMs)] + rest.events
      && run.result == rest.result
  {
    var rest := RetryFrom(doc, action, selector, options, outcomes, a + 1);
    var events := AttemptEvents(doc, action, selector, options.timeout, OutcomeAt(outcomes, a));
    assert pre + (events + [Slept(RetryDelayMs)] + rest.events) == pre + events + [Slept(RetryDelayMs)] + rest.events;
  }

  /** Every pause in `events` lasts 1000 ms and is followed at once by a wait. */
  predicate PausesPrecedeWaits(events: seq<Event>) {
    forall i :: 0 <= i < |events| && events[i].Slept? ==>
      events[i] == Slept(RetryDelayMs) && i + 1 < |events| && events[i + 1].Waited?
  }

  /** A stretch without pauses, then a pause, then a log that starts with a wait keeps the property. */
  lemma PausesPrecedeWaitsJoin(head: seq<Event>, tail: seq<Event>)
    requires forall i :: 0 <= i < |head| ==> !head[i].Slept?
    requires tail != [] && tail[0].Waited? && PausesPrecedeWaits(tail)
    ensures PausesPrecedeWaits(head + [Slept(RetryDelayMs)] + tail)
  {
    var all := head + [Slept(RetryDelayMs)] + tail;
    forall i | 0 <= i < |all| && all[i].Slept?
      ensures all[i] == Slept(RetryDelayMs) && i + 1 < |all| && all[i + 1].Waited?
    {
      if i < |head| {
        assert false;
      } else if i == |head| {
        assert all[i + 1] == tail[0];
      } else {
        assert all[i] == tail[i - |head| - 1];
        assert i + 1 < |all| ==> all[i + 1] == tail[i - |head|];
      }
    }
  }

  /** A call with an attempt left starts with that attempt's wait. */
  lemma RetryFromStartsWithWait(doc: Document, action: Action, selector: string, options: RetryOptions, outcomes: seq<Outcome>, a: nat)
    requires options.retries.Some? && a < options.retries.value
    ensures var events := RetryFrom(doc, action, selector, options, outcomes, a).events;
      events != [] && events[0] == Waited(selector, Visible, options.timeout)
  {
    AttemptTallies(doc, action, selector, options.timeout, OutcomeAt(outcomes, a));
    RetryFromUnfold(doc, action, selector, options, outcomes, a);
  }

  /** Every pause of a call lasts 1000 ms and is followed at once by the wait of another attempt. */
  lemma {:induction false} RetrySleepsOnlyBeforeAnAttempt(doc: Document, action: Action, selector: string, options: RetryOptions, outcomes: seq<Outcome>, a: nat)
    ensures PausesPrecedeWaits(RetryFrom(doc, action, selector, options, outcomes, a).events)
    decreases if options.retries.Some? then options.retries.value - a else 0
  {
    if options.retries.Some? && a < options.retries.value {
      var o := OutcomeAt(outcomes, a);
      var events := AttemptEvents(doc, action, selector, options.timeout, o);
      AttemptTallies(doc, action, selector, options.timeout, o);
      RetryFromUnfold(doc, action, selector, options, outcomes, a);
      assert forall i :: 0 <= i < |events| ==> !events[i].Slept?;
      if AttemptResult(doc, action, selector, options.timeout, o).Abrupt? && a + 1 < options.retries.value {
        RetrySleepsOnlyBeforeAnAttempt(doc, action, selector, options, outcomes, a + 1);
        RetryFromStartsWithWait(doc, action, selector, options, outcomes, a + 1);
        PausesPrecedeWaitsJoin(events, RetryFrom(doc, action, selector, options, outcomes, a + 1).events);
      }
    }
  }

  /** An event a retry call may log: a wait for visibility with its own timeout or an action on its own selector, or a pause. */
  predicate OnTarget(e: Event, action: Action, selector: string, timeout: Option<int>) {
    || e == Waited(selector, Visible, timeout)
    || (e.Acted? && e.action == action && e.selector == selector)
    || e == Slept(RetryDelayMs)
  }

  /** One attempt logs only its own wait and its own action. */
  lemma AttemptOnTarget(doc: Document, action: Action, selector: string, timeout: Option<int>, o: Outcome)
    ensures forall e :: e in AttemptEvents(doc, action, selector, timeout, o) ==> OnTarget(e, action, selector, timeout)
  {
  }

  /** A retry call touches nothing but its own selector: no key press, no load wait, no other element. */
  lemma {:induction false} RetryStaysOnTarget(doc: Document, action: Action, selector: string, options: RetryOptions, outcomes: seq<Outcome>, a: nat)
    ensures forall e :: e in RetryFrom(doc, action, selector, options, outcomes, a).events ==> OnTarget(e, action, selector, options.timeout)
    decreases if options.retries.Some? then options.retries.value - a else 0
  {
    if options.retries.Some? && a < options.retries.value {
      var o := OutcomeAt(outcomes, a);
      var events := AttemptEvents(doc, action, selector, options.timeout, o);
      AttemptOnTarget(doc, action, selector, options.timeout, o);
      RetryFromUnfold(doc, action, selector, options, outcomes, a);
      if AttemptResult(doc, action, selector, options.timeout, o).Abrupt? && a + 1 < options.retries.value {
        var rest := RetryFrom(doc, action, selector, options, outcomes, a + 1).events;
        RetryStaysOnTarget(doc, action, selector, options, outcomes, a + 1);
        assert forall e :: e in events + [Slept(RetryDelayMs)] + rest ==> e in events || e == Slept(RetryDelayMs) || e in rest;
      }
    }
  }

  /** The accessor, bound to one page. */
  class ElementHelper {
    const page: BrowserPage

    constructor (page: BrowserPage)
      ensures this.page == page
    {
      this.page := page;
    }

    /**
     * `waitForElement(selector, options)`: waits for the merged state and
     * timeout and hands back the locator (the selector) when the wait passes.
     */
    method WaitForElement(selector: string, options: Option<WaitOptions>, o: Outcome) returns (r: Completion<string>)
      modifies page
      ensures var q := WaitRequestFor(options);
        && page.log == old(page.log) + [Waited(selector, q.state, q.timeout)]
        && (r.Normal? <==> WaitResult(page.doc, selector, q.state, q.timeout, o).Normal?)
        && (r.Normal? ==> r.value == selector)
        && (r.Abrupt? ==> r.message == WaitResult(page.doc, selector, q.state, q.timeout, o).message)
    {
      var q := WaitRequestFor(options);
      var w := page.WaitFor(selector, q.state, q.timeout, o);
      if w.Normal? {
        r := Normal(selector);
      } else {
        r := Abrupt(w.message);
      }
    }

    /** The `try` block of the retry loops: wait for the element to be visible, then act on it. */
    method Attempt(action: Action, selector: string, timeout: Option<int>, o: Outcome) returns (e: Completion<Option<string>>)
      modifies page
      ensures e == AttemptResult(page.doc, action, selector, timeout, o)
      ensures page.log == old(page.log) + AttemptEvents(page.doc, action, selector, timeout, o)
    {
      var element := WaitForElement(selector, Some(WaitOptions(None, timeout)), o);
      if element.Normal? {
        e := page.Perform(action, element.value, o);
      } else {
        e := Abrupt(element.message);
      }
    }

    /** `clickWithRetry(selector, options)` */
    method ClickWithRetry(selector: string, options: RetryOptions, outcomes: seq<Outcome>) returns (r: Completion<Option<string>>)
      modifies page
      ensures r == RetryRun(page.doc, Click, selector, options, outcomes).result
      ensures page.log == old(page.log) + RetryRun(page.doc, Click, selector, options, outcomes).events
    {
      var doc := page.doc;
      ghost var whole := RetryRun(doc, Click, selector, options, outcomes);
      var attempts: nat := 0;
      while options.retries.Some? && attempts < options.retries.value
        invariant old(page.log) + whole.events == page.log + RetryFrom(doc, Click, selector, options, outcomes, attempts).events
        invariant whole.result == RetryFrom(doc, Click, selector, options, outcomes, attempts).result
        decreases if options.retries.Some? then options.retries.value - attempts else 0
      {
        ghost var pre := page.log;
        var e := Attempt(Click, selector, options.timeout, OutcomeAt(outcomes, attempts));
        if e.Normal? {
          RetryStepReturns(doc, Click, selector, options, outcomes, attempts, pre);
          return Normal(None);
        }
        attempts := attempts + 1;
        if attempts >= options.retries.value {
          RetryStepThrows(doc, Click, selector, options, outcomes, attempts - 1, e.message, pre);
          return Abrupt(ExhaustedMessage(Click, selector, options.retries.value, e.message));
        }
        RetryStepContinues(doc, Click, selector, options, outcomes, attempts - 1, pre);
        page.Sleep(RetryDelayMs);
      }
      r := Normal(None);
    }

    /** `fillWithRetry(selector, value, options)` */
    method FillWithRetry(selector: string, value: string, options: RetryOptions, outcomes: seq<Outcome>) returns (r: Completion<Option<string>>)
      modifies page
      ensures r == RetryRun(page.doc, Fill(value), selector, options, outcomes).result
      ensures page.log == old(page.log) + RetryRun(page.doc, Fill(value), selector, options, outcomes).events
    {
      var doc := page.doc;
      ghost var whole := RetryRun(doc, Fill(value), selector, options, outcomes);
      var attempts: nat := 0;
      while options.retries.Some? && attempts < options.retries.value
        invariant old(page.log) + whole.events == page.log + RetryFrom(doc, Fill(value), selector, options, outcomes, attempts).events
        invariant whole.result == RetryFrom(doc, Fill(value), selector, options, outcomes, attempts).result
        decreases if options.retries.Some? then options.retries.value - attempts else 0
      {
        ghost var pre := page.log;
        var e := Attempt(Fill(value), selector, options.timeout, OutcomeAt(outcomes, attempts));
        if e.Normal? {
          RetryStepReturns(doc, Fill(value), selector, options, outcomes, attempts, pre);
          return Normal(None);
        }
        attempts := attempts + 1;
        if attempts >= options.retries.value {
          RetryStepThrows(doc, Fill(value), selector, options, outcomes, attempts - 1, e.message, pre);
          return Abrupt(ExhaustedMessage(Fill(value), selector, options.retries.value, e.message));
        }
        RetryStepContinues(doc, Fill(value), selector, options, outcomes, attempts - 1, pre);
        page.Sleep(RetryDelayMs);
      }
      r := Normal(None);
    }

    /** `exists(selector)`: one count query; absence is the answer `false`, not an error. */
    method Exists(selector: string) returns (b: bool)
      ensures b <==> page.doc.Locate(selector) != []
    {
      var count := page.doc.Count(selector);
      b := count > 0;
    }

    /** `getTextWithRetry(selector, options)` */
    method GetTextWithRetry(selector: string, options: RetryOptions, outcomes: seq<Outcome>) returns (r: Completion<Option<string>>)
      modifies page
      ensures r == RetryRun(page.doc, InnerText, selector, options, outcomes).result
      ensures page.log == old(page.log) + RetryRun(page.doc, InnerText, selector, options, outcomes).events
    {
      var doc := page.doc;
      ghost var whole := RetryRun(doc, InnerText, selector, options, outcomes);
      var attempts: nat := 0;
      while options.retries.Some? && attempts < options.retries.value
        invariant old(page.log) + whole.events == page.log + RetryFrom(doc, InnerText, selector, options, outcomes, attempts).events
        invariant whole.result == RetryFrom(doc, InnerText, selector, options, outcomes, attempts).result
        decreases if options.retries.Some? then options.retries.value - attempts else 0
      {
        ghost var pre := page.log;
        var e := Attempt(InnerText, selector, options.timeout, OutcomeAt(outcomes, attempts));
        if e.Normal? {
          RetryStepReturns(doc, InnerText, selector, options, outcomes, attempts, pre);
          return e;
        }
        attempts := attempts + 1;
        if attempts >= options.retries.value {
          RetryStepThrows(doc, InnerText, selector, options, outcomes, attempts - 1, e.message, pre);
          return Abrupt(ExhaustedMessage(InnerText, selector, options.retries.value, e.message));
        }
        RetryStepContinues(doc, InnerText, selector, options, outcomes, attempts - 1, pre);
        page.Sleep(RetryDelayMs);
      }
      r := Normal(None);
    }
  }
}
