/**
 * The configuration lookups of `utils/CrossBrowserHelper.js`: the context
 * options per browser, the per-browser selector table, and the per-browser
 * wait times. Browser names are matched after lower-casing; element names are
 * matched exactly.
 */
module CrossBrowserHelper {
  import opened Values
  import opened JsString

  datatype Viewport = Viewport(width: int, height: int)

  /** The two Firefox preferences the helper sets: `browser.cache.disk.enable` and `browser.cache.memory.enable`. */
  datatype FirefoxPrefs = FirefoxPrefs(diskCacheEnable: bool, memoryCacheEnable: bool)

  /** A browser configuration object; a property the object does not have is `None`. */
  datatype BrowserConfig = BrowserConfig(
    viewport: Viewport,
    ignoreHTTPSErrors: bool,
    acceptDownloads: bool,
    bypassCSP: bool,
    timeout: int,
    args: Option<seq<string>>,
    firefoxUserPrefs: Option<FirefoxPrefs>,
    hasTouch: Option<bool>,
    isMobile: Option<bool>,
    colorScheme: Option<string>)

  /** The configuration every browser starts from. */
  const BaseConfig: BrowserConfig :=
    BrowserConfig(Viewport(1280, 720), true, true, true, 60000, None, None, None, None, None)

  /** The launch arguments added for Chromium. */
  const ChromiumArgs: seq<string> := ["--disable-dev-shm-usage", "--no-sandbox"]

  /** The browser names the `switch` statements know, in lower case. */
  predicate IsKnownBrowser(lower: string) {
    lower == "chromium" || lower == "firefox" || lower == "webkit"
  }

  /** `getBrowserConfig(browserName)`: the base configuration, spread into a browser-specific object for a known browser. */
  function GetBrowserConfig(browserName: string): BrowserConfig {
    var name := ToLowerCase(browserName);
    if name == "chromium" then BaseConfig.(args := Some(ChromiumArgs))
    else if name == "firefox" then BaseConfig.(firefoxUserPrefs := Some(FirefoxPrefs(false, false)))
    else if name == "webkit" then BaseConfig.(hasTouch := Some(true), isMobile := Some(false), colorScheme := Some("light"))
    else BaseConfig
  }

  /** The base fields of a configuration are those of `BaseConfig`. */
  predicate KeepsBase(c: BrowserConfig) {
    && c.viewport == Viewport(1280, 720)
    && c.ignoreHTTPSErrors && c.acceptDownloads && c.bypassCSP
    && c.timeout == 60000
  }

  /** Every configuration carries the base fields unchanged, whatever the browser name. */
  lemma BrowserConfigKeepsBase(browserName: string)
    ensures KeepsBase(GetBrowserConfig(browserName))
  {
  }

  /**
   * A name that is none of the three browsers in any letter case gets exactly
   * the base configuration, and a known one never does.
   */
  lemma BrowserConfigDefault(browserName: string)
    ensures GetBrowserConfig(browserName) == BaseConfig <==> !IsKnownBrowser(ToLowerCase(browserName))
  {
  }

  /** What each known browser adds to the base, and that it adds nothing else. */
  lemma BrowserConfigExtras(browserName: string)
    ensures var c := GetBrowserConfig(browserName);
      var name := ToLowerCase(browserName);
      && (name == "chromium" ==> c == BaseConfig.(args := Some(["--disable-dev-shm-usage", "--no-sandbox"])))
      && (name == "firefox" ==>
            c.firefoxUserPrefs == Some(FirefoxPrefs(false, false))
            && c.args.None? && c.hasTouch.None? && c.isMobile.None? && c.colorScheme.None?)
      && (name == "webkit" ==>
            c.hasTouch == Some(true) && c.isMobile == Some(false) && c.colorScheme == Some("light")
            && c.args.None? && c.firefoxUserPrefs.None?)
  {
  }

  /** The browser name is matched regardless of letter case. */
  lemma BrowserConfigIgnoresCase(browserName: string)
    ensures GetBrowserConfig(browserName) == GetBrowserConfig(ToLowerCase(browserName))
  {
    ToLowerCaseIdempotent(browserName);
  }

  /** The selectors one element goes by in each browser. */
  datatype BrowserSelectors = BrowserSelectors(chromium: string, firefox: string, webkit: string)

  /**
   * A table entry: Chromium and Firefox share one selector list, and WebKit's
   * list is that list followed by `extra` (each WebKit literal of the table
   * is spelled out here as that concatenation; the strings are the same).
   */
  function Entry(shared: string, extra: string): BrowserSelectors {
    BrowserSelectors(shared, shared, shared + extra)
  }

  /** The entries of the selector table. */
  const UsernameSelectors: BrowserSelectors := Entry("#username-email", ", input[type=\"email\"], input[name=\"username\"]")
  const PasswordSelectors: BrowserSelectors := Entry("#password", ", input[type=\"password\"], input[name=\"password\"]")
  const LoginButtonSelectors: BrowserSelectors := Entry("button:has-text(\"Log in\")", ", button[type=\"submit\"]")
  const DashboardMenuSelectors: BrowserSelectors := Entry("nav, .sidebar, .menu", ", aside")
  const TableSelectors: BrowserSelectors := Entry("table", ", [role=\"table\"]")
  const ButtonSelectors: BrowserSelectors := Entry("button", ", [role=\"button\"]")
  const InputSelectors: BrowserSelectors := Entry("input", ", [role=\"textbox\"]")

  /** The selector table, keyed by element name. */
  const SelectorTable: map<string, BrowserSelectors> := map[
    "username" := UsernameSelectors,
    "password" := PasswordSelectors,
    "loginButton" := LoginButtonSelectors,
    "dashboardMenu" := DashboardMenuSelectors,
    "table" := TableSelectors,
    "button" := ButtonSelectors,
    "input" := InputSelectors
  ]

  /** `getBrowserSpecificSelectors(elementName)`: the table entry, or three empty selectors. */
  function GetBrowserSpecificSelectors(elementName: string): BrowserSelectors {
    if elementName in SelectorTable then SelectorTable[elementName] else BrowserSelectors("", "", "")
  }

  /** For every element the table knows, Chromium and Firefox agree and WebKit extends Chromium's selector list. */
  predicate WebkitExtendsChromium(s: BrowserSelectors) {
    && s.chromium != ""
    && s.chromium == s.firefox
    && |s.chromium| < |s.webkit|
    && s.webkit[..|s.chromium|] == s.chromium
  }

  /** Every known element has consistent selectors; any other name gets three empty selectors. */
  lemma SelectorTableShape(elementName: string)
    ensures elementName in SelectorTable ==> WebkitExtendsChromium(GetBrowserSpecificSelectors(elementName))
    ensures elementName !in SelectorTable ==> GetBrowserSpecificSelectors(elementName) == BrowserSelectors("", "", "")
  {
    var known := ["username", "password", "loginButton", "dashboardMenu", "table", "button", "input"];
    if elementName in SelectorTable {
      assert elementName in known;
    }
  }

  /** The element name is matched exactly: a differently cased name is unknown. */
  lemma SelectorLookupIsCaseSensitive()
    ensures GetBrowserSpecificSelectors("username").chromium == "#username-email"
    ensures GetBrowserSpecificSelectors("Username") == BrowserSelectors("", "", "")
  {
    assert "Username" !in SelectorTable by {
      assert "Username" != "username";
    }
  }

  /** Wait times in milliseconds. */
  datatype WaitTimes = WaitTimes(navigation: int, animation: int, action: int)

  const BaseWaitTimes: WaitTimes := WaitTimes(5000, 1000, 2000)
  const FirefoxWaitTimes: WaitTimes := WaitTimes(6000, 1500, 2500)
  const WebkitWaitTimes: WaitTimes := WaitTimes(8000, 2000, 3000)

  /** `getBrowserWaitTimes(browserName)`: longer waits for WebKit and Firefox, the base ones for anything else. */
  function GetBrowserWaitTimes(browserName: string): WaitTimes {
    var name := ToLowerCase(browserName);
    if name == "webkit" then WebkitWaitTimes
    else if name == "firefox" then FirefoxWaitTimes
    else BaseWaitTimes
  }

  /** Every wait of `a` is at least as long as the same wait of `b`. */
  predicate AtLeast(a: WaitTimes, b: WaitTimes) {
    a.navigation >= b.navigation && a.animation >= b.animation && a.action >= b.action
  }

  /**
   * WebKit waits at least as long as Firefox, which waits at least as long as
   * every other browser (Chromium included); every browser waits at least the
   * base times and at most WebKit's.
   */
  lemma WaitTimesOrdered(browserName: string)
    ensures AtLeast(WebkitWaitTimes, FirefoxWaitTimes) && AtLeast(FirefoxWaitTimes, BaseWaitTimes)
    ensures AtLeast(GetBrowserWaitTimes(browserName), BaseWaitTimes)
    ensures AtLeast(WebkitWaitTimes, GetBrowserWaitTimes(browserName))
    ensures GetBrowserWaitTimes("chromium") == BaseWaitTimes
  {
  }

  /** The browser name of the wait-time lookup is matched regardless of letter case. */
  lemma WaitTimesIgnoreCase(browserName: string)
    ensures GetBrowserWaitTimes(browserName) == GetBrowserWaitTimes(ToLowerCase(browserName))
  {
    ToLowerCaseIdempotent(browserName);
  }
}
