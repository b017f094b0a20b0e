/** The environment configuration of `utils/TestConfig.js`: base URLs per environment, timeouts, screenshot settings. */
module TestConfig {
  import opened Values

  /** The scheme and the domain every environment is served under. */
  const Scheme: string := "https://"
  const Domain: string := "app.payrollstandard.org"

  /** `https://dev.app.payrollstandard.org`, `https://staging.app.payrollstandard.org` and `https://app.payrollstandard.org`. */
  const DevUrl: string := Scheme + "dev." + Domain
  const StagingUrl: string := Scheme + "staging." + Domain
  const ProdUrl: string := Scheme + Domain

  /** The URL table, keyed by environment name. */
  const BaseUrls: map<string, string> := map["dev" := DevUrl, "staging" := StagingUrl, "prod" := ProdUrl]

  /** `getBaseUrl(env = 'dev')`: the URL of a known environment, and the dev URL for any other. */
  function GetBaseUrl(env: Option<string>): string {
    var name := env.GetOr("dev");
    if name in BaseUrls then BaseUrls[name] else BaseUrls["dev"]
  }

  /**
   * The three environments get their own URLs, an omitted environment is
   * `'dev'`, and any other name -- a differently cased one included -- falls
   * back to the dev URL.
   */
  lemma BaseUrlLookup(env: Option<string>)
    ensures GetBaseUrl(Some("dev")) == DevUrl
    ensures GetBaseUrl(Some("staging")) == StagingUrl
    ensures GetBaseUrl(Some("prod")) == ProdUrl
    ensures GetBaseUrl(None) == DevUrl
    ensures GetBaseUrl(Some("PROD")) == DevUrl
    ensures env.Some? && env.value !in {"dev", "staging", "prod"} ==> GetBaseUrl(env) == DevUrl
  {
    assert "PROD" !in BaseUrls by {
      assert "PROD" != "prod";
    }
  }

  /** Only the name `'prod'` reaches the production URL, and only `'staging'` the staging one. */
  lemma BaseUrlExactMatch(env: Option<string>)
    ensures GetBaseUrl(env) == ProdUrl <==> env == Some("prod")
    ensures GetBaseUrl(env) == StagingUrl <==> env == Some("staging")
  {
    assert |DevUrl| != |ProdUrl| && |DevUrl| != |StagingUrl| && |StagingUrl| != |ProdUrl|;
  }

  /** `s` starts with `prefix` and ends with `suffix`. */
  predicate Framed(s: string, prefix: string, suffix: string) {
    |prefix| <= |s| && |suffix| <= |s| && s[..|prefix|] == prefix && s[|s| - |suffix|..] == suffix
  }

  /** Every URL the lookup returns is an `https://` URL under the suite's domain. */
  lemma BaseUrlIsSecure(env: Option<string>)
    ensures Framed(GetBaseUrl(env), Scheme, Domain)
  {
    assert (Scheme + "dev." + Domain)[..|Scheme|] == Scheme;
    assert (Scheme + "staging." + Domain)[..|Scheme|] == Scheme;
  }

  /** Timeouts in milliseconds. */
  datatype Timeouts = Timeouts(navigation: int, element: int, animation: int)

  /** `getTimeouts()` */
  function GetTimeouts(): (t: Timeouts)
    ensures t.navigation > t.element > t.animation > 0
  {
    Timeouts(30000, 5000, 1000)
  }

  datatype ScreenshotConfig = ScreenshotConfig(path: string, takeOnFailure: bool)

  /** `getScreenshotConfig()` */
  function GetScreenshotConfig(): (c: ScreenshotConfig)
    ensures c.takeOnFailure
  {
    ScreenshotConfig("./reports/screenshots", true)
  }
}
