/** Start-up validation of the backend credentials: both environment values are trimmed and
    must be non-empty; the URL gets "https://" when it names no scheme, its hostname must
    contain "supabase.co", and one trailing '/' is removed. Reading the environment and
    constructing the client are outside the model: the two values are parameters. */
module SupabaseConfig {
  import opened Wrappers
  import opened Text
  import UrlHost

  const HttpPrefix: string := "http://"
  const HttpsPrefix: string := "https://"
  const RequiredHost: string := "supabase.co"

  datatype Config = Config(url: string, anonKey: string)

  /** Why initialisation throws. `MissingCredentials` records which value was usable. */
  datatype ConfigError =
    | MissingCredentials(urlPresent: bool, keyPresent: bool)
    | InvalidUrl(raw: string)

  /** `value?.trim()` for an environment value that may be unset. */
  function TrimEnv(v: Option<string>): Option<string> {
    match v
    case Some(s) => Some(Trim(s))
    case None => None
  }

  /** JavaScript truthiness of an optional string: set and non-empty. */
  predicate Truthy(v: Option<string>) {
    v.Some? && v.value != ""
  }

  predicate HasScheme(u: string) {
    StartsWith(u, HttpPrefix) || StartsWith(u, HttpsPrefix)
  }

  /** Prefixes "https://" unless the URL already starts with "http://" or "https://". */
  function WithScheme(u: string): (r: string)
    ensures HasScheme(r)
    ensures HasScheme(u) ==> r == u
    ensures !HasScheme(u) ==> r == HttpsPrefix + u
  {
    if HasScheme(u) then u
    else
      assert (HttpsPrefix + u)[..|HttpsPrefix|] == HttpsPrefix;
      HttpsPrefix + u
  }

  /** `u.replace(/\/$/, '')`: removes one final '/', if there is one. */
  function StripTrailingSlash(u: string): (r: string)
    ensures EndsWith(u, "/") ==> r + "/" == u
    ensures !EndsWith(u, "/") ==> r == u
  {
    if |u| > 0 && u[|u| - 1] == '/' then
      assert u[..|u| - 1] + "/" == u;
      u[..|u| - 1]
    else u
  }

  /** The hostname check: the URL parses and its hostname contains "supabase.co" anywhere. */
  predicate HostAccepted(u: string) {
    var h := UrlHost.Hostname(u);
    h.Some? && Contains(h.value, RequiredHost)
  }

  /** The module-level initialisation of the backend client's URL and key. */
  function Initialise(rawUrl: Option<string>, rawKey: Option<string>): (r: Result<Config, ConfigError>)
    ensures (r.Failure? && r.error.MissingCredentials?)
              <==> !Truthy(TrimEnv(rawUrl)) || !Truthy(TrimEnv(rawKey))
    ensures r.Failure? && r.error.MissingCredentials? ==>
              r.error.urlPresent == Truthy(TrimEnv(rawUrl)) && r.error.keyPresent == Truthy(TrimEnv(rawKey))
    ensures (r.Failure? && r.error.InvalidUrl?)
              <==> Truthy(TrimEnv(rawUrl)) && Truthy(TrimEnv(rawKey))
                   && !HostAccepted(WithScheme(Trim(rawUrl.value)))
    ensures r.Failure? && r.error.InvalidUrl? ==> r.error.raw == Trim(rawUrl.value)
    ensures r.Success? ==> HasScheme(r.value.url)
    ensures r.Success? ==> r.value.anonKey == Trim(rawKey.value) && r.value.anonKey != ""
    ensures r.Success? ==> HostAccepted(WithScheme(Trim(rawUrl.value)))
    // the final URL is the prefixed one with its trailing '/', if any, removed
    ensures r.Success? ==> r.value.url == StripTrailingSlash(WithScheme(Trim(rawUrl.value)))
  {
    var url := TrimEnv(rawUrl);
    var key := TrimEnv(rawKey);
    if !Truthy(url) || !Truthy(key) then
      Failure(MissingCredentials(Truthy(url), Truthy(key)))
    else
      var withScheme := WithScheme(url.value);
      if !HostAccepted(withScheme) then Failure(InvalidUrl(url.value))
      else
        var final := StripTrailingSlash(withScheme);
        StrippedKeepsScheme(withScheme);
        Success(Config(final, key.value))
  }

  /** Removing one trailing '/' from an accepted URL cannot eat into its scheme prefix. */
  lemma StrippedKeepsScheme(w: string)
    requires HasScheme(w) && HostAccepted(w)
    ensures HasScheme(StripTrailingSlash(w))
  {
    var r := StripTrailingSlash(w);
    if StartsWith(w, HttpsPrefix) {
      assert HttpsPrefix == "https:" + "//";
      UrlHost.HostnameNeedsHost(w, "https:");
      assert r[..|HttpsPrefix|] == w[..|HttpsPrefix|];
    } else {
      assert HttpPrefix == "http:" + "//";
      UrlHost.HostnameNeedsHost(w, "http:");
      assert r[..|HttpPrefix|] == w[..|HttpPrefix|];
    }
  }

  const MissingCredentialsHeader: string :=
    "Missing Supabase credentials. Please check your environment variables:\n"
  const InvalidUrlHeader: string := "Invalid Supabase URL format: "
  const InvalidUrlHint: string :=
    "\nURL must be a valid Supabase URL (e.g., https://your-project.supabase.co)"

  function Mark(present: bool): string {
    if present then "\U{2713}" else "\U{2717}"
  }

  /** The line reporting whether the URL was present. */
  function UrlLine(present: bool): string {
    "VITE_SUPABASE_URL: " + Mark(present) + "\n"
  }

  /** The line reporting whether the key was present. */
  function KeyLine(present: bool): string {
    "VITE_SUPABASE_ANON_KEY: " + Mark(present)
  }

  /** The message of the error thrown for `e`. */
  function ErrorMessage(e: ConfigError): (m: string)
    ensures e.MissingCredentials? ==> StartsWith(m, MissingCredentialsHeader)
    // after the header, one line per variable with its check or cross mark
    ensures e.MissingCredentials? ==>
              |m| == |MissingCredentialsHeader| + |UrlLine(e.urlPresent)| + |KeyLine(e.keyPresent)|
    ensures e.MissingCredentials? ==>
              m[|MissingCredentialsHeader|..|MissingCredentialsHeader| + |UrlLine(e.urlPresent)|]
                == UrlLine(e.urlPresent)
    ensures e.MissingCredentials? ==> EndsWith(m, KeyLine(e.keyPresent))
    ensures e.InvalidUrl? ==> StartsWith(m, InvalidUrlHeader) && EndsWith(m, InvalidUrlHint)
    ensures e.InvalidUrl? ==> |m| == |InvalidUrlHeader| + |e.raw| + |InvalidUrlHint|
    ensures e.InvalidUrl? ==> m[|InvalidUrlHeader|..|m| - |InvalidUrlHint|] == e.raw
  {
    match e
    case MissingCredentials(u, k) =>
      var m := MissingCredentialsHeader + UrlLine(u) + KeyLine(k);
      var n := |MissingCredentialsHeader|;
      assert m[..n] == MissingCredentialsHeader;
      assert m[n..n + |UrlLine(u)|] == UrlLine(u);
      assert m[|m| - |KeyLine(k)|..] == KeyLine(k);
      m
    case InvalidUrl(raw) =>
      var m := InvalidUrlHeader + raw + InvalidUrlHint;
      assert m[..|InvalidUrlHeader|] == InvalidUrlHeader;
      assert m[|m| - |InvalidUrlHint|..] == InvalidUrlHint;
      m
  }

  /** The missing-credentials message tells which variables were present: equal messages
      report the same presence for both. */
  lemma MissingMessageShowsPresence(u1: bool, k1: bool, u2: bool, k2: bool)
    ensures ErrorMessage(MissingCredentials(u1, k1)) == ErrorMessage(MissingCredentials(u2, k2))
            <==> u1 == u2 && k1 == k2
  {
    var m1 := ErrorMessage(MissingCredentials(u1, k1));
    var m2 := ErrorMessage(MissingCredentials(u2, k2));
    if m1 == m2 {
      var n := |MissingCredentialsHeader|;
      assert |UrlLine(u1)| == |UrlLine(u2)|;
      assert UrlLine(u1)[19] == Mark(u1)[0] && UrlLine(u2)[19] == Mark(u2)[0];
      assert UrlLine(u1) == m1[n..n + |UrlLine(u1)|] == UrlLine(u2);
      assert |KeyLine(k1)| == |KeyLine(k2)|;
      assert KeyLine(k1)[24] == Mark(k1)[0] && KeyLine(k2)[24] == Mark(k2)[0];
      assert KeyLine(k1) == m1[|m1| - |KeyLine(k1)|..] == KeyLine(k2);
    }
  }

  /* ---------- reference cases ---------- */

  /** A plain domain names no scheme, so it gets "https://". */
  lemma PlainDomainGetsHttps(d: string)
    requires UrlHost.IsPlainDomain(d)
    ensures WithScheme(d) == HttpsPrefix + d
  {
    if |d| >= 5 {
      assert UrlHost.IsDomainChar(d[4]);
    }
    if |d| >= 6 {
      assert UrlHost.IsDomainChar(d[5]);
    }
  }

  /** Under "https://" a plain domain is its own hostname. */
  lemma HttpsPlainHostname(d: string)
    requires UrlHost.IsPlainDomain(d)
    ensures UrlHost.Hostname(HttpsPrefix + d) == Some(d)
  {
    var w := HttpsPrefix + d;
    assert w == "https:" + "//" + d + "";
    UrlHost.PlainHostname(w, "https:", "//", d, "");
  }

  lemma PlainDomainAccepted(d: string)
    requires UrlHost.IsPlainDomain(d) && Contains(d, RequiredHost)
    ensures HostAccepted(HttpsPrefix + d)
  {
    HttpsPlainHostname(d);
  }

  /** A plain domain under "https://" has no trailing '/' to strip. */
  lemma PlainDomainUnstripped(d: string)
    requires UrlHost.IsPlainDomain(d)
    ensures StripTrailingSlash(HttpsPrefix + d) == HttpsPrefix + d
  {
    var w := HttpsPrefix + d;
    assert w[|w| - 1] == d[|d| - 1];
    assert UrlHost.IsDomainChar(d[|d| - 1]);
  }

  /** A bare project domain (any plain lower-case domain containing "supabase.co") with a
      usable key initialises to that domain under "https://". */
  lemma BareDomainAccepted(d: string, key: string)
    requires UrlHost.IsPlainDomain(d) && Contains(d, RequiredHost)
    requires key != [] && !IsTrimmable(key[0]) && !IsTrimmable(key[|key| - 1])
    ensures Initialise(Some(d), Some(key)) == Success(Config(HttpsPrefix + d, key))
  {
    assert UrlHost.IsDomainChar(d[0]) && UrlHost.IsDomainChar(d[|d| - 1]);
    TrimNoop(d);
    TrimNoop(key);
    PlainDomainGetsHttps(d);
    PlainDomainAccepted(d);
    PlainDomainUnstripped(d);
  }

  /** The hostname test looks for "supabase.co" anywhere: a domain that merely starts with it
      and belongs to some other registrant is accepted. */
  lemma SubstringNotSuffix()
    ensures Initialise(Some("supabase.co.example.net"), Some("k")).Success?
  {
    var d := "supabase.co.example.net";
    assert UrlHost.IsPlainDomain(d);
    ContainsAt(d, RequiredHost, 0);
    BareDomainAccepted(d, "k");
  }

  /** Unset or blank values are reported as missing, whatever the other value is. */
  lemma BlankIsMissing(url: Option<string>, key: Option<string>)
    requires url.None? || Trim(url.value) == []
    ensures Initialise(url, key) == Failure(MissingCredentials(false, Truthy(TrimEnv(key))))
  {
  }
}
