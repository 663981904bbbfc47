/** A simplified hostname extraction for `http:` and `https:` URLs, following the shape of the
    basic URL parser of the WHATWG URL Standard, section 4.4: after the scheme, any run of
    '/' or '\' is skipped; the authority runs to the first '/', '?', '#' or '\'; credentials
    end at its last '@'; a ':' starts the port, which must be decimal and at most 65535; the
    host must be non-empty and free of forbidden domain code points; ASCII letters are
    lower-cased. Percent-decoding, IDNA, IPv4 and IPv6 host parsing are not modelled. */
module UrlHost {
  import opened Wrappers
  import opened Text

  const MaxPort: nat := 65535

  predicate IsSlash(c: char) {
    c == '/' || c == '\\'
  }

  predicate IsAuthorityEnd(c: char) {
    c == '/' || c == '?' || c == '#' || c == '\\'
  }

  /** The forbidden domain code points: C0 controls, space, DELETE and the listed symbols. */
  predicate IsForbiddenDomainChar(c: char) {
    || c <= '\U{001F}' || c == ' ' || c == '#' || c == '/' || c == ':' || c == '<' || c == '>'
    || c == '?' || c == '@' || c == '[' || c == '\\' || c == ']' || c == '^' || c == '|'
    || c == '%' || c == '\U{007F}'
  }

  /** The leading run of `s` up to (not including) the first character satisfying `stop`. */
  function TakeUntil(s: string, stop: char -> bool): (r: string)
    ensures |r| <= |s| && r == s[..|r|]
    ensures forall i | 0 <= i < |r| :: !stop(r[i])
    ensures |r| < |s| ==> stop(s[|r|])
  {
    if s == [] || stop(s[0]) then [] else [s[0]] + TakeUntil(s[1..], stop)
  }

  /** The part of `s` after its last '@' (all of `s` when there is none). */
  function AfterLastAt(s: string): (r: string)
    ensures |r| <= |s| && r == s[|s| - |r|..]
    ensures forall i | 0 <= i < |r| :: r[i] != '@'
    ensures |r| < |s| ==> s[|s| - |r| - 1] == '@'
  {
    if s == [] || s[|s| - 1] == '@' then [] else AfterLastAt(s[..|s| - 1]) + [s[|s| - 1]]
  }

  predicate IsColon(c: char) {
    c == ':'
  }

  /** A port part is empty, or ':' followed by decimal digits denoting at most 65535. */
  predicate PortOk(port: string) {
    port == [] || (AllDigits(port[1..]) && (|port| == 1 || DecimalValue(port[1..]) <= MaxPort))
  }

  predicate HasForbidden(host: string) {
    exists i | 0 <= i < |host| :: IsForbiddenDomainChar(host[i])
  }

  /** The host-and-port part of the authority: credentials up to the last '@' dropped. */
  function HostPort(rest: string): (hp: string)
    ensures |hp| <= |rest|
  {
    AfterLastAt(TakeUntil(rest, IsAuthorityEnd))
  }

  /** Lower-casing ASCII letters introduces no forbidden code point. */
  lemma LowerKeepsAllowed(host: string)
    requires !HasForbidden(host)
    ensures !HasForbidden(AsciiLowerString(host))
  {
    var lower := AsciiLowerString(host);
    forall i | 0 <= i < |lower| ensures !IsForbiddenDomainChar(lower[i]) {
      assert lower[i] == AsciiLower(host[i]);
    }
  }

  /** Host of an authority-and-rest string, or None where the parser fails. */
  function HostOf(rest: string): (h: Option<string>)
    ensures h.Some? ==> |h.value| >= 1 && |rest| >= 1
    ensures h.Some? ==> !HasForbidden(h.value)
  {
    var hostPort := HostPort(rest);
    var host := TakeUntil(hostPort, IsColon);
    if host == [] || !PortOk(hostPort[|host|..]) || HasForbidden(host) then None
    else
      LowerKeepsAllowed(host);
      Some(AsciiLowerString(host))
  }

  /** The length of a recognised scheme with its ':', "https:" or "http:"; 0 for any other. */
  function SchemeLength(url: string): (n: nat)
    ensures n == 0 || n == 5 || n == 6
    ensures n <= |url|
    ensures n == 6 <==> StartsWith(url, "https:")
    ensures n == 5 ==> StartsWith(url, "http:")
  {
    if StartsWith(url, "https:") then 6 else if StartsWith(url, "http:") then 5 else 0
  }

  /** The first index at or after `i` that does not hold '/' or '\'. */
  function SkipSlashesFrom(url: string, i: nat): (k: nat)
    requires i <= |url|
    ensures i <= k <= |url|
    ensures forall j | i <= j < k :: IsSlash(url[j])
    ensures k == |url| || !IsSlash(url[k])
    decreases |url| - i
  {
    if i < |url| && IsSlash(url[i]) then SkipSlashesFrom(url, i + 1) else i
  }

  /** Where the authority starts: past the scheme and any run of slashes after it. */
  function HostStart(url: string): (k: nat)
    ensures SchemeLength(url) <= k <= |url|
  {
    SkipSlashesFrom(url, SchemeLength(url))
  }

  /** `new URL(url).hostname`, or None where the constructor throws. */
  function Hostname(url: string): (h: Option<string>)
    ensures h.Some? ==> SchemeLength(url) > 0 && HostStart(url) < |url|
    ensures h.Some? ==> |h.value| >= 1
    ensures h.Some? ==> !HasForbidden(h.value)
  {
    if SchemeLength(url) == 0 then None else HostOf(url[HostStart(url)..])
  }

  /** A URL that starts with `scheme` and two slashes has that scheme's length. */
  lemma SchemeOfPrefix(url: string, scheme: string)
    requires scheme == "https:" || scheme == "http:"
    requires StartsWith(url, scheme + "//")
    ensures |url| >= |scheme| + 2 && SchemeLength(url) == |scheme|
    ensures IsSlash(url[|scheme|]) && IsSlash(url[|scheme| + 1])
  {
    var n := |scheme|;
    var p := url[..n + 2];
    assert p == scheme + "//";
    assert url[n] == p[n] && url[n + 1] == p[n + 1];
    assert url[..n] == p[..n] == scheme;
    if scheme == "http:" {
      assert url[4] == ':';
    }
  }

  /** The host starts after every slash that follows the scheme. */
  lemma HostAfterSlashes(url: string, n: nat)
    requires n + 2 <= |url| && SchemeLength(url) == n
    requires IsSlash(url[n]) && IsSlash(url[n + 1])
    requires HostStart(url) < |url|
    ensures |url| > n + 2
  {
    var k := HostStart(url);
    assert k != n && k != n + 1;
  }

  /** A URL whose hostname parses has a host character after its "scheme://" prefix. */
  lemma HostnameNeedsHost(url: string, scheme: string)
    requires scheme == "https:" || scheme == "http:"
    requires StartsWith(url, scheme + "//") && Hostname(url).Some?
    ensures |url| > |scheme| + 2
  {
    SchemeOfPrefix(url, scheme);
    HostAfterSlashes(url, |scheme|);
  }

  /* ---------- a reference case ---------- */

  /** The characters of a plain lower-case domain name. */
  predicate IsDomainChar(c: char) {
    ('a' <= c <= 'z') || ('0' <= c <= '9') || c == '.' || c == '-'
  }

  predicate IsPlainDomain(d: string) {
    |d| >= 1 && forall i | 0 <= i < |d| :: IsDomainChar(d[i])
  }

  lemma {:induction false} TakeUntilWhole(s: string, stop: char -> bool)
    requires forall i | 0 <= i < |s| :: !stop(s[i])
    ensures TakeUntil(s, stop) == s
    decreases |s|
  {
    if s != [] {
      assert forall i | 0 <= i < |s[1..]| :: !stop(s[1..][i]) by {
        forall i | 0 <= i < |s[1..]| ensures !stop(s[1..][i]) { assert s[1..][i] == s[i + 1]; }
      }
      TakeUntilWhole(s[1..], stop);
      assert [s[0]] + s[1..] == s;
    }
  }

  lemma {:induction false} TakeUntilStops(a: string, b: string, stop: char -> bool)
    requires forall i | 0 <= i < |a| :: !stop(a[i])
    requires b == [] || stop(b[0])
    ensures TakeUntil(a + b, stop) == a
    decreases |a|
  {
    if a == [] {
      assert a + b == b;
    } else {
      assert (a + b)[0] == a[0];
      assert (a + b)[1..] == a[1..] + b;
      assert forall i | 0 <= i < |a[1..]| :: !stop(a[1..][i]) by {
        forall i | 0 <= i < |a[1..]| ensures !stop(a[1..][i]) { assert a[1..][i] == a[i + 1]; }
      }
      TakeUntilStops(a[1..], b, stop);
      assert [a[0]] + a[1..] == a;
    }
  }

  lemma {:induction false} AfterLastAtNone(s: string)
    requires forall i | 0 <= i < |s| :: s[i] != '@'
    ensures AfterLastAt(s) == s
    decreases |s|
  {
    if s != [] {
      AfterLastAtNone(s[..|s| - 1]);
      assert s[..|s| - 1] + [s[|s| - 1]] == s;
    }
  }

  lemma {:induction false} LowerOfLower(s: string)
    requires forall i | 0 <= i < |s| :: IsDomainChar(s[i])
    ensures AsciiLowerString(s) == s
  {
    var r := AsciiLowerString(s);
    assert forall i | 0 <= i < |s| :: r[i] == s[i];
  }

  /** The host of a plain domain followed by an authority terminator (or nothing) is
      that domain. */
  lemma HostOfPlain(d: string, tail: string)
    requires IsPlainDomain(d)
    requires tail == [] || tail[0] == '/' || tail[0] == '?' || tail[0] == '#'
    ensures HostOf(d + tail) == Some(d)
  {
    assert forall i | 0 <= i < |d| ::
             (!IsAuthorityEnd(d[i]) && d[i] != '@' && !IsColon(d[i]) && !IsForbiddenDomainChar(d[i])) by {
      forall i | 0 <= i < |d| ensures !IsAuthorityEnd(d[i]) && d[i] != '@' && !IsColon(d[i])
        && !IsForbiddenDomainChar(d[i]) {
        assert IsDomainChar(d[i]);
      }
    }
    TakeUntilStops(d, tail, IsAuthorityEnd);
    AfterLastAtNone(d);
    TakeUntilWhole(d, IsColon);
    assert d[|d|..] == [];
    assert PortOk([]);
    assert !HasForbidden(d);
    LowerOfLower(d);
  }

  /** A run of slashes ending at `j` is skipped exactly up to `j`. */
  lemma {:induction false} SkipSlashesUpTo(url: string, i: nat, j: nat)
    requires i <= j <= |url|
    requires forall k | i <= k < j :: IsSlash(url[k])
    requires j == |url| || !IsSlash(url[j])
    ensures SkipSlashesFrom(url, i) == j
    decreases j - i
  {
    if i < j {
      SkipSlashesUpTo(url, i + 1, j);
    }
  }

  /** A plain domain followed by an empty or '/'-, '?'- or '#'-led remainder has that domain
      as its hostname, under either scheme and with any number of slashes. */
  lemma PlainHostname(url: string, scheme: string, slashes: string, d: string, tail: string)
    requires scheme == "https:" || scheme == "http:"
    requires forall i | 0 <= i < |slashes| :: slashes[i] == '/'
    requires IsPlainDomain(d)
    requires tail == [] || tail[0] == '/' || tail[0] == '?' || tail[0] == '#'
    requires url == scheme + slashes + d + tail
    ensures Hostname(url) == Some(d)
  {
    var n := |scheme|;
    var m := n + |slashes|;
    assert url[..n] == scheme;
    if scheme == "http:" {
      assert url[4] == ':';
      assert !StartsWith(url, "https:");
    }
    assert SchemeLength(url) == n;
    assert forall k | n <= k < m :: IsSlash(url[k]) by {
      forall k | n <= k < m ensures IsSlash(url[k]) {
        assert url[k] == slashes[k - n];
      }
    }
    assert url[m] == d[0] && IsDomainChar(d[0]);
    SkipSlashesUpTo(url, n, m);
    assert url[m..] == d + tail;
    HostOfPlain(d, tail);
  }
}
