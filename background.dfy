/**
 * The background worker's guard (src/background.ts): the content script is
 * injected into a tab when its update is complete and its URL matches
 * `^https:\/\/(www\.)?amazon\.[a-z.]+`.
 */
module Background {
  import opened Wrappers

  predicate StartsWith(s: string, prefix: string) {
    |prefix| <= |s| && forall i :: 0 <= i < |prefix| ==> s[i] == prefix[i]
  }

  predicate IsLowerOrDot(c: char) {
    'a' <= c <= 'z' || c == '.'
  }

  /** `amazon\.[a-z.]+` at the start of `t`; one character of the class is enough for a match. */
  predicate AmazonHost(t: string) {
    StartsWith(t, "amazon.") && |t| > 7 && IsLowerOrDot(t[7])
  }

  /** `url.match(/^https:\/\/(www\.)?amazon\.[a-z.]+/)` is not null. */
  predicate MatchesAmazonUrl(url: string) {
    StartsWith(url, "https://") &&
    var host := url[8..];
    (StartsWith(host, "www.") && AmazonHost(host[4..])) || AmazonHost(host)
  }

  predicate AllLowerOrDot(s: string) {
    forall i :: 0 <= i < |s| ==> IsLowerOrDot(s[i])
  }

  /**
   * The language of the regular expression, as whole strings: `https://`, then
   * optionally `www.`, then `amazon.`, then one or more of `[a-z.]`.
   */
  ghost predicate InRegexLanguage(p: string) {
    StartsWith(p, "https://") &&
    var h := p[8..];
    || (|h| > 7 && StartsWith(h, "amazon.") && AllLowerOrDot(h[7..]))
    || (|h| > 11 && StartsWith(h, "www.") && StartsWith(h[4..], "amazon.") && AllLowerOrDot(h[11..]))
  }

  /** An unanchored-at-the-end match: some prefix of the URL is in the language. */
  ghost predicate RegexFinds(url: string) {
    exists k :: 0 <= k <= |url| && InRegexLanguage(url[..k])
  }

  lemma MatchesImpliesRegexFinds(url: string)
    requires MatchesAmazonUrl(url)
    ensures RegexFinds(url)
  {
    var host := url[8..];
    if StartsWith(host, "www.") && AmazonHost(host[4..]) {
      var p := url[..20];
      assert p[8..] == host[..12];
      assert p[8..][4..] == host[4..][..8];
      assert InRegexLanguage(p);
    } else {
      var p := url[..16];
      assert p[8..] == host[..8];
      assert InRegexLanguage(p);
    }
  }

  lemma RegexFindsImpliesMatches(url: string)
    requires RegexFinds(url)
    ensures MatchesAmazonUrl(url)
  {
    var k :| 0 <= k <= |url| && InRegexLanguage(url[..k]);
    var p := url[..k];
    var host := url[8..];
    var h := p[8..];
    assert h == host[..k - 8];
    if |h| > 7 && StartsWith(h, "amazon.") && AllLowerOrDot(h[7..]) {
      assert h[7..][0] == host[7];
    } else {
      assert h[4..] == host[4..][..k - 12];
      assert h[11..][0] == host[4..][7];
    }
  }

  /** The guard agrees with the regular expression's own reading, in both directions. */
  lemma MatchesIffRegexFinds(url: string)
    ensures MatchesAmazonUrl(url) <==> RegexFinds(url)
  {
    if MatchesAmazonUrl(url) {
      MatchesImpliesRegexFinds(url);
    }
    if RegexFinds(url) {
      RegexFindsImpliesMatches(url);
    }
  }

  /** The `onUpdated` guard: `changeInfo.status === "complete" && tab.url?.match(...)`. */
  function ShouldInject(status: Option<string>, url: Option<string>): (inject: bool)
    ensures inject <==> status == Some("complete") && url.Some? && RegexFinds(url.value)
  {
    status == Some("complete") && url.Some? && (MatchesIffRegexFinds(url.value); MatchesAmazonUrl(url.value))
  }

  /** Only a prefix is checked: whatever follows a matching URL is accepted. */
  lemma AnySuffix(url: string, suffix: string)
    requires MatchesAmazonUrl(url)
    ensures MatchesAmazonUrl(url + suffix)
  {
    var host, host' := url[8..], (url + suffix)[8..];
    assert host' == host + suffix;
    if StartsWith(host, "www.") && AmazonHost(host[4..]) {
      assert host'[4..] == host[4..] + suffix;
    }
  }

  /** Plain `http://` never matches: the scheme must be exactly `https://`. */
  lemma HttpNeverMatches(url: string)
    requires StartsWith(url, "http://")
    ensures !MatchesAmazonUrl(url)
  {
    assert url[4] == ':';
  }

  /** After the scheme, only `www.amazon.` or `amazon.` can follow (no other subdomain). */
  lemma OnlyWwwSubdomain(url: string)
    requires StartsWith(url, "https://")
    requires !StartsWith(url[8..], "www.amazon.") && !StartsWith(url[8..], "amazon.")
    ensures !MatchesAmazonUrl(url)
  {
    var host := url[8..];
    if StartsWith(host, "www.") && AmazonHost(host[4..]) {
      forall i | 0 <= i < 11 ensures host[i] == "www.amazon."[i] {
        if i >= 4 { assert host[4..][i - 4] == "amazon."[i - 4]; }
      }
      assert false;
    }
  }

  /**
   * Any host part that starts with a lower-case letter or a dot is accepted after
   * `amazon.`, so multi-label country domains (`co.uk`, `com.br`) match too.
   */
  lemma MultiLabelDomains(rest: string)
    requires |rest| > 0 && IsLowerOrDot(rest[0])
    ensures MatchesAmazonUrl("https://amazon." + rest)
    ensures MatchesAmazonUrl("https://www.amazon." + rest)
  {
    var bare, www := "https://amazon." + rest, "https://www.amazon." + rest;
    assert bare[8..] == "amazon." + rest;
    assert www[8..] == "www.amazon." + rest;
    assert www[8..][4..] == "amazon." + rest;
  }

  /** The match is case-sensitive, and `amazon.` must be followed by at least one character. */
  lemma CaseSensitiveAndNonEmpty()
    ensures !MatchesAmazonUrl("https://www.AMAZON.com")
    ensures !MatchesAmazonUrl("https://www.amazon.COM")
    ensures !MatchesAmazonUrl("https://smile.amazon.com")
    ensures !MatchesAmazonUrl("https://www.amazon.")
  {
    assert "https://www.AMAZON.com"[8..][4..][0] == 'A';
    assert "https://www.AMAZON.com"[8..][0] == 'w';
    assert "https://www.amazon.COM"[8..][4..][7] == 'C';
    assert "https://www.amazon.COM"[8..][0] == 'w';
    assert "https://smile.amazon.com"[8..][0] == 's';
    assert "https://www.amazon."[8..][0] == 'w';
  }
}
