/** The workspace-URL check at the start of the `login` command. */
module Login {
  import opened Wrappers
  import opened Strings

  const HttpsScheme: string := "https://"
  const SlackDomain: string := ".slack.com"

  /** A URL that does not start with exactly `https://` gets it prepended. */
  function NormalizeUrl(url: string): (r: string)
    ensures HttpsScheme <= r
    ensures HttpsScheme <= url ==> r == url
    ensures !(HttpsScheme <= url) ==> r[|HttpsScheme|..] == url
  {
    if HttpsScheme <= url then url else HttpsScheme + url
  }

  /** Normalising twice is normalising once. */
  lemma NormalizeIdempotent(url: string)
    ensures NormalizeUrl(NormalizeUrl(url)) == NormalizeUrl(url)
  {
  }

  /** Only the exact `https://` prefix is recognised: an `http://` URL is
      prefixed too, and ends up with both schemes. */
  lemma PlainHttpPrefixed(rest: string)
    ensures NormalizeUrl("http://" + rest) == "https://http://" + rest
  {
    assert ("http://" + rest)[4] == ':';
  }

  /** The normalised URL, or the error the command exits with. */
  function ValidateUrl(url: string): (r: Result<string, string>)
    ensures r.Success? <==> Contains(NormalizeUrl(url), SlackDomain)
    ensures r.Success? ==> r.value == NormalizeUrl(url)
  {
    var normalized := NormalizeUrl(url);
    if Contains(normalized, SlackDomain) then Success(normalized)
    else Failure("Error: URL must be a Slack workspace (*.slack.com)")
  }

  /** Acceptance in terms of positions: the normalised URL has `.slack.com`
      starting at some index. */
  lemma ValidateUrlIff(url: string)
    ensures ValidateUrl(url).Success? <==>
              exists i :: 0 <= i <= |NormalizeUrl(url)| && SlackDomain <= NormalizeUrl(url)[i..]
  {
    ContainsIff(NormalizeUrl(url), SlackDomain);
  }

  /** A URL that names a Slack host is accepted, with or without its scheme. */
  lemma SlackHostAccepted(url: string)
    requires Contains(url, SlackDomain)
    ensures ValidateUrl(url).Success?
  {
    if !(HttpsScheme <= url) {
      ContainsExtend(url, HttpsScheme, SlackDomain);
    }
  }
}
