/**
 * The base URL and link-ID helpers: GetBaseURL of internal/web/utils.go,
 * internal/web/handlers/utils.go and internal/utils/server.go (and its twin
 * GetBaseUrl of internal/utils/shortener.go), the web package's URL check,
 * and IsBadLinkID.
 *
 * The port is the configuration's port as text, the type it has in the
 * configuration structs of internal/config; the four copies read the same
 * fields (URL prefix, TLS switch, host, port) from their own config
 * structs, so the model takes those four values.
 */
module WebUtils {
  import opened Common
  import Validators

  /** Link IDs a short link can never take, because they name other routes. */
  const BadLinkIDs: seq<string> := ["", "api", "web", "favicon.ico"]

  function Scheme(useTLS: bool): string
  {
    if useTLS then "https" else "http"
  }

  /** The port the scheme implies, which the URL leaves out. */
  function DefaultPort(useTLS: bool): string
  {
    if useTLS then "443" else "80"
  }

  function GetBaseURL(urlPrefix: string, useTLS: bool, host: string, port: string): (r: string)
    ensures urlPrefix != "" ==> r == urlPrefix
    ensures urlPrefix == "" && port == DefaultPort(useTLS) ==> r == Scheme(useTLS) + "://" + host
    ensures urlPrefix == "" && port != DefaultPort(useTLS) ==> r == Scheme(useTLS) + "://" + host + ":" + port
  {
    if urlPrefix != "" then urlPrefix
    else
      var scheme := if useTLS then "https" else "http";
      var portSuffix :=
        if useTLS then (if port != "443" then ":" + port else "")
        else (if port != "80" then ":" + port else "");
      scheme + "://" + host + portSuffix
  }

  /**
   * Without a prefix, the URL names its scheme first, then the host; the
   * host is followed by nothing when the port is the scheme's default and by
   * `:port` otherwise, so host and port can be read back from the URL.
   */
  lemma BaseURLReadsBack(useTLS: bool, host: string, port: string)
    ensures var r := GetBaseURL("", useTLS, host, port);
            var n := |Scheme(useTLS)| + 3 + |host|;
            && |r| >= n
            && r[..|Scheme(useTLS)|] == Scheme(useTLS)
            && r[|Scheme(useTLS)|..n] == "://" + host
            && (r[n..] == "" <==> port == DefaultPort(useTLS))
            && (port != DefaultPort(useTLS) ==> r[n..] == ":" + port)
  {
    var r := GetBaseURL("", useTLS, host, port);
    var sch := Scheme(useTLS);
    if port == DefaultPort(useTLS) {
      assert r == sch + ("://" + host);
    } else {
      assert r == sch + ("://" + host) + (":" + port);
    }
  }

  /** Configurations that differ only in the port give different URLs, unless a prefix is set. */
  lemma BaseURLSeparatesPorts(useTLS: bool, host: string, p1: string, p2: string)
    requires p1 != p2
    ensures GetBaseURL("", useTLS, host, p1) != GetBaseURL("", useTLS, host, p2)
  {
    BaseURLReadsBack(useTLS, host, p1);
    BaseURLReadsBack(useTLS, host, p2);
    var n := |Scheme(useTLS)| + 3 + |host|;
    if p1 != DefaultPort(useTLS) && p2 != DefaultPort(useTLS) {
      assert (":" + p1)[1..] == p1 && (":" + p2)[1..] == p2;
    }
  }

  /** The web package's check: the non-strict check of internal/utils/validators.go. */
  function CheckURLValidity(parsed: Option<Validators.ParsedURL>): (r: bool)
    ensures r <==> && parsed.Some?
                   && (parsed.value.scheme == "http" || parsed.value.scheme == "https")
                   && parsed.value.host != ""
  {
    match parsed
    case None => false
    case Some(u) =>
      if u.scheme != "http" && u.scheme != "https" then false
      else if u.host == "" then false
      else true
  }

  /** The web check accepts exactly what the general check accepts in non-strict mode, and more than it accepts in strict mode. */
  lemma WebCheckIsLenientCheck(parsed: Option<Validators.ParsedURL>)
    ensures CheckURLValidity(parsed) == Validators.CheckURLValidity(parsed, false)
    ensures Validators.CheckURLValidity(parsed, true) ==> CheckURLValidity(parsed)
  {
    Validators.StrictImpliesLenient(parsed);
  }

  function IsBadLinkID(encodedID: string): (r: bool)
    ensures r <==> encodedID == "" || encodedID == "api" || encodedID == "web" || encodedID == "favicon.ico"
  {
    encodedID in BadLinkIDs
  }
}
