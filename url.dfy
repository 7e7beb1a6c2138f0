/**
 * The two things the modelled code asks of the `URL` constructor: the origin
 * of a base URL and the hostname of a page URL. Only `http:` and `https:`
 * URLs of the form `scheme://[userinfo@]host[:port][/?#...]` are understood;
 * anything else counts as a constructor that threw.
 */
module Url {
  import opened Wrappers
  import opened Strings

  datatype ParsedUrl = ParsedUrl(scheme: string, hostname: string, port: string)

  function Origin(u: ParsedUrl): string {
    u.scheme + "//" + u.hostname + (if u.port == "" then "" else ":" + u.port)
  }

  predicate EndsAuthority(c: char) { c == '/' || c == '?' || c == '#' || c == '\\' }

  /** The authority: everything up to the first `/`, `?`, `#` or `\`. */
  function Authority(s: string): (a: string)
    ensures |a| <= |s| && a == s[..|a|]
    ensures forall k :: 0 <= k < |a| ==> !EndsAuthority(a[k])
  {
    if s == [] || EndsAuthority(s[0]) then [] else [s[0]] + Authority(s[1..])
  }

  /** The part after the last `@`, which drops any user information. */
  function AfterLastAt(s: string): (r: string)
    ensures '@' !in r
    ensures |r| <= |s|
  {
    if '@' !in s then s
    else
      var i := FirstIndex(s, '@');
      AfterLastAt(s[i + 1..])
  }

  function Parse(url: string): (r: Option<ParsedUrl>)
    ensures r.Some? ==> r.value.hostname != [] && (r.value.scheme == "http:" || r.value.scheme == "https:")
  {
    var lower := ToLower(url);
    var scheme := if StartsWith(lower, "https://") then "https:"
                  else if StartsWith(lower, "http://") then "http:" else "";
    if scheme == "" then None
    else
      var hostPort := AfterLastAt(Authority(url[|scheme| + 2..]));
      var host := if ':' in hostPort then hostPort[..FirstIndex(hostPort, ':')] else hostPort;
      var port := if ':' in hostPort then hostPort[FirstIndex(hostPort, ':') + 1..] else "";
      var defaultPort := if scheme == "https:" then "443" else "80";
      if host == [] || !AllDigits(port) then None
      else Some(ParsedUrl(scheme, ToLower(host), if port == defaultPort then "" else port))
  }
}
