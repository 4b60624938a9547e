/**
 * The parts of a parsed `net/url.URL` that the web server reads or writes.
 * Parsing and printing URLs are not modelled: a URL string is represented by
 * its record, and the empty string by the record whose parts are all empty.
 */
module Urls {
  import opened Strings

  datatype Url = Url(scheme: string, host: string, path: string, query: string, fragment: string)

  /** The URL that the empty string parses to. */
  const Empty: Url := Url("", "", "", "", "")

  /** A URL that holds only a path, as Go's `u.Path` used as a location. */
  function PathOnly(path: string): (u: Url)
    ensures u.path == path && u.scheme == "" && u.host == ""
    ensures u == Empty <==> path == ""
  {
    Url("", "", path, "", "")
  }

  /**
   * The record `url.Parse` gives back for the string `URL.String` prints
   * from `u`, when the path does not start with `/`. Under a host the path
   * is printed after a `/`, so it comes back with one. With a scheme but no
   * host, the path is printed right after `scheme://`, so its first segment
   * comes back as the host.
   */
  function Reparsed(u: Url): (r: Url)
    ensures r.scheme == u.scheme && r.query == u.query && r.fragment == u.fragment
    ensures u.host != "" ==> r.host == u.host && (r.path == u.path || r.path == "/" + u.path)
    ensures r.host != "" && r.path != "" ==> r.path[0] == '/'
    ensures (u.host == "" && u.scheme == "") || u.path == "" || u.path[0] == '/' ==> r == u
    ensures u.host == "" && u.scheme != "" && u.path != "" && u.path[0] != '/' ==>
      r.host != "" && '/' !in r.host && r.host + r.path == u.path
  {
    if u.path == "" || u.path[0] == '/' then u
    else if u.host != "" then u.(path := "/" + u.path)
    else if u.scheme != "" then
      var i := IndexByte(u.path, '/');
      var cut := if i < 0 then |u.path| else i;
      assert u.path[..cut] + u.path[cut..] == u.path;
      u.(host := u.path[..cut], path := u.path[cut..])
    else u
  }

  /** Printing and parsing a URL that came from parsing gives it back. */
  lemma ReparsedIdempotent(u: Url)
    ensures Reparsed(Reparsed(u)) == Reparsed(u)
  {
  }
}
