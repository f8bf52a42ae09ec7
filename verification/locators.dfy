/**
 * The two URL classes of the resolver. In the program a `PyPiURL` or a
 * `GitURL` is a string (the URL) that also carries the package name, and the
 * user for a GitHub URL. Here a locator is a tagged value and the URL is
 * computed from it; `ParseUrl` recovers the fields from the string.
 */
module Locators {
  import opened Common
  import opened Text

  datatype Locator = PyPi(package: string) | GitHub(user: string, package: string)

  const PyPiPrefix: string := "https://pypi.org/project/"
  const GitHubPrefix: string := "https://github.com/"

  /** The string value of a `PyPiURL` or `GitURL`. */
  function Url(l: Locator): (r: string)
    ensures l.PyPi? ==> r == PyPiPrefix + l.package + "/"
    ensures l.GitHub? ==> r == GitHubPrefix + l.user + "/" + l.package
  {
    match l
    case PyPi(p) => PyPiPrefix + p + "/"
    case GitHub(u, p) => GitHubPrefix + u + "/" + p
  }

  /**
   * The argument handed to pip for a chosen candidate: the bare package name
   * for a PyPI hit, `git+` and the URL for a GitHub hit.
   */
  function PipArgument(l: Locator): (r: string)
    ensures l.PyPi? ==> r == l.package
    ensures l.GitHub? ==> r == "git+" + Url(l)
  {
    match l
    case PyPi(p) => p
    case GitHub(_, _) => "git+" + Url(l)
  }

  /**
   * Reads a locator back from a URL string: a PyPI URL is the PyPI prefix, the
   * package and a closing slash; a GitHub URL is the GitHub prefix, the user
   * up to the first slash, and the package.
   */
  function ParseUrl(s: string): Option<Locator>
  {
    if |s| > |PyPiPrefix| && s[..|PyPiPrefix|] == PyPiPrefix && s[|s| - 1] == '/' then
      Some(PyPi(s[|PyPiPrefix|..|s| - 1]))
    else if |s| >= |GitHubPrefix| && s[..|GitHubPrefix|] == GitHubPrefix then
      var rest := s[|GitHubPrefix|..];
      match IndexOf(rest, '/')
      case None => None
      case Some(k) => Some(GitHub(rest[..k], rest[k + 1..]))
    else None
  }

  /**
   * The URL string keeps the locator's fields: parsing it gives the locator
   * back. A user name must not contain a slash (GitHub user names cannot).
   */
  lemma UrlRoundTrip(l: Locator)
    requires l.GitHub? ==> '/' !in l.user
    ensures ParseUrl(Url(l)) == Some(l)
  {
    var s := Url(l);
    match l
    case PyPi(p) =>
      assert s[..|PyPiPrefix|] == PyPiPrefix;
      assert s[|PyPiPrefix|..|s| - 1] == p;
    case GitHub(u, p) =>
      assert s[8] == 'g' != PyPiPrefix[8];
      assert s[..|GitHubPrefix|] == GitHubPrefix;
      assert s[|GitHubPrefix|..] == u + "/" + p;
      IndexOfAfter(u, '/', p);
  }

  /**
   * The pip argument still names the chosen candidate: a PyPI hit is its
   * package name, and a GitHub hit is `git+` followed by a URL that parses
   * back to the candidate.
   */
  lemma PipArgumentKeepsLocator(l: Locator)
    requires l.GitHub? ==> '/' !in l.user
    ensures l.PyPi? ==> PipArgument(l) == l.package
    ensures l.GitHub? ==> |PipArgument(l)| >= 4 && PipArgument(l)[..4] == "git+" && ParseUrl(PipArgument(l)[4..]) == Some(l)
  {
    if l.GitHub? {
      assert PipArgument(l)[4..] == Url(l);
      UrlRoundTrip(l);
    }
  }

  /** Different locators never share a URL, as long as user names hold no slash. */
  lemma UrlInjective(a: Locator, b: Locator)
    requires a.GitHub? ==> '/' !in a.user
    requires b.GitHub? ==> '/' !in b.user
    requires Url(a) == Url(b)
    ensures a == b
  {
    UrlRoundTrip(a);
    UrlRoundTrip(b);
  }
}
