/**
 * The earlier resolver at the root of the repository: a simpler
 * `UnknownPackages`, `isOnPYPI`, and a `GitUserbase` whose `findOnGit` stops
 * at the first user whose repository exists and links it over `http://`.
 * The existence probe is the parameter `probe`, as in `Userbase`.
 */
module Legacy {
  import opened Common
  import opened Text
  import Locators
  import Errors
  import Userbase

  /**
   * The first sentence of the older `UnknownPackages`: "Package", with an "s"
   * when extra names follow the first, then every name with `repr`, joined
   * by ", ".
   */
  function Head(package: string, packages: seq<string>): string
  {
    "Package" + (if packages == [] then "" else "s") + " " + Join(", ", ReprAll([package] + packages)) + " not found."
  }

  /** The sources of the older message: always "PyPi", then the GitHub users as a tuple when there are any. */
  function Sources(gitUsers: seq<string>): seq<string>
  {
    ["PyPi"] + (if gitUsers == [] then [] else ["Github users " + TupleRepr(gitUsers)])
  }

  function Message(package: string, packages: seq<string>, gitUsers: seq<string>): string
  {
    Head(package, packages) + " Looked up on: " + Join(", ", Sources(gitUsers))
  }

  /**
   * The constructor of the older `UnknownPackages`, growing the list of
   * sources by `append`. A `None` user list is the empty sequence here.
   */
  method UnknownPackages(package: string, packages: seq<string>, gitUsers: seq<string>) returns (msg: string)
    ensures msg == Message(package, packages, gitUsers)
  {
    msg := "Package" + (if packages == [] then "" else "s") + " " + Join(", ", ReprAll([package] + packages)) + " not found.";
    var sources: seq<string> := [];
    sources := sources + ["PyPi"];
    if gitUsers != [] {
      sources := sources + ["Github users " + TupleRepr(gitUsers)];
    }
    assert sources == Sources(gitUsers);
    msg := msg + " Looked up on: " + Join(", ", sources);
  }

  /**
   * The message always names PyPI first, and the GitHub users after it
   * exactly when there are some.
   */
  lemma MessageNamesPyPiFirst(package: string, packages: seq<string>, gitUsers: seq<string>)
    ensures Message(package, packages, gitUsers) ==
              Head(package, packages) + " Looked up on: PyPi"
              + (if gitUsers == [] then "" else ", Github users " + TupleRepr(gitUsers))
  {
    var s := Sources(gitUsers);
    if gitUsers != [] {
      assert s[1..] == ["Github users " + TupleRepr(gitUsers)];
      assert Join(", ", s) == "PyPi" + ", " + "Github users " + TupleRepr(gitUsers);
    }
  }

  /**
   * "Packages" exactly when extra names are given; a single name is still
   * written with `repr`.
   */
  lemma HeadPlural(package: string, packages: seq<string>)
    ensures Head(package, packages)[..8] == "Packages" <==> packages != []
    ensures packages == [] ==> Head(package, packages) == "Package " + PyRepr(package) + " not found."
  {
    var h := Head(package, packages);
    if packages == [] {
      assert ReprAll([package]) == [PyRepr(package)];
      assert h[7] == ' ';
    } else {
      assert h[..8] == "Packages";
    }
  }

  /**
   * For two or more names both versions write the same head; for a single
   * name the newer one leaves out the quotes that the older one writes.
   */
  lemma HeadsOfBothVersions(package: string, packages: seq<string>)
    ensures packages != [] ==> Head(package, packages) == Errors.Head(Errors.Names([package] + packages))
    ensures package != "" ==> Errors.Head(Errors.Name(package)) == "Package " + package + " not found."
    ensures Head(package, []) == "Package " + PyRepr(package) + " not found."
  {
    if packages != [] {
      SeveralNamesSameHead(package, packages);
    }
    HeadPlural(package, []);
  }

  lemma SeveralNamesSameHead(package: string, packages: seq<string>)
    requires packages != []
    ensures Head(package, packages) == Errors.Head(Errors.Names([package] + packages))
  {
    var ns := [package] + packages;
    var j := Join(", ", ReprAll(ns));
    assert |ns| >= 2;
    assert Errors.Head(Errors.Names(ns)) == "Packages " + j + " not found.";
    assert Head(package, packages) == "Package" + "s" + " " + j + " not found.";
  }

  /** `isOnPYPI`: the probe of the package's PyPI page, the same page the newer resolver probes. */
  function IsOnPyPi(arg: string, probe: string -> bool): (r: bool)
    ensures r <==> probe(Locators.Url(Locators.PyPi(arg)))
    ensures r <==> Userbase.FindOnPyPi(arg, probe).Some?
  {
    probe("https://pypi.org/project/" + arg + "/")
  }

  /** The repository link of the older `findOnGit`. */
  function HttpGitUrl(user: string, arg: string): string
  {
    "http://github.com/" + user + "/" + arg
  }

  /** The older link is the newer GitHub URL over plain `http://` instead of `https://`. */
  lemma HttpGitUrlIsPlainHttp(user: string, arg: string)
    ensures |HttpGitUrl(user, arg)| >= 7 && HttpGitUrl(user, arg)[..7] == "http://"
    ensures Locators.Url(Locators.GitHub(user, arg)) == "https://" + HttpGitUrl(user, arg)[7..]
  {
    var path := "github.com/" + user + "/" + arg;
    assert HttpGitUrl(user, arg) == "http://" + path;
    assert Locators.Url(Locators.GitHub(user, arg)) == "https://" + path;
    assert ("http://" + path)[7..] == path;
  }

  /** The position of the first user whose repository link exists. */
  function FirstHit(users: seq<string>, arg: string, probe: string -> bool): (r: Option<nat>)
    ensures r.Some? ==> r.value < |users| && probe(HttpGitUrl(users[r.value], arg))
    ensures r.Some? ==> forall j :: 0 <= j < r.value ==> !probe(HttpGitUrl(users[j], arg))
    ensures r.None? ==> forall j :: 0 <= j < |users| ==> !probe(HttpGitUrl(users[j], arg))
  {
    if users == [] then None
    else if probe(HttpGitUrl(users[0], arg)) then Some(0)
    else match FirstHit(users[1..], arg, probe)
      case None => None
      case Some(k) => Some(k + 1)
  }

  /**
   * `findOnGit`: tries the users in order and returns the link of the first
   * one whose repository exists, `None` when there is none. `probed` lists
   * the links probed, in order: no user after the one found is probed.
   */
  method FindOnGit(users: seq<string>, arg: string, probe: string -> bool)
    returns (link: Option<string>, ghost probed: seq<string>)
    ensures link.None? <==> FirstHit(users, arg, probe).None?
    ensures link.Some? ==> link.value == HttpGitUrl(users[FirstHit(users, arg, probe).value], arg)
    ensures |probed| == if link.Some? then FirstHit(users, arg, probe).value + 1 else |users|
    ensures |probed| <= |users| && forall i :: 0 <= i < |probed| ==> probed[i] == HttpGitUrl(users[i], arg)
  {
    probed := [];
    for i := 0 to |users|
      invariant |probed| == i
      invariant forall j :: 0 <= j < i ==> probed[j] == HttpGitUrl(users[j], arg) && !probe(probed[j])
    {
      var url := HttpGitUrl(users[i], arg);
      probed := probed + [url];
      if probe(url) {
        FirstHitAt(users, arg, probe, i);
        return Some(url), probed;
      }
    }
    FirstHitNone(users, arg, probe);
    return None, probed;
  }

  /** The first user whose link exists is the first hit. */
  lemma {:induction false} FirstHitAt(users: seq<string>, arg: string, probe: string -> bool, k: nat)
    requires k < |users| && probe(HttpGitUrl(users[k], arg))
    requires forall j :: 0 <= j < k ==> !probe(HttpGitUrl(users[j], arg))
    ensures FirstHit(users, arg, probe) == Some(k)
  {
    if k > 0 {
      FirstHitAt(users[1..], arg, probe, k - 1);
    }
  }

  /** No user's link exists: there is no hit. */
  lemma {:induction false} FirstHitNone(users: seq<string>, arg: string, probe: string -> bool)
    requires forall j :: 0 <= j < |users| ==> !probe(HttpGitUrl(users[j], arg))
    ensures FirstHit(users, arg, probe) == None
  {
    if users != [] {
      FirstHitNone(users[1..], arg, probe);
    }
  }

  /**
   * Where the `http://` and `https://` links of a repository exist alike, the
   * older `findOnGit` finds the first of the GitHub candidates of the newer
   * one, and nothing exactly when the newer one finds none.
   */
  lemma {:induction false} FirstOfNewerCandidates(users: seq<string>, arg: string, probe: string -> bool)
    requires forall u :: probe(HttpGitUrl(u, arg)) == probe(Locators.Url(Locators.GitHub(u, arg)))
    ensures FirstHit(users, arg, probe).None? <==> Userbase.FindOnGit(users, arg, probe) == []
    ensures FirstHit(users, arg, probe).Some? ==>
              Userbase.FindOnGit(users, arg, probe)[0] == Locators.GitHub(users[FirstHit(users, arg, probe).value], arg)
  {
    if users != [] {
      FirstOfNewerCandidates(users[1..], arg, probe);
    }
  }
}
