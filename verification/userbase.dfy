/**
 * `GitUserbase`: the forge resolver. For a package it collects the
 * candidates whose existence probe succeeds (the PyPI project page first,
 * then one GitHub repository per configured user, in userbase order) and
 * either returns the single candidate, raises, or prompts.
 *
 * The existence probe `urlExists` is the parameter `probe`; the userbase is the
 * sequence `users`, kept exactly as configured (duplicates included).
 */
module Userbase {
  import opened Common
  import opened Text
  import opened Locators
  import opened Errors
  import opened Prompt

  /** `findOnPyPi`: the PyPI URL of the package when its page exists. */
  function FindOnPyPi(package: string, probe: string -> bool): (r: Option<Locator>)
    ensures r.Some? <==> probe(PyPiPrefix + package + "/")
    ensures r.Some? ==> r.value.PyPi? && r.value.package == package
  {
    var url := PyPi(package);
    if probe(Url(url)) then Some(url) else None
  }

  /** `findOnGit`: one GitHub URL per user whose repository of that name exists, in userbase order. */
  function FindOnGit(users: seq<string>, package: string, probe: string -> bool): (r: seq<Locator>)
    ensures |r| <= |users|
    ensures forall l :: l in r <==>
              l.GitHub? && l.package == package && l.user in users && probe(Url(l))
  {
    if users == [] then []
    else
      var l := GitHub(users[0], package);
      (if probe(Url(l)) then [l] else []) + FindOnGit(users[1..], package, probe)
  }

  /**
   * The GitHub candidates keep the userbase order: the hits among the first
   * users come before the hits among the later ones.
   */
  lemma {:induction false} FindOnGitInUserOrder(a: seq<string>, b: seq<string>, package: string, probe: string -> bool)
    ensures FindOnGit(a + b, package, probe) == FindOnGit(a, package, probe) + FindOnGit(b, package, probe)
  {
    if a == [] {
      assert a + b == b;
    } else {
      assert (a + b)[0] == a[0];
      assert (a + b)[1..] == a[1..] + b;
      FindOnGitInUserOrder(a[1..], b, package, probe);
    }
  }

  /** `get`: the candidates that exist, the PyPI one first, then the GitHub ones. */
  function Get(users: seq<string>, package: string, probe: string -> bool): (r: seq<Locator>)
    ensures |r| <= |users| + 1
    ensures (|r| > 0 && r[0].PyPi?) <==> probe(PyPiPrefix + package + "/")
    ensures forall i :: 0 < i < |r| ==> r[i].GitHub?
    ensures forall l :: l in r <==>
              l.package == package && (l.GitHub? ==> l.user in users) && probe(Url(l))
  {
    var onPyPi := FindOnPyPi(package, probe);
    (if onPyPi.Some? then [onPyPi.value] else []) + FindOnGit(users, package, probe)
  }

  /**
   * `get` keeps the userbase order: the candidates of a userbase are those of
   * its front part, followed by the GitHub candidates of its back part.
   */
  lemma {:induction false} GetInUserOrder(a: seq<string>, b: seq<string>, package: string, probe: string -> bool)
    ensures Get(a + b, package, probe) == Get(a, package, probe) + FindOnGit(b, package, probe)
  {
    FindOnGitInUserOrder(a, b, package, probe);
  }

  /** Each listed user contributes exactly one GitHub candidate when its repository exists, and none otherwise. */
  lemma FindOnGitOfOneUser(user: string, package: string, probe: string -> bool)
    ensures FindOnGit([user], package, probe) ==
              if probe(Url(GitHub(user, package))) then [GitHub(user, package)] else []
  {
    assert FindOnGit([user][1..], package, probe) == [];
  }

  /** The exceptions `__getitem__` raises. */
  datatype LookupError = Unknown(message: string) | Conflict(message: string)

  /** The URL strings of the candidates, as `PackageSourceConfliction` lists them. */
  function Urls(ls: seq<Locator>): (r: seq<string>)
    ensures |r| == |ls| && forall i :: 0 <= i < |ls| ==> r[i] == Url(ls[i])
  {
    if ls == [] then [] else [Url(ls[0])] + Urls(ls[1..])
  }

  /**
   * `userbase[package]`: the single candidate, or `UnknownPackages` naming
   * the package and the users when there is none, or
   * `PackageSourceConfliction` listing every candidate when there are several.
   */
  function Lookup(users: seq<string>, package: string, probe: string -> bool): (r: Result<Locator, LookupError>)
    ensures r.Ok? <==> |Get(users, package, probe)| == 1
    ensures r.Ok? ==> r.value == Get(users, package, probe)[0]
    ensures (r.Err? && r.error.Unknown?) <==> Get(users, package, probe) == []
    ensures r.Err? && r.error.Unknown? ==>
              r.error.message == UnknownPackagesMessage(Name(package), users, [], true)
    ensures r.Err? && r.error.Conflict? ==>
              r.error.message == ConflictMessage(Urls(Get(users, package, probe)))
  {
    var results := Get(users, package, probe);
    if |results| == 0 then Err(Unknown(UnknownPackagesMessage(Name(package), users, [], true)))
    else if |results| == 1 then Ok(results[0])
    else Err(Conflict(ConflictMessage(Urls(results))))
  }

  /** No URL of a name holds a line break when the names hold none. */
  lemma UrlSingleLine(l: Locator)
    requires '\n' !in l.package && (l.GitHub? ==> '\n' !in l.user)
    ensures '\n' !in Url(l)
  {
    assert '\n' !in PyPiPrefix && '\n' !in GitHubPrefix;
  }

  /**
   * The conflict message of `__getitem__` lists every candidate, one URL per
   * line, in the order of `get`, below its header line.
   */
  lemma ConflictListsEveryCandidate(users: seq<string>, package: string, probe: string -> bool)
    requires '\n' !in package && forall i :: 0 <= i < |users| ==> '\n' !in users[i]
    requires |Get(users, package, probe)| >= 2
    ensures Lookup(users, package, probe).Err?
    ensures Lookup(users, package, probe).error.Conflict?
    ensures Split(Lookup(users, package, probe).error.message, '\n') ==
              ["Package was found on multiple sources:"] + Urls(Get(users, package, probe))
  {
    var results := Get(users, package, probe);
    var urls := Urls(results);
    forall i | 0 <= i < |urls|
      ensures '\n' !in urls[i]
    {
      assert results[i] in results;
      UrlSingleLine(results[i]);
    }
    ConflictMessageLines(urls);
  }

  /** The pip argument of every candidate, in order. */
  function PipArguments(ls: seq<Locator>): (r: seq<string>)
    ensures |r| == |ls| && forall i :: 0 <= i < |ls| ==> r[i] == PipArgument(ls[i])
  {
    if ls == [] then [] else [PipArgument(ls[0])] + PipArguments(ls[1..])
  }

  /**
   * What `find` answers for the package, reading the scripted input `lines`:
   * the decision on the candidates, each written as its pip argument.
   */
  function Resolve(users: seq<string>, package: string, probe: string -> bool, lines: seq<string>): Step<string>
  {
    Decision(PipArguments(Get(users, package, probe)), lines)
  }

  /**
   * `find`, for `pip install`: nothing when no candidate exists, the pip
   * argument of the only candidate without prompting, and otherwise the pip
   * argument of the candidate numbered by the first accepted input line.
   */
  method Find(users: seq<string>, package: string, probe: string -> bool, lines: seq<string>)
    returns (s: Step<string>)
    ensures s == Resolve(users, package, probe, lines)
    ensures s.NoCandidate? <==> Get(users, package, probe) == []
    ensures |Get(users, package, probe)| == 1 ==> s == Chosen(PipArgument(Get(users, package, probe)[0]), 0)
    ensures s.Chosen? ==> s.used <= |lines|
  {
    var results := Get(users, package, probe);
    if |results| == 0 {
      return NoCandidate;
    } else if |results| == 1 {
      return Chosen(PipArgument(results[0]), 0);
    }
    var pick := Select(|results|, lines);
    if pick.None? {
      return InputClosed;
    }
    return Chosen(PipArgument(results[pick.value.choice]), pick.value.used);
  }

  /**
   * A package found both on PyPI and under a user is ambiguous, and typing
   * 2 picks the GitHub repository: `git+https://github.com/<user>/<package>`.
   */
  lemma PromptPicksSecondSource(user: string, package: string, probe: string -> bool, rest: seq<string>)
    requires probe(Url(PyPi(package))) && probe(Url(GitHub(user, package)))
    ensures Resolve([user], package, probe, ["2"] + rest) ==
              Chosen("git+" + GitHubPrefix + user + "/" + package, 1)
  {
    var results := [PyPi(package), GitHub(user, package)];
    BothSourcesOfOneUser(user, package, probe);
    assert Decimal(2) == "2";
    TypingNumberPicksCandidate(PipArguments(results), 2, rest);
    assert PipArguments(results)[1] == "git+" + GitHubPrefix + user + "/" + package;
  }

  /** With one user, a package found on both PyPI and GitHub has these two candidates, PyPI first. */
  lemma BothSourcesOfOneUser(user: string, package: string, probe: string -> bool)
    requires probe(Url(PyPi(package))) && probe(Url(GitHub(user, package)))
    ensures Get([user], package, probe) == [PyPi(package), GitHub(user, package)]
  {
    assert FindOnGit([user][1..], package, probe) == [];
  }

  /**
   * The userbase is not deduplicated: a user listed twice whose repository
   * probe yields the same candidate twice, so even a package that is not on
   * PyPI is sent to the prompt.
   */
  lemma RepeatedUserForcesPrompt(user: string, package: string, probe: string -> bool, lines: seq<string>)
    requires !probe(Url(PyPi(package))) && probe(Url(GitHub(user, package)))
    ensures Get([user, user], package, probe) == [GitHub(user, package), GitHub(user, package)]
    ensures Resolve([user, user], package, probe, lines).InputClosed? <==>
              forall i :: 0 <= i < |lines| ==> Accepts(lines[i], 2).None?
  {
    assert [user, user][1..] == [user];
    assert FindOnGit([user][1..], package, probe) == [];
  }
}
