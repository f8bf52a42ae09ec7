/**
 * `LocalRepositories`: the local resolver. Its candidates are the paths the
 * path group finds for the package under its roots; the lookup itself
 * (`PathGroup.findall`) is the parameter `findall`.
 */
module LocalRepositories {
  import opened Prompt

  /** What `find` answers for the package, reading the scripted input `lines`. */
  function Resolve(findall: string -> seq<string>, package: string, lines: seq<string>): Step<string>
  {
    Decision(findall(package), lines)
  }

  /**
   * `find`: nothing when no path matches, the only match without prompting,
   * and otherwise the match numbered by the first accepted input line.
   */
  method Find(findall: string -> seq<string>, package: string, lines: seq<string>) returns (s: Step<string>)
    ensures s == Resolve(findall, package, lines)
    ensures s.NoCandidate? <==> findall(package) == []
    ensures |findall(package)| == 1 ==> s == Chosen(findall(package)[0], 0)
    ensures s.Chosen? ==> s.value in findall(package) && s.used <= |lines|
  {
    var results := findall(package);
    if |results| == 0 {
      return NoCandidate;
    } else if |results| == 1 {
      return Chosen(results[0], 0);
    }
    var pick := Select(|results|, lines);
    if pick.None? {
      return InputClosed;
    }
    return Chosen(results[pick.value.choice], pick.value.used);
  }
}
