/**
 * The two exceptions of the resolver and the messages they carry:
 * `UnknownPackages` (nothing found) and `PackageSourceConfliction` (found on
 * several sources where one was required).
 */
module Errors {
  import opened Text

  /** The `packages` argument of `UnknownPackages`: one `str`, or a tuple of names. */
  datatype PackagesArg = Name(name: string) | Names(names: seq<string>)

  /**
   * The first sentence of the message. An empty argument names no package; a
   * `str` or a one-element tuple is written as it is; two or more names are
   * written with `repr` and joined by ", " after the plural "Packages".
   */
  function Head(packages: PackagesArg): string
  {
    match packages
    case Name(s) =>
      if |s| == 0 then "Package not found." else "Package " + s + " not found."
    case Names(ns) =>
      if |ns| == 0 then "Package not found."
      else if |ns| == 1 then "Package " + ns[0] + " not found."
      else "Packages " + Join(", ", ReprAll(ns)) + " not found."
  }

  /**
   * The sources that were looked up: "PyPi" when `pypi` is set, the GitHub
   * users as a tuple when there are any, then each local root with `repr`.
   */
  function Sources(gitUsers: seq<string>, locals: seq<string>, pypi: bool): seq<string>
  {
    (if pypi then ["PyPi"] else [])
    + (if gitUsers == [] then [] else ["Github users " + TupleRepr(gitUsers)])
    + ReprAll(locals)
  }

  /** The closing sentence of the message, naming the sources. */
  function LookedUpOn(sources: seq<string>): string
  {
    " Looked up on: " + Join(", ", sources)
  }

  function UnknownPackagesMessage(packages: PackagesArg, gitUsers: seq<string>, locals: seq<string>, pypi: bool): string
  {
    Head(packages) + LookedUpOn(Sources(gitUsers, locals, pypi))
  }

  /**
   * The constructor of `UnknownPackages`: picks the head by the shape of
   * `packages`, then grows the list of sources step by step. A missing
   * (`None`) user or local list is the empty sequence here.
   */
  method UnknownPackages(packages: PackagesArg, gitUsers: seq<string>, locals: seq<string>, pypi: bool)
    returns (msg: string)
    ensures msg == UnknownPackagesMessage(packages, gitUsers, locals, pypi)
  {
    var head: string;
    match packages {
      case Name(s) =>
        head := if |s| == 0 then "Package not found." else "Package " + s + " not found.";
      case Names(ns) =>
        if |ns| == 0 {
          head := "Package not found.";
        } else if |ns| == 1 {
          head := "Package " + ns[0] + " not found.";
        } else {
          head := "Packages " + Join(", ", ReprAll(ns)) + " not found.";
        }
    }
    assert head == Head(packages);
    var sources: seq<string> := if pypi then ["PyPi"] else [];
    if gitUsers != [] {
      sources := sources + ["Github users " + TupleRepr(gitUsers)];
    }
    assert sources == (if pypi then ["PyPi"] else []) + (if gitUsers == [] then [] else ["Github users " + TupleRepr(gitUsers)]);
    if locals != [] {
      sources := sources + ReprAll(locals);
    }
    assert sources == Sources(gitUsers, locals, pypi);
    var sourced := " Looked up on: " + Join(", ", sources);
    msg := head + sourced;
  }

  /**
   * The plural "Packages" is used exactly when two or more names are given,
   * and the head always closes with " not found.".
   */
  lemma HeadPlural(packages: PackagesArg)
    ensures |Head(packages)| >= 18
    ensures Head(packages)[..8] == "Packages" <==> packages.Names? && |packages.names| >= 2
    ensures Head(packages)[|Head(packages)| - 11..] == " not found."
  {
    var h := Head(packages);
    var tail := " not found.";
    if packages.Names? && |packages.names| >= 2 {
      var j := Join(", ", ReprAll(packages.names));
      assert h == "Packages " + j + tail;
      assert h[..8] == "Packages";
      assert h[|h| - 11..] == tail;
    } else if h != "Package not found." {
      var n := if packages.Name? then packages.name else packages.names[0];
      assert h == "Package " + n + tail;
      assert h[7] == ' ' != 's';
      assert h[|h| - 11..] == tail;
    } else {
      assert h[7] == ' ' != 's';
    }
  }

  /**
   * With plain names the list in the plural head is each name between single
   * quotes, in the order given: `'a', 'b', 'c'`.
   */
  lemma {:induction false} PlainNamesQuotedInOrder(ns: seq<string>)
    requires |ns| >= 1
    requires forall i :: 0 <= i < |ns| ==> IsPlain(ns[i])
    ensures Join(", ", ReprAll(ns)) == "'" + Join("', '", ns) + "'"
  {
    PlainRepr(ns[0]);
    if |ns| > 1 {
      PlainNamesQuotedInOrder(ns[1..]);
      assert ReprAll(ns)[1..] == ReprAll(ns[1..]);
      QuotedJoinStep(ns[0], Join("', '", ns[1..]));
    }
  }

  /** The string step of `PlainNamesQuotedInOrder`: a quoted name, ", ", then the quoted rest. */
  lemma QuotedJoinStep(x: string, rest: string)
    ensures ("'" + x + "'") + ", " + ("'" + rest + "'") == "'" + (x + "', '" + rest) + "'"
  {
  }


  /** `PackageSourceConfliction`: a header line, then one line per source. */
  function ConflictMessage(sources: seq<string>): string
  {
    "Package was found on multiple sources:\n" + Join("\n", sources)
  }

  /** Splitting the conflict message into lines gives the header and every source, in order. */
  lemma ConflictMessageLines(sources: seq<string>)
    requires |sources| >= 1
    requires forall i :: 0 <= i < |sources| ==> '\n' !in sources[i]
    ensures Split(ConflictMessage(sources), '\n') == ["Package was found on multiple sources:"] + sources
  {
    var parts := ["Package was found on multiple sources:"] + sources;
    assert parts[1..] == sources;
    assert Join("\n", parts) == ConflictMessage(sources);
    SplitJoin(parts, '\n');
  }
}
