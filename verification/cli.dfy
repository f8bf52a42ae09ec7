/**
 * The resolving part of `mainCLI` for `install` and `update`.
 *
 * Every requested name is resolved in request order, by the forge resolver
 * (`GitUserbase.find`) or, with `--local`, by the local one
 * (`LocalRepositories.find`). The answers are collected in an `OrderedDict`
 * keyed by name; if any name is left unresolved, `UnknownPackages` names
 * them all, and otherwise the resolved values are the arguments handed to
 * pip. The prompts of all names read from one console, so each resolution
 * continues where the previous one stopped.
 *
 * Both resolvers answer by the same rule on a name's candidates
 * (`Prompt.Decision`), so the driver is stated over `cands`, the function
 * giving each name its candidates, and `Candidates` supplies it for the
 * forge or the local roots.
 */
module Cli {
  import opened Common
  import opened Errors
  import opened Prompt
  import opened OrderedDicts
  import Userbase
  import LocalRepositories

  /**
   * Where names are looked up: on the forge (PyPI and the GitHub users of the
   * userbase) or, with `--local`, under the local roots, whose path group
   * finds the matches.
   */
  datatype Sources = Forge(users: seq<string>) | Local(roots: seq<string>, findall: string -> seq<string>)

  /**
   * The candidates for a name, as the resolver offers them: the pip argument
   * of every forge hit, or every matching local path.
   */
  function CandidatesFor(src: Sources, probe: string -> bool, name: string): seq<string>
  {
    match src
    case Forge(users) => Userbase.PipArguments(Userbase.Get(users, name, probe))
    case Local(_, findall) => findall(name)
  }

  function Candidates(src: Sources, probe: string -> bool): string -> seq<string>
  {
    name => CandidatesFor(src, probe, name)
  }

  /** `users.find(name)` or `locals.find(name)`, whichever the sources call for. */
  method FindOne(src: Sources, probe: string -> bool, name: string, lines: seq<string>) returns (step: Step<string>)
    ensures step == Decision(Candidates(src, probe)(name), lines)
  {
    match src {
      case Forge(users) =>
        step := Userbase.Find(users, name, probe, lines);
      case Local(_, findall) =>
        step := LocalRepositories.Find(findall, name, lines);
    }
  }

  /** An entry of the `OrderedDict`: a requested name and what it resolved to (`None` when nothing). */
  type Entry = (string, Option<string>)

  function Prepend(es: seq<Entry>, r: Option<seq<Entry>>): Option<seq<Entry>>
  {
    match r
    case None => None
    case Some(rest) => Some(es + rest)
  }

  /**
   * The (name, answer) pairs the driver feeds to `OrderedDict`, one per
   * requested name in request order; `None` when the console input ended
   * during a prompt (the `EOFError` that ends the run).
   */
  function ResolveEach(cands: string -> seq<string>, names: seq<string>, lines: seq<string>): Option<seq<Entry>>
    decreases |names|
  {
    if names == [] then Some([])
    else match Decision(cands(names[0]), lines)
      case InputClosed => None
      case NoCandidate => Prepend([(names[0], None)], ResolveEach(cands, names[1..], lines))
      case Chosen(v, used) => Prepend([(names[0], Some(v))], ResolveEach(cands, names[1..], lines[used..]))
  }

  /** The first name's answer is the first entry, and the others follow from where it stopped. */
  lemma ResolveEachHead(cands: string -> seq<string>, names: seq<string>, lines: seq<string>)
    requires names != [] && ResolveEach(cands, names, lines).Some?
    ensures var step := Decision(cands(names[0]), lines);
      && !step.InputClosed?
      && var rest := if step.Chosen? then lines[step.used..] else lines;
         && ResolveEach(cands, names[1..], rest).Some?
         && ResolveEach(cands, names, lines).value ==
              [(names[0], if step.Chosen? then Some(step.value) else None)] + ResolveEach(cands, names[1..], rest).value
  {
  }

  /**
   * Every requested name gets one entry, in request order; its answer is
   * `None` exactly when the name has no candidate, and otherwise one of the
   * name's candidates.
   */
  lemma {:induction false} ResolveEachAnswers(cands: string -> seq<string>, names: seq<string>, lines: seq<string>)
    requires ResolveEach(cands, names, lines).Some?
    ensures var es := ResolveEach(cands, names, lines).value;
      && |es| == |names|
      && forall i :: 0 <= i < |names| ==>
           && es[i].0 == names[i]
           && (es[i].1.None? <==> cands(names[i]) == [])
           && (es[i].1.Some? ==> es[i].1.value in cands(names[i]))
  {
    if names != [] {
      ResolveEachHead(cands, names, lines);
      var step := Decision(cands(names[0]), lines);
      var rest := if step.Chosen? then lines[step.used..] else lines;
      ResolveEachAnswers(cands, names[1..], rest);
      var es := ResolveEach(cands, names, lines).value;
      var tail := ResolveEach(cands, names[1..], rest).value;
      forall i | 0 < i < |names|
        ensures es[i] == tail[i - 1] && names[i] == names[1..][i - 1]
      {
      }
    }
  }

  /**
   * Names with at most one candidate each never prompt: the batch reads no
   * console line and cannot be stopped by the end of input.
   */
  lemma {:induction false} UnambiguousNamesReadNoInput(cands: string -> seq<string>, names: seq<string>, lines: seq<string>)
    requires forall i :: 0 <= i < |names| ==> |cands(names[i])| <= 1
    ensures ResolveEach(cands, names, lines) == ResolveEach(cands, names, [])
    ensures ResolveEach(cands, names, lines).Some?
  {
    if names != [] {
      assert lines[0..] == lines;
      UnambiguousNamesReadNoInput(cands, names[1..], lines);
      UnambiguousNamesReadNoInput(cands, names[1..], []);
    }
  }

  /** `filter(lambda name: packs[name] is None, packs)`: the names left unresolved, in dictionary order. */
  function Unresolved(d: seq<Entry>): (r: seq<string>)
    ensures forall n :: n in r <==> exists i :: 0 <= i < |d| && d[i].0 == n && d[i].1.None?
    ensures r == [] <==> forall i :: 0 <= i < |d| ==> d[i].1.Some?
  {
    if d == [] then []
    else (if d[0].1.None? then [d[0].0] else []) + Unresolved(d[1..])
  }

  /** Filtering keeps the dictionary's order. */
  lemma {:induction false} UnresolvedInOrder(d: seq<Entry>, ks: seq<string>)
    requires InFirstOccurrenceOrder(Keys(d), ks)
    ensures InFirstOccurrenceOrder(Unresolved(d), ks)
  {
    if d != [] {
      assert Keys(d[1..]) == Keys(d)[1..];
      TailInOrder(Keys(d), ks);
      UnresolvedInOrder(d[1..], ks);
      if d[0].1.None? {
        UnresolvedAreKeys(d[1..]);
        assert Keys(d)[0] == d[0].0;
        ConsKeepsOrder(d[0].0, Unresolved(d[1..]), ks);
      }
    }
  }

  /** Every unresolved name is a key of the dictionary. */
  lemma {:induction false} UnresolvedAreKeys(d: seq<Entry>)
    ensures forall n :: n in Unresolved(d) ==> n in Keys(d)
  {
    if d != [] {
      UnresolvedAreKeys(d[1..]);
      assert Keys(d) == [d[0].0] + Keys(d[1..]);
    }
  }



  /**
   * The unresolved names of a batch are exactly the requested names without
   * a candidate, each once, in the order they were first requested.
   */
  lemma UnresolvedNames(cands: string -> seq<string>, names: seq<string>, lines: seq<string>)
    requires ResolveEach(cands, names, lines).Some?
    ensures var missing := Unresolved(FromPairs(ResolveEach(cands, names, lines).value));
      && (forall n :: n in missing <==> n in names && cands(n) == [])
      && InFirstOccurrenceOrder(missing, names)
  {
    var es := ResolveEach(cands, names, lines).value;
    ResolveEachAnswers(cands, names, lines);
    assert Keys(es) == names;
    UnresolvedEntries(cands, es);
    FromPairsInFirstOccurrenceOrder(es);
    UnresolvedInOrder(FromPairs(es), names);
  }

  /** The names the dictionary leaves unresolved are those whose entries say none. */
  lemma UnresolvedEntries(cands: string -> seq<string>, es: seq<Entry>)
    requires forall i :: 0 <= i < |es| ==> (es[i].1.None? <==> cands(es[i].0) == [])
    ensures forall n :: n in Unresolved(FromPairs(es)) <==> n in Keys(es) && cands(n) == []
  {
    var d := FromPairs(es);
    WinningAnswers(cands, d, es);
    UnresolvedKeys(cands, d, Keys(es));
  }

  /** Each entry of the dictionary holds the last answer for its name, so it says none exactly when the name has no candidate. */
  lemma WinningAnswers(cands: string -> seq<string>, d: seq<Entry>, es: seq<Entry>)
    requires forall i :: 0 <= i < |es| ==> (es[i].1.None? <==> cands(es[i].0) == [])
    requires HoldsPairs(d, es)
    ensures forall i :: 0 <= i < |d| ==> (d[i].1.None? <==> cands(d[i].0) == [])
  {
    forall i | 0 <= i < |d|
      ensures d[i].1.None? <==> cands(d[i].0) == []
    {
      var j := LastIndex(Keys(es), d[i].0);
      assert es[j].0 == d[i].0 && d[i].1 == es[j].1;
    }
  }

  /** When every entry says none exactly for the names without candidates, those are the unresolved names. */
  lemma UnresolvedKeys(cands: string -> seq<string>, d: seq<Entry>, keys: seq<string>)
    requires forall i :: 0 <= i < |d| ==> (d[i].1.None? <==> cands(d[i].0) == [])
    requires forall k :: k in Keys(d) <==> k in keys
    ensures forall n :: n in Unresolved(d) <==> n in keys && cands(n) == []
  {
    forall n | n in keys && cands(n) == []
      ensures exists i :: 0 <= i < |d| && d[i].0 == n && d[i].1.None?
    {
      assert n in Keys(d);
      var i :| 0 <= i < |d| && Keys(d)[i] == n;
      assert d[i].0 == n;
    }
    forall n | n in Unresolved(d)
      ensures n in keys
    {
      var i :| 0 <= i < |d| && d[i].0 == n && d[i].1.None?;
      assert Keys(d)[i] == n;
    }
  }

  /** `list(packs.values())` once every name is resolved. */
  function Values(d: seq<Entry>): (r: seq<string>)
    requires forall i :: 0 <= i < |d| ==> d[i].1.Some?
    ensures |r| == |d| && forall i :: 0 <= i < |d| ==> d[i].1 == Some(r[i])
  {
    seq(|d|, i requires 0 <= i < |d| => d[i].1.value)
  }

  /** How a batch ends: pip is run with these arguments, `UnknownPackages` is raised, or the input ended. */
  datatype Outcome = Install(args: seq<string>) | Missing(names: seq<string>, message: string) | EndOfInput

  /**
   * The message of `UnknownPackages` for the unresolved names: looked up on
   * PyPI and the GitHub users for the forge, on the local roots only for
   * `--local`.
   */
  function MissingMessage(src: Sources, missing: seq<string>): string
  {
    match src
    case Forge(users) => UnknownPackagesMessage(Names(missing), users, [], true)
    case Local(roots, _) => UnknownPackagesMessage(Names(missing), [], roots, false)
  }

  /** What the driver does with the dictionary it built. */
  function Finish(src: Sources, d: seq<Entry>): Outcome
  {
    var missing := Unresolved(d);
    if missing == [] then Install(Values(d)) else Missing(missing, MissingMessage(src, missing))
  }

  /** The end of a batch once its names were resolved (or the input ended). */
  function Tally(src: Sources, resolved: Option<seq<Entry>>): Outcome
  {
    match resolved
    case None => EndOfInput
    case Some(es) => Finish(src, FromPairs(es))
  }

  /** The whole batch: resolve every name, build the dictionary, then install or raise. */
  function Batch(src: Sources, probe: string -> bool, names: seq<string>, lines: seq<string>): Outcome
  {
    Tally(src, ResolveEach(Candidates(src, probe), names, lines))
  }

  /**
   * Unless the input ends, `UnknownPackages` is raised exactly when some
   * requested name has no candidate; it names every such name once, in
   * request order, and nothing else.
   */
  lemma TallyReportsMissingNames(src: Sources, cands: string -> seq<string>, names: seq<string>, lines: seq<string>)
    requires ResolveEach(cands, names, lines).Some?
    ensures var o := Tally(src, ResolveEach(cands, names, lines));
      && (o.Missing? <==> exists i :: 0 <= i < |names| && cands(names[i]) == [])
      && (o.Missing? ==>
            && (forall n :: n in o.names <==> n in names && cands(n) == [])
            && InFirstOccurrenceOrder(o.names, names)
            && o.message == MissingMessage(src, o.names))
  {
    UnresolvedNames(cands, names, lines);
    var d := FromPairs(ResolveEach(cands, names, lines).value);
    var missing := Unresolved(d);
    if missing == [] {
      assert Tally(src, ResolveEach(cands, names, lines)) == Install(Values(d));
      forall i | 0 <= i < |names|
        ensures cands(names[i]) != []
      {
        assert names[i] !in missing;
      }
    } else {
      assert Tally(src, ResolveEach(cands, names, lines)) == Missing(missing, MissingMessage(src, missing));
      assert missing[0] in names;
      var i :| 0 <= i < |names| && names[i] == missing[0];
      assert cands(names[i]) == [];
    }
  }

  /** The batch form of `TallyReportsMissingNames`, for the forge or the local roots. */
  lemma BatchReportsMissingNames(src: Sources, probe: string -> bool, names: seq<string>, lines: seq<string>)
    ensures var o := Batch(src, probe, names, lines);
      !o.EndOfInput? ==>
      && (o.Missing? <==> exists i :: 0 <= i < |names| && CandidatesFor(src, probe, names[i]) == [])
      && (o.Missing? ==>
            && (forall n :: n in o.names <==> n in names && CandidatesFor(src, probe, n) == [])
            && InFirstOccurrenceOrder(o.names, names)
            && o.message == MissingMessage(src, o.names))
  {
    if ResolveEach(Candidates(src, probe), names, lines).Some? {
      TallyReportsMissingNames(src, Candidates(src, probe), names, lines);
    }
  }

  /**
   * With no name requested twice, a batch that installs passes pip one
   * argument per name, in request order: the candidate each name resolved to.
   */
  lemma TallyInstallsInRequestOrder(src: Sources, cands: string -> seq<string>, names: seq<string>, lines: seq<string>)
    requires forall i, j :: 0 <= i < j < |names| ==> names[i] != names[j]
    ensures Tally(src, ResolveEach(cands, names, lines)).Install? ==>
      && ResolveEach(cands, names, lines).Some?
      && var args := Tally(src, ResolveEach(cands, names, lines)).args;
         var es := ResolveEach(cands, names, lines).value;
         && |args| == |es| == |names|
         && forall i :: 0 <= i < |names| ==> es[i] == (names[i], Some(args[i])) && args[i] in cands(names[i])
  {
    if ResolveEach(cands, names, lines).Some? {
      var es := ResolveEach(cands, names, lines).value;
      ResolveEachAnswers(cands, names, lines);
      assert DistinctKeys(es);
      FromPairsOfDistinctKeys(es);
      if Finish(src, es).Install? {
        FinishInstalls(src, es);
      }
    }
  }

  /** A dictionary that installs hands pip the value of every entry, in order. */
  lemma FinishInstalls(src: Sources, d: seq<Entry>)
    requires Finish(src, d).Install?
    ensures |Finish(src, d).args| == |d|
    ensures forall i :: 0 <= i < |d| ==> d[i].1 == Some(Finish(src, d).args[i])
  {
    assert Unresolved(d) == [];
  }

  /** The batch form of `TallyInstallsInRequestOrder`. */
  lemma BatchInstallsInRequestOrder(src: Sources, probe: string -> bool, names: seq<string>, lines: seq<string>)
    requires forall i, j :: 0 <= i < j < |names| ==> names[i] != names[j]
    ensures Batch(src, probe, names, lines).Install? ==>
      var args := Batch(src, probe, names, lines).args;
      && |args| == |names|
      && forall i :: 0 <= i < |names| ==> args[i] in CandidatesFor(src, probe, names[i])
  {
    TallyInstallsInRequestOrder(src, Candidates(src, probe), names, lines);
  }

  /**
   * A name requested twice is one dictionary key: pip gets a single argument
   * for it, the answer of its second resolution.
   */
  lemma RepeatedNameKeepsLastAnswer(src: Sources, cands: string -> seq<string>, name: string, lines: seq<string>)
    requires ResolveEach(cands, [name, name], lines).Some?
    requires cands(name) != []
    ensures var es := ResolveEach(cands, [name, name], lines).value;
      && |es| == 2 && es[1].1.Some?
      && Tally(src, ResolveEach(cands, [name, name], lines)) == Install([es[1].1.value])
  {
    var es := ResolveEach(cands, [name, name], lines).value;
    ResolveEachAnswers(cands, [name, name], lines);
    assert es == [es[0], es[1]];
    FromPairsOfRepeatedKey(es[0], es[1]);
    FinishOneEntry(src, es[1]);
  }

  lemma FinishOneEntry(src: Sources, e: Entry)
    requires e.1.Some?
    ensures Finish(src, [e]) == Install([e.1.value])
  {
    assert Unresolved([e]) == [];
  }

  /** When no name is ambiguous, the outcome of the batch does not depend on the console. */
  lemma BatchWithoutAmbiguityReadsNoInput(src: Sources, probe: string -> bool, names: seq<string>, lines: seq<string>)
    requires forall i :: 0 <= i < |names| ==> |CandidatesFor(src, probe, names[i])| <= 1
    ensures Batch(src, probe, names, lines) == Batch(src, probe, names, [])
    ensures !Batch(src, probe, names, lines).EndOfInput?
  {
    UnambiguousNamesReadNoInput(Candidates(src, probe), names, lines);
  }

  /**
   * One turn of the resolve loop: with the entries of the names before the
   * i-th collected, the i-th name's answer either ends the input or adds its
   * entry, and the rest resolves from where that answer stopped.
   */
  lemma ResolveStep(cands: string -> seq<string>, names: seq<string>, i: nat, rest: seq<string>, entries: seq<Entry>)
    requires i < |names|
    ensures var step := Decision(cands(names[i]), rest);
      var whole := Prepend(entries, ResolveEach(cands, names[i..], rest));
      && (step.InputClosed? ==> whole == None)
      && (step.NoCandidate? ==>
            whole == Prepend(entries + [(names[i], None)], ResolveEach(cands, names[i + 1..], rest)))
      && (step.Chosen? ==>
            whole == Prepend(entries + [(names[i], Some(step.value))], ResolveEach(cands, names[i + 1..], rest[step.used..])))
  {
    assert names[i..][0] == names[i] && names[i..][1..] == names[i + 1..];
    var step := Decision(cands(names[i]), rest);
    if step.Chosen? || step.NoCandidate? {
      var entry: Entry := (names[i], if step.Chosen? then Some(step.value) else None);
      var tail := ResolveEach(cands, names[i + 1..], if step.Chosen? then rest[step.used..] else rest);
      if tail.Some? {
        assert entries + ([entry] + tail.value) == (entries + [entry]) + tail.value;
      }
    }
  }

  /**
   * One turn of the resolve loop: asks the resolver about the i-th name,
   * then either stops (the input ended) or adds the name's entry and moves
   * the console on past the lines the answer read.
   */
  method ResolveNext(src: Sources, probe: string -> bool, names: seq<string>, i: nat, rest: seq<string>, entries: seq<Entry>)
    returns (stop: bool, entries': seq<Entry>, rest': seq<string>)
    requires i < |names|
    ensures var cands := Candidates(src, probe);
      stop ==> Prepend(entries, ResolveEach(cands, names[i..], rest)) == None
    ensures var cands := Candidates(src, probe);
      !stop ==> Prepend(entries, ResolveEach(cands, names[i..], rest)) ==
                Prepend(entries', ResolveEach(cands, names[i + 1..], rest'))
  {
    var step := FindOne(src, probe, names[i], rest);
    ResolveStep(Candidates(src, probe), names, i, rest, entries);
    match step {
      case InputClosed =>
        return true, entries, rest;
      case NoCandidate =>
        return false, entries + [(names[i], None)], rest;
      case Chosen(v, used) =>
        return false, entries + [(names[i], Some(v))], rest[used..];
    }
  }

  /**
   * The resolve loop: one name after the other, each prompt reading on from
   * where the previous one stopped; the end of input stops the loop.
   */
  method ResolveAll(src: Sources, probe: string -> bool, names: seq<string>, lines: seq<string>)
    returns (r: Option<seq<Entry>>)
    ensures r == ResolveEach(Candidates(src, probe), names, lines)
  {
    var entries: seq<Entry> := [];
    var rest := lines;
    var i := 0;
    assert names[i..] == names;
    var all := ResolveEach(Candidates(src, probe), names, lines);
    if all.Some? {
      assert [] + all.value == all.value;
    }
    while i < |names|
      invariant i <= |names|
      invariant Prepend(entries, ResolveEach(Candidates(src, probe), names[i..], rest)) == all
    {
      var stop;
      stop, entries, rest := ResolveNext(src, probe, names, i, rest, entries);
      if stop {
        return None;
      }
      i := i + 1;
    }
    assert names[i..] == [];
    assert entries + [] == entries;
    return Some(entries);
  }

  /**
   * The driver: resolves every name, builds the `OrderedDict`, then raises
   * `UnknownPackages` for the unresolved names or returns the arguments for pip.
   */
  method ResolveBatch(src: Sources, probe: string -> bool, names: seq<string>, lines: seq<string>)
    returns (outcome: Outcome)
    ensures outcome == Batch(src, probe, names, lines)
  {
    var resolved := ResolveAll(src, probe, names, lines);
    if resolved.None? {
      return EndOfInput;
    }
    var packs := FromPairs(resolved.value);
    var missing := Unresolved(packs);
    if missing == [] {
      return Install(Values(packs));
    }
    var message: string;
    match src {
      case Forge(users) =>
        message := UnknownPackages(Names(missing), users, [], true);
      case Local(roots, _) =>
        message := UnknownPackages(Names(missing), [], roots, false);
    }
    return Missing(missing, message);
  }
}
