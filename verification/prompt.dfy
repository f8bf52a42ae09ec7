/**
 * The selection prompt shared by `LocalRepositories.find` and
 * `GitUserbase.find`, and the decision both make on the number of candidates.
 * Console input is a scripted sequence of lines: `input()` reads the next one,
 * and reading past the last one is the end of input (Python's `EOFError`).
 */
module Prompt {
  import opened Common
  import opened Text

  /**
   * The acceptance rule of the prompt for a list of `size` sources: the
   * stripped line must be a non-empty run of digits whose value n lies in
   * 1..size; the source picked is then n - 1.
   */
  function Accepts(line: string, size: nat): (r: Option<nat>)
    ensures r.Some? ==> r.value < size
  {
    var t := Strip(line);
    if IsDigits(t) && 1 <= DigitsValue(t) <= size then Some(DigitsValue(t) - 1) else None
  }

  /** The outcome of a prompt: the source picked, and how many lines it read. */
  datatype Pick = Pick(choice: nat, used: nat)

  /** The pick made by the first accepted line; `None` when no line is accepted. */
  function FirstAccepted(lines: seq<string>, size: nat): (r: Option<Pick>)
    ensures r.Some? ==> 0 < r.value.used <= |lines|
    ensures r.Some? ==> Accepts(lines[r.value.used - 1], size) == Some(r.value.choice)
    ensures r.Some? ==> forall i :: 0 <= i < r.value.used - 1 ==> Accepts(lines[i], size).None?
    ensures r.None? ==> forall i :: 0 <= i < |lines| ==> Accepts(lines[i], size).None?
  {
    if lines == [] then None
    else match Accepts(lines[0], size)
      case Some(c) => Some(Pick(c, 1))
      case None =>
        match FirstAccepted(lines[1..], size)
        case None => None
        case Some(p) => Some(Pick(p.choice, p.used + 1))
  }

  /** The first accepted line determines the pick. */
  lemma FirstAcceptedAt(lines: seq<string>, size: nat, k: nat)
    requires k < |lines| && Accepts(lines[k], size).Some?
    requires forall i :: 0 <= i < k ==> Accepts(lines[i], size).None?
    ensures FirstAccepted(lines, size) == Some(Pick(Accepts(lines[k], size).value, k + 1))
  {
  }

  /**
   * The prompt loop: reads lines until one is accepted and returns the pick,
   * or `None` when the input ends first. Every rejected line is skipped.
   */
  method Select(size: nat, lines: seq<string>) returns (pick: Option<Pick>)
    ensures pick == FirstAccepted(lines, size)
    ensures pick.Some? ==> pick.value.choice < size && 0 < pick.value.used <= |lines|
    ensures pick.Some? ==> forall i :: 0 <= i < pick.value.used - 1 ==> Accepts(lines[i], size).None?
    ensures pick.None? ==> forall i :: 0 <= i < |lines| ==> Accepts(lines[i], size).None?
  {
    var used := 0;
    while used < |lines|
      invariant used <= |lines|
      invariant forall i :: 0 <= i < used ==> Accepts(lines[i], size).None?
    {
      var userString := Strip(lines[used]);
      used := used + 1;
      if IsDigits(userString) {
        var choice := DigitsValue(userString) - 1;
        if 0 <= choice < size {
          assert Accepts(lines[used - 1], size) == Some(choice);
          FirstAcceptedAt(lines, size, used - 1);
          return Some(Pick(choice, used));
        }
      }
    }
    return None;
  }

  /** Typing a source's number, as printed by `str`, picks that source; any other number is refused. */
  lemma AcceptsOnlyInRange(k: nat, size: nat)
    ensures Accepts(Decimal(k), size) == if 1 <= k <= size then Some(k - 1) else None
    ensures Accepts("", size) == None
  {
    DecimalRoundTrip(k);
    var d := Decimal(k);
    assert StripLeft(d) == d;
    assert StripRight(d) == d;
  }

  /** Whitespace typed around the number does not matter. */
  lemma AcceptsIgnoresPadding(w1: string, line: string, w2: string, size: nat)
    requires AllSpace(w1) && AllSpace(w2)
    ensures Accepts(w1 + line + w2, size) == Accepts(line, size)
  {
    StripIgnoresPadding(w1, line, w2);
  }

  /**
   * How a resolver ends for one package: no candidate, a candidate chosen
   * after reading `used` lines, or the end of input while prompting.
   */
  datatype Step<T> = NoCandidate | Chosen(value: T, used: nat) | InputClosed

  /**
   * The decision both `find` methods make on their candidates: none gives
   * nothing, one is taken without prompting, two or more go to the prompt,
   * which picks the candidate numbered by the first accepted line.
   */
  function Decision<T>(results: seq<T>, lines: seq<string>): (s: Step<T>)
    ensures s.NoCandidate? <==> results == []
    ensures |results| == 1 ==> s == Chosen(results[0], 0)
    ensures s.InputClosed? <==> |results| >= 2 && forall i :: 0 <= i < |lines| ==> Accepts(lines[i], |results|).None?
    ensures s.Chosen? ==> s.used <= |lines|
    ensures s.Chosen? && |results| >= 2 ==>
              && 0 < s.used
              && Accepts(lines[s.used - 1], |results|).Some?
              && s.value == results[Accepts(lines[s.used - 1], |results|).value]
              && forall i :: 0 <= i < s.used - 1 ==> Accepts(lines[i], |results|).None?
  {
    if |results| == 0 then NoCandidate
    else if |results| == 1 then Chosen(results[0], 0)
    else match FirstAccepted(lines, |results|)
      case None => InputClosed
      case Some(p) => Chosen(results[p.choice], p.used)
  }

  /** Typing the number k of a listed candidate, as printed by `str`, picks candidate k - 1 after one line. */
  lemma TypingNumberPicksCandidate<T>(results: seq<T>, k: nat, rest: seq<string>)
    requires |results| >= 2 && 1 <= k <= |results|
    ensures Decision(results, [Decimal(k)] + rest) == Chosen(results[k - 1], 1)
  {
    AcceptsOnlyInRange(k, |results|);
    assert ([Decimal(k)] + rest)[0] == Decimal(k);
  }

  /**
   * A rejected line (not a number, zero, or past the end of the list) ends
   * nothing: the prompt reads on, and the decision is the one the remaining
   * lines make, one line later.
   */
  lemma RejectedLineIsSkipped<T>(results: seq<T>, line: string, rest: seq<string>)
    requires |results| >= 2 && Accepts(line, |results|).None?
    ensures Decision(results, [line] + rest) ==
              match Decision(results, rest)
              case Chosen(v, used) => Chosen(v, used + 1)
              case other => other
  {
    assert ([line] + rest)[1..] == rest;
  }
}
