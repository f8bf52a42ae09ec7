/**
 * The two configuration files, `users.txt` (the GitHub users of the userbase)
 * and `locals.txt` (the local roots): how their text becomes entries, and
 * how the `users` and `locals` modes add and remove entries and write the
 * file back.
 *
 * A file's text is a parameter; opening, reading and writing files is not
 * modelled.
 */
module Config {
  import opened Common
  import opened Text

  /** The lines concatenated back together. */
  function Concat(lines: seq<string>): string
  {
    if lines == [] then "" else lines[0] + Concat(lines[1..])
  }

  /**
   * `f.readlines()` on a file holding `content`: every line keeps its line
   * break, and there is no empty line after a final line break.
   */
  function ReadLines(content: string): (r: seq<string>)
    ensures Concat(r) == content
    decreases |content|
  {
    if content == "" then []
    else match IndexOf(content, '\n')
      case None => [content]
      case Some(k) =>
        var rest := ReadLines(content[k + 1..]);
        assert content == content[..k + 1] + content[k + 1..];
        assert ([content[..k + 1]] + rest)[1..] == rest;
        [content[..k + 1]] + rest
  }

  /**
   * A line as `readlines` gives it: not empty, with a single line break, as
   * its last character, except that the last line of a file may have none.
   */
  predicate IsLine(line: string, last: bool)
  {
    && line != ""
    && (!last ==> line[|line| - 1] == '\n')
    && forall j :: 0 <= j < |line| - 1 ==> line[j] != '\n'
  }

  /** Every line `readlines` gives is a line. */
  lemma {:induction false} ReadLinesShape(content: string)
    ensures forall i :: 0 <= i < |ReadLines(content)| ==>
              IsLine(ReadLines(content)[i], i == |ReadLines(content)| - 1)
    decreases |content|
  {
    if content != "" {
      match IndexOf(content, '\n')
      case None =>
        assert ReadLines(content) == [content];
      case Some(k) =>
        var line, rest := content[..k + 1], ReadLines(content[k + 1..]);
        var r := ReadLines(content);
        assert r == [line] + rest;
        assert forall j :: 0 <= j < k ==> line[j] == content[j];
        ReadLinesShape(content[k + 1..]);
        forall i | 0 <= i < |r|
          ensures IsLine(r[i], i == |r| - 1)
        {
          if i > 0 {
            assert r[i] == rest[i - 1];
          }
        }
    }
  }

  /** A line without a line break, then a line break: `readlines` reads it first and goes on after it. */
  lemma ReadLinesAfter(e: string, rest: string)
    requires '\n' !in e
    ensures ReadLines(e + "\n" + rest) == [e + "\n"] + ReadLines(rest)
  {
    IndexOfAfter(e, '\n', rest);
    assert (e + "\n" + rest)[..|e| + 1] == e + "\n";
  }

  /**
   * `map(str.strip, filter(None, lines))`: the stripped lines, leaving out
   * the empty ones. The filter comes before the strip, so a line of
   * whitespace (a blank line with its line break) is kept, as the empty entry.
   */
  function Entries(lines: seq<string>): (r: seq<string>)
    ensures |r| <= |lines|
    ensures forall x :: x in r <==> exists i :: 0 <= i < |lines| && lines[i] != "" && Strip(lines[i]) == x
  {
    if lines == [] then []
    else (if lines[0] == "" then [] else [Strip(lines[0])]) + Entries(lines[1..])
  }

  /** Filtering and stripping line by line keeps the order of the lines. */
  lemma {:induction false} EntriesAppend(a: seq<string>, b: seq<string>)
    ensures Entries(a + b) == Entries(a) + Entries(b)
  {
    if a == [] {
      assert a + b == b;
    } else {
      assert (a + b)[0] == a[0] && (a + b)[1..] == a[1..] + b;
      EntriesAppend(a[1..], b);
    }
  }

  /**
   * `map(str.strip, filter(None, f.readlines() + extra))`: the users handed to
   * `GitUserbase`, or the roots handed to `LocalRepositories`. The file's
   * entries come first, then those given on the command line, in order, and
   * nothing is deduplicated.
   */
  function Configured(content: string, extra: seq<string>): (r: seq<string>)
    ensures r == Entries(ReadLines(content)) + Entries(extra)
  {
    EntriesAppend(ReadLines(content), extra);
    Entries(ReadLines(content) + extra)
  }

  /** A blank line of the file is not dropped: it becomes the empty entry. */
  lemma BlankLineIsEmptyEntry(w: string)
    requires w != "" && AllSpace(w)
    ensures Entries([w]) == [""]
  {
    StripLeftSpaces(w);
    assert Strip(w) == StripRight("");
  }

  /** `set(map(str.strip, filter(None, open(name).readlines())))`: the entries the `users` and `locals` modes start from. */
  function Load(content: string): (r: set<string>)
    ensures forall x :: x in r <==> x in Entries(ReadLines(content))
  {
    set x | x in Entries(ReadLines(content))
  }

  /**
   * An entry that reads back as itself: not empty, no line break, and no
   * whitespace at either end.
   */
  predicate Unpadded(e: string)
  {
    e != "" && '\n' !in e && !IsSpace(e[0]) && !IsSpace(e[|e| - 1])
  }

  /** An unpadded entry followed by its line break strips back to the entry. */
  lemma StripLine(e: string)
    requires Unpadded(e)
    ensures Strip(e + "\n") == e && Strip(e) == e
  {
    assert StripLeft(e + "\n") == e + "\n";
    StripRightSpaces(e, "\n");
    assert StripRight(e) == e;
  }

  /**
   * Writing entries with `"\n".join` and reading the file back gives the same
   * entries, in the same order, when every entry is unpadded.
   */
  lemma {:induction false} JoinReadsBack(order: seq<string>)
    requires forall i :: 0 <= i < |order| ==> Unpadded(order[i])
    ensures Entries(ReadLines(Join("\n", order))) == order
  {
    if |order| == 1 {
      StripLine(order[0]);
      assert IndexOf(order[0], '\n') == None;
    } else if |order| > 1 {
      var e, rest := order[0], Join("\n", order[1..]);
      assert Join("\n", order) == e + "\n" + rest;
      ReadLinesAfter(e, rest);
      StripLine(e);
      JoinReadsBack(order[1..]);
    }
  }

  /** `list(entries)`: the entries of a set, each once, in the set's own (unspecified) order. */
  method Enumerate(s: set<string>) returns (order: seq<string>)
    ensures forall x :: x in order <==> x in s
    ensures forall i, j :: 0 <= i < j < |order| ==> order[i] != order[j]
  {
    order := [];
    var left := s;
    while left != {}
      invariant left <= s
      invariant forall x :: x in order <==> x in s && x !in left
      invariant forall i, j :: 0 <= i < j < |order| ==> order[i] != order[j]
      decreases |left|
    {
      var x :| x in left;
      order := order + [x];
      left := left - {x};
    }
  }

  /**
   * The `users` or `locals` mode on the stored entries: when anything is to
   * be added or removed, the removals are applied, then the additions (so an
   * entry both added and removed stays), and the file is rewritten with one
   * entry per line, in the set's order; `order` is also the order in which
   * the entries are then listed.
   */
  method Update(stored: set<string>, add: seq<string>, rm: seq<string>)
    returns (entries: set<string>, order: seq<string>, written: Option<string>)
    ensures forall x :: x in entries <==> x in add || (x in stored && x !in rm)
    ensures add == [] && rm == [] ==> entries == stored
    ensures forall x :: x in order <==> x in entries
    ensures forall i, j :: 0 <= i < j < |order| ==> order[i] != order[j]
    ensures written.Some? <==> add != [] || rm != []
    ensures written.Some? ==> written.value == Join("\n", order)
  {
    entries := stored;
    written := None;
    if rm != [] || add != [] {
      entries := entries - (set x | x in rm);
      entries := entries + (set x | x in add);
      order := Enumerate(entries);
      written := Some(Join("\n", order));
    } else {
      order := Enumerate(entries);
    }
  }

  /**
   * What `Update` writes is read back by the next run as exactly the
   * updated entries, when every entry is unpadded.
   */
  lemma UpdateReadsBack(entries: set<string>, order: seq<string>)
    requires forall x :: x in order <==> x in entries
    requires forall x :: x in entries ==> Unpadded(x)
    ensures Load(Join("\n", order)) == entries
  {
    JoinReadsBack(order);
  }
}
