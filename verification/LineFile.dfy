/**
  A file of JSON lines that is appended to, and what a crash inside an append leaves of it. Lines
  that do not parse are skipped when the file is read.
 */
module LineFile {

  /** A line that ends with its newline; `Garbage` parses as nothing. */
  datatype Line<T> = Whole(item: T) | Garbage

  /** What follows the last newline: nothing, part of a line, or a line that lacks only its newline. */
  datatype Tail<T> = Clean | Torn | Unended(item: T)

  datatype File<T> = File(lines: seq<Line<T>>, tail: Tail<T>)

  function Items<T>(lines: seq<Line<T>>): seq<T> {
    if lines == [] then []
    else Items(lines[..|lines| - 1]) + if lines[|lines| - 1].Whole? then [lines[|lines| - 1].item] else []
  }

  function ReadAll<T>(f: File<T>): seq<T> {
    Items(f.lines) + if f.tail.Unended? then [f.tail.item] else []
  }

  /** A line glued to an unfinished one parses as nothing. */
  function AppendTo<T>(f: File<T>, x: T): File<T> {
    File(f.lines + [if f.tail.Clean? then Whole(x) else Garbage], Clean)
  }

  /** The crash left the line without its newline, or only part of it. */
  function TearAt<T>(f: File<T>, x: T, complete: bool): File<T> {
    f.(tail := if complete && f.tail.Clean? then Unended(x) else Torn)
  }

  function Rewritten<T>(x: T): File<T> {
    File([Whole(x)], Clean)
  }

  /**
    An append adds its item if the file ended with a newline; otherwise it is lost, and so is a
    line that lacked only its newline.
   */
  lemma ReadAppended<T>(f: File<T>, x: T)
    ensures ReadAll(AppendTo(f, x)) == Items(f.lines) + if f.tail.Clean? then [x] else []
    ensures ReadAll(Rewritten(x)) == [x]
    ensures ReadAll(TearAt(f, x, false)) == Items(f.lines)
    ensures ReadAll(TearAt(f, x, true)) == Items(f.lines) + if f.tail.Clean? then [x] else []
  {
    assert (f.lines + [Whole(x)])[..|f.lines|] == f.lines;
    assert (f.lines + [Garbage])[..|f.lines|] == f.lines;
    assert [Whole(x)][..0] == [];
    assert Items([Whole(x)]) == Items([]) + [x];
  }
}
