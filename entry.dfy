/**
 * One journal record: an ordered list of fields that grows by appending.
 */
module Entries {
  import opened Lines

  /** A record whose list of fields is extended in place. */
  class Entry {
    /** The fields of the record, in the order they were added. */
    var lines: seq<Line>

    /** A new record holds no fields. */
    constructor ()
      ensures lines == []
    {
      lines := [];
    }

    /** The default record is the empty one, like a new record. */
    constructor Default()
      ensures lines == []
    {
      lines := [];
    }

    /** Appends one field at the end; the earlier fields keep their places. */
    method AddLine(line: Line)
      modifies this
      ensures lines == old(lines) + [line]
      ensures |lines| == |old(lines)| + 1
      ensures lines[..|old(lines)|] == old(lines) && lines[|old(lines)|] == line
    {
      lines := lines + [line];
    }

    /** The current fields, read without changing the record. */
    method GetLines() returns (r: seq<Line>)
      ensures r == lines
    {
      r := lines;
    }
  }

  /**
   * A caller that starts from a new record and adds the fields `ls` one by
   * one reads them back in insertion order.
   */
  method LinesAfterAdding(ls: seq<Line>) returns (r: seq<Line>)
    ensures r == ls
  {
    var e := new Entry();
    var i := 0;
    while i < |ls|
      invariant 0 <= i <= |ls|
      invariant e.lines == ls[..i]
    {
      e.AddLine(ls[i]);
      assert ls[..i + 1] == ls[..i] + [ls[i]];
      i := i + 1;
    }
    assert ls[..i] == ls;
    r := e.GetLines();
  }
}
