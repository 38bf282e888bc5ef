/**
 * The decoded result: an ordered list of records that grows by appending.
 */
module Batches {
  import opened Lines
  import opened Entries

  /**
   * A result whose list of records is extended in place. A record is handed
   * over by value, so the result keeps the record's fields as they were when
   * it was added; two results are equal when their records' fields are.
   */
  class Batch {
    /** The records of the result, each as its fields, in the order added. */
    var entries: seq<seq<Line>>

    /** A new result holds no records. */
    constructor ()
      ensures entries == []
    {
      entries := [];
    }

    /** Appends one record at the end; the earlier records keep their places. */
    method AddEntry(entry: Entry)
      modifies this
      ensures entries == old(entries) + [entry.lines]
      ensures |entries| == |old(entries)| + 1
      ensures entries[..|old(entries)|] == old(entries) && entries[|old(entries)|] == entry.lines
    {
      entries := entries + [entry.lines];
    }

    /** The current records, read without changing the result. */
    method GetEntries() returns (r: seq<seq<Line>>)
      ensures r == entries
    {
      r := entries;
    }
  }

  /**
   * A caller that starts from a new result and, for each element of `es`,
   * builds a new record by adding its fields one by one and then adds that
   * record, reads the records back in insertion order, each with its fields
   * in insertion order.
   */
  method EntriesAfterAdding(es: seq<seq<Line>>) returns (r: seq<seq<Line>>)
    ensures r == es
  {
    var b := new Batch();
    var i := 0;
    while i < |es|
      invariant 0 <= i <= |es|
      invariant b.entries == es[..i]
    {
      var e := new Entry();
      var j := 0;
      while j < |es[i]|
        invariant 0 <= j <= |es[i]|
        invariant e.lines == es[i][..j]
        invariant b.entries == es[..i]
      {
        e.AddLine(es[i][j]);
        assert es[i][..j + 1] == es[i][..j] + [es[i][j]];
        j := j + 1;
      }
      assert es[i][..j] == es[i];
      b.AddEntry(e);
      assert es[..i + 1] == es[..i] + [es[i]];
      i := i + 1;
    }
    assert es[..i] == es;
    r := b.GetEntries();
  }
}
