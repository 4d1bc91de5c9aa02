/** The six histograms as the ordered log of the `Fill(value, weight)` calls made on them;
    placing a value into a bin happens inside ROOT and is not part of this model. */
module HistogramLog {
  import opened BinEdges

  datatype FillCall = FillCall(hist: HistId, value: real, weight: real)

  /** What one histogram receives from one `Fill` call. */
  datatype Entry = Entry(value: real, weight: real)

  /** The calls received by histogram `h`, in order. */
  function EntriesOf(log: seq<FillCall>, h: HistId): seq<Entry> {
    if |log| == 0 then []
    else
      var last := log[|log| - 1];
      EntriesOf(log[..|log| - 1], h) + (if last.hist == h then [Entry(last.value, last.weight)] else [])
  }

  /** A single call reaches exactly the histogram it names. */
  lemma EntriesOfSingle(c: FillCall, h: HistId)
    ensures EntriesOf([c], h) == if c.hist == h then [Entry(c.value, c.weight)] else []
  {
    assert [c][..0] == [];
  }

  /** The projection onto one histogram distributes over appending logs. */
  lemma {:induction false} EntriesOfAppend(a: seq<FillCall>, b: seq<FillCall>, h: HistId)
    ensures EntriesOf(a + b, h) == EntriesOf(a, h) + EntriesOf(b, h)
  {
    if |b| > 0 {
      var ab := a + b;
      assert ab[..|ab| - 1] == a + b[..|b| - 1];
      EntriesOfAppend(a, b[..|b| - 1], h);
    } else {
      assert a + b == a;
    }
  }

  /** The six `TH1D` objects of the program; `log` is every fill made on them so far. */
  class Histograms {
    var log: seq<FillCall>

    /** The six declarations: every histogram starts empty. */
    constructor ()
      ensures log == []
    {
      log := [];
    }

    /** `h_<name>->Fill(value, weight)`. */
    method Fill(h: HistId, value: real, weight: real)
      modifies this
      ensures log == old(log) + [FillCall(h, value, weight)]
    {
      log := log + [FillCall(h, value, weight)];
    }
  }
}
