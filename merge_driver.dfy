/** The driver of the program: for each input file in turn, compute a fresh normalisation
    factor, then walk the events and fill the six shared histograms for every kept event. */
module MergeDriver {
  import opened Outcomes
  import opened BinEdges
  import opened Normalization
  import opened CxxString
  import opened Selection
  import opened HistogramLog

  /** An input file: either it cannot be opened, or it offers its key listing and its
      event tree in reading order. */
  datatype DataFile = Zombie | Readable(keys: seq<Key>, events: seq<Event>)
  datatype Input = Input(path: string, file: DataFile)

  /** The value each histogram is filled with: momenta and the dijet mass converted from
      MeV to GeV, the jet count and the two angles as read. */
  function Value(e: Event, h: HistId): real {
    match h
    case NJ => e.nJ as real
    case PTyy => e.pTyy * 0.001
    case PTj1 => e.pTj1 * 0.001
    case Mjj => e.mJJ * 0.001
    case DphiJJ => e.dphiJJ
    case DphiJJSigned => e.dphiJJSigned
  }

  /** The fill calls of one event: none when it is rejected, otherwise one per histogram in
      declaration order, all with the event's weight. */
  function EventFills(e: Event, factor: real): (r: seq<FillCall>)
    ensures |r| == if Select(e, factor).Some? then 6 else 0
  {
    match Select(e, factor)
    case None => []
    case Some(w) =>
      [FillCall(NJ, Value(e, NJ), w), FillCall(PTyy, Value(e, PTyy), w),
       FillCall(PTj1, Value(e, PTj1), w), FillCall(Mjj, Value(e, Mjj), w),
       FillCall(DphiJJ, Value(e, DphiJJ), w), FillCall(DphiJJSigned, Value(e, DphiJJSigned), w)]
  }

  /** The fill calls of a whole event tree, in event order. */
  function FileFills(events: seq<Event>, factor: real): seq<FillCall> {
    if |events| == 0 then []
    else FileFills(events[..|events| - 1], factor) + EventFills(events[|events| - 1], factor)
  }

  /** What one input contributes: an abort if it cannot be opened or its factor cannot be
      computed, otherwise the fills of its events under its own factor. */
  function FileResult(input: Input): Result<seq<FillCall>> {
    match input.file
    case Zombie => Err(InputNotOpened(input.path))
    case Readable(keys, events) =>
      match FactorOf(keys)
      case Err(e) => Err(e)
      case Ok(factor) => Ok(FileFills(events, factor))
  }

  /** A run: the fills made before it ended, and how it ended. */
  datatype RunResult = RunResult(log: seq<FillCall>, status: Status)

  /** What each input contributes, each computed from that input alone. */
  function FileResults(inputs: seq<Input>): (r: seq<Result<seq<FillCall>>>)
    ensures |r| == |inputs|
  {
    seq(|inputs|, i requires 0 <= i < |inputs| => FileResult(inputs[i]))
  }

  /** The per-input contributions merged in order into the same histograms; the first
      failing input aborts the run, keeping what the earlier inputs filled. */
  function Merge(results: seq<Result<seq<FillCall>>>): RunResult {
    if |results| == 0 then RunResult([], Done)
    else
      match results[0]
      case Err(e) => RunResult([], Aborted(e))
      case Ok(fills) =>
        var rest := Merge(results[1..]);
        RunResult(fills + rest.log, rest.status)
  }

  /** The whole run over the inputs, in order. */
  function RunSpec(inputs: seq<Input>): RunResult {
    Merge(FileResults(inputs))
  }

  /** Each histogram receives, from a kept event, exactly one fill with the event's value for
      it and the weight `weight * crossSectionBRfilterEff * factor`; from a rejected event
      no histogram receives anything. */
  lemma EventFillsEachHistogramOnce(e: Event, factor: real, h: HistId)
    ensures Select(e, factor).None? ==> EntriesOf(EventFills(e, factor), h) == []
    ensures Select(e, factor).Some? ==>
      EntriesOf(EventFills(e, factor), h) == [Entry(Value(e, h), Weight(e, factor))]
  {
    var r := EventFills(e, factor);
    if Select(e, factor).Some? {
      SelectionDependsOnFlagAndMass(e, e, factor, factor);
      assert r == [r[0]] + [r[1]] + [r[2]] + [r[3]] + [r[4]] + [r[5]];
      EntriesOfSingle(r[0], h);
      EntriesOfSingle(r[1], h);
      EntriesOfSingle(r[2], h);
      EntriesOfSingle(r[3], h);
      EntriesOfSingle(r[4], h);
      EntriesOfSingle(r[5], h);
      EntriesOfAppend([r[0]] + [r[1]] + [r[2]] + [r[3]] + [r[4]], [r[5]], h);
      EntriesOfAppend([r[0]] + [r[1]] + [r[2]] + [r[3]], [r[4]], h);
      EntriesOfAppend([r[0]] + [r[1]] + [r[2]], [r[3]], h);
      EntriesOfAppend([r[0]] + [r[1]], [r[2]], h);
      EntriesOfAppend([r[0]], [r[1]], h);
    }
  }

  /** The six fill values of a kept event, written out. */
  lemma KeptEventFillValues(e: Event, factor: real)
    requires Select(e, factor).Some?
    ensures var w := Weight(e, factor);
      EventFills(e, factor) == [
        FillCall(NJ, e.nJ as real, w),
        FillCall(PTyy, e.pTyy * 0.001, w),
        FillCall(PTj1, e.pTj1 * 0.001, w),
        FillCall(Mjj, e.mJJ * 0.001, w),
        FillCall(DphiJJ, e.dphiJJ, w),
        FillCall(DphiJJSigned, e.dphiJJSigned, w)]
  {
    SelectionDependsOnFlagAndMass(e, e, factor, factor);
  }

  /** The calls of a kept event follow the declaration order of the histograms and all
      carry the event's weight. */
  lemma EventFillsInOrder(e: Event, factor: real, k: nat)
    requires Select(e, factor).Some? && k < 6
    ensures |EventFills(e, factor)| == 6
    ensures EventFills(e, factor)[k] == FillCall(AllHists[k], Value(e, AllHists[k]), Select(e, factor).value)
  {
  }

  /** Adding one event to the tree appends its fill calls. */
  lemma FileFillsStep(events: seq<Event>, i: nat, factor: real)
    requires i < |events|
    ensures FileFills(events[..i + 1], factor) == FileFills(events[..i], factor) + EventFills(events[i], factor)
  {
    assert events[..i + 1][..i] == events[..i];
  }

  /** Reference for the selection over a tree: the kept events, in event order. */
  function Kept(events: seq<Event>, factor: real): seq<Event> {
    if |events| == 0 then []
    else
      var last := events[|events| - 1];
      Kept(events[..|events| - 1], factor) + (if Select(last, factor).Some? then [last] else [])
  }

  /** Over a whole event tree, every histogram receives exactly one entry per kept event,
      in event order, carrying that event's value for it and its weight. */
  lemma {:induction false} FileEntriesPerHistogram(events: seq<Event>, factor: real, h: HistId)
    ensures |EntriesOf(FileFills(events, factor), h)| == |Kept(events, factor)|
    ensures forall k :: 0 <= k < |Kept(events, factor)| ==>
      var e := Kept(events, factor)[k];
      EntriesOf(FileFills(events, factor), h)[k] == Entry(Value(e, h), Weight(e, factor))
  {
    if |events| > 0 {
      var init, last := events[..|events| - 1], events[|events| - 1];
      FileEntriesPerHistogram(init, factor, h);
      EntriesOfAppend(FileFills(init, factor), EventFills(last, factor), h);
      EventFillsEachHistogramOnce(last, factor, h);
      var before, kept := EntriesOf(FileFills(init, factor), h), Kept(init, factor);
      assert FileFills(events, factor) == FileFills(init, factor) + EventFills(last, factor);
      if Select(last, factor).Some? {
        var added := Entry(Value(last, h), Weight(last, factor));
        assert EntriesOf(FileFills(events, factor), h) == before + [added];
        assert Kept(events, factor) == kept + [last];
      } else {
        assert EntriesOf(FileFills(events, factor), h) == before;
        assert Kept(events, factor) == kept;
      }
    }
  }

  /** Merging a concatenation: once the first part has finished without aborting, the
      second part is merged exactly as on its own. */
  lemma {:induction false} MergeConcat(a: seq<Result<seq<FillCall>>>, b: seq<Result<seq<FillCall>>>)
    ensures Merge(a + b) ==
      if Merge(a).status == Done then RunResult(Merge(a).log + Merge(b).log, Merge(b).status)
      else Merge(a)
  {
    if |a| == 0 {
      assert a + b == b;
    } else {
      var ab := a + b;
      assert ab[0] == a[0] && ab[1..] == a[1..] + b;
      if a[0].Ok? {
        MergeConcat(a[1..], b);
        var tail, rest := Merge(a[1..]), Merge(b);
        if tail.status == Done {
          assert a[0].value + (tail.log + rest.log) == (a[0].value + tail.log) + rest.log;
        }
      }
    }
  }

  /** The run over a concatenation of inputs: once the first part has finished without
      aborting, the second part is processed exactly as if it were run on its own. */
  lemma RunConcat(a: seq<Input>, b: seq<Input>)
    ensures RunSpec(a + b) ==
      if RunSpec(a).status == Done then RunResult(RunSpec(a).log + RunSpec(b).log, RunSpec(b).status)
      else RunSpec(a)
  {
    assert FileResults(a + b) == FileResults(a) + FileResults(b);
    MergeConcat(FileResults(a), FileResults(b));
  }

  /** A run over a single input is that input's contribution. */
  lemma RunSingle(input: Input)
    ensures RunSpec([input]) ==
      match FileResult(input)
      case Err(e) => RunResult([], Aborted(e))
      case Ok(fills) => RunResult(fills, Done)
  {
    var rs := FileResults([input]);
    assert rs[0] == FileResult(input) && rs[1..] == [];
    assert Merge(rs[1..]) == RunResult([], Done);
    if FileResult(input).Ok? {
      assert FileResult(input).value + [] == FileResult(input).value;
    }
  }

  /** The factor is recomputed for every file and nothing of an earlier file's factor is
      carried over: after any inputs that finished, a file contributes the fills of its own
      events under the factor of its own keys (1 when none of them is selected). */
  lemma FactorFreshPerFile(before: seq<Input>, input: Input)
    requires RunSpec(before).status == Done
    requires input.file.Readable?
    ensures FactorOf(input.file.keys).Ok? ==>
      RunSpec(before + [input]) ==
        RunResult(RunSpec(before).log + FileFills(input.file.events, FactorOf(input.file.keys).value), Done)
    ensures FactorOf(input.file.keys).Err? ==>
      RunSpec(before + [input]) == RunResult(RunSpec(before).log, Aborted(FactorOf(input.file.keys).error))
  {
    RunConcat(before, [input]);
    RunSingle(input);
  }

  /** Two runs that both complete, one after the other, complete together and concatenate
      their logs; a concatenation that completes has parts that complete. */
  lemma RunDoneConcat(a: seq<Input>, b: seq<Input>)
    ensures RunSpec(a + b).status == Done <==> RunSpec(a).status == Done && RunSpec(b).status == Done
    ensures RunSpec(a + b).status == Done ==> RunSpec(a + b).log == RunSpec(a).log + RunSpec(b).log
  {
    RunConcat(a, b);
  }

  /** Taking one element out of the middle of a sequence leaves the multiset of the rest. */
  lemma MultisetWithout(a: seq<Input>, b: seq<Input>, i: nat)
    requires |a| > 0 && multiset(a) == multiset(b) && i < |b| && b[i] == a[0]
    ensures multiset(a[1..]) == multiset(b[..i] + b[i + 1..])
    ensures b == b[..i] + [a[0]] + b[i + 1..]
  {
    assert a == [a[0]] + a[1..];
    assert b == b[..i] + [b[i]] + b[i + 1..];
    assert multiset(b) == multiset(b[..i]) + multiset{a[0]} + multiset(b[i + 1..]);
    assert multiset(a) == multiset{a[0]} + multiset(a[1..]);
    assert multiset(b[..i] + b[i + 1..]) == multiset(b[..i]) + multiset(b[i + 1..]);
    assert multiset(a[1..]) == multiset(a) - multiset{a[0]};
    assert multiset(b[..i] + b[i + 1..]) == multiset(b) - multiset{a[0]};
  }

  /** Inserting a completing input into the middle of a completing run: the run still
      completes, and each histogram gains exactly that input's entries. */
  lemma InsertInput(b1: seq<Input>, x: Input, b2: seq<Input>, h: HistId)
    requires RunSpec(b1 + b2).status == Done && RunSpec([x]).status == Done
    ensures RunSpec(b1 + [x] + b2).status == Done
    ensures multiset(EntriesOf(RunSpec(b1 + [x] + b2).log, h)) ==
      multiset(EntriesOf(RunSpec([x]).log, h)) + multiset(EntriesOf(RunSpec(b1 + b2).log, h))
  {
    RunDoneConcat(b1, b2);
    RunDoneConcat(b1, [x]);
    RunDoneConcat(b1 + [x], b2);
    var lx, l1, l2 := RunSpec([x]).log, RunSpec(b1).log, RunSpec(b2).log;
    EntriesOfAppend(l1, l2, h);
    EntriesOfAppend(l1, lx, h);
    EntriesOfAppend(l1 + lx, l2, h);
  }

  /** Histograms merge independently of the order of the inputs: any reordering of inputs
      that run to completion also runs to completion, and gives every histogram the same
      multiset of entries. */
  lemma {:induction false} MergeOrderIndependent(a: seq<Input>, b: seq<Input>, h: HistId)
    requires multiset(a) == multiset(b)
    requires RunSpec(a).status == Done
    ensures RunSpec(b).status == Done
    ensures multiset(EntriesOf(RunSpec(a).log, h)) == multiset(EntriesOf(RunSpec(b).log, h))
    decreases |a|
  {
    if |a| == 0 {
      assert |b| == |multiset(b)| == 0;
      assert b == a;
    } else {
      var x, rest := a[0], a[1..];
      assert x in multiset(b);
      var i :| 0 <= i < |b| && b[i] == x;
      var b1, b2 := b[..i], b[i + 1..];
      MultisetWithout(a, b, i);
      assert a == [x] + rest;
      RunDoneConcat([x], rest);
      EntriesOfAppend(RunSpec([x]).log, RunSpec(rest).log, h);
      MergeOrderIndependent(rest, b1 + b2, h);
      InsertInput(b1, x, b2, h);
    }
  }

  /** The worked example: one file whose weighted cutflow record has baseline 200, an event
      inside the mass window with weight 2 and cross-section factor 0.5, and one at 170 GeV.
      Only the first is filled, into every histogram, with weight 2 * 0.5 / 200. */
  lemma EndToEndExample()
    ensures var kept := Event(1, 120000.0, 30000.0, 1, 40000.0, 200000.0, 1.5, -1.5, 2.0, 0.5);
      var rejected := Event(1, 170000.0, 30000.0, 2, 40000.0, 200000.0, 1.5, -1.5, 2.0, 0.5);
      var input := Input("mc.root", Readable([Key(ExampleCutflow, 200.0)], [kept, rejected]));
      RunSpec([input]) == RunResult(EventFills(kept, 0.005), Done) &&
      EntriesOf(RunSpec([input]).log, NJ) == [Entry(1.0, 0.005)] &&
      EntriesOf(RunSpec([input]).log, PTyy) == [Entry(30.0, 0.005)]
  {
    var kept := Event(1, 120000.0, 30000.0, 1, 40000.0, 200000.0, 1.5, -1.5, 2.0, 0.5);
    var rejected := Event(1, 170000.0, 30000.0, 2, 40000.0, 200000.0, 1.5, -1.5, 2.0, 0.5);
    var input := Input("mc.root", Readable([Key(ExampleCutflow, 200.0)], [kept, rejected]));
    ExampleCutflowFactor();
    var events := [kept, rejected];
    assert events[..1] == [kept] && [kept][..0] == [];
    assert EventFills(rejected, 0.005) == [];
    assert FileFills([kept], 0.005) == EventFills(kept, 0.005);
    assert FileFills(events, 0.005) == EventFills(kept, 0.005);
    assert FileResult(input) == Ok(EventFills(kept, 0.005));
    RunSingle(input);
    assert Weight(kept, 0.005) == 0.005;
    EventFillsEachHistogramOnce(kept, 0.005, NJ);
    EventFillsEachHistogramOnce(kept, 0.005, PTyy);
  }

  /** The six `Fill` calls made for a kept event. */
  method FillKept(book: Histograms, e: Event, factor: real, weight: real)
    requires Select(e, factor) == Some(weight)
    modifies book
    ensures book.log == old(book.log) + EventFills(e, factor)
  {
    book.Fill(NJ, e.nJ as real, weight);
    book.Fill(PTyy, e.pTyy * 0.001, weight);
    book.Fill(PTj1, e.pTj1 * 0.001, weight);
    book.Fill(Mjj, e.mJJ * 0.001, weight);
    book.Fill(DphiJJ, e.dphiJJ, weight);
    book.Fill(DphiJJSigned, e.dphiJJSigned, weight);
    KeptEventFillValues(e, factor);
    var fills := EventFills(e, factor);
    assert fills == [fills[0]] + [fills[1]] + [fills[2]] + [fills[3]] + [fills[4]] + [fills[5]];
  }

  /** The event loop of one file: a fiducial `continue`, a mass-window `continue`, then
      the weight and the fills of the kept event. */
  method FillEvents(book: Histograms, events: seq<Event>, factor: real)
    modifies book
    ensures book.log == old(book.log) + FileFills(events, factor)
  {
    for i := 0 to |events|
      invariant book.log == old(book.log) + FileFills(events[..i], factor)
    {
      FileFillsStep(events, i, factor);
      var e := events[i];
      if e.isFiducial == 0 {
        assert EventFills(e, factor) == [];
        continue;
      }
      if e.mYY < MassLow || MassHigh < e.mYY {
        assert EventFills(e, factor) == [];
        continue;
      }
      var weight := e.weight * e.csBrFe * factor;
      assert weight == Weight(e, factor);
      FillKept(book, e, factor, weight);
    }
    assert events[..|events|] == events;
  }

  /** One pass of the loop over inputs: open the file, compute its factor, fill. */
  method ProcessFile(book: Histograms, input: Input) returns (status: Status)
    modifies book
    ensures FileResult(input).Err? ==> status == Aborted(FileResult(input).error) && book.log == old(book.log)
    ensures FileResult(input).Ok? ==> status == Done && book.log == old(book.log) + FileResult(input).value
  {
    if input.file.Zombie? {
      return Aborted(InputNotOpened(input.path));
    }
    var factor := ComputeFactor(input.file.keys);
    if factor.Err? {
      return Aborted(factor.error);
    }
    FillEvents(book, input.file.events, factor.value);
    status := Done;
  }

  /** `main` after the argument checks: declare the six histograms, process every input in
      order into them, and stop at the first input that fails. */
  method Run(inputs: seq<Input>) returns (book: Histograms, status: Status)
    ensures fresh(book)
    ensures book.log == RunSpec(inputs).log && status == RunSpec(inputs).status
  {
    book := new Histograms();
    for a := 0 to |inputs|
      invariant book.log == RunSpec(inputs[..a]).log && RunSpec(inputs[..a]).status == Done
    {
      RunConcat(inputs[..a], [inputs[a]]);
      RunSingle(inputs[a]);
      assert inputs[..a + 1] == inputs[..a] + [inputs[a]];
      var s := ProcessFile(book, inputs[a]);
      if s.Aborted? {
        RunConcat(inputs[..a + 1], inputs[a + 1..]);
        assert inputs == inputs[..a + 1] + inputs[a + 1..];
        return book, s;
      }
    }
    assert inputs[..|inputs|] == inputs;
    status := Done;
  }
}
