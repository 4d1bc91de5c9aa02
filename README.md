# Weighted fiducial histograms from MxAOD files — a Dafny model

The program `hist` reads one or more MxAOD files. For each file it derives a
normalisation factor from the file's weighted cutflow record. It then keeps the events
that are fiducial and have a diphoton mass between 105 and 160 GeV. Every kept event is
filled, with weight `weight * crossSectionBRfilterEff * factor`, into six shared
histograms: jet multiplicity, diphoton pT, leading-jet pT, dijet mass, and the unsigned
and signed dijet azimuthal separation. The histograms are written to the output file once
every input has been processed.

The model has seven modules, one file each:

- `Outcomes` (`outcomes.dfy`) holds the error and status values.
- `CxxString` (`cxx_string.dfy`) models `std::string::substr` and `size_t` subtraction, including the wrap-around. A key name is a `CppString`: a string of bytes (every character below 256) shorter than 2^64, so its length is what `size()` returns.
- `BinEdges` (`bin_edges.dfy`) holds the six bin-edge tables and the declared bin counts.
- `Normalization` (`normalization.dfy`) models the key-name filter as the code evaluates it. `ComputeFactor` is the key loop with its `continue` and `break`, proved equal to the first-match function `FactorOf`.
- `Selection` (`selection.dfy`) holds the event record and the two rejection tests.
- `HistogramLog` (`histogram_log.dfy`) holds the class `Histograms`. It stands for the six `TH1D` objects as the ordered log of their `Fill` calls. `EntriesOf` projects that log onto one histogram.
- `MergeDriver` (`merge_driver.dfy`) holds the event loop (`FillEvents`, with the six fills of a kept event in `FillKept`), one file's pass (`ProcessFile`) and the loop over inputs (`Run`). Each is proved against the functions `FileFills`, `FileResult` and `RunSpec`. `RunSpec` merges the per-file contributions `FileResults`, each computed from its own file alone.

Three details of the code decide edge cases:

- **Mass window.** The code rejects only `m_yy < 105e3 || 160e3 < m_yy`, so the window is closed at both ends. A mass of exactly 160000 MeV is kept, not rejected.
- **Short cutflow names.** Computing the factor can fail. A key name that starts with `CutFlow_` but has fewer than 18 characters makes `name.size()-18` wrap around, and `substr` then throws `std::out_of_range`. Nothing catches the exception, so the run ends. The model yields `Aborted(SubstrOutOfRange(name))`.
- **Names without the prefix.** Such a name is skipped before the suffix is looked at, whatever its length, because `||` short-circuits.

Inputs come in as values, not as files. The tree reader and the key listing become
`Input(path, Zombie | Readable(keys, events))`, with the keys and the events in reading
order. Each `Key` carries its name and the bin-3 content that `ReadObj` and
`GetBinContent(3)` would produce.

## Model

| member | source | states |
|---|---|---|
| CxxString.SizeSub | src/hist.cc:68 | `size()-18` on `size_t`: the plain difference when the name has at least 18 characters; otherwise the difference plus 2^64, which lies beyond the end of the string |
| CxxString.Substr | src/hist.cc:67-68 | `substr(pos, count)` fails exactly when `pos` exceeds the length; otherwise it returns `min(count, length-pos)` characters copied from `pos` on |
| Normalization.KeyTestMeaning | src/hist.cc:67-68 | the filter as evaluated (`substr(0,8)`, then `substr(size()-18)`) equals the reference: skip when the name lacks the prefix; throw when it has the prefix but is shorter than 18; otherwise select exactly when it ends with `_noDalitz_weighted` |
| Normalization.KeySelectedIff | src/hist.cc:67-68 | a key is selected iff its name starts with `CutFlow_` and ends with `_noDalitz_weighted`; the test throws iff the name starts with `CutFlow_` and is shorter than 18; a name without the prefix is skipped at any length |
| Normalization.OverlappingNameSelected | src/hist.cc:67-68 | prefix and suffix may overlap: the 25-character `CutFlow_noDalitz_weighted` is selected |
| Normalization.ShortPrefixedNameThrows | src/hist.cc:67-68 | `CutFlow_` alone throws `out_of_range`; an 18-character prefixed name with the wrong ending is skipped; the 3-character `Cut` is skipped |
| Normalization.NoSelectedKeyFactorOne | src/hist.cc:62-75 | when every key is skipped, the factor stays 1 |
| Normalization.FirstDecisiveKeyDecides | src/hist.cc:64-74 | the first key that is not skipped decides the outcome: its throw, or `1/n_all` of that key (zero baseline reported) |
| Normalization.LaterKeysIgnored | src/hist.cc:73-74 | after the first decisive key the scan stops: keys appended after it never change the factor |
| Normalization.ExampleCutflowFactor | src/hist.cc:62-75 | one key `CutFlow_mc_noDalitz_weighted` with baseline 200 gives factor 1/200 = 0.005 |
| Normalization.ComputeFactor | src/hist.cc:62-75 | the key loop with `continue` and `break`, starting from `factor = 1`, returns exactly the first-match factor `FactorOf` |
| BinEdges.StepIncreasingIsStrict | src/hist.cc:41-46 | edges that increase step by step increase strictly between any two positions |
| BinEdges.SchemaWellFormed | src/hist.cc:41-53 | every histogram declares at least one bin; its edge array has one more entry than its declared bin count (3/4, 9/10, 4/5, 3/4, 3/4, 4/5); its edges are strictly increasing |
| BinEdges.HistogramsDistinct | src/hist.cc:48-53 | the six histograms have pairwise distinct names; the declaration order lists each of them exactly once |
| Selection.Select | src/hist.cc:120-128 | an event is kept iff `isFiducial` is nonzero and `105000 <= m_yy <= 160000` |
| Selection.SelectionDependsOnFlagAndMass | src/hist.cc:122-128 | no field other than the flag and the mass decides selection; the kept weight is `weight * cs_br_fe * factor`, exactly that product whatever its sign (nothing clamps it) |
| Selection.SelectLinearInFactor | src/hist.cc:128 | scaling the factor by any `c` keeps a kept event and multiplies its weight by `c` |
| Selection.MassWindowBounds | src/hist.cc:125-126 | both mass bounds are inclusive; masses outside them are rejected |
| HistogramLog.EntriesOfSingle | src/hist.cc:131-136 | a single fill call reaches exactly the histogram it names |
| HistogramLog.EntriesOfAppend | src/hist.cc:131-136 | the entries of one histogram over two consecutive stretches of fills are the entries of the first stretch followed by those of the second |
| HistogramLog.Histograms.constructor | src/hist.cc:48-53 | the histograms start with no fills |
| HistogramLog.Histograms.Fill | src/hist.cc:131-136 | one `Fill` call appends exactly that call to the log |
| MergeDriver.EventFills | src/hist.cc:128-136 | a rejected event makes no fill call; a kept one makes exactly six |
| MergeDriver.EventFillsInOrder | src/hist.cc:128-136 | the `k`-th fill call of a kept event goes to the `k`-th histogram in declaration order, with that histogram's value and the event's weight |
| MergeDriver.EventFillsEachHistogramOnce | src/hist.cc:128-136 | from a kept event each histogram receives exactly one entry, with that histogram's value and the weight `weight * cs_br_fe * factor`; from a rejected event no histogram receives anything |
| MergeDriver.KeptEventFillValues | src/hist.cc:131-136 | unfolding step for the proofs: spells out a kept event's six fill calls, with `N_j` as is, `pT_yy`, `pT_j1` and `m_jj` times 1e-3, both angles as is, all with one shared weight |
| MergeDriver.FileFillsStep | src/hist.cc:111-137 | unfolding step for the loop proof: one more event of the tree appends that event's fill calls |
| MergeDriver.FileEntriesPerHistogram | src/hist.cc:111-137 | over a whole tree, each histogram receives one entry per kept event, in event order, with that event's value and weight |
| MergeDriver.FillKept | src/hist.cc:128-136 | for a kept event with weight `w`, the six `Fill` calls append exactly that event's six fill calls |
| MergeDriver.FillEvents | src/hist.cc:111-137 | the event loop, with its two `continue`s and six fills, appends exactly the fill calls of the tree's kept events |
| MergeDriver.ProcessFile | src/hist.cc:57-139 | one pass of the loop over inputs: an unopenable file or a failing factor aborts with nothing filled; otherwise it appends that file's fills under its own factor |
| MergeDriver.MergeConcat | src/hist.cc:56-140 | merging per-file contributions over a concatenation: the first part, then (unless it aborted) the second part exactly as merged on its own |
| MergeDriver.RunSingle | src/hist.cc:56-140 | a run over one input ends with that input's fills and `Done`, or aborts with its error and nothing filled |
| MergeDriver.RunConcat | src/hist.cc:56-140 | processing a concatenation of inputs = processing the first part, then (if it did not abort) the second part exactly as on its own; no state other than the fills passes between files |
| MergeDriver.FactorFreshPerFile | src/hist.cc:56-62 | the factor is re-initialised for every file: after any inputs that completed, a file fills under the factor of its own keys (1 if none is selected) or aborts with its own error |
| MergeDriver.RunDoneConcat | src/hist.cc:56-140 | a run over a concatenation completes iff both parts complete on their own, and then its fills are those of the first part followed by those of the second |
| MergeDriver.InsertInput | src/hist.cc:56-140 | inserting a completing input anywhere into a completing run keeps it completing and adds exactly that input's entries to each histogram |
| MergeDriver.MergeOrderIndependent | src/hist.cc:56-140 | any reordering of a run that completes also completes and gives every histogram the same multiset of entries |
| MergeDriver.EndToEndExample | src/hist.cc:62-136 | a cutflow baseline of 200 and two events at 120 GeV and 170 GeV: only the first is filled, with weight 2·0.5/200 = 0.005, giving `N_j` the entry (1, 0.005) |
| MergeDriver.Run | src/hist.cc:48-142 | declares empty histograms, processes the inputs in order, and stops at the first failing one; the final log and status are exactly `RunSpec` |

## Left out

- ROOT I/O is not modelled: opening files, `TTreeReader` field binding, `TKey::ReadObj` and `fout.Write()`. Inputs are given as values. A file that fails to open is the `Zombie` case, and it aborts the run. Writing the output is represented only by a run ending in `Done`.
- The bin placement, overflow handling and sums of squares inside `TH1D::Fill` live in ROOT, not in this program. The histograms are kept as the log of `Fill(value, weight)` calls.
- MergeDriver.FillEvents: the six `Fill` calls that the source writes inline in the event loop are grouped in `FillKept`. Their order and arguments are unchanged.
- The unused `make_hist` helper is not modelled, because `main` never calls it.
- The diagnostic prints are not modelled: the sizes of the weight-variant vectors for the first five events, and the cutflow name and label. They only produce output, and `ww[0]` on an empty vector is undefined behaviour. The weight-variant field is therefore not part of `Event`.
- `timed_counter` is a progress display from a header that is not part of this model.
- The argument-count check, the output-file open check and the process exit codes are not modelled; they are process plumbing.
- IEEE single and double precision are not modelled. All measured quantities are reals. This covers the `Float_t` product of weight and cross-section, the `1e-3` scaling and the `Float_t` to `double` conversions.
- Normalization.ComputeFactor: when the selected record's bin 3 is zero, C++ computes an infinite factor and carries on with infinite or NaN weights. Reals cannot represent that, so the model ends the run with `ZeroBaseline` instead.
- CxxString.SizeSub: key names are bounded by `size_t` (type `CppString`); names of 2^64 or more characters cannot occur and are not modelled.
- MergeDriver.Run: after an abort, the fills made so far stay in memory, but the process exits without writing them. The model returns those fills together with the `Aborted` status.
