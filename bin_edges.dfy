/** The six histograms the program declares and their fixed bin-edge tables. */
module BinEdges {

  /** One identifier per declared histogram, in declaration (and fill) order. */
  datatype HistId = NJ | PTyy | PTj1 | Mjj | DphiJJ | DphiJJSigned

  const AllHists: seq<HistId> := [NJ, PTyy, PTj1, Mjj, DphiJJ, DphiJJSigned]

  /** The ROOT object name each histogram is created with. */
  function Name(h: HistId): string {
    match h
    case NJ => "N_j"
    case PTyy => "pT_yy"
    case PTj1 => "pT_j1"
    case Mjj => "m_jj"
    case DphiJJ => "Dphi_j_j"
    case DphiJJSigned => "Dphi_j_j_signed"
  }

  /** The edge array `b_<name>` of each histogram. */
  function Edges(h: HistId): seq<real> {
    match h
    case NJ => [0.0, 1.0, 2.0, 3.0]
    case PTyy => [0.0, 20.0, 30.0, 45.0, 60.0, 80.0, 120.0, 170.0, 220.0, 350.0]
    case PTj1 => [30.0, 55.0, 75.0, 120.0, 350.0]
    case Mjj => [0.0, 170.0, 500.0, 1500.0]
    case DphiJJ => [0.0, 1.0472, 2.0944, 3.15]
    case DphiJJSigned => [-3.15, -1.570796, 0.0, 1.570796, 3.15]
  }

  /** The bin count passed to the `TH1D` constructor next to the edge array. */
  function DeclaredBins(h: HistId): nat {
    match h
    case NJ => 3
    case PTyy => 9
    case PTj1 => 4
    case Mjj => 3
    case DphiJJ => 3
    case DphiJJSigned => 4
  }

  /** Each edge is below the next one. */
  predicate StepIncreasing(s: seq<real>) {
    forall i :: 0 < i < |s| ==> s[i - 1] < s[i]
  }

  /** Every edge is below every later edge. */
  predicate StrictlyIncreasing(s: seq<real>) {
    forall i, j :: 0 <= i < j < |s| ==> s[i] < s[j]
  }

  lemma {:induction false} StepIncreasingIsStrict(s: seq<real>)
    requires StepIncreasing(s)
    ensures StrictlyIncreasing(s)
  {
    if |s| > 1 {
      var init := s[..|s| - 1];
      assert StepIncreasing(init) by {
        forall i | 0 < i < |init| ensures init[i - 1] < init[i] {
          assert init[i - 1] == s[i - 1] && init[i] == s[i];
        }
      }
      StepIncreasingIsStrict(init);
      forall i, j | 0 <= i < j < |s| ensures s[i] < s[j] {
        if j < |s| - 1 {
          assert init[i] == s[i] && init[j] == s[j];
        } else if i < j - 1 {
          assert init[i] == s[i] && init[j - 1] == s[j - 1];
        }
      }
    }
  }

  /** Every declared histogram is well formed: at least one bin, one more edge than
      bins, and edges in strictly increasing order. */
  lemma SchemaWellFormed(h: HistId)
    ensures DeclaredBins(h) >= 1
    ensures |Edges(h)| == DeclaredBins(h) + 1
    ensures StrictlyIncreasing(Edges(h))
  {
    StepIncreasingIsStrict(Edges(h));
  }

  /** The six histograms have distinct ROOT names and `AllHists` lists each exactly once. */
  lemma HistogramsDistinct()
    ensures forall h1: HistId, h2: HistId :: Name(h1) == Name(h2) ==> h1 == h2
    ensures |AllHists| == 6
    ensures forall h: HistId :: h in AllHists
    ensures forall i, j :: 0 <= i < j < |AllHists| ==> AllHists[i] != AllHists[j]
  {
    forall h: HistId ensures h in AllHists {
      match h
      case NJ => assert AllHists[0] == h;
      case PTyy => assert AllHists[1] == h;
      case PTj1 => assert AllHists[2] == h;
      case Mjj => assert AllHists[3] == h;
      case DphiJJ => assert AllHists[4] == h;
      case DphiJJSigned => assert AllHists[5] == h;
    }
  }
}
