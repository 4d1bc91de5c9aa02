/** The per-event record read from the event tree, and the fiducial and diphoton-mass
    selection with the combined event weight. */
module Selection {
  import opened Outcomes

  /** ROOT's `Char_t` (a signed 8-bit character) and `Int_t` (a 32-bit integer). */
  newtype Char = x: int | -0x80 <= x < 0x80
  newtype Int32 = x: int | -0x8000_0000 <= x < 0x8000_0000

  /** The fields of one event that the filling uses; the `Float_t` ones are taken as reals.
      `mYY`, `pTyy`, `pTj1` and `mJJ` are in MeV. */
  datatype Event = Event(
    isFiducial: Char,
    mYY: real,
    pTyy: real,
    nJ: Int32,
    pTj1: real,
    mJJ: real,
    dphiJJ: real,
    dphiJJSigned: real,
    weight: real,
    csBrFe: real)

  /** Diphoton mass window, in MeV; both bounds belong to the window. */
  const MassLow: real := 105000.0
  const MassHigh: real := 160000.0

  /** The weight of an event: its own weight times cross-section, branching ratio and
      filter efficiency, times the file's normalisation factor. */
  function Weight(e: Event, factor: real): real {
    e.weight * e.csBrFe * factor
  }

  /** The two `continue`s of the event loop: a zero `isFiducial` rejects the event, then a
      mass below 105 GeV or above 160 GeV does; a kept event gets the weight
      `weight * crossSectionBRfilterEff * factor`. */
  function Select(e: Event, factor: real): (r: Option<real>)
    ensures r.Some? <==> e.isFiducial != 0 && MassLow <= e.mYY <= MassHigh
  {
    if e.isFiducial == 0 then None
    else if e.mYY < MassLow || MassHigh < e.mYY then None
    else Some(Weight(e, factor))
  }

  /** Only the fiducial flag and the diphoton mass decide whether an event is kept, and
      the weight of a kept event is the plain product, never clamped. */
  lemma SelectionDependsOnFlagAndMass(e1: Event, e2: Event, f1: real, f2: real)
    requires e1.isFiducial == e2.isFiducial && e1.mYY == e2.mYY
    ensures Select(e1, f1).Some? == Select(e2, f2).Some?
    ensures Select(e1, f1).Some? ==> Select(e1, f1).value == Weight(e1, f1) == e1.weight * e1.csBrFe * f1
  {
  }

  /** The weight of a kept event is linear in the normalization factor: scaling the factor
      by any `c` keeps the event and scales its weight by `c`. */
  lemma SelectLinearInFactor(e: Event, f: real, c: real)
    requires Select(e, f).Some?
    ensures Select(e, c * f).Some? && Select(e, c * f).value == c * Select(e, f).value
  {
    var p := e.weight * e.csBrFe;
    assert Weight(e, c * f) == p * (c * f);
    assert Weight(e, f) == p * f;
    assert p * (c * f) == c * (p * f);
  }

  /** The window is closed at both ends: 105000 and 160000 are kept, anything beyond is not. */
  lemma MassWindowBounds(e: Event, factor: real)
    requires e.isFiducial != 0
    ensures e.mYY == MassLow ==> Select(e, factor).Some?
    ensures e.mYY == MassHigh ==> Select(e, factor).Some?
    ensures e.mYY < MassLow || e.mYY > MassHigh ==> Select(e, factor) == None
  {
  }
}
