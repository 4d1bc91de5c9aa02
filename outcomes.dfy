/** Failure-carrying results shared by the whole model of the histogram filler. */
module Outcomes {

  datatype Option<+T> = None | Some(value: T)

  /** Why processing stops before the histograms are written. */
  datatype Error =
    /** An input file could not be opened (the `IsZombie` check). */
    | InputNotOpened(path: string)
    /** `std::string::substr` threw `std::out_of_range` while testing a key name. */
    | SubstrOutOfRange(name: string)
    /** The matched cutflow record has a zero baseline, so `1./n_all` is not a real number. */
    | ZeroBaseline(name: string)

  datatype Result<+T> = Ok(value: T) | Err(error: Error)

  /** How a run ends: all inputs processed (the output is written), or aborted. */
  datatype Status = Done | Aborted(reason: Error)
}
