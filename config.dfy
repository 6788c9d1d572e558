/** The tunables of the preprocessing package that the modelled code reads. */
module Config {

  datatype Config = Config(
    orientationLineLength: int,  // length of an orientation segment, in target pixels at scale 1
    minutiaeSigma: int,          // smoothing of the position field (its square root is the Gaussian sigma)
    orientationSigma: int,       // smoothing of the orientation field
    minutiaeGain: int,           // gain applied to the smoothed position field
    orientationGain: int         // gain applied to the smoothed orientation field
  )

  /** The values the package ships with. */
  function DefaultConfig(): Config {
    Config(15, 9, 3, 60, 3)
  }
}
