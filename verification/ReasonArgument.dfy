/** The argument every tool that may ask for approval takes besides its own, and its bound. */
module ReasonArgument {
  const REASON := "reason"
  const MAX_REASON := 2000
}
