/** The numbers of the signals that are read from descriptors. */
module Signals {
  const SIGTERM := 15
}
