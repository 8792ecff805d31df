/** Error kinds raised by the statistics and light-curve routines, and the
    failure-carrying result types the model uses in place of C++ exceptions.
 */
module Errors {

  /** The exceptions the modelled routines throw, as kinds.
      - NotEnoughData: a statistic was asked of too few elements
        (kpfutils::except::NotEnoughData, a std::invalid_argument);
      - InvalidArgument: a parameter outside its domain (std::invalid_argument);
      - NoValidTimes: a date filter left no observation (kpfutils::except::NoValidTimes);
      - LengthError: an empty vector passed to vecToArr (std::length_error);
      - FileIo: the input stream reported an error (kpfutils::except::FileIo).
   */
  datatype Error = NotEnoughData | InvalidArgument | NoValidTimes | LengthError | FileIo

  /** A value, or the error that prevented computing it. */
  datatype Result<T> = Success(value: T) | Failure(error: Error)

  /** Success or the error of an operation whose effect is on its in/out parameters. */
  datatype Outcome = Pass | Fail(error: Error)
}
