/** Decimal digits in file names and timestamps. */
module Digits {
  predicate IsDigit(c: char) { '0' <= c <= '9' }
}
