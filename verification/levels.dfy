/** Severity levels of log messages.

    The source declares `LogLevel` as a C++ `enum class` whose underlying type
    is `int`. Its four enumerators take the values 0..3 in declaration order and
    relational operators compare those underlying values. Any other `int` can
    still be forced into the type by a cast, which is why the name mapping keeps
    a fallback; the model therefore carries the whole 32-bit range. */
module Levels {

  newtype LogLevel = x: int | -0x8000_0000 <= x < 0x8000_0000

  const DEBUG: LogLevel := 0
  const INFO: LogLevel := 1
  const WARNING: LogLevel := 2
  const ERROR: LogLevel := 3

  /** The four enumerators, in declaration order. */
  const Named: seq<LogLevel> := [DEBUG, INFO, WARNING, ERROR]

  /** Whether `l` is one of the four declared enumerators. */
  predicate IsNamed(l: LogLevel) {
    DEBUG <= l <= ERROR
  }

  /** Whether a message at `level` gets past a minimum of `min`: only a level
      strictly below the minimum is dropped. */
  predicate Passes(level: LogLevel, min: LogLevel) {
    !(level < min)
  }

  /** The declaration order is a strict total order, DEBUG lowest, and the
      enumerators are exactly the named values. */
  lemma DeclarationOrder()
    ensures forall i, j :: 0 <= i < j < |Named| ==> Named[i] < Named[j]
    ensures forall l :: IsNamed(l) <==> l in Named
  {
  }

  /** Filtering is monotone: raising the minimum never lets more through, and
      every level passes a DEBUG minimum when it is a named level. */
  lemma PassesMonotone(level: LogLevel, lo: LogLevel, hi: LogLevel)
    requires lo <= hi
    ensures Passes(level, hi) ==> Passes(level, lo)
    ensures IsNamed(level) ==> Passes(level, DEBUG)
    ensures Passes(level, level)
  {
  }

  /** The name written into a log record; values outside the enumerators
      render as UNKNOWN. */
  function LevelToString(l: LogLevel): (name: string)
    ensures IsNamed(l) <==> name != "UNKNOWN"
    ensures 0 < |name| && ']' !in name && ':' !in name
  {
    if l == DEBUG then "DEBUG"
    else if l == INFO then "INFO"
    else if l == WARNING then "WARNING"
    else if l == ERROR then "ERROR"
    else "UNKNOWN"
  }

  /** Distinct enumerators get distinct names, so a record's name identifies
      its level. */
  lemma LevelToStringInjective(a: LogLevel, b: LogLevel)
    requires IsNamed(a) && IsNamed(b)
    ensures LevelToString(a) == LevelToString(b) <==> a == b
  {
  }
}
