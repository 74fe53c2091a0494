/** The four safety classes and their order. */
module Safety {

  datatype SafetyClass = Advisory | Standard | High | Critical

  function Rank(c: SafetyClass): int {
    match c
    case Advisory => 0
    case Standard => 1
    case High => 2
    case Critical => 3
  }
}
