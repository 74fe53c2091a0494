/** Half-open validity windows, possibly without an end. */
module Validity {
  import opened Prelude

  datatype Window = Window(from: int, until: Option<int>)

  predicate ActiveAt(w: Window, now: int) {
    w.from <= now && (w.until.Some? ==> now < w.until.value)
  }

  /** The end, when there is one, is after the start. */
  predicate WindowOk(w: Window) {
    w.until.Some? ==> w.from < w.until.value
  }
}
