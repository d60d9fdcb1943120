/** The rows of the `vranges` table, and the boundary rules that decide when two of them meet. */
module Ranges {

  datatype Option<+T> = None | Some(value: T)

  /** Public keys are opaque; NO_KEY is the empty string a request may carry instead of one. */
  type Key = nat

  const NO_KEY: Key := 0

  const GENESIS_TIP: string := "6fe28c0ab6f1b372c1a6a246ae63f74f931e8365e15a089c68d6190000000000"

  /** The bounds of a range, inclusive. Its canonical id ('N' or 'lo-hi') is the same thing as text. */
  datatype Span = Span(lo: int, hi: int)
  {
    function Width(): int {
      hi - lo + 1
    }

    predicate Has(h: int) {
      lo <= h <= hi
    }
  }

  /** One verified range. A boundary digest can be NULL (a row from before the column existed), the
      work can be NULL or unreadable (both None), and so can the leaf count. */
  datatype VRow = VRow(lo: int, hi: int, inTip: string, outTip: string,
                       inDigest: Option<string>, outDigest: Option<string>,
                       work: Option<int>, leaves: Option<int>, pubkey: Key, ts: real)
  {
    function Work(): int {
      if work.Some? then work.value else 0
    }

    function Leaves(): int {
      if leaves.Some? then leaves.value else 0
    }

    predicate Covers(h: int) {
      lo <= h <= hi
    }

    /** A range without an in-boundary digest cannot be chained (F3). */
    predicate Chainable() {
      inDigest.Some? && inDigest.value != ""
    }

    predicate GenesisAnchored() {
      inTip == GENESIS_TIP && lo == 1
    }
  }

  /** Python's str() of a nullable text column, which is how the two digests are compared. */
  function Str(s: Option<string>): string {
    if s.Some? then s.value else "None"
  }

  /** What submit guarantees of every row it stores. */
  predicate WellFormedRow(r: VRow) {
    1 <= r.lo <= r.hi
  }

  predicate WellFormedRows(rows: seq<VRow>) {
    forall i :: 0 <= i < |rows| ==> WellFormedRow(rows[i])
  }

  predicate CoveredBy(rows: seq<VRow>, h: int) {
    exists i :: 0 <= i < |rows| && rows[i].Covers(h)
  }
}
