/** The six analysis modes the application offers, by the ids it uses for them. */
module Modes {
  import opened Wrappers

  const REVIEW := "review"
  const EXPLAIN := "explain"
  const BUGS := "bugs"
  const LINE_BY_LINE := "lineByLine"
  const COMPARE := "compare"
  const REFACTOR := "refactor"

  /** All mode ids, in the order the mode selector lists them. */
  const ALL: seq<string> := [REVIEW, EXPLAIN, BUGS, LINE_BY_LINE, COMPARE, REFACTOR]

  datatype Mode = Review | Explain | Bugs | LineByLine | Compare | Refactor

  /** The id a mode is selected and stored by. */
  function Id(m: Mode): (id: string)
    ensures id in ALL
  {
    match m
    case Review => REVIEW
    case Explain => EXPLAIN
    case Bugs => BUGS
    case LineByLine => LINE_BY_LINE
    case Compare => COMPARE
    case Refactor => REFACTOR
  }

  /** The mode an id names, if it names one. */
  function Parse(id: string): (r: Option<Mode>)
    ensures r.Some? ==> Id(r.value) == id
    ensures r.None? <==> id !in ALL
  {
    if id == REVIEW then Some(Review)
    else if id == EXPLAIN then Some(Explain)
    else if id == BUGS then Some(Bugs)
    else if id == LINE_BY_LINE then Some(LineByLine)
    else if id == COMPARE then Some(Compare)
    else if id == REFACTOR then Some(Refactor)
    else None
  }

  /** Every mode is read back from its id: the ids are pairwise distinct. */
  lemma ParseId(m: Mode)
    ensures Parse(Id(m)) == Some(m)
  {
    assert REVIEW[0] == 'r' && EXPLAIN[0] == 'e' && BUGS[0] == 'b';
    assert LINE_BY_LINE[0] == 'l' && COMPARE[0] == 'c' && REFACTOR[0] == 'r';
    assert REFACTOR[2] == 'f' && REVIEW[2] == 'v';
  }
}
