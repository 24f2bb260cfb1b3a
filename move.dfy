/** A move from one square to another (move.py). */
module Moves {
  import opened Squares

  datatype Move = Move(start: Square, end: Square) {

    /** "From: <start>, To: <end>"; both squares need a name. */
    function ToString(): (text: string)
      requires start.IsValid() && end.IsValid()
      ensures |text| == 16
    {
      "From: " + start.ToString() + ", To: " + end.ToString()
    }
  }

  /** The text shows where the two square names sit. */
  lemma ToStringLayout(m: Move)
    requires m.start.IsValid() && m.end.IsValid()
    ensures m.ToString()[..6] == "From: "
    ensures m.ToString()[6..8] == m.start.ToString()
    ensures m.ToString()[8..14] == ", To: "
    ensures m.ToString()[14..] == m.end.ToString()
  {
  }

  /** Two moves between valid squares print alike only if they are the same move. */
  lemma ToStringInjective(a: Move, b: Move)
    requires a.start.IsValid() && a.end.IsValid()
    requires b.start.IsValid() && b.end.IsValid()
    ensures a.ToString() == b.ToString() <==> a == b
  {
    if a.ToString() == b.ToString() {
      ToStringLayout(a);
      ToStringLayout(b);
      Squares.ToStringInjective(a.start, b.start);
      Squares.ToStringInjective(a.end, b.end);
    }
  }
}
