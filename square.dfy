/** Board coordinates (square.py). */
module Squares {

  /** A (row, column) pair. Off-board values can be built, exactly as in the source;
      only `IsValid` squares have a name and may be used as board keys. */
  datatype Square = Square(row: int, column: int) {

    /** Both coordinates lie in 0..7: exactly the squares the two name tables cover. */
    predicate IsValid()
      ensures IsValid() <==> 0 <= row < |Ranks| && 0 <= column < |Files|
    {
      0 <= row < 8 && 0 <= column < 8
    }

    /** The algebraic name: the file letter looked up by column, then the rank digit
        looked up by row. An off-board square is missing from both tables. */
    function ToString(): (name: string)
      requires IsValid()
      ensures |name| == 2
    {
      [Files[column], Ranks[row]]
    }
  }

  /** The two lookup tables of the source, indexed 0..7. */
  const Files: string := "abcdefgh"
  const Ranks: string := "12345678"

  /** The source's `__eq__`: rows and columns compared one by one. */
  function Equals(a: Square, b: Square): (eq: bool)
    ensures eq <==> a == b
  {
    a.row == b.row && a.column == b.column
  }

  /** The name is the file letter 'a' + column followed by the rank digit '1' + row. */
  lemma ToStringSpelling(s: Square)
    requires s.IsValid()
    ensures s.ToString() == [('a' as int + s.column) as char, ('1' as int + s.row) as char]
  {
    assert Files == ['a', 'b', 'c', 'd', 'e', 'f', 'g', 'h'];
    assert Ranks == ['1', '2', '3', '4', '5', '6', '7', '8'];
    var c, r := s.column, s.row;
    assert Files[c] == ('a' as int + c) as char by {
      if c == 0 {} else if c == 1 {} else if c == 2 {} else if c == 3 {}
      else if c == 4 {} else if c == 5 {} else if c == 6 {} else {}
    }
    assert Ranks[r] == ('1' as int + r) as char by {
      if r == 0 {} else if r == 1 {} else if r == 2 {} else if r == 3 {}
      else if r == 4 {} else if r == 5 {} else if r == 6 {} else {}
    }
  }

  /** Distinct valid squares have distinct names. */
  lemma ToStringInjective(a: Square, b: Square)
    requires a.IsValid() && b.IsValid()
    ensures a.ToString() == b.ToString() <==> a == b
  {
    ToStringSpelling(a);
    ToStringSpelling(b);
    if a.ToString() == b.ToString() {
      assert a.ToString()[0] == b.ToString()[0];
      assert a.ToString()[1] == b.ToString()[1];
    }
  }
}
