/** What several modules share about optional values and sequences. */
module Common {

  datatype Option<+T> = None | Some(value: T)

  /** The pieces one after the other. */
  function Concat<T>(pieces: seq<seq<T>>): seq<T> {
    if pieces == [] then [] else Concat(pieces[..|pieces| - 1]) + pieces[|pieces| - 1]
  }

  lemma {:induction false} ConcatCons<T>(piece: seq<T>, pieces: seq<seq<T>>)
    ensures Concat([piece] + pieces) == piece + Concat(pieces)
    decreases |pieces|
  {
    var all := [piece] + pieces;
    if pieces == [] {
      assert all == [piece] && all[..0] == [];
    } else {
      var n := |pieces| - 1;
      assert all[..|all| - 1] == [piece] + pieces[..n] && all[|all| - 1] == pieces[n];
      ConcatCons(piece, pieces[..n]);
      Regroup(piece, Concat(pieces[..n]), pieces[n]);
    }
  }

  lemma Regroup<T>(x: seq<T>, y: seq<T>, z: seq<T>)
    ensures (x + y) + z == x + (y + z)
  {}
}
