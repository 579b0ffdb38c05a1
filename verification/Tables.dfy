/** Tables of pointers to records of boards: the library's idx table and its handle table. */
module Tables {
  import opened Wrappers
  import opened Bits
  import opened Counting

  /** What a slot holds for a board. */
  datatype Record<+T> = Record(board: Word, data: T)

  function FindFrom<T>(t: seq<Option<Record<T>>>, board: Word, from: nat): (n: nat)
    requires from <= |t|
    ensures from <= n <= |t|
    ensures n < |t| ==> t[n].Some? && t[n].value.board == board
    ensures forall i | from <= i < n && t[i].Some? :: t[i].value.board != board
  {
    FirstFrom(t, (x: Option<Record<T>>) => x.Some? && x.value.board == board, from)
  }

  /** The first slot that holds the board; |t| when there is none. */
  function FindBoard<T>(t: seq<Option<Record<T>>>, board: Word): (n: nat)
    ensures n <= |t|
    ensures n < |t| ==> t[n].Some? && t[n].value.board == board
    ensures forall i | 0 <= i < n && t[i].Some? :: t[i].value.board != board
  {
    FindFrom(t, board, 0)
  }

  /** Every slot of the board emptied. */
  function DropBoard<T>(t: seq<Option<Record<T>>>, board: Word): (r: seq<Option<Record<T>>>)
    ensures |r| == |t|
    ensures forall i | 0 <= i < |t| :: r[i] == if t[i].Some? && t[i].value.board == board then None else t[i]
  {
    seq(|t|, i requires 0 <= i < |t| => if t[i].Some? && t[i].value.board == board then None else t[i])
  }
}
