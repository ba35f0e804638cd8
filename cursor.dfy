/**
 * The wrap-around arithmetic that both players' `nextSong` and `prevSong` use
 * to move the cursor over the list in view.
 */
module Cursor {
  import opened JsText

  /** `(currentIndex + 1) % songs.length`, with JavaScript's truncating `%`. */
  function NextIndex(i: int, n: int): (r: int)
    requires n > 0
    ensures i >= -1 ==> 0 <= r < n
    ensures 0 <= i < n ==> r == if i == n - 1 then 0 else i + 1
  {
    JsRem(i + 1, n)
  }

  /** `(currentIndex - 1 + songs.length) % songs.length`, with JavaScript's truncating `%`. */
  function PrevIndex(i: int, n: int): (r: int)
    requires n > 0
    ensures i >= -1 ==> 0 <= r < n
    ensures 0 <= i < n ==> r == if i == 0 then n - 1 else i - 1
  {
    JsRem(i - 1 + n, n)
  }

  /** Stepping back undoes stepping forward, and the other way round, on an in-range cursor. */
  lemma PrevUndoesNext(i: int, n: int)
    requires 0 <= i < n
    ensures PrevIndex(NextIndex(i, n), n) == i
    ensures NextIndex(PrevIndex(i, n), n) == i
  {
  }

  /** With one song both directions land on index 0, from any cursor the players can hold. */
  lemma SingleSongCursor(i: int)
    requires i >= -1
    ensures NextIndex(i, 1) == 0 && PrevIndex(i, 1) == 0
  {
  }

  /** From the "nothing selected" cursor -1, `nextSong` lands on the first song. */
  lemma NextFromUnselected(n: int)
    requires n > 0
    ensures NextIndex(-1, n) == 0
    ensures PrevIndex(-1, n) == if n == 1 then 0 else n - 2
  {
  }
}
