/** Substring search and Python's leftmost, non-overlapping `str.replace`. */
module Text {

  predicate OccursAt(needle: string, hay: string, i: int) {
    0 <= i <= |hay| - |needle| && hay[i..i + |needle|] == needle
  }

  predicate Occurs(needle: string, hay: string) {
    exists i :: 0 <= i <= |hay| && OccursAt(needle, hay, i)
  }

  /** `hay.replace(needle, mask)` for a non-empty needle: scan left to right. */
  function Replace(hay: string, needle: string, mask: string): string
    requires needle != ""
  {
    if |hay| < |needle| then hay
    else if needle <= hay then mask + Replace(hay[|needle|..], needle, mask)
    else [hay[0]] + Replace(hay[1..], needle, mask)
  }
}
