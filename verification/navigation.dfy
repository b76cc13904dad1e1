/**
  Index rules shared by both globe variants: the previous/next wrap-around
  of `navigateToLocation` and the `findIndex` lookup of a marker by its id.
 */
module Navigation {

  /**
    The index clamp at the top of `navigateToLocation`: below zero wraps to
    the last entry, at or past the end wraps to the first. With no entries a
    negative index stays `-1` and any other index becomes `0`.
   */
  function WrapIndex(index: int, length: nat): (r: int)
    ensures length > 0 ==> 0 <= r < length
    ensures length > 0 && index < 0 ==> r == length - 1
    ensures index >= length ==> r == 0
    ensures 0 <= index < length ==> r == index
    ensures length == 0 ==> r == (if index < 0 then -1 else 0)
  {
    var clamped := if index < 0 then length - 1 else index;
    if clamped >= length then 0 else clamped
  }

  /** "Next" from a valid index is the successor modulo the length. */
  lemma NextIsSuccessorModulo(index: int, length: nat)
    requires 0 <= index < length
    ensures WrapIndex(index + 1, length) == (index + 1) % length
  {
    if index + 1 == length {
      assert (index + 1) % length == 0;
    }
  }

  /** "Previous" from a valid index is the predecessor modulo the length. */
  lemma PreviousIsPredecessorModulo(index: int, length: nat)
    requires 0 <= index < length
    ensures WrapIndex(index - 1, length) == (index - 1) % length
  {
    if index == 0 {
      assert (index - 1) % length == length - 1;
    }
  }

  /** Going to the next entry and then back to the previous one returns to the start. */
  lemma {:induction false} PreviousUndoesNext(index: int, length: nat)
    requires 0 <= index < length
    ensures WrapIndex(WrapIndex(index + 1, length) - 1, length) == index
  {
    NextIsSuccessorModulo(index, length);
  }

  /** Going to the previous entry and then forward again returns to the start. */
  lemma {:induction false} NextUndoesPrevious(index: int, length: nat)
    requires 0 <= index < length
    ensures WrapIndex(WrapIndex(index - 1, length) + 1, length) == index
  {
    PreviousIsPredecessorModulo(index, length);
  }

  /** `ids.findIndex(x => x === id)`: the first position holding `id`, or `-1`. */
  function FindIndex(ids: seq<string>, id: string): (r: int)
    ensures r == -1 <==> id !in ids
    ensures r != -1 ==> 0 <= r < |ids| && ids[r] == id
    ensures forall j :: 0 <= j < r ==> ids[j] != id
    decreases |ids|
  {
    if |ids| == 0 then -1
    else if ids[0] == id then 0
    else
      var rest := FindIndex(ids[1..], id);
      if rest == -1 then -1 else rest + 1
  }

  predicate Distinct(ids: seq<string>) {
    forall i, j :: 0 <= i < j < |ids| ==> ids[i] != ids[j]
  }

  /** With distinct ids, looking up the id stored at `k` finds `k` again. */
  lemma FindIndexOfDistinct(ids: seq<string>, k: nat)
    requires Distinct(ids)
    requires k < |ids|
    ensures FindIndex(ids, ids[k]) == k
  {
  }
}
