/**
 Slot ranges as words of a node's line: printed by the cluster description and
 read back by the configuration loader.
 */
module SlotText {
  import opened Decimal
  import opened SlotRanges

  /** "5" for one slot, "5-9" for several. */
  function ShowRange(r: Range): bytes {
    if r.lo == r.hi then Print(r.lo) else Print(r.lo) + [MINUS] + Print(r.hi)
  }

  /** strchr: the first position of a byte, or the length. */
  function IndexOf(s: bytes, b: byte): (i: nat)
    ensures i <= |s| && (i < |s| ==> s[i] == b) && forall j | 0 <= j < i :: s[j] != b
  {
    if s == [] || s[0] == b then 0 else 1 + IndexOf(s[1..], b)
  }

  /** The first and the last slot a word stands for. */
  function ReadRange(word: bytes): (int, int) {
    var i := IndexOf(word, MINUS);
    if i == |word| then (Parse(word), Parse(word)) else (Parse(word[..i]), Parse(word[i + 1..]))
  }

  /** A printed range is read back. */
  lemma ShowReads(r: Range)
    requires r.lo <= r.hi
    ensures ReadRange(ShowRange(r)) == (r.lo as int, r.hi as int)
  {
    var word, first, last := ShowRange(r), Print(r.lo), Print(r.hi);
    PrintParse(r.lo, []);
    PrintParse(r.hi, []);
    assert first + [] == first && last + [] == last;
    if r.lo != r.hi {
      assert forall j | 0 <= j < |first| :: word[j] == first[j] && IsDigit(first[j]);
      assert word[|first|] == MINUS;
      assert IndexOf(word, MINUS) == |first|;
      assert word[..|first|] == first && word[|first| + 1..] == last;
    } else {
      assert word == first;
      assert forall j | 0 <= j < |word| :: word[j] != MINUS;
    }
  }
}
