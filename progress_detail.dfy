/**
 * The progress record detail: the photo viewer, which steps through the record's photos with
 * wrap-around, its measurements (read by `MeasurementsOf`), and its notes, one paragraph per line.
 */
module ProgressDetail {
  import opened Js
  import opened Text
  import opened Progress

  /** `nextPhoto` on an index among `n` photos: from the last back to the first, otherwise one on. */
  function NextIndex(i: int, n: int): (j: int)
    ensures 0 <= i < n ==> 0 <= j < n && j == (i + 1) % n
  {
    if i == n - 1 then 0 else i + 1
  }

  /** `prevPhoto`: from the first to the last, otherwise one back. */
  function PrevIndex(i: int, n: int): (j: int)
    ensures 0 <= i < n ==> 0 <= j < n && j == (i - 1 + n) % n
  {
    if i == 0 then n - 1 else i - 1
  }

  /** Stepping back undoes stepping on, and stepping on undoes stepping back. */
  lemma NextPrevInverse(i: int, n: int)
    requires 0 <= i < n
    ensures PrevIndex(NextIndex(i, n), n) == i
    ensures NextIndex(PrevIndex(i, n), n) == i
  {
  }

  /** The index after `k` steps on. */
  function Steps(i: int, n: int, k: nat): int {
    if k == 0 then i else NextIndex(Steps(i, n, k - 1), n)
  }

  /** Away from the last photo, `k` steps on move the index `k` places. */
  lemma {:induction false} StepsAdvance(i: int, n: int, k: nat)
    requires 0 <= i && i + k < n
    ensures Steps(i, n, k) == i + k
  {
    if k > 0 {
      StepsAdvance(i, n, k - 1);
    }
  }

  /** Stepping `a` times and then `b` times is stepping `a + b` times. */
  lemma {:induction false} StepsCompose(i: int, n: int, a: nat, b: nat)
    ensures Steps(i, n, a + b) == Steps(Steps(i, n, a), n, b)
  {
    if b > 0 {
      StepsCompose(i, n, a, b - 1);
    }
  }

  /** Stepping on once per photo comes back to the photo the viewer started on. */
  lemma FullCircle(i: int, n: int)
    requires 0 <= i < n
    ensures Steps(i, n, n) == i
  {
    StepsAdvance(i, n, n - 1 - i);
    StepsCompose(i, n, n - 1 - i, i + 1);
    StepsCompose(n - 1, n, 1, i);
    assert Steps(n - 1, n, 1) == 0;
    StepsAdvance(0, n, i);
  }

  /** The photo modal: which photo it shows, whether it is open, and how many photos the record has. */
  class PhotoViewer {
    var activePhotoIndex: int
    var showPhotoModal: bool
    var photoCount: int

    /** The state the detail page starts with for a record with `photoCount` photos. */
    constructor(photoCount: nat)
      ensures activePhotoIndex == 0 && !showPhotoModal && this.photoCount == photoCount
      ensures photoCount > 0 ==> Valid()
    {
      activePhotoIndex := 0;
      showPhotoModal := false;
      this.photoCount := photoCount;
    }

    /** The index stays on a photo of the record. */
    predicate Valid()
      reads this
    {
      0 <= activePhotoIndex < photoCount
    }

    /** `openPhotoModal`: shows the photo at `index`. */
    method OpenPhotoModal(index: int)
      modifies this
      ensures activePhotoIndex == index && showPhotoModal && photoCount == old(photoCount)
      ensures Valid() <==> 0 <= index < photoCount
    {
      activePhotoIndex := index;
      showPhotoModal := true;
    }

    /** `closePhotoModal`: hides the modal and keeps the index. */
    method ClosePhotoModal()
      modifies this
      ensures !showPhotoModal && activePhotoIndex == old(activePhotoIndex) && photoCount == old(photoCount)
    {
      showPhotoModal := false;
    }

    /** `nextPhoto`. */
    method NextPhoto()
      modifies this
      ensures activePhotoIndex == NextIndex(old(activePhotoIndex), photoCount)
      ensures showPhotoModal == old(showPhotoModal) && photoCount == old(photoCount)
      ensures old(Valid()) ==> Valid()
    {
      activePhotoIndex := if activePhotoIndex == photoCount - 1 then 0 else activePhotoIndex + 1;
    }

    /** `prevPhoto`. */
    method PrevPhoto()
      modifies this
      ensures activePhotoIndex == PrevIndex(old(activePhotoIndex), photoCount)
      ensures showPhotoModal == old(showPhotoModal) && photoCount == old(photoCount)
      ensures old(Valid()) ==> Valid()
    {
      activePhotoIndex := if activePhotoIndex == 0 then photoCount - 1 else activePhotoIndex - 1;
    }
  }

  /** `progress.notes.split('\n')`, rendered only for non-empty notes. */
  function NoteParagraphs(notes: string): (lines: seq<string>)
    ensures notes == "" <==> lines == []
    ensures forall k :: 0 <= k < |lines| ==> '\n' !in lines[k]
  {
    if notes == "" then [] else Split(notes, '\n')
  }

  /** How many times `c` occurs in `s`. */
  function Occurrences(s: string, c: char): nat {
    if s == [] then 0 else (if s[0] == c then 1 else 0) + Occurrences(s[1..], c)
  }

  /** The paragraphs put back together with line breaks are the notes, blank lines included. */
  lemma ParagraphsRejoin(notes: string)
    requires notes != ""
    ensures Join(NoteParagraphs(notes), '\n') == notes
  {
    JoinSplit(notes, '\n');
  }

  /** There is one paragraph more than there are line breaks. */
  lemma {:induction false} ParagraphCount(s: string)
    ensures |Split(s, '\n')| == Occurrences(s, '\n') + 1
  {
    if s != [] {
      ParagraphCount(s[1..]);
    }
  }
}
