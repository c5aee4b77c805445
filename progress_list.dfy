/**
 * The table of progress records: newest first, cut to an optional limit, with an empty state and
 * a "view all" button.
 */
module ProgressList {
  import opened Js
  import opened Seqs
  import opened Progress

  /** `limit ? sortedData.slice(0, limit) : sortedData`; an absent limit is None. */
  function DisplayData(data: seq<ProgressRecord>, limit: Option<int>): (shown: seq<ProgressRecord>)
    ensures forall i, j :: 0 <= i < j < |shown| ==> shown[j].recordDate <= shown[i].recordDate
    ensures IntOr(limit, 0) == 0 ==> multiset(shown) == multiset(data)
    ensures IntOr(limit, 0) != 0 ==> |shown| == SliceEnd(|data|, limit.value)
    ensures forall x :: x in shown ==> x in data
    ensures multiset(shown) <= multiset(data)
    ensures forall k :: KeyClass(shown, NegRecordDate, k) <= KeyClass(data, NegRecordDate, k)
    ensures IntOr(limit, 0) == 0 ==> SameKeyClasses(shown, data, NegRecordDate)
  {
    var sorted := SortBy(data, NegRecordDate);
    var shown := if IntOr(limit, 0) != 0 then sorted[..SliceEnd(|sorted|, limit.value)] else sorted;
    DisplayFacts(data, sorted, shown);
    shown
  }

  lemma DisplayFacts(data: seq<ProgressRecord>, sorted: seq<ProgressRecord>, shown: seq<ProgressRecord>)
    requires sorted == SortBy(data, NegRecordDate) && |shown| <= |sorted| && shown == sorted[..|shown|]
    ensures forall i, j :: 0 <= i < j < |shown| ==> shown[j].recordDate <= shown[i].recordDate
    ensures forall x :: x in shown ==> x in data
    ensures multiset(shown) <= multiset(data)
    ensures forall k :: KeyClass(shown, NegRecordDate, k) <= KeyClass(data, NegRecordDate, k)
    ensures shown == sorted ==> SameKeyClasses(shown, data, NegRecordDate)
  {
    SortByMembers(data, NegRecordDate);
    assert forall i, j :: 0 <= i < j < |sorted| ==> NegRecordDate(sorted[i]) <= NegRecordDate(sorted[j]);
    assert forall x :: x in shown ==> x in sorted;
    SortedPrefixClasses(data, NegRecordDate, |shown|);
    SortByStable(data, NegRecordDate);
  }

  /** A positive limit shows the newest `limit` records: every record left out is no newer than every one shown. */
  lemma LimitKeepsNewest(data: seq<ProgressRecord>, limit: int)
    requires limit > 0
    ensures |DisplayData(data, Some(limit))| == if limit <= |data| then limit else |data|
    ensures forall i, j :: 0 <= i < |DisplayData(data, Some(limit))| <= j < |SortBy(data, NegRecordDate)| ==>
      SortBy(data, NegRecordDate)[j].recordDate <= DisplayData(data, Some(limit))[i].recordDate
  {
    var sorted := SortBy(data, NegRecordDate);
    assert forall i, j :: 0 <= i < j < |sorted| ==> NegRecordDate(sorted[i]) <= NegRecordDate(sorted[j]);
  }

  /** The empty state shows when there is nothing to display: with no records, or a limit that cuts everything. */
  lemma EmptyStateIff(data: seq<ProgressRecord>, limit: Option<int>)
    ensures DisplayData(data, limit) == [] <==>
      data == [] || (IntOr(limit, 0) != 0 && SliceEnd(|data|, limit.value) == 0)
  {
    if IntOr(limit, 0) == 0 && data != [] {
      assert data[0] in multiset(data);
    }
  }

  /** `showViewAll && data.length > limit`; comparing with an absent limit is false. */
  predicate ShowViewAll(showViewAll: bool, data: seq<ProgressRecord>, limit: Option<int>) {
    showViewAll && limit.Some? && |data| > limit.value
  }

  /** For a positive limit, the button shows exactly when the table leaves records out. */
  lemma ViewAllIffHidden(data: seq<ProgressRecord>, limit: int)
    requires limit > 0
    ensures ShowViewAll(true, data, Some(limit)) <==> |DisplayData(data, Some(limit))| < |data|
  {
  }
}
