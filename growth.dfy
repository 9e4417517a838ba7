/**
 The series behind the growth chart: one point per day on which questions
 were logged, days in ascending order, each with the number of questions
 logged that day.
 */
module Growth {
  import opened Records
  import opened Order
  import opened Stats

  /** The `dataMap` / `labels` / `data` part of `initChart`: count the
      questions per date, sort the dates, and look each one up. */
  method GrowthSeries(qs: seq<Question>) returns (labels: seq<string>, data: seq<nat>)
    ensures Ascending(labels)
    ensures forall d :: d in labels <==> d in KeySet(qs, ByDate)
    ensures |data| == |labels|
    ensures forall i :: 0 <= i < |labels| ==> data[i] == Count(qs, ByDate, labels[i]) > 0
    ensures Sum(data) == |qs|
  {
    var dataMap, keys := Tally(qs, ByDate);
    labels := Sort(keys);
    SortSameElements(keys);
    data := Lookup(labels, dataMap);
    LookupSum(labels, dataMap);
    forall i | 0 <= i < |labels| ensures Count(qs, ByDate, labels[i]) > 0 {
      CountPositive(qs, ByDate, labels[i]);
    }
  }

  /** The chart's labels are fixed by the set of dates alone: any strictly
      ascending list of exactly those dates is the one drawn, whatever order
      the questions were logged in. */
  lemma LabelsDetermined(qs: seq<Question>, qs': seq<Question>, labels: seq<string>, labels': seq<string>)
    requires KeySet(qs, ByDate) == KeySet(qs', ByDate)
    requires Ascending(labels) && forall d :: d in labels <==> d in KeySet(qs, ByDate)
    requires Ascending(labels') && forall d :: d in labels' <==> d in KeySet(qs', ByDate)
    ensures labels == labels'
  {
    AscendingUnique(labels, labels');
  }
}
