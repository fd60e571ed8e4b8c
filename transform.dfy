/**
 The conversion of one host update into the gallery's view model: each row of
 the table becomes one data point, in row order, carrying the row's image-URL
 cell (when that column is bound) and the selection id issued for that row.
 */
module Transformation {
  import opened ViewModel

  /**
   What one update delivers, as the visual sees it after the host's helpers
   have run: whether the data views passed the validity test, the rows of the
   first data view's table, the position of the "imageUrl" column (None when
   no column is bound to that role), and the selection ids, one per row.
   */
  datatype UpdateOptions<Id> = UpdateOptions(
    hasValidDataViews: bool,
    rows: seq<Row>,
    imageUrlIndex: Option<nat>,
    selectionIds: seq<Id>)

  /** The host issues a selection id for every row of a valid table. */
  predicate WellFormed<Id>(o: UpdateOptions<Id>) {
    o.hasValidDataViews ==> |o.rows| <= |o.selectionIds|
  }

  /** The image location of a row: its cell in the bound column; a read past
      the end of the row yields nothing, as an out-of-range array read does. */
  function ImageUrlOf(row: Row, imageUrlIndex: Option<nat>): Option<string> {
    match imageUrlIndex
    case None => None
    case Some(column) => if column < |row| then row[column] else None
  }

  /** The data points of the given rows, built from the last row backwards so
      that the definition follows a loop that appends one row at a time. */
  function PointsOf<Id>(rows: seq<Row>, imageUrlIndex: Option<nat>, selectionIds: seq<Id>): seq<DataPoint<Id>>
    requires |rows| <= |selectionIds|
    decreases |rows|
  {
    if rows == [] then []
    else
      var last := |rows| - 1;
      PointsOf(rows[..last], imageUrlIndex, selectionIds)
        + [DataPoint(ImageUrlOf(rows[last], imageUrlIndex), selectionIds[last])]
  }

  /** The view model of one update: empty for invalid data views. */
  function Transform<Id>(o: UpdateOptions<Id>): VisualViewModel<Id>
    requires WellFormed(o)
  {
    if !o.hasValidDataViews then VisualViewModel([])
    else VisualViewModel(PointsOf(o.rows, o.imageUrlIndex, o.selectionIds))
  }

  /** Point i of the gallery is built from row i and selection id i alone. */
  lemma {:induction false} PointsOfAt<Id>(rows: seq<Row>, imageUrlIndex: Option<nat>, selectionIds: seq<Id>)
    requires |rows| <= |selectionIds|
    ensures |PointsOf(rows, imageUrlIndex, selectionIds)| == |rows|
    ensures forall i :: 0 <= i < |rows| ==>
      PointsOf(rows, imageUrlIndex, selectionIds)[i] == DataPoint(ImageUrlOf(rows[i], imageUrlIndex), selectionIds[i])
  {
    if rows != [] {
      var last := |rows| - 1;
      PointsOfAt(rows[..last], imageUrlIndex, selectionIds);
    }
  }

  /** Invalid data views give an empty gallery; a valid table gives one point
      per row, in row order, each from its own row and selection id. */
  lemma {:induction false} TransformFollowsRows<Id>(o: UpdateOptions<Id>)
    requires WellFormed(o)
    ensures !o.hasValidDataViews ==> Transform(o).dataPoints == []
    ensures o.hasValidDataViews ==>
      && |Transform(o).dataPoints| == |o.rows|
      && forall i :: 0 <= i < |o.rows| ==>
           Transform(o).dataPoints[i] == DataPoint(ImageUrlOf(o.rows[i], o.imageUrlIndex), o.selectionIds[i])
  {
    if o.hasValidDataViews {
      PointsOfAt(o.rows, o.imageUrlIndex, o.selectionIds);
    }
  }

  /** With no column bound to the image-URL role, no point has an image. */
  lemma {:induction false} UnboundColumnGivesNoImages<Id>(o: UpdateOptions<Id>)
    requires WellFormed(o)
    requires o.imageUrlIndex == None
    ensures forall i :: 0 <= i < |Transform(o).dataPoints| ==> Transform(o).dataPoints[i].imageUrl == None
  {
    TransformFollowsRows(o);
  }

  /** With a bound column, each point's image is its row's cell in that column. */
  lemma {:induction false} BoundColumnGivesCells<Id>(o: UpdateOptions<Id>, column: nat, i: nat)
    requires WellFormed(o) && o.hasValidDataViews
    requires o.imageUrlIndex == Some(column)
    requires i < |o.rows| && column < |o.rows[i]|
    ensures i < |Transform(o).dataPoints|
    ensures Transform(o).dataPoints[i].imageUrl == o.rows[i][column]
  {
    TransformFollowsRows(o);
  }

  /**
   visualTransform: return the empty model for invalid data views; otherwise
   resolve the image-URL column once and push one data point per row.
   */
  method VisualTransform<Id>(o: UpdateOptions<Id>) returns (vm: VisualViewModel<Id>)
    requires WellFormed(o)
    ensures vm == Transform(o)
    ensures !o.hasValidDataViews ==> vm.dataPoints == []
    ensures o.hasValidDataViews ==>
      && |vm.dataPoints| == |o.rows|
      && forall i :: 0 <= i < |o.rows| ==>
           vm.dataPoints[i] == DataPoint(ImageUrlOf(o.rows[i], o.imageUrlIndex), o.selectionIds[i])
  {
    if !o.hasValidDataViews {
      return VisualViewModel([]);
    }
    var imageUrlIndex := o.imageUrlIndex;
    var points: seq<DataPoint<Id>> := [];
    var i := 0;
    while i < |o.rows|
      invariant 0 <= i <= |o.rows|
      invariant points == PointsOf(o.rows[..i], imageUrlIndex, o.selectionIds)
    {
      var row := o.rows[i];
      assert o.rows[..i + 1][..i] == o.rows[..i];
      points := points + [DataPoint(ImageUrlOf(row, imageUrlIndex), o.selectionIds[i])];
      i := i + 1;
    }
    assert o.rows[..i] == o.rows;
    TransformFollowsRows(o);
    vm := VisualViewModel(points);
  }
}
