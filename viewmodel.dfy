/**
 The records the visual hands from its data transformation to its renderer:
 a list of data points, each pairing an image location with the opaque
 selection id the host issued for the row it came from.
 */
module ViewModel {

  /** A value that may be missing (`null` or `undefined` on the host side). */
  datatype Option<T> = None | Some(value: T)

  /** One cell of the host's table: text, or nothing. */
  type Cell = Option<string>

  /** One row of the host's table, its cells in column order. */
  type Row = seq<Cell>

  /** One gallery entry; `Id` is the host's selection-id type, never inspected here. */
  datatype DataPoint<Id> = DataPoint(imageUrl: Option<string>, selectionId: Id)

  /** The whole gallery, in the order of the table's rows. */
  datatype VisualViewModel<Id> = VisualViewModel(dataPoints: seq<DataPoint<Id>>)
}
