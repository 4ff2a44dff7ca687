/** The value types shared by the shape classes. */
module GLModel {

  /** A point of the drawing plane (an object literal `{ x, y }`), kept as a value. */
  datatype Vertex2D = Vertex2D(x: real, y: real)

  /** The shape variants, in the order of the numeric enumeration. */
  datatype GeometryType = Line | Square | Polygon
}
