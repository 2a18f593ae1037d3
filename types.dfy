/** Value types shared by the geometry and the board: grid points, stone colours and an
    optional value (Python's `None`). */
module Types {

  /** A grid intersection, the `(x, y)` tuple the board is addressed with. */
  datatype Point = Point(x: int, y: int)

  /** The colour of a stone; the program draws them as the RGB triples BLACK and WHITE. */
  datatype Color = Black | White

  datatype Option<T> = None | Some(value: T)
}
