/** The loaded table: one record per row, with the columns the three views read. */
module Records {

  datatype Option<T> = None | Some(value: T)

  /** One row of the table. `generation` is kept as the text of its column, because the bar
      view compares it with the strings '1'..'6'. The metrics are already numeric. */
  datatype Record = Record(
    name: string,
    bodyStyle: string,
    generation: string,
    color: string,
    hp: int,
    attack: int,
    defense: int)
}
