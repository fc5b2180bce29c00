/** An optional value, for the places where the editor may have nothing:
    a cancelled file dialog, a status line that does not parse. */
module Options {

  datatype Option<T> = None | Some(value: T)
}
