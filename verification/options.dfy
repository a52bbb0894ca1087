/** The optional value the dashboard's configuration and dispatcher use. */
module Options {

  datatype Option<+T> = None | Some(value: T)

}
