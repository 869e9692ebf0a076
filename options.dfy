/** The optional value the parsing functions return where JavaScript would
    produce `NaN`. */
module Options {

  datatype Option<+T> = None | Some(value: T)
}
