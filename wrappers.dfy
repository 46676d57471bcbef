/** The optional value used for every per-row cell: `None` stands for a missing
    price or an undefined (not-a-number) statistic. */
module Wrappers {

  datatype Option<+T> = None | Some(value: T)

}
