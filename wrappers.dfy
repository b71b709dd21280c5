/** The "no data" sentinel of the loader and the success/failure of one parse attempt. */
module Wrappers {

  datatype Option<+T> = None | Some(value: T)

}
