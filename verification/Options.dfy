/** Results of operations the program rejects on some inputs. */
module Options {

  datatype Option<+T> = None | Some(value: T)
}
