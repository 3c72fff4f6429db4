/** Shared by the models of several components. */
module Common {
  datatype Option<T> = None | Some(value: T)

  /** One if `b` holds, else zero: for equations that count. */
  function One(b: bool): nat { if b then 1 else 0 }
}
