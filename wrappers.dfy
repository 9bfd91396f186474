/** Option, Result and Outcome: the absent values, thrown errors and
    remote results of the application, as plain values. */
module Wrappers {

  datatype Option<+T> = None | Some(value: T)

  /** The value a promise resolves to, or the message it is rejected with. */
  datatype Result<+T, +E> = Ok(value: T) | Err(error: E)

  /** A remote call that resolves without a value, or is rejected. */
  datatype Outcome<+E> = Pass | Fail(error: E)
}

/** The interface languages of the application. */
module Locales {

  /** 'en', 'zh-CN' and 'zh-TW'. */
  datatype Locale = En | ZhCN | ZhTW
}
