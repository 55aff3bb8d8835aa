/** Optional values and results with an error, used for the missing values
    (NaN, None, pd.NA) and the raised exceptions of the dashboard's code. */
module Wrappers {

  datatype Option<+T> = None | Some(value: T) {
    function GetOr(default: T): T {
      match this
      case Some(v) => v
      case None => default
    }
  }

  datatype Result<+T, +E> = Ok(value: T) | Err(error: E)

  /** How a run of a Streamlit script goes on: to its end, or cut short by
      `st.rerun()` (a fresh run starts) or by `st.stop()`. */
  datatype Flow = Continue | Rerun | Stop
}
