/**
 * Conventions the two theme scripts share when they read and write the DOM:
 * an attribute or stored value that may be absent, the text a boolean becomes
 * when a script stores it in an attribute or in local storage, the test the
 * scripts use to read such a value back, and the mobile breakpoint.
 */
module Dom {

  /** An attribute or storage entry that may be missing (`getAttribute` returning null). */
  datatype Option<T> = None | Some(value: T)

  /** The width, in CSS pixels, at which both themes switch between mobile and desktop layout. */
  const Breakpoint: int := 768

  /** The test `value === "true"` the scripts apply to an attribute or a stored string. */
  predicate IsTrueText(s: string)
  {
    s == "true"
  }

  /**
   * The text a boolean becomes when a script hands it to `setAttribute` or
   * `localStorage.setItem`, or calls `toString()` on it.
   */
  function BoolText(b: bool): (s: string)
    ensures s == "true" || s == "false"
    ensures IsTrueText(s) <==> b
  {
    if b then "true" else "false"
  }
}
