/** Shared wrappers and the JavaScript notion of truthiness that the
    controllers rely on when they write `value || fallback`. */
module Common {

  datatype Option<+T> = None | Some(value: T)

  datatype Result<+T, +E> = Ok(value: T) | Err(error: E)

  /** A request string is truthy when it is present and not empty. */
  predicate TruthyStr(v: Option<string>) {
    v.Some? && v.value != ""
  }

  /** A request number is truthy when it is present and not zero. */
  predicate TruthyReal(v: Option<real>) {
    v.Some? && v.value != 0.0
  }

  predicate TruthyInt(v: Option<int>) {
    v.Some? && v.value != 0
  }

  /** `v || fallback` for strings. */
  function OrString(v: Option<string>, fallback: string): string {
    if TruthyStr(v) then v.value else fallback
  }

  /** `v || fallback` for prices. */
  function OrReal(v: Option<real>, fallback: real): real {
    if TruthyReal(v) then v.value else fallback
  }

  /** `v || fallback` for stock counts. */
  function OrInt(v: Option<int>, fallback: int): int {
    if TruthyInt(v) then v.value else fallback
  }
}
