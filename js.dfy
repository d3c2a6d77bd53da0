/**
 * The few JavaScript value semantics the drawing code depends on.
 */
module Js {

  /** A JavaScript number as far as the code distinguishes it: a finite value,
      or one of NaN, +Infinity and -Infinity (only `Number.isFinite` and
      `isFinite` are ever asked of those). */
  datatype Num = Fin(r: real) | NonFin {
    predicate IsFinite() { Fin? }

    /** `Number.isFinite(n) ? n : d` */
    function FiniteOr(d: real): real {
      if Fin? then r else d
    }
  }

  /** An optional string field: `undefined`/`null` or a string. */
  datatype OptStr = NoStr | Str(s: string) {
    /** `v ?? ""` */
    function OrEmpty(): string {
      if Str? then s else ""
    }

    /** A string is truthy exactly when it is non-empty. */
    predicate Truthy() { Str? && s != "" }
  }

  /** `a || b` on optional strings: the first truthy one, else the last. */
  function OrElse(a: OptStr, b: OptStr): OptStr {
    if a.Truthy() then a else b
  }
}
