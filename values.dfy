/** JavaScript values as the cache combinators see them, and the truthiness
    test that `combine` uses to tell a hit from a miss. */
module Values {

  datatype Option<T> = None | Some(value: T)

  /** A value a getter may resolve with. JavaScript numbers are modelled by
      their integer values; every object (arrays included) is an `Obj`. */
  datatype Value =
    | Undefined
    | Null
    | Bool(b: bool)
    | Num(n: int)
    | Str(s: string)
    | Obj(id: nat)

  /** JavaScript truthiness: `undefined`, `null`, `false`, `0` and `""` are
      falsy, everything else (every object) is truthy. */
  predicate Truthy(v: Value)
    ensures !Truthy(v) <==> v in {Undefined, Null, Bool(false), Num(0), Str("")}
  {
    match v
    case Undefined => false
    case Null => false
    case Bool(b) => b
    case Num(n) => n != 0
    case Str(s) => s != ""
    case Obj(_) => true
  }
}
