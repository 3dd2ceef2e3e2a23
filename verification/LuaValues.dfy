/** The values of the Lua API that the C sources move between the stack, tables and references. */
module LuaValues {
  /** Tables, functions and userdata are identified by their address. */
  datatype Value =
    | Nil
    | Boolean(b: bool)
    | Number(n: real)
    | Str(s: string)
    | Table(id: nat)
    | Function(id: nat)
    | Userdata(id: nat)

  /** lua_tointeger on the values the reference system stores: a non-number reads as 0. */
  function ToInteger(v: Value): int {
    match v
    case Number(n) => if n >= 0.0 then n.Floor else -(-n).Floor
    case _ => 0
  }

  /** The conversion truncates: it goes less than one towards zero, and never past it. */
  lemma ToIntegerTruncates(n: real)
    ensures var i := ToInteger(Number(n)) as real;
      if n >= 0.0 then 0.0 <= i <= n < i + 1.0 else i - 1.0 < n <= i <= 0.0
  {
  }
}
