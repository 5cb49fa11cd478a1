/** Integer arithmetic of the Wasm engine on raw value bits.
    A value is a natural number; a 32-bit operation first drops the high half,
    as the interpreter's `static_cast<uint32_t>` does. */
module WasmNumerics {
  import opened Words

  datatype Width = W32 | W64 {
    function Modulus(): nat { if W32? then TWO32 else TWO64 }
    function Bits(): nat { if W32? then 32 else 64 }
  }

  datatype BinOp =
    | Add | Sub | Mul | DivS | DivU | RemS | RemU
    | And | Or | Xor | Shl | ShrS | ShrU | Rotl | Rotr

  datatype CountOp = Clz | Ctz | Popcnt

  datatype CmpOp = Eq | Ne | LtS | LtU | GtS | GtU | LeS | LeU | GeS | GeU

  datatype Numeric = Value(bits: nat) | DivideByZero | Overflow

  /** The signed reading of a w-bit word. */
  function Signed(w: Width, a: nat): (s: int)
    requires a < w.Modulus()
    ensures -(w.Modulus() as int) <= 2 * s < w.Modulus()
    ensures s % w.Modulus() == a
  {
    if 2 * a < w.Modulus() then a else a - w.Modulus()
  }

  /** C's division truncates toward zero; its remainder has the dividend's sign. */
  function TruncDiv(a: int, b: int): int
    requires b != 0
  {
    if a >= 0 then a / b else -(-a / b)
  }

  function TruncRem(a: int, b: int): int
    requires b != 0
  {
    if a >= 0 then a % b else -(-a % b)
  }

  /** Bit by bit, from the lowest. */
  function Bitwise(op: BinOp, a: nat, b: nat, bits: nat): nat {
    if bits == 0 then 0 else
    var x, y := a % 2 == 1, b % 2 == 1;
    var z := match op case And => x && y case Or => x || y case _ => x != y;
    (if z then 1 else 0) + 2 * Bitwise(op, a / 2, b / 2, bits - 1)
  }

  /** Shifts and rotates by b modulo the width; a right shift of a signed word rounds down. */
  function Shifted(w: Width, op: BinOp, a: nat, b: nat): int
    requires a < w.Modulus()
  {
    var k := b % w.Bits();
    match op
    case Shl => a * Pow2(k)
    case ShrU => a / Pow2(k)
    case ShrS => Signed(w, a) / Pow2(k)
    case Rotl => a * Pow2(k) + a / Pow2(w.Bits() - k)
    case _ => a / Pow2(k) + a * Pow2(w.Bits() - k)
  }

  /** Zeros above the highest set bit, zeros below the lowest, and set bits. */
  function Count(op: CountOp, a: nat, bits: nat): (r: nat)
    ensures r <= bits
  {
    if bits == 0 then 0 else
    match op
    case Clz => if a >= Pow2(bits - 1) then 0 else 1 + Count(op, a, bits - 1)
    case Ctz => if a % 2 == 1 then 0 else 1 + Count(op, a / 2, bits - 1)
    case Popcnt => a % 2 + Count(op, a / 2, bits - 1)
  }

  function Binary(w: Width, op: BinOp, x: nat, y: nat): (r: Numeric)
    ensures r.Value? ==> r.bits < w.Modulus()
    ensures r.DivideByZero? <==> op in {DivS, DivU, RemS, RemU} && y % w.Modulus() == 0
    ensures r.Overflow? <==>
      op == DivS && 2 * (x % w.Modulus()) == w.Modulus() && y % w.Modulus() == w.Modulus() - 1
  {
    var m := w.Modulus();
    var a, b := x % m, y % m;
    match op
    case Add => Value((a + b) % m)
    case Sub => Value((a - b) % m)
    case Mul => Value((a * b) % m)
    case DivU => if b == 0 then DivideByZero else Value((a / b) % m)
    case RemU => if b == 0 then DivideByZero else Value(a % b)
    case DivS =>
      if b == 0 then DivideByZero
      else if 2 * a == m && b == m - 1 then Overflow
      else Value(TruncDiv(Signed(w, a), Signed(w, b)) % m)
    case RemS =>
      if b == 0 then DivideByZero
      else if 2 * a == m && b == m - 1 then Value(0)
      else Value(TruncRem(Signed(w, a), Signed(w, b)) % m)
    case And => Value(Bitwise(op, a, b, w.Bits()) % m)
    case Or => Value(Bitwise(op, a, b, w.Bits()) % m)
    case Xor => Value(Bitwise(op, a, b, w.Bits()) % m)
    case _ => Value(Shifted(w, op, a, b) % m)
  }

  function Compare(w: Width, op: CmpOp, x: nat, y: nat): bool
  {
    var m := w.Modulus();
    var a, b := x % m, y % m;
    var s, t := Signed(w, a), Signed(w, b);
    match op
    case Eq => a == b
    case Ne => a != b
    case LtS => s < t
    case LtU => a < b
    case GtS => s > t
    case GtU => a > b
    case LeS => s <= t
    case LeU => a <= b
    case GeS => s >= t
    case GeU => a >= b
  }

  /** Sign-extends the low `bytes` bytes of a word into w bits. */
  function SignExtend(w: Width, bytes: nat, x: nat): (r: nat)
    requires bytes in {1, 2, 4}
    ensures r < w.Modulus()
  {
    var half := if bytes == 1 then 0x80 else if bytes == 2 then 0x8000 else 0x8000_0000;
    var low := x % (2 * half);
    (if low < half then low else low - 2 * half) % w.Modulus()
  }
}
