/** Machine integers, the two wrappers used for absent values and error returns, and the index of hidden
    clauses. */
module Machine {

  const U32_MAX := 0xFFFF_FFFF
  const U64_MAX := 0xFFFF_FFFF_FFFF_FFFF

  type u32 = x: int | 0 <= x <= U32_MAX
  type u64 = x: int | 0 <= x <= U64_MAX

  datatype Option<+T> = None | Some(value: T)

  datatype Result<+T, +E> = Ok(value: T) | Err(error: E)

  /** The one index of a clause that is hidden from proofs.  A predicate of the form `forall veil :: x in
      F(veil)`, with the membership as its trigger, says no more than `x in F(Veil)`, but a proof unfolds it
      only where it mentions `F(Veil)`. */
  datatype Veil = Veil

  function Min(a: int, b: int): int {
    if a <= b then a else b
  }

  function Max(a: int, b: int): int {
    if a <= b then b else a
  }

  /** Subtraction that stops at zero. */
  function SaturatingSub(a: nat, b: nat): nat {
    if a <= b then 0 else a - b
  }
}
