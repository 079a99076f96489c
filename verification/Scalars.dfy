/** SQL scalar functions several tables use. */
module Scalars {

  /** COALESCE(NULLIF(new, ''), old) */
  function Coalesce(new_: string, old_: string): string {
    if new_ != "" then new_ else old_
  }

  function Min(a: int, b: int): int { if a < b then a else b }

  function Max(a: int, b: int): int { if a < b then b else a }
}
