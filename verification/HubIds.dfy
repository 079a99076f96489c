/** Event ids: decimal text minted from a 64-bit counter (internal/notify/id.go). */
module HubIds {
  import opened Options
  import opened Decimals

  const WIDTH: nat := 0x1_0000_0000_0000_0000

  type Counter = n: nat | n < WIDTH

  /** Adding one to a 64-bit counter. */
  function Bump(n: Counter): Counter { if n + 1 < WIDTH then n + 1 else 0 }

  /** strconv.FormatUint(n, 10) */
  function FormatId(n: nat): string { Format(n) }

  /** strconv.ParseUint(s, 10, 64): digits only, no sign, no overflow. */
  function ParseId(s: string): Option<nat> {
    if Decimal(s) && Value(s) < WIDTH then Some(Value(s)) else None
  }

  /** An id reads back as its number exactly while the number fits the counter. */
  lemma ParseFormat(n: nat)
    ensures ParseId(FormatId(n)) == if n < WIDTH then Some(n) else None
  {
    ValueOfFormat(n);
  }

  /** Conversely, the only texts that read as n are the minted one and the same with zeros in front. */
  lemma FormatParse(s: string)
    requires ParseId(s).Some?
    ensures FormatId(ParseId(s).value) == Trimmed(s)
  {
    FormatValue(s);
  }
}
