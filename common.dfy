/** Shared vocabulary of both back ends: optional values, error results, the two book sides,
    the two view kinds and the u32 range used for depth limits. */
module Common {

  datatype Option<+T> = None | Some(value: T) {
    function GetOr(default: T): T {
      match this
      case Some(v) => v
      case None => default
    }
  }

  /** `Result<(), String>` as returned by the subscribe operations. */
  datatype Outcome = Pass | Fail(error: string)

  datatype Side = Bid | Ask

  /** Market By Order (order-level view) or Market By Price (price-level view). */
  datatype DataType = MBO | MBP

  const U32Limit: int := 0x1_0000_0000

  /** Rust's `u32`. */
  type U32 = x: int | 0 <= x < U32Limit

  /** Depth used whenever a request leaves `max_levels` out. */
  const DefaultMaxLevels: U32 := 20

  function MinNat(a: nat, b: nat): nat { if a <= b then a else b }

  /** Some element of a non-empty set. */
  lemma Pick<X>(s: set<X>) returns (x: X)
    requires s != {}
    ensures x in s
  {
    x :| x in s;
  }

  /** A position at which an element of a sequence occurs. */
  lemma IndexOf<X>(s: seq<X>, x: X) returns (i: nat)
    requires x in s
    ensures i < |s| && s[i] == x
  {
    i :| 0 <= i < |s| && s[i] == x;
  }
}
