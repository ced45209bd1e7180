/** Types and saturating arithmetic shared by every component. */
module Common {

  datatype Option<+T> = None | Some(value: T) {
    function GetOr(default: T): T {
      match this
      case Some(v) => v
      case None => default
    }
  }

  datatype Result<+T, +E> = Ok(value: T) | Err(error: E)

  type byte = x: int | 0 <= x < 256

  type Bytes = seq<byte>

  const U64_MAX: nat := 0xFFFF_FFFF_FFFF_FFFF

  /** Rust's `saturating_add(1)` on a `u64` counter. */
  function SaturatingInc(n: nat): nat {
    if n < U64_MAX then n + 1 else U64_MAX
  }

  /** Rust's `saturating_sub` on unsigned operands. */
  function SaturatingSub(a: nat, b: nat): nat {
    if a >= b then a - b else 0
  }

  /** Rust's `saturating_duration_since`: how old `earlier` is at `now`. */
  function Age(now: int, earlier: int): nat {
    if now >= earlier then now - earlier else 0
  }

  function Join(parts: seq<string>, sep: string): string {
    if parts == [] then ""
    else if |parts| == 1 then parts[0]
    else parts[0] + sep + Join(parts[1..], sep)
  }

  /** Two different inputs with one hash. */
  ghost predicate Collision<X, H>(hash: X -> H, x: X, y: X) {
    x != y && hash(x) == hash(y)
  }

  /** A separator outside both fronts is in the same place of equal texts. */
  lemma SplitOnce(a: string, x: string, b: string, y: string, c: char)
    requires c !in a && c !in b && a + [c] + x == b + [c] + y
    ensures a == b && x == y
  {
    var s := a + [c] + x;
    assert s[|a|] == c && s[|b|] == c;
    assert s[..|a|] == a && s[..|b|] == b;
    assert x == s[|a| + 1..] && y == s[|b| + 1..];
  }
}
