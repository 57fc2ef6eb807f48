/** What several of the models share. */
module Common {

  datatype Option<+T> = None | Some(value: T)

  /** Conversion to an integer, which truncates toward zero. */
  function Trunc(r: real): int {
    if r >= 0.0 then r.Floor else -(-r).Floor
  }

  /** Integer division of C for a positive divisor, which truncates toward zero. */
  function CDiv(a: int, b: int): int
    requires b > 0
  {
    if a >= 0 then a / b else -(-a / b)
  }

  function Min(s: seq<int>): (m: int)
    requires s != []
    ensures m in s && forall v :: v in s ==> m <= v
  {
    if |s| == 1 then s[0] else
      var m, v := Min(s[..|s| - 1]), s[|s| - 1];
      assert s == s[..|s| - 1] + [v];
      if v < m then v else m
  }

  function Max(s: seq<int>): (m: int)
    requires s != []
    ensures m in s && forall v :: v in s ==> v <= m
  {
    if |s| == 1 then s[0] else
      var m, v := Max(s[..|s| - 1]), s[|s| - 1];
      assert s == s[..|s| - 1] + [v];
      if v > m then v else m
  }
}
