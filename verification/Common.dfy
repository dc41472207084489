/**
 * What several models share: optional values, memory and the smaller of two numbers.
 */
module Common {
  datatype Option<+T> = None | Some(value: T)

  // What is stored at each address, bytes or words; an absent address holds 0.
  type Memory = map<int, int>

  function Load(mem: Memory, a: int): int {
    if a in mem then mem[a] else 0
  }

  function Min(a: int, b: int): (m: int)
    ensures m <= a && m <= b && (m == a || m == b)
  {
    if a <= b then a else b
  }
}
