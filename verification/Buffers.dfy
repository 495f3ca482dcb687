/** `memmove` within one memory, for every way the two ranges can overlap. */
module Buffers {

  method Memmove<T>(mem: array<T>, dst: nat, src: nat, n: int)
    requires n > 0 ==> dst + n <= mem.Length && src + n <= mem.Length
    modifies mem
    ensures n > 0 ==> mem[dst..dst + n] == old(mem[src..src + n])
    ensures forall i :: 0 <= i < mem.Length && !(dst <= i < dst + n) ==> mem[i] == old(mem[i])
  {
    var left := n;
    if src > dst {
      var d, s := dst, src;
      while left > 0
        invariant n > 0 ==> 0 <= left <= n && d == dst + (n - left) && s == src + (n - left)
        invariant n <= 0 ==> left == n
        invariant forall i :: 0 <= i < mem.Length ==>
          mem[i] == if n > 0 && dst <= i < d then old(mem[i + (src - dst)]) else old(mem[i])
      {
        mem[d] := mem[s];
        d, s, left := d + 1, s + 1, left - 1;
      }
    } else {
      var d, s := dst + n, src + n;
      while left > 0
        invariant n > 0 ==> 0 <= left <= n && d == dst + left && s == src + left
        invariant n <= 0 ==> left == n
        invariant forall i :: 0 <= i < mem.Length ==>
          mem[i] == if n > 0 && d <= i < dst + n then old(mem[i - (dst - src)]) else old(mem[i])
      {
        d, s, left := d - 1, s - 1, left - 1;
        mem[d] := mem[s];
      }
    }
  }
}
