/** The part of `std::string` that the key-name test relies on, with `size_t` arithmetic. */
module CxxString {
  import opened Outcomes

  /** `size_t` on the 64-bit targets the program is built for: arithmetic modulo 2^64. */
  const SizeModulus: int := 0x1_0000_0000_0000_0000

  /** `std::string::npos`, the default length argument of `substr`. */
  const NPos: nat := SizeModulus - 1

  /** A `std::string` holds bytes and its length fits in `size_t`: each character here
      stands for one byte, so `|s|` is what `size()` returns. */
  type CppString = s: string | |s| < SizeModulus && forall c | c in s :: c as int < 256

  /** Unsigned subtraction `a - b` on `size_t`: it wraps around instead of going negative. */
  function SizeSub(a: nat, b: nat): (r: nat)
    requires a < SizeModulus && b < SizeModulus
    ensures r < SizeModulus
    ensures b <= a ==> r == a - b
    ensures a < b ==> r == a - b + SizeModulus && r > a
  {
    (a - b) % SizeModulus
  }

  function Min(a: nat, b: nat): nat { if a <= b then a else b }

  /** `s.substr(pos, count)`: throws (None) when `pos > s.size()`, otherwise takes at most
      `count` characters starting at `pos`. */
  function Substr(s: string, pos: nat, count: nat): (r: Option<string>)
    ensures r.None? <==> pos > |s|
    ensures r.Some? ==> |r.value| == Min(count, |s| - pos)
    ensures r.Some? ==> forall k :: 0 <= k < |r.value| ==> r.value[k] == s[pos + k]
  {
    if pos > |s| then None else Some(s[pos..pos + Min(count, |s| - pos)])
  }

  /** Reference meaning of "starts with". */
  predicate HasPrefix(s: string, p: string) {
    |p| <= |s| && s[..|p|] == p
  }

  /** Reference meaning of "ends with". */
  predicate HasSuffix(s: string, p: string) {
    |p| <= |s| && s[|s| - |p|..] == p
  }
}
