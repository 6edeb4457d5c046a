/**
 * The pieces of java.lang that the ZFSL records rely on: the 32-bit `int`
 * with its two's-complement wrap-around, and `String.trim()`.
 */
module JavaLang {

  const INT32_MIN: int := -0x8000_0000
  const INT32_MAX: int := 0x7fff_ffff

  /** Java's `int`. */
  type Int32 = x: int | -0x8000_0000 <= x <= 0x7fff_ffff

  /** Reduces a mathematical integer to the `int` it denotes modulo 2^32. */
  function Wrap32(x: int): (r: Int32)
    ensures (r - x) % 0x1_0000_0000 == 0
  {
    (x - INT32_MIN) % 0x1_0000_0000 + INT32_MIN
  }

  /** Java's `x + 1` on an `int`: overflow at the top wraps to the bottom. */
  function Inc32(x: Int32): (r: Int32)
    ensures r == Wrap32(x + 1)
    ensures x < INT32_MAX ==> r == x + 1
  {
    if x == INT32_MAX then INT32_MIN else x + 1
  }

  /** `String.trim()` removes every character whose code is at most U+0020. */
  predicate IsTrimmable(c: char) {
    c <= ' '
  }

  /** A string made only of characters that `trim()` removes (the empty string included). */
  predicate IsBlank(s: string) {
    forall i :: 0 <= i < |s| ==> IsTrimmable(s[i])
  }

  /**
   * The first loop of `String.trim()`: from `st`, the index of the first
   * character that is kept, or `|s|` when none is.
   */
  function SkipLeading(s: string, st: nat): (k: nat)
    requires st <= |s|
    ensures st <= k <= |s|
    ensures forall i :: st <= i < k ==> IsTrimmable(s[i])
    ensures k < |s| ==> !IsTrimmable(s[k])
    decreases |s| - st
  {
    if st < |s| && IsTrimmable(s[st]) then SkipLeading(s, st + 1) else st
  }

  /**
   * The second loop of `String.trim()`: moves the end `len` back over
   * trimmable characters, never past `st`.
   */
  function SkipTrailing(s: string, st: nat, len: nat): (e: nat)
    requires st <= len <= |s|
    ensures st <= e <= len
    ensures forall i :: e <= i < len ==> IsTrimmable(s[i])
    ensures e > st ==> !IsTrimmable(s[e - 1])
    decreases len
  {
    if st < len && IsTrimmable(s[len - 1]) then SkipTrailing(s, st, len - 1) else len
  }

  /** `s[st..len]` is `s` with a blank prefix and a blank suffix cut away. */
  predicate CutsBlanks(s: string, st: int, len: int) {
    && 0 <= st <= len <= |s|
    && (forall i :: 0 <= i < st ==> IsTrimmable(s[i]))
    && (forall i :: len <= i < |s| ==> IsTrimmable(s[i]))
  }

  /**
   * `String.trim()`: an infix of `s` that neither starts nor ends with a
   * trimmable character, and everything cut away is trimmable.
   */
  function Trim(s: string): (r: string)
    ensures exists st, len :: CutsBlanks(s, st, len) && r == s[st..len]
    ensures r == [] || (!IsTrimmable(r[0]) && !IsTrimmable(r[|r| - 1]))
  {
    var st := SkipLeading(s, 0);
    var len := SkipTrailing(s, st, |s|);
    assert CutsBlanks(s, st, len);
    s[st..len]
  }

  /** `s.trim().isEmpty()` holds exactly when every character of `s` is trimmable. */
  lemma TrimEmptyIffBlank(s: string)
    ensures Trim(s) == [] <==> IsBlank(s)
  {
    var st := SkipLeading(s, 0);
    var len := SkipTrailing(s, st, |s|);
    if st < |s| {
      assert Trim(s)[0] == s[st];
    }
  }
}
