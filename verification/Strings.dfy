/** The string hash of `utils.c`, FNV-1a on 32 bits. */
module Strings {
  import opened Syntax

  /** A `char` promoted to 32 bits: characters from 128 on are negative and extend with ones. */
  function Widen(c: char): bv32 {
    var b := c as int % 256;
    if b < 128 then b as bv32 else b as bv32 | 0xFFFF_FF00
  }

  function Mix(hash: bv32, c: char): bv32 {
    (hash ^ Widen(c)) * 16777619
  }

  /** The hash of the characters as they are. */
  function Fnv(s: string): bv32 {
    if s == [] then 2166136261 else Mix(Fnv(s[..|s| - 1]), s[|s| - 1])
  }

  /** The hash as an unsigned number. */
  function Hash32(s: string): nat {
    Fnv(s) as nat
  }

  /** A `char` of 233 is -23, which is 0xFFFF_FFE9 in 32 bits. */
  lemma HighCharacter()
    ensures Widen(233 as char) == 0xFFFF_FFE9
  {
    assert (233 as char) as int % 256 == 233;
  }

  /** `hash_string`: ignoring case is hashing the lower-case string. */
  method HashString(chars: string, ignorecase: bool) returns (hash: bv32)
    ensures hash == Fnv(if ignorecase then Canon(chars) else chars)
  {
    hide Mix;
    hash := 2166136261;
    ghost var text := if ignorecase then Canon(chars) else chars;
    var i := 0;
    while i < |chars|
      invariant i <= |chars| && hash == Fnv(text[..i])
    {
      assert text[..i + 1][..i] == text[..i];
      hash := Mix(hash, if ignorecase then Lower(chars[i]) else chars[i]);
      i := i + 1;
    }
    assert text[..i] == text;
  }
}
