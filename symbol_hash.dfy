/**
 * The hash of an identifier and its home slot in the symbol table
 * (symbol_table.c).  The key follows Java's `String.hashCode` recipe: the
 * character codes read as the digits of a base-31 number.
 */
module SymbolHash {
  import opened CInt

  /** The number of slots of every symbol table. */
  const SYMBOL_SIZE: nat := 30

  function Pow31(k: nat): (r: nat)
    ensures r >= 1
  {
    if k == 0 then 1 else 31 * Pow31(k - 1)
  }

  /** The key of `name`: the sum of `name[i] * 31^(|name| - 1 - i)`. */
  function Hash(name: string): (h: nat) {
    if name == [] then 0 else (name[0] as nat) * Pow31(|name| - 1) + Hash(name[1..])
  }

  /**
   * `symbol_hash_key`: sums each character code times a power of 31 that
   * starts at `length - 1` and goes down by one per character.
   */
  method HashKey(identifier: string) returns (key: int)
    ensures key == Hash(identifier)
  {
    var length := |identifier|;
    var left := length - 1;
    key := 0;
    var i := 0;
    while i < length
      invariant 0 <= i <= length && left == length - 1 - i
      invariant key + Hash(identifier[i..]) == Hash(identifier)
    {
      assert identifier[i..][1..] == identifier[i + 1..];
      key := key + (identifier[i] as int) * Pow31(left);
      left := left - 1;
      i := i + 1;
    }
  }

  /**
   * Appending a character multiplies the key by 31 and adds the character
   * code: the recurrence `h = 31 * h + c` of `String.hashCode`.
   */
  lemma {:induction false} HashAppend(s: string, c: char)
    ensures Hash(s + [c]) == 31 * Hash(s) + c as int
  {
    if s == [] {
      assert s + [c] == [c];
      assert [c][1..] == [];
    } else {
      var t := s + [c];
      assert t[0] == s[0] && t[1..] == s[1..] + [c];
      HashAppend(s[1..], c);
      var p := Pow31(|s| - 1);
      assert Pow31(|t| - 1) == 31 * p;
      assert (s[0] as int) * (31 * p) == 31 * ((s[0] as int) * p);
    }
  }

  /** Sample keys: the empty name, `a`, and two names that share a key. */
  lemma HashExamples()
    ensures Hash("") == 0
    ensures Hash("a") == 97
    ensures Hash("Aa") == 2112 && Hash("BB") == 2112
  {
    assert "Aa"[1..] == "a";
    assert "BB"[1..] == "B";
  }

  /** Six characters are already too many: the key of `abcdef` does not fit in a C `int`. */
  lemma HashOverflowExample()
    ensures Hash("abcdef") == 2870581347 && !InInt32(Hash("abcdef"))
  {
    var s := "abcdef";
    assert s[1..] == "bcdef" && s[2..] == "cdef" && s[3..] == "def" && s[4..] == "ef" && s[5..] == "f";
    assert "bcdef"[1..] == "cdef" && "cdef"[1..] == "def" && "def"[1..] == "ef" && "ef"[1..] == "f";
    assert "f"[1..] == [];
  }

  /** An upper bound on the key of a name made of 7-bit character codes. */
  lemma {:induction false} HashBound(name: string)
    requires forall i :: 0 <= i < |name| ==> name[i] as int < 128
    ensures 30 * Hash(name) <= 127 * (Pow31(|name|) - 1)
  {
    if name != [] {
      var rest := name[1..];
      assert forall i :: 0 <= i < |rest| ==> rest[i] == name[i + 1];
      HashBound(rest);
      var p, c, h := Pow31(|name| - 1), name[0] as int, Hash(rest);
      assert 30 * h <= 127 * (p - 1);
      assert c * p <= 127 * p by { MulBound(c, 127, p); }
      assert Hash(name) == c * p + h;
      assert Pow31(|name|) == 31 * p;
    }
  }

  /**
   * For a name of at most five 7-bit characters the exact key fits in a C
   * `int`, so the model's key is the one the C code computes.
   */
  lemma HashFitsInt32(name: string)
    requires |name| <= 5
    requires forall i :: 0 <= i < |name| ==> name[i] as int < 128
    ensures InInt32(Hash(name))
  {
    HashBound(name);
    Pow31Monotone(|name|, 5);
  }

  lemma MulBound(x: nat, y: nat, z: nat)
    requires x <= y
    ensures x * z <= y * z
  {
  }

  lemma {:induction false} Pow31Monotone(j: nat, k: nat)
    requires j <= k
    ensures Pow31(j) <= Pow31(k)
  {
    if j < k {
      Pow31Monotone(j, k - 1);
    }
  }

  /** `symbol_hash_index`: `abs(key % SYMBOL_SIZE)` with C's remainder. */
  function HashIndex(key: int): (index: nat)
    ensures index < SYMBOL_SIZE
    ensures index == Abs(key) % SYMBOL_SIZE
  {
    Abs(Rem(key, SYMBOL_SIZE))
  }
}
