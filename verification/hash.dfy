// The string hash that places words in the vocabulary's open-addressing table.

module WordHash {

  /** One byte of a word, as the unsigned value `fgetc` delivers. */
  newtype byte = x: int | 0 <= x < 256

  /** A word is the sequence of its bytes, without the terminating NUL. */
  type Word = seq<byte>

  /** `unsigned long long` arithmetic wraps modulo 2^64. */
  const WORD_MOD: nat := 0x1_0000_0000_0000_0000

  /** The value a byte adds to the hash: `word[a]` is a plain `char`,
      signed on the usual targets, so bytes of 128 and above count as
      negative. */
  function CharValue(b: byte): int
  {
    if b < 128 then b as int else b as int - 256
  }

  /** The word read as a number in base 257, most significant byte first,
      each byte by its CharValue (unbounded: no wrap-around). */
  function Poly(w: Word): int
  {
    if w == [] then 0 else Poly(w[..|w| - 1]) * 257 + CharValue(w[|w| - 1])
  }

  /** The home slot of `w` in a table of `size` slots: the base-257 value
      reduced modulo 2^64, as the unsigned 64-bit accumulator holds it, then
      modulo the table size. */
  function Home(w: Word, size: nat): (h: nat)
    requires size > 0
    ensures h < size
  {
    Poly(w) % WORD_MOD % size
  }

  /** Reducing the accumulator before each multiply-and-add step does not
      change the value modulo 2^64. */
  lemma ModStep(x: int, b: int)
    ensures (x % WORD_MOD * 257 + b) % WORD_MOD == (x * 257 + b) % WORD_MOD
  {
    var q, r := x / WORD_MOD, x % WORD_MOD;
    assert x * 257 + b == (q * 257) * WORD_MOD + (r * 257 + b);
    assert ((q * 257) * WORD_MOD + (r * 257 + b)) % WORD_MOD == (r * 257 + b) % WORD_MOD;
  }

  /** GetWordHash (word2vec.c:145-152): folds `hash = hash * 257 + c`
      over the word in an unsigned 64-bit accumulator and reduces the result
      modulo the table size. */
  method GetWordHash(word: Word, size: nat) returns (hash: nat)
    requires size > 0
    ensures hash < size
    ensures hash == Home(word, size)
  {
    var acc: nat := 0;
    var a := 0;
    while a < |word|
      invariant 0 <= a <= |word|
      invariant acc == Poly(word[..a]) % WORD_MOD
    {
      assert word[..a + 1][..a] == word[..a];
      ModStep(Poly(word[..a]), CharValue(word[a]));
      acc := (acc * 257 + CharValue(word[a])) % WORD_MOD;
      a := a + 1;
    }
    assert word[..a] == word;
    hash := acc % size;
  }
}
