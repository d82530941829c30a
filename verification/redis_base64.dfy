/** The compact counter encoding of the key-value connector
    (`toBase64` and `_dictionary` in functions/redis.go): a natural number
    written in a 64-symbol alphabet, least-significant digit first. */
module RedisBase64 {

  type Uint64 = n: nat | n < 0x1_0000_0000_0000_0000

  const Upper: string := "ABCDEFGHIJKLMNOPQRSTUVWXYZ"
  const Lower: string := "abcdefghijklmnopqrstuvwxyz"
  const Digits: string := "0123456789"

  /** The 64-entry alphabet, in the source's order. */
  const Dictionary: string := Upper + Lower + Digits + "_-"

  /** Symbol i of the alphabet, computed from its group. */
  function Symbol(i: nat): char
    requires i < 64
  {
    if i < 26 then (('A' as int) + i) as char
    else if i < 52 then (('a' as int) + i - 26) as char
    else if i < 62 then (('0' as int) + i - 52) as char
    else if i == 62 then '_'
    else '-'
  }

  /** The digit value of a symbol, or -1 for a character outside the alphabet. */
  function IndexOf(c: char): int
  {
    if 'A' <= c <= 'Z' then c as int - 'A' as int
    else if 'a' <= c <= 'z' then c as int - 'a' as int + 26
    else if '0' <= c <= '9' then c as int - '0' as int + 52
    else if c == '_' then 62
    else if c == '-' then 63
    else -1
  }

  lemma DictionaryIsSymbols()
    ensures |Dictionary| == 64
    ensures forall i | 0 <= i < 64 :: Dictionary[i] == Symbol(i)
  {
    assert forall i | 0 <= i < 26 :: Upper[i] == Symbol(i);
    assert forall i | 0 <= i < 26 :: Lower[i] == Symbol(i + 26);
    assert forall i | 0 <= i < 10 :: Digits[i] == Symbol(i + 52);
  }

  /** Looking a symbol up gives back its position. */
  lemma IndexOfDictionary(i: nat)
    requires i < 64
    ensures |Dictionary| == 64 && IndexOf(Dictionary[i]) == i
  {
    DictionaryIsSymbols();
  }

  /** The 64 entries of the alphabet are distinct. */
  lemma DictionaryDistinct()
    ensures |Dictionary| == 64
    ensures forall i, j | 0 <= i < j < 64 :: Dictionary[i] != Dictionary[j]
  {
    forall i, j | 0 <= i < j < 64 ensures Dictionary[i] != Dictionary[j] {
      IndexOfDictionary(i);
      IndexOfDictionary(j);
    }
  }

  /** The encoding: the symbol of the least-significant base-64 digit first. */
  function Encode(n: nat): string
    decreases n
  {
    DictionaryIsSymbols();
    if n == 0 then [] else [Dictionary[n % 64]] + Encode(n / 64)
  }

  /** Reading a token back: the sum of IndexOf(s[i]) * 64^i. */
  function Decode(s: string): int
  {
    if s == [] then 0 else IndexOf(s[0]) + 64 * Decode(s[1..])
  }

  function Pow64(k: nat): nat
  {
    if k == 0 then 1 else 64 * Pow64(k - 1)
  }

  /** strings.Join(block, "") */
  function Join(block: seq<string>): string
  {
    if block == [] then "" else Join(block[..|block| - 1]) + block[|block| - 1]
  }

  /** Appending a block appends its text. */
  lemma JoinAppend(block: seq<string>, x: string)
    ensures Join(block + [x]) == Join(block) + x
  {
    assert (block + [x])[..|block|] == block;
  }

  /** toBase64: divides n by 64 until it is zero, appending one symbol per digit. */
  method ToBase64(n: Uint64) returns (s: string)
    ensures s == Encode(n)
  {
    var block: seq<string> := [];
    var m: nat := n;
    while m != 0
      invariant Join(block) + Encode(m) == Encode(n)
      decreases m
    {
      var symbol := [Dictionary[m % 64]];
      assert Encode(m) == symbol + Encode(m / 64);
      JoinAppend(block, symbol);
      block := block + [symbol];
      m := m / 64;
    }
    s := Join(block);
  }

  /** Decoding an encoding gives back the number, so the encoding is injective. */
  lemma {:induction false} DecodeEncode(n: nat)
    ensures Decode(Encode(n)) == n
    decreases n
  {
    if n != 0 {
      IndexOfDictionary(n % 64);
      DecodeEncode(n / 64);
      assert Encode(n)[1..] == Encode(n / 64);
    }
  }

  lemma EncodeInjective(m: nat, n: nat)
    ensures Encode(m) == Encode(n) <==> m == n
  {
    DecodeEncode(m);
    DecodeEncode(n);
  }

  /** Zero encodes to the empty string, and only zero does. */
  lemma EncodeEmptyIffZero(n: nat)
    ensures Encode(n) == [] <==> n == 0
  {
  }

  /** Every number from 1 to 63 is one symbol: its own dictionary entry. */
  lemma EncodeSingleSymbol(n: nat)
    requires 1 <= n <= 63
    ensures |Dictionary| == 64 && Encode(n) == [Dictionary[n]]
  {
    DictionaryIsSymbols();
    assert Encode(n / 64) == [];
  }

  /** One is the symbol 'B'. */
  lemma EncodeOne()
    ensures Encode(1) == "B"
  {
    EncodeSingleSymbol(1);
    assert Dictionary[1] == Upper[1];
  }

  /** Every symbol of a token is in the alphabet. */
  lemma {:induction false} EncodeInAlphabet(n: nat)
    ensures forall i | 0 <= i < |Encode(n)| :: Encode(n)[i] in Dictionary
    decreases n
  {
    if n != 0 {
      EncodeInAlphabet(n / 64);
      DictionaryIsSymbols();
    }
  }

  /** A token has as many symbols as n has base-64 digits. */
  lemma {:induction false} EncodeLength(n: nat)
    ensures n < Pow64(|Encode(n)|)
    ensures n > 0 ==> Pow64(|Encode(n)| - 1) <= n
    decreases n
  {
    if n != 0 {
      var q, len := n / 64, |Encode(n / 64)|;
      EncodeLength(q);
      assert |Encode(n)| == len + 1;
      assert n == 64 * q + n % 64;
      assert q + 1 <= Pow64(len);
      assert Pow64(len + 1) == 64 * Pow64(len);
      assert q > 0 ==> Pow64(len - 1) <= q;
    }
  }

  /** The last (most significant) symbol of a non-empty token is never 'A',
      the symbol of digit zero. */
  lemma {:induction false} EncodeLastNotA(n: nat)
    requires n > 0
    ensures Encode(n)[|Encode(n)| - 1] != 'A'
    decreases n
  {
    DictionaryIsSymbols();
    if n / 64 == 0 {
      assert Encode(n) == [Dictionary[n]];
      IndexOfDictionary(n);
    } else {
      EncodeLastNotA(n / 64);
      assert Encode(n)[|Encode(n)| - 1] == Encode(n / 64)[|Encode(n / 64)| - 1];
    }
  }
}
