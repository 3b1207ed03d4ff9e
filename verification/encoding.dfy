/** The program file format: a headerless sequence of 4-byte big-endian
    two's-complement words. `ReadProgram` in common/vm.go checks the byte size
    and then hands the reader to `binary.Read`; here the size check is modelled
    as written and the decoding as a pure function over a byte sequence. */
module Encoding {
  import opened Words
  import opened Errors

  newtype Byte = x: int | 0 <= x < 256

  /** `VMWordSize`: bytes per word. */
  const WORD_SIZE: int := 4

  /** Go's integer division, which truncates toward zero (Dafny's `/` does not
      for negative dividends). */
  function GoQuot(a: int, b: int): int
    requires b > 0
  {
    if a >= 0 then a / b else -((-a) / b)
  }

  /** Go's remainder, which takes the sign of the dividend. */
  function GoRem(a: int, b: int): int
    requires b > 0
  {
    a - b * GoQuot(a, b)
  }

  /** The size check of `ReadProgram`: the number of words, or a bad length
      when that number is not positive or bytes are left over. Accepts exactly
      the positive multiples of the word size. */
  function CheckSize(size: int): (r: Result<nat>)
    ensures r.Ok? <==> size > 0 && size % WORD_SIZE == 0
    ensures r.Err? ==> r.error == BadProgramLength
    ensures r.Ok? ==> r.value > 0 && r.value * WORD_SIZE == size
  {
    var words := GoQuot(size, WORD_SIZE);
    var rem := GoRem(size, WORD_SIZE);
    if words <= 0 || rem != 0 then Err(BadProgramLength) else Ok(words)
  }

  /** The unsigned value of four big-endian bytes. */
  function Unsigned(b0: Byte, b1: Byte, b2: Byte, b3: Byte): (u: int)
    ensures 0 <= u < MODULUS
  {
    b0 as int * 0x100_0000 + b1 as int * 0x1_0000 + b2 as int * 0x100 + b3 as int
  }

  /** One big-endian word: the unsigned value read as two's complement. */
  function DecodeWord(b: seq<Byte>): Word
    requires |b| == WORD_SIZE
  {
    Wrap(Unsigned(b[0], b[1], b[2], b[3]))
  }

  /** The four big-endian bytes of a word's two's-complement representation. */
  function EncodeWord(w: Word): (b: seq<Byte>)
    ensures |b| == WORD_SIZE
  {
    var u := w as int % MODULUS;
    [(u / 0x100_0000) as Byte, (u / 0x1_0000 % 0x100) as Byte,
     (u / 0x100 % 0x100) as Byte, (u % 0x100) as Byte]
  }

  lemma UnsignedDigits(u: int)
    requires 0 <= u < MODULUS
    ensures Unsigned((u / 0x100_0000) as Byte, (u / 0x1_0000 % 0x100) as Byte,
                     (u / 0x100 % 0x100) as Byte, (u % 0x100) as Byte) == u
  {
    var q1 := u / 0x100;
    var q2 := q1 / 0x100;
    var q3 := q2 / 0x100;
    assert u == q1 * 0x100 + u % 0x100;
    assert q1 == q2 * 0x100 + q1 % 0x100;
    assert q2 == q3 * 0x100 + q2 % 0x100;
    assert u / 0x1_0000 == q2;
    assert u / 0x100_0000 == q3;
  }

  lemma DigitsOfUnsigned(b0: Byte, b1: Byte, b2: Byte, b3: Byte)
    ensures var u := Unsigned(b0, b1, b2, b3);
            u / 0x100_0000 == b0 as int && u / 0x1_0000 % 0x100 == b1 as int &&
            u / 0x100 % 0x100 == b2 as int && u % 0x100 == b3 as int
  {
    var u := Unsigned(b0, b1, b2, b3);
    var q1 := b0 as int * 0x1_0000 + b1 as int * 0x100 + b2 as int;
    var q2 := b0 as int * 0x100 + b1 as int;
    assert u == q1 * 0x100 + b3 as int;
    assert u / 0x100 == q1 && u % 0x100 == b3 as int;
    assert q1 == q2 * 0x100 + b2 as int;
    assert q1 / 0x100 == q2 && q1 % 0x100 == b2 as int;
    assert q2 / 0x100 == b0 as int && q2 % 0x100 == b1 as int;
    assert u / 0x1_0000 == q1 / 0x100;
    assert u / 0x100_0000 == q2 / 0x100;
  }

  /** Decoding the encoding of a word gives the word back. */
  lemma DecodeEncodeWord(w: Word)
    ensures DecodeWord(EncodeWord(w)) == w
  {
    var u := w as int % MODULUS;
    UnsignedDigits(u);
    assert (u - w as int) % MODULUS == 0;
  }

  /** Encoding a decoded word gives the four bytes back. */
  lemma EncodeDecodeWord(b: seq<Byte>)
    requires |b| == WORD_SIZE
    ensures EncodeWord(DecodeWord(b)) == b
  {
    var u := Unsigned(b[0], b[1], b[2], b[3]);
    var w := DecodeWord(b);
    assert w as int % MODULUS == u;
    DigitsOfUnsigned(b[0], b[1], b[2], b[3]);
  }

  /** Consecutive words of a byte sequence whose length is a multiple of 4. */
  function DecodeWords(bytes: seq<Byte>): (ws: seq<Word>)
    requires |bytes| % WORD_SIZE == 0
    ensures |ws| * WORD_SIZE == |bytes|
    decreases |bytes|
  {
    if |bytes| == 0 then [] else [DecodeWord(bytes[..WORD_SIZE])] + DecodeWords(bytes[WORD_SIZE..])
  }

  function EncodeWords(ws: seq<Word>): (bytes: seq<Byte>)
    ensures |bytes| == WORD_SIZE * |ws|
  {
    if |ws| == 0 then [] else EncodeWord(ws[0]) + EncodeWords(ws[1..])
  }

  /** `ReadProgram` over an in-memory byte sequence: the size check, then the
      big-endian words in stream order. */
  function ReadProgram(bytes: seq<Byte>): (r: Result<seq<Word>>)
    ensures r.Err? <==> |bytes| == 0 || |bytes| % WORD_SIZE != 0
    ensures r.Err? ==> r.error == BadProgramLength
    ensures r.Ok? ==> |r.value| > 0 && |r.value| * WORD_SIZE == |bytes|
  {
    match CheckSize(|bytes|)
    case Err(e) => Err(e)
    case Ok(_) => Ok(DecodeWords(bytes))
  }

  /** Every non-empty program survives encoding and reading back. */
  lemma {:induction false} ReadEncoded(ws: seq<Word>)
    requires |ws| > 0
    ensures ReadProgram(EncodeWords(ws)) == Ok(ws)
  {
    DecodeEncodeWords(ws);
  }

  lemma {:induction false} DecodeEncodeWords(ws: seq<Word>)
    ensures DecodeWords(EncodeWords(ws)) == ws
    decreases |ws|
  {
    if |ws| > 0 {
      var bytes := EncodeWords(ws);
      assert bytes[..WORD_SIZE] == EncodeWord(ws[0]);
      assert bytes[WORD_SIZE..] == EncodeWords(ws[1..]);
      DecodeEncodeWord(ws[0]);
      DecodeEncodeWords(ws[1..]);
    }
  }

  /** Every byte sequence `ReadProgram` accepts is the encoding of what it read. */
  lemma {:induction false} ReadProgramExact(bytes: seq<Byte>)
    requires ReadProgram(bytes).Ok?
    ensures EncodeWords(ReadProgram(bytes).value) == bytes
  {
    EncodeDecodeWords(bytes);
  }

  lemma {:induction false} EncodeDecodeWords(bytes: seq<Byte>)
    requires |bytes| % WORD_SIZE == 0
    ensures EncodeWords(DecodeWords(bytes)) == bytes
    decreases |bytes|
  {
    if |bytes| > 0 {
      var ws := DecodeWords(bytes);
      assert ws[0] == DecodeWord(bytes[..WORD_SIZE]);
      assert ws[1..] == DecodeWords(bytes[WORD_SIZE..]);
      EncodeDecodeWord(bytes[..WORD_SIZE]);
      EncodeDecodeWords(bytes[WORD_SIZE..]);
      assert bytes == bytes[..WORD_SIZE] + bytes[WORD_SIZE..];
    }
  }
}
