/** The buffered streaming hasher of `SipHash.h`, proved against SipHash-2-4 as defined in
    section 2 of Aumasson and Bernstein, "SipHash: a fast short-input PRF". */
module SipHash {

  type Byte = b: int | 0 <= b < 256
  type Word = bv64

  /** The four words of internal state. */
  datatype State = State(v0: Word, v1: Word, v2: Word, v3: Word)

  const TWO_64: nat := 0x1_0000_0000_0000_0000

  // ---------------------------------------------------------------------------
  // Operations on 64-bit words; addition wraps
  // ---------------------------------------------------------------------------

  function Add(x: Word, y: Word): Word { x + y }
  function Sub(x: Word, y: Word): Word { x - y }
  function Xor(x: Word, y: Word): Word { x ^ y }
  function Rotl13(x: Word): Word { x.RotateLeft(13) }
  function Rotl16(x: Word): Word { x.RotateLeft(16) }
  function Rotl17(x: Word): Word { x.RotateLeft(17) }
  function Rotl21(x: Word): Word { x.RotateLeft(21) }
  function Rotl32(x: Word): Word { x.RotateLeft(32) }
  function Rotr13(x: Word): Word { x.RotateRight(13) }
  function Rotr16(x: Word): Word { x.RotateRight(16) }
  function Rotr17(x: Word): Word { x.RotateRight(17) }
  function Rotr21(x: Word): Word { x.RotateRight(21) }

  function Nibble(n: nat): bv8 {
    match n % 16
    case 0 => 0x0 case 1 => 0x1 case 2 => 0x2 case 3 => 0x3
    case 4 => 0x4 case 5 => 0x5 case 6 => 0x6 case 7 => 0x7
    case 8 => 0x8 case 9 => 0x9 case 10 => 0xa case 11 => 0xb
    case 12 => 0xc case 13 => 0xd case 14 => 0xe case _ => 0xf
  }

  /** The bits of a byte. */
  function Bits(b: Byte): bv8 {
    Nibble(b) | (Nibble(b / 16) << 4)
  }

  /** Eight bytes as one word, the first byte lowest. */
  function Pack(b0: bv8, b1: bv8, b2: bv8, b3: bv8, b4: bv8, b5: bv8, b6: bv8, b7: bv8): Word {
    (b0 as Word) | ((b1 as Word) << 8) | ((b2 as Word) << 16) | ((b3 as Word) << 24) |
    ((b4 as Word) << 32) | ((b5 as Word) << 40) | ((b6 as Word) << 48) | ((b7 as Word) << 56)
  }

  /** Little-endian value of eight bytes. */
  function LoadWord(b: seq<Byte>): Word
    requires |b| == 8
  {
    Pack(Bits(b[0]), Bits(b[1]), Bits(b[2]), Bits(b[3]), Bits(b[4]), Bits(b[5]), Bits(b[6]), Bits(b[7]))
  }

  // ---------------------------------------------------------------------------
  // The paper's definition
  // ---------------------------------------------------------------------------

  /** One SipRound, in the column order of the paper's figure. */
  function Round(s: State): State {
    var a0 := Add(s.v0, s.v1);
    var a2 := Add(s.v2, s.v3);
    var a1 := Xor(Rotl13(s.v1), a0);
    var a3 := Xor(Rotl16(s.v3), a2);
    var b2 := Add(a2, a1);
    var b0 := Add(Rotl32(a0), a3);
    State(b0, Xor(Rotl17(a1), b2), Rotl32(b2), Xor(Rotl21(a3), b0))
  }

  function Init(k0: Word, k1: Word): State {
    State(Xor(0x736f6d6570736575, k0), Xor(0x646f72616e646f6d, k1),
          Xor(0x6c7967656e657261, k0), Xor(0x7465646279746573, k1))
  }

  /** Absorb one message word with c = 2 rounds. */
  function Compress(s: State, m: Word): State {
    var t := Round(Round(s.(v3 := Xor(s.v3, m))));
    t.(v0 := Xor(t.v0, m))
  }

  /** Absorb message words from left to right. */
  function Absorb(s: State, words: seq<Word>): State {
    if words == [] then s
    else Compress(Absorb(s, words[..|words| - 1]), words[|words| - 1])
  }

  /** d = 4 finalisation rounds. */
  function Finalize(s: State): State {
    Round(Round(Round(Round(s.(v2 := Xor(s.v2, 0xff))))))
  }

  function Fold(s: State): Word {
    Xor(Xor(Xor(s.v0, s.v1), s.v2), s.v3)
  }

  function Zeros(n: nat): (z: seq<Byte>)
    ensures |z| == n
  {
    seq(n, _ => 0)
  }

  /** The message, null bytes up to the last byte of a word, then the length modulo 256. */
  function Padded(msg: seq<Byte>): (p: seq<Byte>)
    ensures |p| == |msg| / 8 * 8 + 8
  {
    msg + Zeros(7 - |msg| % 8) + [|msg| % 256]
  }

  /** The k-th eight bytes. */
  function Block(p: seq<Byte>, k: nat): (b: seq<Byte>)
    requires 8 * k + 8 <= |p|
    ensures |b| == 8
  {
    p[8 * k..8 * k + 8]
  }

  /** The words of a byte string whose length is a multiple of eight. */
  function Words(bytes: seq<Byte>): (w: seq<Word>)
    requires |bytes| % 8 == 0
    ensures |w| == |bytes| / 8
  {
    seq(|bytes| / 8, i requires 0 <= i < |bytes| / 8 => LoadWord(Block(bytes, i)))
  }

  function MessageWords(msg: seq<Byte>): (w: seq<Word>)
    ensures |w| == |msg| / 8 + 1
  {
    Words(Padded(msg))
  }

  /** The state after every message word, the length word included, and the final rounds. */
  function FinalState(k0: Word, k1: Word, msg: seq<Byte>): State {
    Finalize(Absorb(Init(k0, k1), MessageWords(msg)))
  }

  /** SipHash-2-4 of a whole message. */
  function SipHash24(k0: Word, k1: Word, msg: seq<Byte>): Word {
    Fold(FinalState(k0, k1, msg))
  }

  // ---------------------------------------------------------------------------
  // The round is a permutation
  // ---------------------------------------------------------------------------

  function UnRound(t: State): State {
    var b2 := Rotl32(t.v2);
    var a3 := Rotr21(Xor(t.v3, t.v0));
    var a1 := Rotr17(Xor(t.v1, b2));
    var a0 := Rotl32(Sub(t.v0, a3));
    var a2 := Sub(b2, a1);
    var v3 := Rotr16(Xor(a3, a2));
    var v1 := Rotr13(Xor(a1, a0));
    State(Sub(a0, v1), v1, Sub(a2, v3), v3)
  }

  function UnCompress(s: State, m: Word): State {
    var t := UnRound(UnRound(s.(v0 := Xor(s.v0, m))));
    t.(v3 := Xor(t.v3, m))
  }

  lemma MinusCongruence(p: Word, q: Word, y: Word)
    requires p == q
    ensures p - y == q - y
  {}

  lemma PlusCongruence(p: Word, q: Word, y: Word)
    requires p == q
    ensures p + y == q + y
  {}

  lemma AddThenSub(x: Word, y: Word)
    ensures Sub(Add(x, y), y) == x
  {
    MinusCongruence(Add(x, y), x + y, y);
  }

  lemma SubThenAdd(x: Word, y: Word)
    ensures Add(Sub(x, y), y) == x
  {
    PlusCongruence(Sub(x, y), x - y, y);
  }

  lemma XorTwice(x: Word, y: Word)
    ensures Xor(Xor(x, y), y) == x
  {}

  lemma Rotations(x: Word)
    ensures Rotr13(Rotl13(x)) == x == Rotl13(Rotr13(x))
    ensures Rotr16(Rotl16(x)) == x == Rotl16(Rotr16(x))
    ensures Rotr17(Rotl17(x)) == x == Rotl17(Rotr17(x))
    ensures Rotr21(Rotl21(x)) == x == Rotl21(Rotr21(x))
    ensures Rotl32(Rotl32(x)) == x
  {}

  lemma UnRoundRound(s: State)
    ensures UnRound(Round(s)) == s
  {
    var a0 := Add(s.v0, s.v1);
    var a2 := Add(s.v2, s.v3);
    var a1 := Xor(Rotl13(s.v1), a0);
    var a3 := Xor(Rotl16(s.v3), a2);
    var b2 := Add(a2, a1);
    var b0 := Add(Rotl32(a0), a3);
    XorTwice(Rotl21(a3), b0); Rotations(a3);
    XorTwice(Rotl17(a1), b2); Rotations(a1);
    Rotations(b2); Rotations(a0);
    AddThenSub(Rotl32(a0), a3);
    AddThenSub(a2, a1);
    XorTwice(Rotl16(s.v3), a2); Rotations(s.v3);
    XorTwice(Rotl13(s.v1), a0); Rotations(s.v1);
    AddThenSub(s.v0, s.v1);
    AddThenSub(s.v2, s.v3);
  }

  lemma RoundUnRound(t: State)
    ensures Round(UnRound(t)) == t
  {
    var b2 := Rotl32(t.v2);
    var a3 := Rotr21(Xor(t.v3, t.v0));
    var a1 := Rotr17(Xor(t.v1, b2));
    var a0 := Rotl32(Sub(t.v0, a3));
    var a2 := Sub(b2, a1);
    var v3 := Rotr16(Xor(a3, a2));
    var v1 := Rotr13(Xor(a1, a0));
    SubThenAdd(a0, v1); SubThenAdd(a2, v3);
    Rotations(Xor(a1, a0)); XorTwice(a1, a0);
    Rotations(Xor(a3, a2)); XorTwice(a3, a2);
    SubThenAdd(b2, a1);
    Rotations(Sub(t.v0, a3)); SubThenAdd(t.v0, a3);
    Rotations(Xor(t.v1, b2)); XorTwice(t.v1, b2);
    Rotations(Xor(t.v3, t.v0)); XorTwice(t.v3, t.v0);
    Rotations(t.v2);
  }

  lemma UnCompressCompress(s: State, m: Word)
    ensures UnCompress(Compress(s, m), m) == s
  {
    var x := s.(v3 := Xor(s.v3, m));
    var t := Round(Round(x));
    XorTwice(t.v0, m);
    assert Compress(s, m).(v0 := Xor(Compress(s, m).v0, m)) == t;
    UnRoundRound(x);
    UnRoundRound(Round(x));
    XorTwice(s.v3, m);
  }

  /** Absorbing a fixed word sequence loses nothing: distinct states stay distinct. */
  lemma {:induction false} AbsorbInjective(s: State, t: State, words: seq<Word>)
    requires Absorb(s, words) == Absorb(t, words)
    ensures s == t
  {
    if words != [] {
      var init, m := words[..|words| - 1], words[|words| - 1];
      UnCompressCompress(Absorb(s, init), m);
      UnCompressCompress(Absorb(t, init), m);
      AbsorbInjective(s, t, init);
    }
  }

  lemma FinalizeInjective(s: State, t: State)
    requires Finalize(s) == Finalize(t)
    ensures s == t
  {
    var x, y := s.(v2 := Xor(s.v2, 0xff)), t.(v2 := Xor(t.v2, 0xff));
    UnRoundRound(x); UnRoundRound(Round(x)); UnRoundRound(Round(Round(x))); UnRoundRound(Round(Round(Round(x))));
    UnRoundRound(y); UnRoundRound(Round(y)); UnRoundRound(Round(Round(y))); UnRoundRound(Round(Round(Round(y))));
    XorTwice(s.v2, 0xff);
    XorTwice(t.v2, 0xff);
  }

  /** For one message, different keys always lead to different final states. */
  lemma KeysSeparateFinalStates(j0: Word, j1: Word, k0: Word, k1: Word, msg: seq<Byte>)
    requires FinalState(j0, j1, msg) == FinalState(k0, k1, msg)
    ensures j0 == k0 && j1 == k1
  {
    var words := MessageWords(msg);
    FinalizeInjective(Absorb(Init(j0, j1), words), Absorb(Init(k0, k1), words));
    AbsorbInjective(Init(j0, j1), Init(k0, k1), words);
    KeyRecovery(j0, j1, k0, k1);
  }

  lemma KeyRecovery(j0: Word, j1: Word, k0: Word, k1: Word)
    requires Init(j0, j1) == Init(k0, k1)
    ensures j0 == k0 && j1 == k1
  {
    var a, b := Init(j0, j1), Init(k0, k1);
    assert Xor(0x736f6d6570736575, j0) == Xor(0x736f6d6570736575, k0);
    assert Xor(0x646f72616e646f6d, j1) == Xor(0x646f72616e646f6d, k1);
  }

  // ---------------------------------------------------------------------------
  // Cutting a byte string into words
  // ---------------------------------------------------------------------------

  function High(b: bv8): bv8 { b >> 4 }
  function Low(b: bv8): bv8 { b & 0xf }

  lemma BitsParts(b: Byte)
    ensures Low(Bits(b)) == Nibble(b)
    ensures High(Bits(b)) == Nibble(b / 16)
  {}

  lemma NibbleInjective(m: nat, n: nat)
    requires Nibble(m) == Nibble(n)
    ensures m % 16 == n % 16
  {}

  lemma BitsInjective(b: Byte, c: Byte)
    requires Bits(b) == Bits(c)
    ensures b == c
  {
    hide Bits, Nibble;
    BitsParts(b); BitsParts(c);
    NibbleInjective(b, c);
    NibbleInjective(b / 16, c / 16);
  }

  lemma NibbleValue(n: nat)
    ensures Nibble(n) as int == n % 16
  {}

  /** The bits of a byte are its binary digits, in two halves. */
  lemma BitsValue(b: Byte)
    ensures (Bits(b) & 0xf) as int == b % 16 && (Bits(b) >> 4) as int == b / 16
  {
    hide Bits, Nibble;
    BitsParts(b);
    NibbleValue(b);
    NibbleValue(b / 16);
    assert Low(Bits(b)) == Bits(b) & 0xf && High(Bits(b)) == Bits(b) >> 4;
  }

  /** Byte i of a packed word, counted from the low end. */
  lemma PackBytes(b0: bv8, b1: bv8, b2: bv8, b3: bv8, b4: bv8, b5: bv8, b6: bv8, b7: bv8)
    ensures var w := Pack(b0, b1, b2, b3, b4, b5, b6, b7);
            && w & 0xff == b0 as Word && (w >> 8) & 0xff == b1 as Word
            && (w >> 16) & 0xff == b2 as Word && (w >> 24) & 0xff == b3 as Word
            && (w >> 32) & 0xff == b4 as Word && (w >> 40) & 0xff == b5 as Word
            && (w >> 48) & 0xff == b6 as Word && w >> 56 == b7 as Word
  {}

  lemma PackInjective(a0: bv8, a1: bv8, a2: bv8, a3: bv8, a4: bv8, a5: bv8, a6: bv8, a7: bv8,
                      b0: bv8, b1: bv8, b2: bv8, b3: bv8, b4: bv8, b5: bv8, b6: bv8, b7: bv8)
    requires Pack(a0, a1, a2, a3, a4, a5, a6, a7) == Pack(b0, b1, b2, b3, b4, b5, b6, b7)
    ensures a0 == b0 && a1 == b1 && a2 == b2 && a3 == b3 && a4 == b4 && a5 == b5 && a6 == b6 && a7 == b7
  {}

  lemma LoadWordInjective(b: seq<Byte>, c: seq<Byte>)
    requires |b| == |c| == 8
    requires LoadWord(b) == LoadWord(c)
    ensures b == c
  {
    hide Bits, Pack;
    PackInjective(Bits(b[0]), Bits(b[1]), Bits(b[2]), Bits(b[3]), Bits(b[4]), Bits(b[5]), Bits(b[6]), Bits(b[7]),
                  Bits(c[0]), Bits(c[1]), Bits(c[2]), Bits(c[3]), Bits(c[4]), Bits(c[5]), Bits(c[6]), Bits(c[7]));
    forall i | 0 <= i < 8
      ensures b[i] == c[i]
    {
      BitsInjective(b[i], c[i]);
    }
  }

  lemma WordOfByte(p: seq<Byte>, i: nat)
    requires |p| % 8 == 0 && i < |p|
    ensures 8 * (i / 8) + 8 <= |p|
    ensures Words(p)[i / 8] == LoadWord(Block(p, i / 8)) && p[i] == Block(p, i / 8)[i % 8]
  {
    hide LoadWord;
    assert i == 8 * (i / 8) + i % 8;
  }

  lemma WordsInjective(p: seq<Byte>, q: seq<Byte>)
    requires |p| % 8 == |q| % 8 == 0
    requires Words(p) == Words(q)
    ensures p == q
  {
    hide Words, LoadWord;
    assert |p| == |q|;
    forall i | 0 <= i < |p|
      ensures p[i] == q[i]
    {
      WordOfByte(p, i);
      WordOfByte(q, i);
      LoadWordInjective(Block(p, i / 8), Block(q, i / 8));
    }
  }

  /** The padded encoding is unambiguous: no two messages give the same words. */
  lemma MessageWordsInjective(a: seq<Byte>, b: seq<Byte>)
    requires MessageWords(a) == MessageWords(b)
    ensures a == b
  {
    hide Words, Padded;
    WordsInjective(Padded(a), Padded(b));
    PaddedInjective(a, b);
  }

  /** A padded message starts with the message, goes on with null bytes to the last byte of a word, and ends
      with its length. */
  lemma PaddedParts(a: seq<Byte>)
    ensures var p := Padded(a);
            && |p| == |a| / 8 * 8 + 8 && p[..|a|] == a && p[|p| - 1] == |a| % 256
            && forall i :: |a| <= i < |p| - 1 ==> p[i] == 0
  {}

  lemma PaddedInjective(a: seq<Byte>, b: seq<Byte>)
    requires Padded(a) == Padded(b)
    ensures a == b
  {
    hide Padded;
    PaddedParts(a);
    PaddedParts(b);
    SameLength(|a|, |b|);
  }

  lemma SameLength(m: nat, n: nat)
    requires m / 8 == n / 8 && m % 256 == n % 256
    ensures m == n
  {}

  lemma WordsAppend(p: seq<Byte>, b: seq<Byte>)
    requires |p| % 8 == 0 && |b| == 8
    ensures Words(p + b) == Words(p) + [LoadWord(b)]
  {
    hide LoadWord, Block;
    var w := Words(p + b);
    assert |w| == |p| / 8 + 1;
    forall i | 0 <= i < |w|
      ensures w[i] == (Words(p) + [LoadWord(b)])[i]
    {
      BlockAppend(p, b, i);
    }
  }

  lemma BlockAppend(p: seq<Byte>, b: seq<Byte>, i: nat)
    requires |p| % 8 == 0 && |b| == 8 && 8 * i + 8 <= |p + b|
    ensures Block(p + b, i) == if 8 * i + 8 <= |p| then Block(p, i) else b
  {}

  /** Absorbing the next eight bytes of a word-aligned prefix. */
  lemma AbsorbBytes(s: State, p: seq<Byte>, b: seq<Byte>)
    requires |p| % 8 == 0 && |b| == 8
    ensures Absorb(s, Words(p + b)) == Compress(Absorb(s, Words(p)), LoadWord(b))
  {
    WordsAppend(p, b);
    var w := Words(p) + [LoadWord(b)];
    assert w[..|w| - 1] == Words(p);
  }

  /** The value a 64-bit counter holds after counting to n. */
  function UInt64(n: nat): nat {
    n % TWO_64
  }

  /** A wrapped byte count keeps the low bits of the true count. */
  lemma WrappedLowBits(n: nat)
    ensures UInt64(n) % 8 == n % 8
    ensures UInt64(n) % 256 == n % 256
  {}

  /** How far a word is filled after `used` more bytes. */
  lemma FillLevel(n: nat, used: nat)
    requires n % 8 + used <= 8
    ensures UInt64(n + used) % 8 == if n % 8 + used == 8 then 0 else n % 8 + used
  {}

  /** Counting on from a wrapped count is counting on. */
  lemma WrappedSum(n: nat, k: nat)
    ensures UInt64(UInt64(n) + k) == UInt64(n + k)
  {}

  // ---------------------------------------------------------------------------
  // The streaming hasher
  // ---------------------------------------------------------------------------

  /** The longest prefix made of whole words, and what is left over. */
  function Whole(msg: seq<Byte>): (p: seq<Byte>)
    ensures |p| == |msg| / 8 * 8
  {
    msg[..|msg| / 8 * 8]
  }

  function Tail(msg: seq<Byte>): (t: seq<Byte>)
    ensures |t| == |msg| % 8
  {
    msg[|msg| / 8 * 8..]
  }

  /** The state once the whole words of `msg` are absorbed. */
  function PrefixState(k0: Word, k1: Word, msg: seq<Byte>): State {
    Absorb(Init(k0, k1), Words(Whole(msg)))
  }

  /** Bytes that do not complete a word only join the tail. */
  lemma FeedLess(k0: Word, k1: Word, msg: seq<Byte>, more: seq<Byte>)
    requires |msg| % 8 + |more| < 8
    ensures Tail(msg + more) == Tail(msg) + more
    ensures PrefixState(k0, k1, msg + more) == PrefixState(k0, k1, msg)
  {
    assert Whole(msg + more) == Whole(msg);
  }

  /** A few bytes from a word boundary are the tail. */
  lemma FeedTail(k0: Word, k1: Word, msg: seq<Byte>, more: seq<Byte>)
    requires |msg| % 8 == 0 && |more| < 8
    ensures Tail(msg + more) == more && |msg + more| % 8 == |more|
    ensures PrefixState(k0, k1, msg + more) == PrefixState(k0, k1, msg)
  {
    hide PrefixState;
    FeedLess(k0, k1, msg, more);
    assert Tail(msg) + more == more;
  }

  lemma CutAgain(msg: seq<Byte>, data: seq<Byte>, start: nat, next: nat)
    requires start <= next <= |data|
    ensures msg + data[start..] == (msg + data[start..next]) + data[next..]
  {
    assert data[start..] == data[start..next] + data[next..];
  }

  /** Bytes that complete a word have that word absorbed. */
  lemma FeedWord(k0: Word, k1: Word, msg: seq<Byte>, more: seq<Byte>)
    requires |msg| % 8 + |more| == 8
    ensures |msg + more| % 8 == 0 && Tail(msg + more) == []
    ensures PrefixState(k0, k1, msg + more) == Compress(PrefixState(k0, k1, msg), LoadWord(Tail(msg) + more))
  {
    hide Compress, LoadWord, Init;
    assert Whole(msg + more) == Whole(msg) + (Tail(msg) + more);
    AbsorbBytes(Init(k0, k1), Whole(msg), Tail(msg) + more);
  }

  /** What is still to come after the last byte: the zero-filled tail that ends in the length byte. */
  function LastBytes(msg: seq<Byte>): (b: seq<Byte>)
    ensures |b| == 8
  {
    (Tail(msg) + Zeros(8 - |msg| % 8))[7 := |msg| % 256]
  }

  lemma FinishState(k0: Word, k1: Word, msg: seq<Byte>)
    ensures FinalState(k0, k1, msg) == Finalize(Compress(PrefixState(k0, k1, msg), LoadWord(LastBytes(msg))))
  {
    hide Compress, LoadWord, Init, Finalize;
    assert msg == Whole(msg) + Tail(msg);
    assert Padded(msg) == Whole(msg) + LastBytes(msg);
    AbsorbBytes(Init(k0, k1), Whole(msg), LastBytes(msg));
  }

  class SipHasher {
    var v0: Word
    var v1: Word
    var v2: Word
    var v3: Word
    /** Bytes seen so far, a wrapping 64-bit counter. */
    var cnt: nat
    /** The union of `current_word` and `current_bytes`. */
    const bytes: array<Byte>

    ghost var k0: Word
    ghost var k1: Word
    /** Everything fed so far. */
    ghost var fed: seq<Byte>

    function Words4(): State
      reads this
    {
      State(v0, v1, v2, v3)
    }

    /** The counter and the partly filled word. */
    ghost predicate ValidBuffer()
      reads this, bytes
    {
      && bytes.Length == 8
      && cnt == UInt64(|fed|)
      && bytes[..] == Tail(fed) + Zeros(8 - |fed| % 8)
    }

    /** The whole state is one function of the keys and of the bytes fed, however they were split. */
    ghost predicate Valid()
      reads this, bytes
    {
      ValidBuffer() && Words4() == PrefixState(k0, k1, fed)
    }

    constructor (key0: Word, key1: Word)
      ensures Valid() && fresh(bytes)
      ensures k0 == key0 && k1 == key1 && fed == []
    {
      v0 := Xor(0x736f6d6570736575, key0);
      v1 := Xor(0x646f72616e646f6d, key1);
      v2 := Xor(0x6c7967656e657261, key0);
      v3 := Xor(0x7465646279746573, key1);
      cnt := 0;
      bytes := new Byte[8](_ => 0);
      k0, k1, fed := key0, key1, [];
      new;
      assert bytes[..] == Zeros(8);
    }

    /** The macro SIPROUND, statement by statement. */
    method SipRound()
      modifies this`v0, this`v1, this`v2, this`v3
      ensures Words4() == Round(old(Words4()))
    {
      v0 := Add(v0, v1); v1 := Rotl13(v1); v1 := Xor(v1, v0); v0 := Rotl32(v0);
      v2 := Add(v2, v3); v3 := Rotl16(v3); v3 := Xor(v3, v2);
      v0 := Add(v0, v3); v3 := Rotl21(v3); v3 := Xor(v3, v0);
      v2 := Add(v2, v1); v1 := Rotl17(v1); v1 := Xor(v1, v2); v2 := Rotl32(v2);
    }

    method AbsorbCurrentWord()
      requires bytes.Length == 8
      modifies this`v0, this`v1, this`v2, this`v3
      ensures Words4() == Compress(old(Words4()), LoadWord(bytes[..]))
    {
      hide Add, Xor, Rotl13, Rotl16, Rotl17, Rotl21, Rotl32, LoadWord, Round;
      var word := LoadWord(bytes[..]);
      v3 := Xor(v3, word);
      SipRound();
      SipRound();
      v0 := Xor(v0, word);
    }

    /** Store one byte behind the `|prefix|` bytes already in the word. */
    method StoreByte(b: Byte, ghost prefix: seq<Byte>)
      requires bytes.Length == 8 && cnt % 8 == |prefix|
      requires bytes[..] == prefix + Zeros(8 - |prefix|)
      modifies this`cnt, bytes
      ensures cnt == UInt64(old(cnt) + 1)
      ensures bytes[..] == prefix + [b] + Zeros(7 - |prefix|)
    {
      ghost var before := bytes[..];
      bytes[cnt % 8] := b;
      cnt := UInt64(cnt + 1);
      assert bytes[..] == before[|prefix| := b];
    }

    /** Fill up a partly filled word, one byte at a time. */
    method FillWord(data: seq<Byte>) returns (used: nat)
      requires ValidBuffer() && cnt % 8 != 0
      modifies this`cnt, bytes
      ensures used <= |data| && |Tail(fed)| + used <= 8
      ensures cnt == UInt64(|fed| + used)
      ensures |Tail(fed)| + used < 8 ==> used == |data| && cnt % 8 != 0
      ensures |Tail(fed)| + used == 8 ==> cnt % 8 == 0
      ensures bytes[..] == Tail(fed) + data[..used] + Zeros(8 - |Tail(fed)| - used)
    {
      hide UInt64, Tail;
      used := 0;
      ghost var tail := Tail(fed);
      FillLevel(|fed|, 0);
      while cnt % 8 != 0 && used < |data|
        invariant used <= |data| && |tail| + used <= 8
        invariant cnt == UInt64(|fed| + used)
        invariant cnt % 8 == if |tail| + used == 8 then 0 else |tail| + used
        invariant bytes[..] == tail + data[..used] + Zeros(8 - |tail| - used)
        decreases |data| - used
      {
        StoreByte(data[used], tail + data[..used]);
        WrappedSum(|fed| + used, 1);
        used := used + 1;
        FillLevel(|fed|, used);
        assert tail + data[..used] == tail + data[..used - 1] + [data[used - 1]];
      }
    }

    /** `current_word = *data`: the little-endian load of eight bytes. */
    method LoadBytes(b: seq<Byte>)
      requires bytes.Length == |b| == 8
      modifies bytes
      ensures bytes[..] == b
    {
      forall j | 0 <= j < 8 { bytes[j] := b[j]; }
    }

    /** Absorb the whole words of `data` from `start` on, where `seen` ends on a word boundary. */
    method AbsorbWords(data: seq<Byte>, start: nat, ghost seen: seq<Byte>) returns (next: nat)
      requires bytes.Length == 8 && start <= |data| && |seen| % 8 == 0
      requires Words4() == PrefixState(k0, k1, seen)
      modifies this`v0, this`v1, this`v2, this`v3, bytes
      ensures start <= next <= |data| < next + 8
      ensures |seen + data[start..next]| % 8 == 0
      ensures Words4() == PrefixState(k0, k1, seen + data[start..next])
    {
      hide Compress, LoadWord, PrefixState;
      next := start;
      assert seen + data[start..start] == seen;
      while next + 8 <= |data|
        invariant start <= next <= |data| && |seen + data[start..next]| % 8 == 0
        invariant Words4() == PrefixState(k0, k1, seen + data[start..next])
      {
        ghost var before, word := seen + data[start..next], data[next..next + 8];
        LoadBytes(data[next..next + 8]);
        FeedWord(k0, k1, before, word);
        assert Tail(before) + word == word;
        AbsorbCurrentWord();
        assert before + word == seen + data[start..next + 8];
        next := next + 8;
      }
    }

    /** Clear the word, then store the last `|data| - from` bytes, last first. */
    method StoreTail(data: seq<Byte>, from: nat)
      requires bytes.Length == 8 && from <= |data| < from + 8
      modifies bytes
      ensures bytes[..] == data[from..] + Zeros(8 - |data[from..]|)
    {
      forall j | 0 <= j < 8 { bytes[j] := 0; }
      var k := |data| - from;
      while k > 0
        invariant 0 <= k <= |data| - from
        invariant forall j :: 0 <= j < 8 ==> bytes[j] == if k <= j < |data| - from then data[from + j] else 0
      {
        k := k - 1;
        bytes[k] := data[from + k];
      }
    }

    /** The part of `update` that runs when a word is partly filled; `done` when the data ran out first. */
    method UpdatePartial(data: seq<Byte>) returns (used: nat, done: bool)
      requires Valid() && cnt % 8 != 0
      modifies this`v0, this`v1, this`v2, this`v3, this`cnt, this`fed, bytes
      ensures used <= |data| && fed == old(fed) + data[..used] && Words4() == PrefixState(k0, k1, fed)
      ensures done ==> used == |data| && Valid()
      ensures !done ==> |fed| % 8 == 0 && cnt == UInt64(|fed|) && bytes.Length == 8
    {
      hide Compress, LoadWord, PrefixState, UInt64;
      used := FillWord(data);
      ghost var more := data[..used];
      ghost var tail := Tail(fed);
      done := cnt % 8 != 0;
      WrappedLowBits(|fed|);
      if done {
        FeedLess(k0, k1, fed, more);
      } else {
        assert bytes[..] == tail + more;
        FeedWord(k0, k1, fed, more);
        AbsorbCurrentWord();
      }
      fed := fed + more;
    }

    /** The part of `update` that runs from a word boundary. */
    method UpdateAligned(data: seq<Byte>, start: nat)
      requires bytes.Length == 8 && |fed| % 8 == 0 && start <= |data|
      requires cnt == UInt64(|fed|) && Words4() == PrefixState(k0, k1, fed)
      modifies this`v0, this`v1, this`v2, this`v3, this`cnt, this`fed, bytes
      ensures Valid() && fed == old(fed) + data[start..]
    {
      hide Compress, LoadWord, PrefixState, UInt64, Tail, Zeros;
      WrappedSum(|fed|, |data| - start);
      cnt := UInt64(cnt + (|data| - start));
      var next := AbsorbWords(data, start, fed);
      StoreTail(data, next);
      CutAgain(fed, data, start, next);
      FeedTail(k0, k1, fed + data[start..next], data[next..]);
      fed := fed + data[start..];
    }

    /** Feed `data`; where the calls cut the message makes no difference to the state. */
    method Update(data: seq<Byte>)
      requires Valid() && |data| < TWO_64
      modifies this, bytes
      ensures Valid()
      ensures fed == old(fed) + data && k0 == old(k0) && k1 == old(k1)
    {
      hide Compress, LoadWord, PrefixState, UInt64;
      var i := 0;
      WrappedLowBits(|fed|);
      if cnt % 8 != 0 {
        var done;
        i, done := UpdatePartial(data);
        if done {
          assert data[..i] == data;
          return;
        }
      }
      assert data == data[..i] + data[i..];
      UpdateAligned(data, i);
    }

    /** Store the length byte and absorb the last word, then run the final rounds. */
    method FinalizeState()
      requires bytes.Length == 8
      modifies this`v0, this`v1, this`v2, this`v3, bytes
      ensures bytes[..] == old(bytes[..])[7 := cnt % 256]
      ensures Words4() == Finalize(Compress(old(Words4()), LoadWord(bytes[..])))
    {
      hide Add, Xor, Rotl13, Rotl16, Rotl17, Rotl21, Rotl32, LoadWord, Round, Compress;
      bytes[7] := cnt % 256;
      AbsorbCurrentWord();
      v2 := Xor(v2, 0xff);
      SipRound(); SipRound(); SipRound(); SipRound();
    }

    /** The digest of everything fed. The call leaves the finalised state behind. */
    method Get64() returns (h: Word)
      requires Valid()
      modifies this`v0, this`v1, this`v2, this`v3, bytes
      ensures h == SipHash24(k0, k1, fed)
      ensures Words4() == FinalState(k0, k1, fed)
    {
      hide Compress, LoadWord, PrefixState, Finalize, FinalState, UInt64, Xor;
      WrappedLowBits(|fed|);
      FinishState(k0, k1, fed);
      FinalizeState();
      h := Xor(Xor(Xor(v0, v1), v2), v3);
    }
  }

  function Concat(chunks: seq<seq<Byte>>): seq<Byte> {
    if chunks == [] then [] else Concat(chunks[..|chunks| - 1]) + chunks[|chunks| - 1]
  }

  /** Streaming a message in any pieces gives the hash of the whole message. */
  method HashChunks(key0: Word, key1: Word, chunks: seq<seq<Byte>>) returns (h: Word)
    requires forall c :: c in chunks ==> |c| < TWO_64
    ensures h == SipHash24(key0, key1, Concat(chunks))
  {
    hide SipHash24, PrefixState, UInt64, Tail, Zeros;
    var hasher := new SipHasher(key0, key1);
    for i := 0 to |chunks|
      invariant fresh(hasher) && fresh(hasher.bytes) && hasher.Valid()
      invariant hasher.k0 == key0 && hasher.k1 == key1
      invariant hasher.fed == Concat(chunks[..i])
    {
      hasher.Update(chunks[i]);
      assert chunks[..i + 1][..i] == chunks[..i];
    }
    assert chunks[..|chunks|] == chunks;
    h := hasher.Get64();
  }

  /** The one-shot entry point, with both keys zero. */
  method SipHash64(data: seq<Byte>) returns (h: Word)
    requires |data| < TWO_64
    ensures h == SipHash24(0, 0, data)
  {
    hide SipHash24, PrefixState, UInt64, Tail, Zeros;
    var hasher := new SipHasher(0, 0);
    hasher.Update(data);
    assert [] + data == data;
    h := hasher.Get64();
  }

  // ---------------------------------------------------------------------------
  // The worked example of the paper's appendix
  // ---------------------------------------------------------------------------

  function Counting(n: nat): seq<Byte>
    requires n <= 256
  {
    seq(n, i requires 0 <= i < n => i)
  }

  lemma ExampleWord0()
    ensures LoadWord([0, 1, 2, 3, 4, 5, 6, 7]) == 0x0706050403020100
  {
    assert Bits(0) == 0x00;
    assert Bits(1) == 0x01;
    assert Bits(2) == 0x02;
    assert Bits(3) == 0x03;
    assert Bits(4) == 0x04;
    assert Bits(5) == 0x05;
    assert Bits(6) == 0x06;
    assert Bits(7) == 0x07;
    assert Pack(0x00, 0x01, 0x02, 0x03, 0x04, 0x05, 0x06, 0x07)
        == 0x0706050403020100;
  }

  lemma ExampleWord1()
    ensures LoadWord([8, 9, 10, 11, 12, 13, 14, 15]) == 0x0f0e0d0c0b0a0908
  {
    assert Bits(8) == 0x08;
    assert Bits(9) == 0x09;
    assert Bits(10) == 0x0a;
    assert Bits(11) == 0x0b;
    assert Bits(12) == 0x0c;
    assert Bits(13) == 0x0d;
    assert Bits(14) == 0x0e;
    assert Bits(15) == 0x0f;
    assert Pack(0x08, 0x09, 0x0a, 0x0b, 0x0c, 0x0d, 0x0e, 0x0f)
        == 0x0f0e0d0c0b0a0908;
  }

  lemma ExampleWords()
    ensures MessageWords(Counting(15)) == [0x0706050403020100, 0x0f0e0d0c0b0a0908]
  {
    hide LoadWord;
    var p := Padded(Counting(15));
    assert p[0..8] == [0, 1, 2, 3, 4, 5, 6, 7];
    assert p[8..16] == [8, 9, 10, 11, 12, 13, 14, 15];
    ExampleWord0();
    ExampleWord1();
    assert |Words(p)| == 2 && Words(p)[0] == LoadWord(p[0..8]) && Words(p)[1] == LoadWord(p[8..16]);
  }

  lemma ExampleCompress0()
    ensures Compress(State(0x7469686173716475, 0x6b617f6d656e6665, 0x6b7f62616d677361, 0x7b6b696e727e6c7b),
                     0x0706050403020100)
            == State(0x4a017198de0a59e0, 0x0d52f6f62a4f59a4, 0x634cb3577b01fd3d, 0xa5224d6f55c7d9c8)
  {
    assert Round(State(0x7469686173716475, 0x6b617f6d656e6665, 0x6b7f62616d677361, 0x7c6d6c6a717c6d7b))
        == State(0x64668a929363847f, 0x4ed232083d9aa8dc, 0xf2f74892d8141a2e, 0x9290f9810552f4a8);
    assert Round(State(0x64668a929363847f, 0x4ed232083d9aa8dc, 0xf2f74892d8141a2e, 0x9290f9810552f4a8))
        == State(0x4d07749cdd0858e0, 0x0d52f6f62a4f59a4, 0x634cb3577b01fd3d, 0xa5224d6f55c7d9c8);
  }

  lemma ExampleCompress1()
    ensures Compress(State(0x4a017198de0a59e0, 0x0d52f6f62a4f59a4, 0x634cb3577b01fd3d, 0xa5224d6f55c7d9c8),
                     0x0f0e0d0c0b0a0908)
            == State(0x3c85b3ab6f55be51, 0x414fc3fb98efe374, 0xccf13ea527b9f4bd, 0x5293f5da84008f82)
  {
    assert Round(State(0x4a017198de0a59e0, 0x0d52f6f62a4f59a4, 0x634cb3577b01fd3d, 0xaa2c40635ecdd0c0))
        == State(0x557560fb6063d060, 0x4c8e675bd961133e, 0xbd3d002b1703a181, 0xfb9441179a4a7315);
    assert Round(State(0x557560fb6063d060, 0x4c8e675bd961133e, 0xbd3d002b1703a181, 0xfb9441179a4a7315))
        == State(0x338bbea7645fb759, 0x414fc3fb98efe374, 0xccf13ea527b9f4bd, 0x5293f5da84008f82);
  }

  lemma ExampleFinalize()
    ensures Fold(Finalize(State(0x3c85b3ab6f55be51, 0x414fc3fb98efe374, 0xccf13ea527b9f4bd, 0x5293f5da84008f82)))
            == 0xa129ca6149be45e5
  {
    assert Round(State(0x3c85b3ab6f55be51, 0x414fc3fb98efe374, 0xccf13ea527b9f442, 0x5293f5da84008f82))
        == State(0xf2a55244a20e48fe, 0xac5ad16ccc3ca6e4, 0x9fe5adb0a52f393a, 0xfd41d55e88f30308);
    assert Round(State(0xf2a55244a20e48fe, 0xac5ad16ccc3ca6e4, 0x9fe5adb0a52f393a, 0xfd41d55e88f30308))
        == State(0xb6c3fbdecc2ae4b4, 0x1638c86adc6b3cf0, 0x28b8b6ab62553d46, 0xc9465e86ec43eb95);
    assert Round(State(0xb6c3fbdecc2ae4b4, 0x1638c86adc6b3cf0, 0x28b8b6ab62553d46, 0xc9465e86ec43eb95))
        == State(0x58101b167209a5e6, 0xf8792ae75b66e7dd, 0x1da14c3ec7f0b4f7, 0x7624ba8a41bc4ad9);
    assert Round(State(0x58101b167209a5e6, 0xf8792ae75b66e7dd, 0x1da14c3ec7f0b4f7, 0x7624ba8a41bc4ad9))
        == State(0xf6bcd53893fecff1, 0x54b9964c7ea0d937, 0x1b38329c099bb55a, 0x1814bb89ad7be679);
  }

  /** Key bytes 0 to 15 and message bytes 0 to 14 give the digest printed in the paper. */
  lemma PaperExample()
    ensures SipHash24(0x0706050403020100, 0x0f0e0d0c0b0a0908, Counting(15)) == 0xa129ca6149be45e5
  {
    hide Compress, Finalize, Fold, MessageWords;
    var s0 := State(0x7469686173716475, 0x6b617f6d656e6665, 0x6b7f62616d677361, 0x7b6b696e727e6c7b);
    assert Init(0x0706050403020100, 0x0f0e0d0c0b0a0908) == s0;
    var w := [0x0706050403020100, 0x0f0e0d0c0b0a0908];
    ExampleWords();
    assert w[..1] == [w[0]] && w[..1][..0] == [];
    assert Absorb(s0, w) == Compress(Compress(Absorb(s0, []), w[0]), w[1]);
    ExampleCompress0(); ExampleCompress1(); ExampleFinalize();
  }

  lemma EmptyWords()
    ensures MessageWords([]) == [0]
  {
    var none: seq<Byte> := [];
    var p := Padded(none);
    assert p == [0, 0, 0, 0, 0, 0, 0, 0];
    assert Block(p, 0) == p && |Words(p)| == 1;
    assert Bits(0) == 0x00;
    assert Pack(0, 0, 0, 0, 0, 0, 0, 0) == 0;
  }

  lemma EmptyCompress()
    ensures Compress(State(0x7469686173716475, 0x6b617f6d656e6665, 0x6b7f62616d677361, 0x7b6b696e727e6c7b), 0)
            == State(0x75126fd44af190b6, 0x084235164f06142b, 0x37b04f9f8026831d, 0x1b4678cde8253231)
  {
    assert Round(State(0x7469686173716475, 0x6b617f6d656e6665, 0x6b7f62616d677361, 0x7b6b696e727e6c7b))
        == State(0x6864848c93698c85, 0x41d43f143c94a7dc, 0xf3f94792d7121732, 0x5e52f75805987c12);
    assert Round(State(0x6864848c93698c85, 0x41d43f143c94a7dc, 0xf3f94792d7121732, 0x5e52f75805987c12))
        == State(0x75126fd44af190b6, 0x084235164f06142b, 0x37b04f9f8026831d, 0x1b4678cde8253231);
  }

  lemma EmptyFinalize()
    ensures Fold(Finalize(State(0x75126fd44af190b6, 0x084235164f06142b, 0x37b04f9f8026831d, 0x1b4678cde8253231)))
            == 0x726fdb47dd0e0e31
  {
    assert Round(State(0x75126fd44af190b6, 0x084235164f06142b, 0x37b04f9f802683e2, 0x1b4678cde8253231))
        == State(0xc432c529d7cf523f, 0x54f98392486c0c10, 0xc3be7bfc8eed3577, 0xcd398a7c7d6a155b);
    assert Round(State(0xc432c529d7cf523f, 0x54f98392486c0c10, 0xc3be7bfc8eed3577, 0xcd398a7c7d6a155b))
        == State(0x3abfd9623238d0a7, 0xb9354b5807b0cd1e, 0xae109fa2ba56082a, 0x58dcf8f2cf5b8028);
    assert Round(State(0x3abfd9623238d0a7, 0xb9354b5807b0cd1e, 0xae109fa2ba56082a, 0x58dcf8f2cf5b8028))
        == State(0x3808f593fd8ef548, 0x2913fc753c3d6609, 0xa9fbd335618bbce1, 0xc1c9c6a9ec5136a2);
    assert Round(State(0x3808f593fd8ef548, 0x2913fc753c3d6609, 0xa9fbd335618bbce1, 0xc1c9c6a9ec5136a2))
        == State(0xe738d0dfdc9b2453, 0x214ac5771e0c4cd2, 0xe2ea71f68a57ef6d, 0x56f7bf1995ce89dd);
  }

  /** The same key and the empty message, which is all padding. */
  lemma EmptyExample()
    ensures SipHash24(0x0706050403020100, 0x0f0e0d0c0b0a0908, []) == 0x726fdb47dd0e0e31
  {
    hide Compress, Finalize, Fold, MessageWords;
    var s0 := State(0x7469686173716475, 0x6b617f6d656e6665, 0x6b7f62616d677361, 0x7b6b696e727e6c7b);
    assert Init(0x0706050403020100, 0x0f0e0d0c0b0a0908) == s0;
    var w: seq<Word> := [0];
    EmptyWords();
    assert w[..0] == [];
    assert Absorb(s0, w) == Compress(Absorb(s0, []), 0);
    EmptyCompress(); EmptyFinalize();
  }
}
