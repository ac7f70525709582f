/** Counter mode, section 6.5 of NIST SP 800-38A, over an arbitrary block function:
    the standard's block-wise definition and the byte stream the sidecar drives. */
module Ctr {
  import opened FileTree

  const BLOCK_SIZE := 16
  type Block = b: seq<byte> | |b| == BLOCK_SIZE witness seq(BLOCK_SIZE, i => 0)

  /** A block cipher under one key. */
  type Cipher = Block -> Block

  /** The next counter: plus one, most significant byte first, wrapping around. */
  function Carry(t: seq<byte>): (r: seq<byte>)
    ensures |r| == |t|
  {
    if t == [] then []
    else if t[|t| - 1] == 255 then Carry(t[..|t| - 1]) + [0]
    else t[..|t| - 1] + [t[|t| - 1] + 1]
  }

  function Increment(t: Block): Block {
    Carry(t)
  }

  /** The j-th counter block after the initial one. */
  function Counter(iv: Block, j: nat): Block {
    if j == 0 then iv else Increment(Counter(iv, j - 1))
  }

  /** The number that a counter stands for, most significant byte first. */
  function Value(t: seq<byte>): nat {
    if t == [] then 0 else 256 * Value(t[..|t| - 1]) + t[|t| - 1] as nat
  }

  function Pow256(n: nat): nat {
    if n == 0 then 1 else 256 * Pow256(n - 1)
  }

  lemma Bytes16()
    ensures Pow256(BLOCK_SIZE) == 0x1_0000_0000_0000_0000_0000_0000_0000_0000
  {
    assert Pow256(4) == 0x1_0000_0000;
    assert Pow256(8) == 256 * (256 * (256 * (256 * Pow256(4))));
    assert Pow256(12) == 256 * (256 * (256 * (256 * Pow256(8))));
    assert Pow256(16) == 256 * (256 * (256 * (256 * Pow256(12))));
  }

  lemma {:induction false} ValueBound(t: seq<byte>)
    ensures Value(t) < Pow256(|t|)
  {
    if t != [] {
      ValueBound(t[..|t| - 1]);
      ByteBound(t[|t| - 1]);
    }
  }

  lemma ByteBound(b: byte)
    ensures b as nat < 256
    ensures b == 255 <==> b as nat == 255
    ensures b != 255 ==> (b + 1) as nat == b as nat + 1
  {
  }

  lemma SameByte(x: nat, y: nat, a: byte, b: byte)
    requires 256 * x + a as nat == 256 * y + b as nat
    ensures x == y && a == b
  {
    ByteBound(a);
    ByteBound(b);
  }

  /** Different counters of one length stand for different numbers. */
  lemma {:induction false} ValueInjective(a: seq<byte>, b: seq<byte>)
    requires |a| == |b| && Value(a) == Value(b)
    ensures a == b
  {
    if a != [] {
      var n := |a| - 1;
      SameByte(Value(a[..n]), Value(b[..n]), a[n], b[n]);
      ValueInjective(a[..n], b[..n]);
      assert a == a[..n] + [a[n]] && b == b[..n] + [b[n]];
    }
  }

  /** The next counter is one more, and zero after the greatest. */
  lemma {:induction false} CarryValue(t: seq<byte>)
    ensures Value(Carry(t)) == if Value(t) + 1 == Pow256(|t|) then 0 else Value(t) + 1
  {
    if t != [] {
      var init, last := t[..|t| - 1], t[|t| - 1];
      ByteBound(last);
      ValueBound(init);
      if last == 255 {
        CarryValue(init);
        assert (Carry(init) + [0])[..|t| - 1] == Carry(init);
      } else {
        assert (init + [last + 1])[..|t| - 1] == init;
      }
    }
  }

  const COUNTERS := 0x1_0000_0000_0000_0000_0000_0000_0000_0000

  /** The standard incrementing function of appendix B.1 over all 128 bits. */
  lemma IncrementAddsOne(t: Block)
    ensures Value(Increment(t)) == (Value(t) + 1) % COUNTERS
  {
    Bytes16();
    ValueBound(t);
    CarryValue(t);
  }

  lemma {:induction false} CounterValue(iv: Block, j: nat)
    ensures Value(Counter(iv, j)) == (Value(iv) + j) % COUNTERS
  {
    if j == 0 {
      Bytes16();
      ValueBound(iv);
    } else {
      CounterValue(iv, j - 1);
      IncrementAddsOne(Counter(iv, j - 1));
      NextRemainder(Value(iv) + j - 1);
      assert Value(iv) + j - 1 + 1 == Value(iv) + j;
    }
  }

  lemma NextRemainder(x: nat)
    ensures (x % COUNTERS + 1) % COUNTERS == (x + 1) % COUNTERS
  {
  }

  /** Section 6.5 requires that no counter block occurs twice: the first 2^128 ones are pairwise different. */
  lemma CountersDistinct(iv: Block, i: nat, j: nat)
    requires i < j < i + COUNTERS
    ensures Counter(iv, i) != Counter(iv, j)
  {
    CounterValue(iv, i);
    CounterValue(iv, j);
    DistinctRemainders(Value(iv) + i, Value(iv) + j);
  }

  lemma DistinctRemainders(x: nat, y: nat)
    requires x < y < x + COUNTERS
    ensures x % COUNTERS != y % COUNTERS
  {
  }

  /** Whoever knows the number knows the block: the j-th one is the only one that stands for the vector plus j. */
  lemma CounterIs(iv: Block, j: nat, block: Block)
    ensures block == Counter(iv, j) <==> Value(block) == (Value(iv) + j) % COUNTERS
  {
    CounterValue(iv, j);
    if Value(block) == (Value(iv) + j) % COUNTERS {
      ValueInjective(block, Counter(iv, j));
    }
  }

  function XorBytes(a: seq<byte>, b: seq<byte>): (r: seq<byte>)
    requires |a| == |b|
    ensures |r| == |a|
  {
    seq(|a|, i requires 0 <= i < |a| => a[i] ^ b[i])
  }

  /** Section 6.5: each block is combined with the enciphered counter, the last one with its leading bytes. */
  function CtrMode(cipher: Cipher, counter: Block, text: seq<byte>): (r: seq<byte>)
    ensures |r| == |text|
    decreases |text|
  {
    if text == [] then []
    else
      var u := if |text| < BLOCK_SIZE then |text| else BLOCK_SIZE;
      XorBytes(text[..u], cipher(counter)[..u]) + CtrMode(cipher, Increment(counter), text[u..])
  }

  function KeyByte(cipher: Cipher, iv: Block, i: nat): byte {
    cipher(Counter(iv, i / BLOCK_SIZE))[i % BLOCK_SIZE]
  }

  /** text combined with the key stream from byte off on. */
  function Stream(cipher: Cipher, iv: Block, off: nat, text: seq<byte>): (r: seq<byte>)
    ensures |r| == |text|
  {
    seq(|text|, i requires 0 <= i < |text| => text[i] ^ KeyByte(cipher, iv, off + i))
  }

  /** Cutting the text into chunks changes nothing, as long as the position is carried on. */
  lemma StreamConcat(cipher: Cipher, iv: Block, off: nat, a: seq<byte>, b: seq<byte>)
    ensures Stream(cipher, iv, off, a + b) == Stream(cipher, iv, off, a) + Stream(cipher, iv, off + |a|, b)
  {
  }

  lemma StreamTwice(cipher: Cipher, iv: Block, off: nat, text: seq<byte>)
    ensures Stream(cipher, iv, off, Stream(cipher, iv, off, text)) == text
  {
    var once := Stream(cipher, iv, off, text);
    var twice := Stream(cipher, iv, off, once);
    forall i | 0 <= i < |text| ensures twice[i] == text[i] {
      XorTwice(text[i], KeyByte(cipher, iv, off + i));
    }
  }

  lemma XorTwice(a: byte, k: byte)
    ensures (a ^ k) ^ k == a
  {
  }

  /** Within one block the stream is the text combined with the leading bytes of the enciphered counter. */
  lemma StreamInBlock(cipher: Cipher, iv: Block, j: nat, text: seq<byte>)
    requires |text| <= BLOCK_SIZE
    ensures Stream(cipher, iv, BLOCK_SIZE * j, text) == XorBytes(text, cipher(Counter(iv, j))[..|text|])
  {
    var key := cipher(Counter(iv, j));
    forall i | 0 <= i < |text| ensures KeyByte(cipher, iv, BLOCK_SIZE * j + i) == key[i] {
      assert (BLOCK_SIZE * j + i) / BLOCK_SIZE == j && (BLOCK_SIZE * j + i) % BLOCK_SIZE == i;
    }
  }

  lemma {:induction false} StreamFromBlock(cipher: Cipher, iv: Block, j: nat, text: seq<byte>)
    ensures Stream(cipher, iv, BLOCK_SIZE * j, text) == CtrMode(cipher, Counter(iv, j), text)
    decreases |text|
  {
    if text != [] {
      var u := if |text| < BLOCK_SIZE then |text| else BLOCK_SIZE;
      assert text == text[..u] + text[u..];
      StreamConcat(cipher, iv, BLOCK_SIZE * j, text[..u], text[u..]);
      StreamInBlock(cipher, iv, j, text[..u]);
      if u == BLOCK_SIZE {
        assert BLOCK_SIZE * j + u == BLOCK_SIZE * (j + 1);
        StreamFromBlock(cipher, iv, j + 1, text[u..]);
      }
    }
  }

  /** The byte stream from position 0 is the standard's counter mode. */
  lemma StreamIsCtrMode(cipher: Cipher, iv: Block, text: seq<byte>)
    ensures Stream(cipher, iv, 0, text) == CtrMode(cipher, iv, text)
  {
    StreamFromBlock(cipher, iv, 0, text);
  }

  /** cipher.NewCTR: a key stream with a position. */
  class CipherStream {
    const cipher: Cipher
    const iv: Block
    var position: nat

    constructor (cipher: Cipher, iv: Block)
      ensures this.cipher == cipher && this.iv == iv && position == 0
    {
      this.cipher := cipher;
      this.iv := iv;
      position := 0;
    }

    /** Combines buf[..n] with the next n key bytes, in place. */
    method XORKeyStream(buf: array<byte>, n: nat)
      requires n <= buf.Length
      modifies this, buf
      ensures position == old(position) + n
      ensures buf[..n] == Stream(cipher, iv, old(position), old(buf[..n]))
    {
      for i := 0 to n
        invariant position == old(position) + i
        invariant forall k :: 0 <= k < i ==> buf[k] == old(buf[k]) ^ KeyByte(cipher, iv, old(position) + k)
        invariant forall k :: i <= k < n ==> buf[k] == old(buf[k])
      {
        buf[i] := buf[i] ^ KeyByte(cipher, iv, position);
        position := position + 1;
      }
    }
  }
}
