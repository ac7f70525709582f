/** Streaming file encryption with the initialization vector as a trailer
    (cmd/internal/encryption/encryption.go). */
module Encryption {
  import opened FileTree
  import opened Os
  import opened Ctr

  datatype Result<+T> = Ok(value: T) | Err

  const SUFFIX := ".aes"

  predicate HasSuffix(s: string, suffix: string) {
    |suffix| <= |s| && s[|s| - |suffix|..] == suffix
  }

  function TrimSuffix(s: string, suffix: string): string {
    if HasSuffix(s, suffix) then s[..|s| - |suffix|] else s
  }

  /** filepath.Ext of a single path component: from its last dot on. */
  function Ext(s: string): string {
    if s == [] then ""
    else if s[|s| - 1] == '.' then "."
    else
      var e := Ext(s[..|s| - 1]);
      if e == "" then "" else e + [s[|s| - 1]]
  }

  function AddSuffix(p: Path): Path
    requires p != []
  {
    p[..|p| - 1] + [p[|p| - 1] + SUFFIX]
  }

  function DropSuffix(p: Path): Path
    requires p != []
  {
    p[..|p| - 1] + [TrimSuffix(p[|p| - 1], SUFFIX)]
  }

  predicate IsEncrypted(p: Path) {
    p != [] && Ext(p[|p| - 1]) == SUFFIX
  }

  lemma {:induction false} ExtSuffix(s: string)
    ensures Ext(s) == SUFFIX <==> HasSuffix(s, SUFFIX)
  {
    ExtShape(s);
    if HasSuffix(s, SUFFIX) {
      var a, b, c := s[..|s| - 1], s[..|s| - 2], s[..|s| - 3];
      assert s[|s| - 4..] == [s[|s| - 4], s[|s| - 3], s[|s| - 2], s[|s| - 1]];
      assert Ext(c) == ".";
      assert b[..|b| - 1] == c && Ext(b) == ".a";
      assert a[..|a| - 1] == b && Ext(a) == ".ae";
    }
  }

  lemma {:induction false} ExtShape(s: string)
    ensures HasSuffix(s, Ext(s))
    ensures Ext(s) != "" ==> Ext(s)[0] == '.'
    ensures forall k :: 1 <= k < |Ext(s)| ==> Ext(s)[k] != '.'
  {
    if s != [] && s[|s| - 1] != '.' {
      ExtShape(s[..|s| - 1]);
    }
  }

  /** The test on the name agrees with the suffix that is added and removed. */
  lemma SuffixRoundTrip(p: Path)
    requires p != []
    ensures IsEncrypted(AddSuffix(p)) && DropSuffix(AddSuffix(p)) == p && AddSuffix(p) != p
    ensures IsEncrypted(p) ==> AddSuffix(DropSuffix(p)) == p && DropSuffix(p) != p
    ensures !IsEncrypted(p) ==> DropSuffix(p) == p
  {
    var name := p[|p| - 1];
    TrimRoundTrip(name);
    assert p == p[..|p| - 1] + [name];
    assert AddSuffix(p)[|p| - 1] != name;
    if IsEncrypted(p) {
      assert DropSuffix(p)[|p| - 1] != name;
    }
  }

  lemma TrimRoundTrip(name: string)
    ensures Ext(name + SUFFIX) == SUFFIX && TrimSuffix(name + SUFFIX, SUFFIX) == name
    ensures Ext(name) == SUFFIX ==> TrimSuffix(name, SUFFIX) + SUFFIX == name
    ensures Ext(name) != SUFFIX ==> TrimSuffix(name, SUFFIX) == name
  {
    ExtSuffix(name);
    ExtSuffix(name + SUFFIX);
  }

  /** What Encrypt writes for a message. */
  function Sealed(cipher: Cipher, iv: Block, message: seq<byte>): seq<byte> {
    Stream(cipher, iv, 0, message) + iv
  }

  /** What Decrypt writes for a file: everything before the last block, under that block. */
  function Unsealed(cipher: Cipher, file: seq<byte>): seq<byte>
    requires |file| >= BLOCK_SIZE
  {
    Stream(cipher, file[|file| - BLOCK_SIZE..], 0, file[..|file| - BLOCK_SIZE])
  }

  function Bytes(t: Tree, p: Path): seq<byte> {
    if IsFile(t, p) then t[p].content else []
  }

  /** Outputs are opened without truncation: a longer old file keeps its tail. The message comes
      back exactly when neither output was opened over a file longer than what is written to it. */
  lemma RoundTrip(cipher: Cipher, iv: Block, message: seq<byte>, oldSealed: seq<byte>, oldOutput: seq<byte>)
    ensures var file := Splice(oldSealed, 0, Sealed(cipher, iv, message));
            Splice(oldOutput, 0, Unsealed(cipher, file)) == message
            <==> |oldSealed| <= |message| + BLOCK_SIZE && |oldOutput| <= |message|
  {
    var file := Splice(oldSealed, 0, Sealed(cipher, iv, message));
    if |oldSealed| <= |message| + BLOCK_SIZE {
      assert file == Sealed(cipher, iv, message);
      UnsealSealed(cipher, iv, message);
    } else {
      assert |Unsealed(cipher, file)| > |message|;
    }
  }

  /** One byte, over an old output of eighteen: the trailer that is read back is not the vector. */
  lemma LongerOutputBreaks(cipher: Cipher, iv: Block)
    ensures var message: seq<byte> := [1];
            var file := Splice(seq(18, i => 0), 0, Sealed(cipher, iv, message));
            Splice([], 0, Unsealed(cipher, file)) != message
  {
    RoundTrip(cipher, iv, [1], seq(18, i => 0), []);
  }

  lemma UnsealSealed(cipher: Cipher, iv: Block, message: seq<byte>)
    ensures Unsealed(cipher, Sealed(cipher, iv, message)) == message
  {
    var file := Sealed(cipher, iv, message);
    assert file[|file| - BLOCK_SIZE..] == iv;
    assert file[..|file| - BLOCK_SIZE] == Stream(cipher, iv, 0, message);
    StreamTwice(cipher, iv, 0, message);
  }

  /** The bytes written so far and one more chunk of them. */
  lemma NextChunk(before: seq<byte>, cipher: Cipher, iv: Block, done: seq<byte>, chunk: seq<byte>)
    ensures Splice(Splice(before, 0, Stream(cipher, iv, 0, done)), |done|, Stream(cipher, iv, |done|, chunk))
            == Splice(before, 0, Stream(cipher, iv, 0, done + chunk))
  {
    StreamConcat(cipher, iv, 0, done, chunk);
    SpliceTwice(before, Stream(cipher, iv, 0, done), Stream(cipher, iv, |done|, chunk));
  }

  /** One turn of either loop: cipher buf[..n] in place and write it. */
  method WriteChunk(stream: CipherStream, buf: array<byte>, n: nat, outfile: Handle,
                    ghost before: seq<byte>, ghost done: seq<byte>)
    returns (ok: bool)
    requires outfile.Valid() && n <= buf.Length && stream.position == outfile.offset == |done|
    requires outfile.fs.nodes[outfile.path].content == Splice(before, 0, Stream(stream.cipher, stream.iv, 0, done))
    modifies stream, buf, outfile, outfile.fs
    ensures outfile.Valid() && old(outfile.offset) <= outfile.offset <= old(outfile.offset) + n
    ensures outfile.fs.nodes == old(outfile.fs.nodes)[outfile.path := outfile.fs.nodes[outfile.path]]
    ensures ok ==> stream.position == outfile.offset == old(outfile.offset) + n
    ensures ok ==> outfile.fs.nodes[outfile.path].content
                   == Splice(before, 0, Stream(stream.cipher, stream.iv, 0, done + old(buf[..n])))
    ensures outfile.fs.faultless ==> ok
  {
    NextChunk(before, stream.cipher, stream.iv, done, buf[..n]);
    stream.XORKeyStream(buf, n);
    ok := outfile.Write(buf, n);
  }

  /** encryptFile: for every schedule of short reads, counter mode of the whole input, then the vector. */
  method EncryptFile(infile: Handle, outfile: Handle, cipher: Cipher, iv: Block) returns (ok: bool)
    requires infile.fs == outfile.fs && infile.path != outfile.path
    requires infile.Valid() && outfile.Valid() && infile.offset == outfile.offset == 0
    modifies infile, outfile, infile.fs
    ensures infile.Valid() && outfile.Valid()
    ensures infile.fs.nodes == old(infile.fs.nodes)[outfile.path := infile.fs.nodes[outfile.path]]
    ensures ok ==> infile.fs.nodes[outfile.path].content
                   == Splice(old(infile.fs.nodes[outfile.path].content), 0,
                             Sealed(cipher, iv, old(infile.fs.nodes[infile.path].content)))
    ensures infile.fs.faultless ==> ok
  {
    var fs := infile.fs;
    ghost var message := fs.nodes[infile.path].content;
    ghost var before := fs.nodes[outfile.path].content;
    var buf := new byte[1024];
    var stream := new CipherStream(cipher, iv);
    while true
      invariant infile.Valid() && outfile.Valid()
      invariant fs.nodes == old(fs.nodes)[outfile.path := fs.nodes[outfile.path]]
      invariant infile.offset == outfile.offset == stream.position
      invariant fs.nodes[outfile.path].content
                == Splice(before, 0, Stream(cipher, iv, 0, message[..infile.offset]))
      decreases |message| - infile.offset
    {
      ghost var done := message[..infile.offset];
      var n, err := infile.Read(buf);
      if n > 0 {
        assert message[..infile.offset] == done + buf[..n];
        var wrote := WriteChunk(stream, buf, n, outfile, before, done);
        if !wrote {
          return false;
        }
      }
      if err == EOF {
        break;
      }
      if err != NoError {
        return false;
      }
    }
    assert message[..infile.offset] == message;
    ok := WriteTrailer(outfile, iv, before, Stream(cipher, iv, 0, message));
  }

  /** Appends the vector to the bytes written so far. */
  method WriteTrailer(outfile: Handle, iv: Block, ghost before: seq<byte>, ghost done: seq<byte>) returns (ok: bool)
    requires outfile.Valid() && outfile.offset == |done|
    requires outfile.fs.nodes[outfile.path].content == Splice(before, 0, done)
    modifies outfile, outfile.fs
    ensures outfile.Valid()
    ensures outfile.fs.nodes == old(outfile.fs.nodes)[outfile.path := outfile.fs.nodes[outfile.path]]
    ensures ok ==> outfile.fs.nodes[outfile.path].content == Splice(before, 0, done + iv)
    ensures outfile.fs.faultless ==> ok
  {
    var trailer := new byte[BLOCK_SIZE](i requires 0 <= i < BLOCK_SIZE => iv[i]);
    assert trailer[..] == iv && trailer[..BLOCK_SIZE] == iv;
    ok := outfile.Write(trailer, BLOCK_SIZE);
    SpliceTwice(before, done, iv);
  }

  /** readIVAndMessageLength: a file shorter than one block is an error. */
  method ReadIVAndMessageLength(infile: Handle) returns (r: Result<(Block, nat)>)
    requires infile.Valid()
    ensures r.Ok? ==>
              var content := infile.fs.nodes[infile.path].content;
              |content| >= BLOCK_SIZE && r.value.1 == |content| - BLOCK_SIZE
              && r.value.0 == content[|content| - BLOCK_SIZE..]
    ensures infile.fs.faultless && |infile.fs.nodes[infile.path].content| >= BLOCK_SIZE ==> r.Ok?
  {
    var content := infile.fs.nodes[infile.path].content;
    var failed: bool := *;
    if (failed && !infile.fs.faultless) || |content| < BLOCK_SIZE {
      return Err;
    }
    r := Ok((content[|content| - BLOCK_SIZE..], |content| - BLOCK_SIZE));
  }

  function Min(a: nat, b: nat): nat {
    if a < b then a else b
  }

  /** Bytes start..stop were read; the first n of them, those before length, extend the message. */
  lemma Clamp(content: seq<byte>, start: nat, stop: nat, length: nat, read: seq<byte>, n: nat)
    requires start <= stop <= |content| && length <= |content| && read == content[start..stop]
    requires n == Min(|read|, length - Min(start, length))
    ensures Min(stop, length) == Min(start, length) + n
    ensures content[..Min(stop, length)] == content[..Min(start, length)] + read[..n]
  {
    if start < length {
      assert read[..n] == content[start..start + n];
    }
  }

  /** decryptFile: the clamped chunks cover the message and nothing of the trailer. */
  method DecryptFile(infile: Handle, outfile: Handle, cipher: Cipher, iv: Block, length: nat) returns (ok: bool)
    requires infile.fs == outfile.fs && infile.path != outfile.path
    requires infile.Valid() && outfile.Valid() && infile.offset == outfile.offset == 0
    requires length <= |infile.fs.nodes[infile.path].content|
    modifies infile, outfile, infile.fs
    ensures infile.Valid() && outfile.Valid() && outfile.offset <= length
    ensures infile.fs.nodes == old(infile.fs.nodes)[outfile.path := infile.fs.nodes[outfile.path]]
    ensures ok ==> outfile.offset == length
    ensures ok ==> infile.fs.nodes[outfile.path].content
                   == Splice(old(infile.fs.nodes[outfile.path].content), 0,
                             Stream(cipher, iv, 0, old(infile.fs.nodes[infile.path].content)[..length]))
    ensures infile.fs.faultless ==> ok
  {
    var fs := infile.fs;
    ghost var content := fs.nodes[infile.path].content;
    ghost var before := fs.nodes[outfile.path].content;
    var buf := new byte[1024];
    var stream := new CipherStream(cipher, iv);
    var msgLen := length;
    while true
      invariant infile.Valid() && outfile.Valid()
      invariant fs.nodes == old(fs.nodes)[outfile.path := fs.nodes[outfile.path]]
      invariant outfile.offset == stream.position == length - msgLen
      invariant outfile.offset == Min(infile.offset, length)
      invariant fs.nodes[outfile.path].content
                == Splice(before, 0, Stream(cipher, iv, 0, content[..outfile.offset]))
      decreases |content| - infile.offset
    {
      ghost var done, start := content[..outfile.offset], infile.offset;
      var n, err := infile.Read(buf);
      ghost var got := buf[..n];
      if n > 0 {
        if n > msgLen {
          n := msgLen;
        }
        msgLen := msgLen - n;
        assert buf[..n] == got[..n];
        Clamp(content, start, infile.offset, length, got, n);
        var wrote := WriteChunk(stream, buf, n, outfile, before, done);
        if !wrote {
          return false;
        }
      }
      if err == EOF {
        break;
      }
      if err != NoError {
        return false;
      }
    }
    ok := true;
  }

  class Encrypter {
    const fs: FileSystem
    const cipher: Cipher

    constructor (fs: FileSystem, cipher: Cipher)
      ensures this.fs == fs && this.cipher == cipher
    {
      this.fs := fs;
      this.cipher := cipher;
    }

    /** On success the sealed message lies at input + ".aes" and the input is gone if it can be removed; on failure
        nothing but the output path has changed, so the plaintext is still there. When no call fails but perhaps the
        removal of the input, it succeeds exactly for a file with no directory in the way of the output. */
    method Encrypt(input: Path) returns (r: Result<Path>, ghost iv: Block)
      requires fs.Valid() && input != []
      modifies fs
      ensures fs.Valid()
      ensures r.Err? ==> fs.nodes - {AddSuffix(input)} == old(fs.nodes) - {AddSuffix(input)}
      ensures r.Ok? ==>
                && r.value == AddSuffix(input) && IsFile(old(fs.nodes), input) && !IsDir(old(fs.nodes), r.value)
                && var sealed := File(Splice(Bytes(old(fs.nodes), r.value), 0,
                                             Sealed(cipher, iv, old(fs.nodes[input].content))));
                   || (fs.nodes == old(fs.nodes)[r.value := sealed] && !fs.removes)
                   || fs.nodes == old(fs.nodes)[r.value := sealed] - {input}
      ensures fs.faultless ==> (r.Ok? <==> IsFile(old(fs.nodes), input) && !IsDir(old(fs.nodes), AddSuffix(input)))
    {
      SuffixRoundTrip(input);
      var output := AddSuffix(input);
      var vector: Block := *;
      iv := vector;
      var readable := fs.OpenInput(input);
      if !readable {
        return Err, iv;
      }
      assert HasParent(fs.nodes, input) && output[..|output| - 1] == input[..|input| - 1];
      var infile := new Handle(fs, input);
      var created := fs.OpenOutput(output);
      if !created {
        return Err, iv;
      }
      var outfile := new Handle(fs, output);
      var ok := EncryptFile(infile, outfile, cipher, vector);
      if !ok {
        return Err, iv;
      }
      var _ := fs.Remove(input);
      return Ok(output), iv;
    }

    /** On success the output holds the deciphered bytes over whatever it held before, and the input is gone if it
        can be removed. When no call fails but perhaps that removal, it succeeds exactly for an encrypted file that
        holds a vector, with no directory in the way of the output. */
    method Decrypt(input: Path) returns (r: Result<Path>)
      requires fs.Valid() && input != []
      modifies fs
      ensures fs.Valid()
      ensures r.Err? ==> fs.nodes - {DropSuffix(input)} == old(fs.nodes) - {DropSuffix(input)}
      ensures !IsEncrypted(input) ==> r.Err? && fs.nodes == old(fs.nodes)
      ensures r.Ok? ==>
                && r.value == DropSuffix(input) && IsFile(old(fs.nodes), input) && !IsDir(old(fs.nodes), r.value)
                && |old(fs.nodes[input].content)| >= BLOCK_SIZE
                && var plain := File(Splice(Bytes(old(fs.nodes), r.value), 0,
                                            Unsealed(cipher, old(fs.nodes[input].content))));
                   || (fs.nodes == old(fs.nodes)[r.value := plain] && !fs.removes)
                   || fs.nodes == old(fs.nodes)[r.value := plain] - {input}
      ensures fs.faultless ==>
                (r.Ok? <==> IsEncrypted(input) && IsFile(old(fs.nodes), input)
                            && !IsDir(old(fs.nodes), DropSuffix(input)) && |old(fs.nodes[input].content)| >= BLOCK_SIZE)
    {
      SuffixRoundTrip(input);
      var output := DropSuffix(input);
      if !IsEncrypted(input) {
        return Err;
      }
      var readable := fs.OpenInput(input);
      if !readable {
        return Err;
      }
      assert HasParent(fs.nodes, input) && output[..|output| - 1] == input[..|input| - 1];
      var infile := new Handle(fs, input);
      var header := ReadIVAndMessageLength(infile);
      if header.Err? {
        return Err;
      }
      var created := fs.OpenOutput(output);
      if !created {
        return Err;
      }
      var outfile := new Handle(fs, output);
      var ok := DecryptFile(infile, outfile, cipher, header.value.0, header.value.1);
      if !ok {
        return Err;
      }
      var _ := fs.Remove(input);
      return Ok(output);
    }

    /** Encrypt and then Decrypt of the result leave the original bytes at p, exactly when
        p.aes did not already hold a file longer than the message and the vector. */
    method EncryptThenDecrypt(p: Path) returns (ok: bool)
      requires fs.Valid() && p != []
      modifies fs
      ensures fs.Valid()
      ensures ok ==> IsFile(old(fs.nodes), p) && IsFile(fs.nodes, p)
      ensures ok ==> (fs.nodes[p].content == old(fs.nodes[p].content)
                      <==> |Bytes(old(fs.nodes), AddSuffix(p))| <= |old(fs.nodes[p].content)| + BLOCK_SIZE)
      ensures fs.faultless ==> (ok <==> IsFile(old(fs.nodes), p) && !IsDir(old(fs.nodes), AddSuffix(p)))
    {
      SuffixRoundTrip(p);
      ghost var before := Bytes(fs.nodes, AddSuffix(p));
      ghost var message := Bytes(fs.nodes, p);
      var sealed, iv := Encrypt(p);
      if sealed.Err? {
        return false;
      }
      ghost var leftover := Bytes(fs.nodes, p);
      assert leftover == message || leftover == [];
      var plain := Decrypt(sealed.value);
      RoundTrip(cipher, iv, message, before, leftover);
      ok := plain.Ok?;
    }
  }
}
