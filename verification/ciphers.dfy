/** Decrypting a response: block by block, then dropping the padding its last byte announces. */
module Ciphers {
  import opened Wrappers
  import opened Objects

  const BLOCK_SIZE := 16

  type Block = b: Bytes | |b| == BLOCK_SIZE witness [0, 0, 0, 0, 0, 0, 0, 0, 0, 0, 0, 0, 0, 0, 0, 0]

  /** A keyed block operation, in one direction. */
  type BlockMap = Block -> Block

  datatype PayloadError = NotBase64 | InvalidLength(length: nat) | InvalidPadding

  predicate WholeBlocks(data: Bytes) {
    |data| % BLOCK_SIZE == 0
  }

  function MapBlocks(f: BlockMap, data: Bytes): (mapped: Bytes)
    requires WholeBlocks(data)
    ensures |mapped| == |data|
  {
    if data == [] then [] else f(data[..BLOCK_SIZE]) + MapBlocks(f, data[BLOCK_SIZE..])
  }

  /** Each block of the result is the image of the block at the same place. */
  lemma {:induction false} MapBlocksAt(f: BlockMap, data: Bytes, at: nat)
    requires WholeBlocks(data) && at % BLOCK_SIZE == 0 && at + BLOCK_SIZE <= |data|
    ensures MapBlocks(f, data)[at..at + BLOCK_SIZE] == f(data[at..at + BLOCK_SIZE])
  {
    var first: Bytes := f(data[..BLOCK_SIZE]);
    var tail := data[BLOCK_SIZE..];
    assert MapBlocks(f, data) == first + MapBlocks(f, tail);
    if at > 0 {
      hide MapBlocks;
      MapBlocksAt(f, tail, at - BLOCK_SIZE);
      assert tail[at - BLOCK_SIZE..at] == data[at..at + BLOCK_SIZE];
      assert (first + MapBlocks(f, tail))[at..at + BLOCK_SIZE] == MapBlocks(f, tail)[at - BLOCK_SIZE..at];
    } else {
      assert (first + MapBlocks(f, tail))[..BLOCK_SIZE] == first;
    }
  }

  /** What decryption yields for a payload that was already decoded from base64. */
  function Decrypted(raw: Bytes, decrypt: BlockMap): Outcome<Bytes, PayloadError> {
    if raw == [] || !WholeBlocks(raw) then Err(InvalidLength(|raw|))
    else
      var out := MapBlocks(decrypt, raw);
      var padding := out[|out| - 1] as int;
      if padding <= 0 || padding > BLOCK_SIZE || padding > |out| then Err(InvalidPadding)
      else Ok(out[..|out| - padding])
  }

  lemma {:induction false} MapBlocksAppend(f: BlockMap, data: Bytes, block: Block)
    requires WholeBlocks(data)
    ensures MapBlocks(f, data + block) == MapBlocks(f, data) + f(block)
  {
    if data == [] {
      assert data + block == block && block[..BLOCK_SIZE] == block && block[BLOCK_SIZE..] == [];
    } else {
      var whole := data + block;
      assert whole[..BLOCK_SIZE] == data[..BLOCK_SIZE] && whole[BLOCK_SIZE..] == data[BLOCK_SIZE..] + block;
      MapBlocksAppend(f, data[BLOCK_SIZE..], block);
    }
  }

  lemma NoBlocks(f: BlockMap)
    ensures MapBlocks(f, []) == []
  {
  }

  method DecryptPayload(data: Outcome<Bytes, ()>, decrypt: BlockMap) returns (r: Outcome<Bytes, PayloadError>)
    ensures data.Err? ==> r == Err(NotBase64)
    ensures data.Ok? ==> r == Decrypted(data.value, decrypt)
  {
    hide MapBlocks;
    if data.Err? {
      return Err(NotBase64);
    }
    var raw := data.value;
    if |raw| == 0 || |raw| % BLOCK_SIZE != 0 {
      return Err(InvalidLength(|raw|));
    }
    var out := new bv8[|raw|](_ => 0);
    var offset := 0;
    NoBlocks(decrypt);
    while offset < |raw|
      invariant 0 <= offset <= |raw| && offset % BLOCK_SIZE == 0
      invariant out[..offset] == MapBlocks(decrypt, raw[..offset])
    {
      var block := decrypt(raw[offset..offset + BLOCK_SIZE]);
      MapBlocksAppend(decrypt, raw[..offset], raw[offset..offset + BLOCK_SIZE]);
      assert raw[..offset + BLOCK_SIZE] == raw[..offset] + raw[offset..offset + BLOCK_SIZE];
      assert |MapBlocks(decrypt, raw[..offset + BLOCK_SIZE])| == offset + BLOCK_SIZE;
      CopyBlock(out, offset, block);
      offset := offset + BLOCK_SIZE;
    }
    assert raw[..offset] == raw && out[..offset] == out[..];
    var padding := out[out.Length - 1] as int;
    if padding <= 0 || padding > BLOCK_SIZE || padding > out.Length {
      return Err(InvalidPadding);
    }
    return Ok(out[..out.Length - padding]);
  }

  method CopyBlock(out: array<bv8>, offset: nat, block: Block)
    requires offset + BLOCK_SIZE <= out.Length
    modifies out
    ensures out[..offset] == old(out[..offset])
    ensures out[..offset + BLOCK_SIZE] == old(out[..offset]) + block
  {
    forall k | 0 <= k < BLOCK_SIZE {
      out[offset + k] := block[k];
    }
  }

  // ----- encryption, which the program never does -----

  function PaddingOf(n: nat): (p: nat)
    ensures 1 <= p <= BLOCK_SIZE && (n + p) % BLOCK_SIZE == 0
  {
    BLOCK_SIZE - n % BLOCK_SIZE
  }

  /** PKCS#7, section 6.3 of RFC 5652. */
  function Pad(message: Bytes): (padded: Bytes)
    ensures WholeBlocks(padded) && |padded| > 0
  {
    var p := PaddingOf(|message|);
    message + seq(p, _ => p as bv8)
  }

  /** Electronic codebook mode, section 6.1 of NIST SP 800-38A, over the padded message. */
  function Encrypted(message: Bytes, encrypt: BlockMap): Bytes {
    MapBlocks(encrypt, Pad(message))
  }

  ghost predicate Inverse(decrypt: BlockMap, encrypt: BlockMap) {
    forall b: Block :: decrypt(encrypt(b)) == b
  }

  lemma {:induction false} MapBlocksInverse(decrypt: BlockMap, encrypt: BlockMap, data: Bytes)
    requires WholeBlocks(data) && Inverse(decrypt, encrypt)
    ensures MapBlocks(decrypt, MapBlocks(encrypt, data)) == data
  {
    if data != [] {
      var head: Bytes := encrypt(data[..BLOCK_SIZE]);
      var tail: Bytes := MapBlocks(encrypt, data[BLOCK_SIZE..]);
      assert (head + tail)[..BLOCK_SIZE] == head && (head + tail)[BLOCK_SIZE..] == tail;
      MapBlocksInverse(decrypt, encrypt, data[BLOCK_SIZE..]);
    }
  }

  /** Decryption undoes encryption, for every message and every block permutation. */
  lemma DecryptUndoesEncrypt(message: Bytes, decrypt: BlockMap, encrypt: BlockMap)
    requires Inverse(decrypt, encrypt)
    ensures Decrypted(Encrypted(message, encrypt), decrypt) == Ok(message)
  {
    MapBlocksInverse(decrypt, encrypt, Pad(message));
    var padded, p := Pad(message), PaddingOf(|message|);
    assert (p as bv8) as int == p;
    assert padded[|padded| - 1] == p as bv8 && padded[..|padded| - p] == message;
  }

  /** A payload is accepted exactly when it has whole blocks and its last byte announces one to sixteen bytes. */
  lemma AcceptedExactly(raw: Bytes, decrypt: BlockMap)
    ensures Decrypted(raw, decrypt).Ok?
            <==> (raw != [] && WholeBlocks(raw)
                  && 1 <= MapBlocks(decrypt, raw)[|raw| - 1] as int <= BLOCK_SIZE)
    ensures var r := Decrypted(raw, decrypt);
            r.Ok? ==> 1 <= |raw| - |r.value| <= BLOCK_SIZE
                      && r.value == MapBlocks(decrypt, raw)[..|r.value|]
  {
  }

  /**
   * Only the last byte of the padding is looked at: an accepted payload decrypts to the padding of its result
   * exactly when the other announced bytes agree with the last.
   */
  lemma AcceptedIsPaddedExactly(raw: Bytes, decrypt: BlockMap)
    requires Decrypted(raw, decrypt).Ok?
    ensures var message, out := Decrypted(raw, decrypt).value, MapBlocks(decrypt, raw);
            out == Pad(message) <==> forall k :: |message| <= k < |out| ==> out[k] == out[|out| - 1]
  {
    hide MapBlocks, Pad;
    var message, out := Decrypted(raw, decrypt).value, MapBlocks(decrypt, raw);
    var p := out[|out| - 1];
    assert p as int == |out| - |message| == PaddingOf(|message|);
    assert message == out[..|message|];
    PaddedExactly(message, out, p);
  }

  lemma PaddedExactly(message: Bytes, out: Bytes, p: bv8)
    requires message <= out && p as int == |out| - |message| == PaddingOf(|message|)
    ensures out == Pad(message) <==> forall k :: |message| <= k < |out| ==> out[k] == p
  {
    hide PaddingOf;
    assert PaddingOf(|message|) as bv8 == p;
    assert forall k :: |message| <= k < |out| ==> Pad(message)[k] == p;
    assert forall k :: 0 <= k < |message| ==> Pad(message)[k] == out[k];
  }

  /** Whatever the key, some payload whose padding is wrong in all but its last byte is accepted. */
  lemma WrongPaddingIsAccepted(decrypt: BlockMap, encrypt: BlockMap)
    requires Inverse(decrypt, encrypt)
    ensures var block: Block := [0, 0, 0, 0, 0, 0, 0, 0, 0, 0, 0, 0, 0, 0, 7, 2];
            var raw: Bytes := encrypt(block);
            && Decrypted(raw, decrypt) == Ok(block[..14])
            && MapBlocks(decrypt, raw) != Pad(block[..14])
  {
    var block: Block := [0, 0, 0, 0, 0, 0, 0, 0, 0, 0, 0, 0, 0, 0, 7, 2];
    var raw: Bytes := encrypt(block);
    assert raw[..BLOCK_SIZE] == raw && raw[BLOCK_SIZE..] == [];
    assert MapBlocks(decrypt, raw) == decrypt(raw) + [] == block;
    assert Pad(block[..14])[14] == 2;
  }
}
