// The layout of an ONY1 recording, byte by byte: where key, initial block and
// size are, how blocks are chained, and exactly which bytes are an upload.
module Ony1Header {
  import opened Outcomes
  import opened Ony1

  // ---- scattered bytes ----

  lemma {:induction false} NearAt(raw: Bytes, base: nat, offsets: seq<nat>, j: nat)
    requires Reach(raw, [base], offsets) && j < |offsets|
    ensures [base][0] == base && base + offsets[j] < |raw| && Near(raw, base, offsets)[j] == raw[base + offsets[j]]
    decreases |offsets|
  {
    assert [base][0] == base;
    if j < |offsets| - 1 { NearAt(raw, base, offsets[..|offsets| - 1], j); }
  }

  lemma {:induction false} ScatteredAt(raw: Bytes, bases: seq<nat>, offsets: seq<nat>, i: nat, j: nat)
    requires Reach(raw, bases, offsets) && i < |bases| && j < |offsets|
    ensures 0 <= |offsets| * i + j < |Scattered(raw, bases, offsets)|
    ensures bases[i] + offsets[j] < |raw|
    ensures Scattered(raw, bases, offsets)[|offsets| * i + j] == raw[bases[i] + offsets[j]]
    decreases |bases|
  {
    var front := bases[..|bases| - 1];
    assert Scattered(raw, bases, offsets) == Scattered(raw, front, offsets) + Near(raw, bases[|bases| - 1], offsets);
    assert |front| * |offsets| == |offsets| * |front|;
    if i < |front| {
      ScatteredAt(raw, front, offsets, i, j);
    } else {
      NearAt(raw, bases[i], offsets, j);
    }
  }

  // The key is at eight offsets from four bases of the header, the initial block
  // at four offsets from four others.
  lemma KeyIs(raw: Bytes, i: nat, j: nat)
    requires |raw| >= 1024 && i < 4 && j < 8
    ensures |Key(raw)| == 32
    ensures Key(raw)[8 * i + j] == raw[[32, 96, 160, 224][i] + [0, 1, 3, 5, 7, 10, 13, 15][j]]
  {
    ScatteredAt(raw, KEY_BASES, KEY_OFFSETS, i, j);
  }

  lemma IvIs(raw: Bytes, i: nat, j: nat)
    requires |raw| >= 1024 && i < 4 && j < 4
    ensures |Iv(raw)| == 16 && Iv(raw)[4 * i + j] == raw[[512, 620, 752, 848][i] + [0, 3, 6, 8][j]]
  {
    ScatteredAt(raw, IV_BASES, IV_OFFSETS, i, j);
  }

  // The size follows the mark in eight bytes, the greatest first.
  function Times256(n: nat, times: nat): nat { if times == 0 then n else 256 * Times256(n, times - 1) }

  lemma {:induction false} BigEndianFront(s: Bytes, n: nat)
    requires |s| == n + 1
    ensures BigEndian(s) == Times256(s[0] as nat, n) + BigEndian(s[1..])
    decreases n
  {
    if n == 0 {
      assert s[..0] == [] && s[1..] == [];
    } else {
      var front := s[..n];
      BigEndianFront(front, n - 1);
      assert s[1..][..n - 1] == front[1..];
    }
  }

  lemma {:induction false} SizeIs(s: Bytes)
    requires s != []
    ensures BigEndian([]) == 0
    ensures BigEndian(s) == Times256(s[0] as nat, |s| - 1) + BigEndian(s[1..])
  {
    BigEndianFront(s, |s| - 1);
  }

  // ---- chaining ----

  lemma SliceOn(text: Bytes, at: nat)
    requires 16 <= at && at + 16 <= |text|
    ensures text[16..][at - 16..at] == text[at..at + 16]
  {}

  // Every block is decrypted on its own and combined with the block before it.
  lemma {:induction false} DecryptedAt(d: BlockCipher, key: Bytes, iv: Bytes, text: Bytes, b: nat, i: nat)
    requires Blocks(d) && |iv| == 16 && |text| % 16 == 0 && 16 * b + 16 <= |text| && i < 16
    ensures Decrypted(d, key, iv, text)[16 * b + i]
            == d(key, text[16 * b..16 * b + 16])[i] ^ (if b == 0 then iv[i] else text[16 * (b - 1) + i])
    decreases b
  {
    if b > 0 {
      var rest, at := text[16..], 16 * b;
      DecryptedAt(d, key, text[..16], rest, b - 1, i);
      assert 16 * (b - 1) == at - 16;
      SliceOn(text, at);
      if b > 1 { assert 16 * (b - 2) == at - 32 && rest[at - 32 + i] == text[at - 16 + i]; }
    }
  }

  // ---- what is accepted ----

  ghost predicate Begins(raw: Bytes) {
    |raw| >= 5 && raw[0] == 'O' as byte && raw[1] == 'N' as byte && raw[2] == 'Y' as byte && raw[3] == '1' as byte && raw[4] == 1
  }

  // The last byte says how many bytes after the content, itself included, are padding.
  ghost predicate PaddedTo(plain: Bytes, size: nat) {
    && |plain| > size && 1 <= |plain| - size <= 16
    && forall i :: size <= i < |plain| ==> plain[i] as nat == |plain| - size
  }

  lemma PaddedToIs(plain: Bytes, size: nat)
    ensures WellPadded(plain, size) <==> PaddedTo(plain, size)
  {
    if PaddedTo(plain, size) { assert plain[|plain| - 1] as nat == |plain| - size; }
  }

  lemma BeginsIs(raw: Bytes)
    ensures Marked(raw) <==> Begins(raw)
  {
    if |raw| >= 5 {
      assert raw[..5] == [raw[0], raw[1], raw[2], raw[3], raw[4]];
    }
  }

  // The shape of an upload: its length for the stated size, both at most 64 MiB,
  // and the initial block once more after the header.
  ghost predicate UploadShaped(raw: Bytes) {
    && Begins(raw) && 1056 <= |raw| <= 64 * 1024 * 1024 && Size(raw) <= 64 * 1024 * 1024
    && |raw| == 1040 + 16 * (Size(raw) / 16 + 1) && raw[1024..1040] == Iv(raw)
  }

  lemma UploadShapedIs(raw: Bytes)
    ensures IsUpload(raw) <==> UploadShaped(raw)
  {
    BeginsIs(raw);
  }

  // Exactly these bytes are repaired: an upload whose decryption ends in padding.
  lemma RepairedIff(d: BlockCipher, raw: Bytes)
    requires Blocks(d)
    ensures AudioEnvelope(d, raw).Ok? <==>
              UploadShaped(raw) && PaddedTo(Decrypted(d, Key(raw), Iv(raw), raw[1040..]), Size(raw))
  {
    UploadShapedIs(raw);
    if UploadShaped(raw) { PaddedToIs(UploadPlain(d, raw), Size(raw)); }
  }

  // A published repair is shaped alike, without the block after the header.
  ghost predicate RepairShaped(raw: Bytes) {
    && Begins(raw) && 1040 <= |raw| <= 64 * 1024 * 1024 && Size(raw) <= 64 * 1024 * 1024
    && |raw| == 1024 + 16 * (Size(raw) / 16 + 1)
  }

  // Exactly these bytes have a plaintext: what has no mark is its own, and the
  // rest must be an upload or a repair that ends in padding.
  lemma PlaintextIff(d: BlockCipher, raw: Bytes)
    requires Blocks(d)
    ensures !Begins(raw) ==> AudioPlaintext(d, raw) == Ok(raw)
    ensures Begins(raw) ==>
              (AudioPlaintext(d, raw).Ok? <==>
                 AudioEnvelope(d, raw).Ok?
                 || (RepairShaped(raw) && PaddedTo(Decrypted(d, Key(raw), Iv(raw), raw[1024..]), Size(raw))))
    ensures Begins(raw) && AudioEnvelope(d, raw).Err? && AudioPlaintext(d, raw).Ok? ==>
              AudioPlaintext(d, raw).value == Decrypted(d, Key(raw), Iv(raw), raw[1024..])[..Size(raw)]
  {
    BeginsIs(raw);
    if RepairShaped(raw) { PaddedToIs(Decrypted(d, Key(raw), Iv(raw), raw[1024..]), Size(raw)); }
  }
}
