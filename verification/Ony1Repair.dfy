// What repairing an ONY1 recording keeps and what it changes.
module Ony1Repair {
  import opened Outcomes
  import opened Ony1

  lemma {:induction false} NearSame(a: Bytes, b: Bytes, base: nat, offsets: seq<nat>)
    requires HasHeader(a) && HasHeader(b) && a[..HEADER] == b[..HEADER] && base + BLOCK <= HEADER
    requires Reach(a, [base], offsets) && Reach(b, [base], offsets)
    ensures Near(a, base, offsets) == Near(b, base, offsets)
  {
    if offsets != [] {
      NearSame(a, b, base, offsets[..|offsets| - 1]);
      var k := base + offsets[|offsets| - 1];
      assert a[..HEADER][k] == b[..HEADER][k];
    }
  }

  lemma {:induction false} ScatteredSame(a: Bytes, b: Bytes, bases: seq<nat>, offsets: seq<nat>)
    requires HasHeader(a) && HasHeader(b) && a[..HEADER] == b[..HEADER]
    requires Reach(a, bases, offsets) && Reach(b, bases, offsets) && Reach(a[..HEADER], bases, offsets)
    ensures Scattered(a, bases, offsets) == Scattered(b, bases, offsets)
  {
    if bases != [] {
      ScatteredSame(a, b, bases[..|bases| - 1], offsets);
      NearSame(a, b, bases[|bases| - 1], offsets);
    }
  }

  // The header alone decides key, initial block, mark and size.
  lemma HeaderSame(a: Bytes, b: Bytes)
    requires HasHeader(a) && HasHeader(b) && a[..HEADER] == b[..HEADER]
    ensures Key(a) == Key(b) && Iv(a) == Iv(b) && Size(a) == Size(b) && Marked(a) == Marked(b)
  {
    ScatteredSame(a, b, KEY_BASES, KEY_OFFSETS);
    ScatteredSame(a, b, IV_BASES, IV_OFFSETS);
    assert a[5..13] == a[..HEADER][5..13] && b[5..13] == b[..HEADER][5..13];
    assert a[..|MAGIC|] == a[..HEADER][..|MAGIC|] && b[..|MAGIC|] == b[..HEADER][..|MAGIC|];
  }

  // The repaired bytes are the upload without its second initial block, and the
  // upload can be put together again from them.
  lemma RepairLosesNothing(d: BlockCipher, raw: Bytes)
    requires Blocks(d) && AudioEnvelope(d, raw).Ok?
    ensures var fixed := AudioEnvelope(d, raw).value.fixed;
            HasHeader(fixed) && raw == fixed[..HEADER] + Iv(fixed) + fixed[HEADER..]
  {
    var fixed := AudioEnvelope(d, raw).value.fixed;
    assert fixed[..HEADER] == raw[..HEADER];
    HeaderSame(raw, fixed);
  }

  // An upload and its repair decode to the same content, which has the stated size.
  lemma RepairKeepsContent(d: BlockCipher, raw: Bytes)
    requires Blocks(d) && AudioEnvelope(d, raw).Ok?
    ensures var r := AudioEnvelope(d, raw).value;
            && AudioPlaintext(d, raw) == Ok(r.original) && AudioPlaintext(d, r.fixed) == Ok(r.original)
            && |r.original| == Size(raw)
  {
    RepairIsRefused(d, raw);
    var fixed := AudioEnvelope(d, raw).value.fixed;
    assert fixed[..HEADER] == raw[..HEADER] && fixed[HEADER..] == raw[HEADER + BLOCK..];
    HeaderSame(raw, fixed);
  }

  // A repaired recording is never taken for an upload, so nothing is repaired twice.
  lemma RepairIsRefused(d: BlockCipher, raw: Bytes)
    requires Blocks(d) && AudioEnvelope(d, raw).Ok?
    ensures AudioEnvelope(d, AudioEnvelope(d, raw).value.fixed) == Err(BadEnvelope)
  {
    var fixed := AudioEnvelope(d, raw).value.fixed;
    assert fixed[..HEADER] == raw[..HEADER];
    HeaderSame(raw, fixed);
  }

  // What the shipped decoder plays: one block of noise, then the content, cut to
  // the stated size.
  lemma DamagedIsShifted(d: BlockCipher, raw: Bytes)
    requires Blocks(d) && AudioEnvelope(d, raw).Ok?
    ensures var r, noise := AudioEnvelope(d, raw).value, Xor(d(Key(raw), Iv(raw)), Iv(raw));
            |noise| == BLOCK && r.damaged == (noise + r.original)[..Size(raw)]
  {
    SecondBlockOn(d, Key(raw), Iv(raw), raw[HEADER..HEADER + BLOCK], raw[HEADER + BLOCK..]);
    assert raw[HEADER..] == raw[HEADER..HEADER + BLOCK] + raw[HEADER + BLOCK..];
    var noise, plain := Xor(d(Key(raw), Iv(raw)), Iv(raw)), UploadPlain(d, raw);
    CutSame(noise, plain, Size(raw));
  }

  // Chaining forgets everything but the last block.
  lemma SecondBlockOn(d: BlockCipher, key: Bytes, iv: Bytes, first: Bytes, rest: Bytes)
    requires Blocks(d) && |iv| == BLOCK == |first| && |rest| % BLOCK == 0
    ensures Decrypted(d, key, iv, first + rest) == Xor(d(key, first), iv) + Decrypted(d, key, first, rest)
  {
    assert (first + rest)[..BLOCK] == first && (first + rest)[BLOCK..] == rest;
  }

  lemma CutSame(a: Bytes, b: Bytes, n: nat)
    requires n <= |b|
    ensures (a + b)[..n] == (a + b[..n])[..n]
  {}

  // ---- recording: the other direction ----

  // `e` undoes `d` on blocks, and `d` undoes `e`.
  ghost predicate Inverse(d: BlockCipher, e: BlockCipher) {
    && Blocks(d) && Blocks(e)
    && forall key, block :: |block| == BLOCK ==> d(key, e(key, block)) == block && e(key, d(key, block)) == block
  }

  function Encrypted(e: BlockCipher, key: Bytes, iv: Bytes, plain: Bytes): (r: Bytes)
    requires |iv| == BLOCK && |plain| % BLOCK == 0 && forall block :: |e(key, block)| == BLOCK
    ensures |r| == |plain|
    decreases |plain|
  {
    if plain == [] then []
    else
      var c := e(key, Xor(plain[..BLOCK], iv));
      c + Encrypted(e, key, c, plain[BLOCK..])
  }

  function Pad(content: Bytes): (r: Bytes)
    ensures |r| == Padded(|content|)
  {
    var pad := Padded(|content|) - |content|;
    content + seq(pad, _ => pad as byte)
  }

  lemma XorTwice(a: Bytes, b: Bytes)
    requires |a| == |b|
    ensures Xor(Xor(a, b), b) == a
  {
    forall i | 0 <= i < |a| ensures Xor(Xor(a, b), b)[i] == a[i] { ByteXorTwice(a[i], b[i]); }
  }

  lemma ByteXorTwice(x: byte, y: byte)
    ensures (x ^ y) ^ y == x
  {}

  lemma {:induction false} DecryptsEncrypted(d: BlockCipher, e: BlockCipher, key: Bytes, iv: Bytes, plain: Bytes)
    requires Inverse(d, e) && |iv| == BLOCK && |plain| % BLOCK == 0
    ensures Decrypted(d, key, iv, Encrypted(e, key, iv, plain)) == plain
    decreases |plain|
  {
    if plain != [] {
      var first := plain[..BLOCK];
      var c := e(key, Xor(first, iv));
      var text := Encrypted(e, key, iv, plain);
      assert text[..BLOCK] == c && text[BLOCK..] == Encrypted(e, key, c, plain[BLOCK..]);
      XorTwice(first, iv);
      DecryptsEncrypted(d, e, key, c, plain[BLOCK..]);
      assert plain == first + plain[BLOCK..];
    }
  }

  lemma {:induction false} EncryptsDecrypted(d: BlockCipher, e: BlockCipher, key: Bytes, iv: Bytes, text: Bytes)
    requires Inverse(d, e) && |iv| == BLOCK && |text| % BLOCK == 0
    ensures Encrypted(e, key, iv, Decrypted(d, key, iv, text)) == text
    decreases |text|
  {
    if text != [] {
      var c := text[..BLOCK];
      var plain := Decrypted(d, key, iv, text);
      assert plain[..BLOCK] == Xor(d(key, c), iv) && plain[BLOCK..] == Decrypted(d, key, c, text[BLOCK..]);
      XorTwice(d(key, c), iv);
      EncryptsDecrypted(d, e, key, c, text[BLOCK..]);
      assert text == c + text[BLOCK..];
    }
  }

  lemma PadIsWell(content: Bytes)
    ensures WellPadded(Pad(content), |content|) && Pad(content)[..|content|] == content
  {
    var r, pad := Pad(content), Padded(|content|) - |content|;
    assert 1 <= pad <= BLOCK;
    assert forall i :: |content| <= i < |r| ==> r[i] == pad as byte;
  }

  lemma WellIsPad(plain: Bytes, size: nat)
    requires WellPadded(plain, size) && |plain| == Padded(size)
    ensures plain == Pad(plain[..size])
  {
    var pad := Padded(size) - size;
    forall i | size <= i < |plain| ensures plain[i] == pad as byte { assert plain[i] as nat == pad; }
  }

  // A recording as the tablet uploads it.
  ghost function Upload(e: BlockCipher, header: Bytes, content: Bytes): Bytes
    requires |header| == HEADER && forall key, block :: |e(key, block)| == BLOCK
  { header + Iv(header) + Encrypted(e, Key(header), Iv(header), Pad(content)) }

  ghost predicate HeaderFor(header: Bytes, content: Bytes) {
    && |header| == HEADER && Marked(header) && Size(header) == |content|
    && HEADER + BLOCK + Padded(|content|) <= MAX_OBJECT
  }

  // Whatever was recorded comes back, from the upload and from its repair.
  lemma UploadRoundTrip(d: BlockCipher, e: BlockCipher, header: Bytes, content: Bytes)
    requires Inverse(d, e) && HeaderFor(header, content)
    ensures var r := AudioEnvelope(d, Upload(e, header, content));
            r.Ok? && r.value.original == content
  {
    var raw := Upload(e, header, content);
    UploadIsUpload(e, header, content);
    DecryptsEncrypted(d, e, Key(header), Iv(header), Pad(content));
    PadIsWell(content);
  }

  lemma UploadIsUpload(e: BlockCipher, header: Bytes, content: Bytes)
    requires HeaderFor(header, content) && forall key, block :: |e(key, block)| == BLOCK
    ensures var raw := Upload(e, header, content);
            && IsUpload(raw) && Key(raw) == Key(header) && Iv(raw) == Iv(header) && Size(raw) == |content|
            && raw[HEADER + BLOCK..] == Encrypted(e, Key(header), Iv(header), Pad(content))
  {
    var raw := Upload(e, header, content);
    assert raw[..HEADER] == header[..HEADER];
    HeaderSame(raw, header);
    var text := Encrypted(e, Key(header), Iv(header), Pad(content));
    assert raw[HEADER..HEADER + BLOCK] == Iv(header) && raw[HEADER + BLOCK..] == text;
  }

  lemma Reassembled(raw: Bytes)
    requires IsUpload(raw)
    ensures raw == raw[..HEADER] + Iv(raw) + raw[HEADER + BLOCK..]
  {
    assert raw == raw[..HEADER] + raw[HEADER..HEADER + BLOCK] + raw[HEADER + BLOCK..];
  }

  // Nothing else is accepted: an accepted upload is the recording of its content.
  lemma AcceptedIsUpload(d: BlockCipher, e: BlockCipher, raw: Bytes)
    requires Inverse(d, e) && AudioEnvelope(d, raw).Ok?
    ensures var header, content := raw[..HEADER], AudioEnvelope(d, raw).value.original;
            HeaderFor(header, content) && raw == Upload(e, header, content)
  {
    var header := raw[..HEADER];
    assert header[..HEADER] == raw[..HEADER];
    HeaderSame(raw, header);
    Reassembled(raw);
    Recorded(d, e, raw);
  }

  lemma Recorded(d: BlockCipher, e: BlockCipher, raw: Bytes)
    requires Inverse(d, e) && IsUpload(raw) && WellPadded(UploadPlain(d, raw), Size(raw))
    ensures Encrypted(e, Key(raw), Iv(raw), Pad(UploadPlain(d, raw)[..Size(raw)])) == raw[HEADER + BLOCK..]
  {
    var plain, text := UploadPlain(d, raw), raw[HEADER + BLOCK..];
    WellIsPad(plain, Size(raw));
    assert |text| % BLOCK == 0 && plain == Decrypted(d, Key(raw), Iv(raw), text);
    EncryptsDecrypted(d, e, Key(raw), Iv(raw), text);
  }
}
