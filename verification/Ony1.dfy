// ONY1 recordings: the header, the cipher chain and the padding, and the repair
// of uploads that carry their initial block twice.
module Ony1 {
  import opened Outcomes

  type byte = bv8
  type Bytes = seq<byte>

  // One block decryption; the cipher itself is not looked into.
  type BlockCipher = (Bytes, Bytes) -> Bytes

  ghost predicate Blocks(d: BlockCipher) { forall key, block :: |d(key, block)| == BLOCK }

  const BLOCK := 16
  const HEADER := 1024
  const MAX_OBJECT := 0x400_0000
  const MAGIC: Bytes := [0x4F, 0x4E, 0x59, 0x31, 1]

  // ---- the header ----

  const KEY_BASES: seq<nat> := [32, 96, 160, 224]
  const KEY_OFFSETS: seq<nat> := [0, 1, 3, 5, 7, 10, 13, 15]
  const IV_BASES: seq<nat> := [512, 620, 752, 848]
  const IV_OFFSETS: seq<nat> := [0, 3, 6, 8]

  // Bytes scattered over a header, base by base.
  predicate Reach(raw: Bytes, bases: seq<nat>, offsets: seq<nat>) {
    && (forall i :: 0 <= i < |bases| ==> bases[i] + BLOCK <= |raw|)
    && (forall j :: 0 <= j < |offsets| ==> offsets[j] < BLOCK)
  }

  function Near(raw: Bytes, base: nat, offsets: seq<nat>): (r: Bytes)
    requires Reach(raw, [base], offsets)
    ensures |r| == |offsets|
  {
    if offsets == [] then []
    else
      assert [base][0] == base;
      Near(raw, base, offsets[..|offsets| - 1]) + [raw[base + offsets[|offsets| - 1]]]
  }

  function Scattered(raw: Bytes, bases: seq<nat>, offsets: seq<nat>): (r: Bytes)
    requires Reach(raw, bases, offsets)
    ensures |r| == |bases| * |offsets|
  {
    if bases == [] then []
    else Scattered(raw, bases[..|bases| - 1], offsets) + Near(raw, bases[|bases| - 1], offsets)
  }

  predicate HasHeader(raw: Bytes) { |raw| >= HEADER }

  function Key(raw: Bytes): Bytes
    requires HasHeader(raw)
  { Scattered(raw, KEY_BASES, KEY_OFFSETS) }

  function Iv(raw: Bytes): (iv: Bytes)
    requires HasHeader(raw)
    ensures |iv| == BLOCK
  { Scattered(raw, IV_BASES, IV_OFFSETS) }

  function BigEndian(s: Bytes): nat {
    if s == [] then 0 else BigEndian(s[..|s| - 1]) * 256 + s[|s| - 1] as nat
  }

  function Size(raw: Bytes): nat
    requires |raw| >= 13
  { BigEndian(raw[5..13]) }

  // At least one byte of padding, up to a whole block.
  function Padded(size: nat): (n: nat)
    ensures n % BLOCK == 0 && size < n <= size + BLOCK
  { size / BLOCK * BLOCK + BLOCK }

  // ---- cipher block chaining ----

  function Xor(a: Bytes, b: Bytes): (r: Bytes)
    requires |a| == |b|
    ensures |r| == |a|
  { seq(|a|, i requires 0 <= i < |a| => a[i] ^ b[i]) }

  // NIST SP 800-38A, section 6.2.
  ghost function Decrypted(d: BlockCipher, key: Bytes, iv: Bytes, text: Bytes): (r: Bytes)
    requires Blocks(d) && |iv| == BLOCK && |text| % BLOCK == 0
    ensures |r| == |text|
    decreases |text|
  {
    if text == [] then []
    else Xor(d(key, text[..BLOCK]), iv) + Decrypted(d, key, text[..BLOCK], text[BLOCK..])
  }

  // RFC 5652, section 6.3: the padding says how long it is, in every byte.
  predicate WellPadded(plain: Bytes, size: nat) {
    && plain != []
    && var pad := plain[|plain| - 1] as nat;
       1 <= pad <= BLOCK && |plain| == size + pad && forall i :: size <= i < |plain| ==> plain[i] as nat == pad
  }

  // ---- the two layouts ----

  datatype Refusal = BadEnvelope
  datatype Repair = Repair(fixed: Bytes, original: Bytes, damaged: Bytes)

  predicate Marked(raw: Bytes) { |raw| >= |MAGIC| && raw[..|MAGIC|] == MAGIC }

  // An upload: header, the initial block once more, then the recording.
  predicate UploadSized(raw: Bytes) { |raw| >= HEADER && |raw| == HEADER + BLOCK + Padded(Size(raw)) }

  predicate IsUpload(raw: Bytes) {
    && HEADER + 2 * BLOCK <= |raw| <= MAX_OBJECT && Marked(raw)
    && Size(raw) <= MAX_OBJECT && UploadSized(raw)
    && raw[HEADER..HEADER + BLOCK] == Iv(raw)
  }

  ghost function UploadPlain(d: BlockCipher, raw: Bytes): Bytes
    requires Blocks(d) && UploadSized(raw)
  { Decrypted(d, Key(raw), Iv(raw), raw[HEADER + BLOCK..]) }

  ghost function Opened(d: BlockCipher, raw: Bytes): Result<Repair, Refusal>
    requires Blocks(d) && UploadSized(raw)
  {
    if !WellPadded(UploadPlain(d, raw), Size(raw)) then Err(BadEnvelope)
    else
      var wrong := Decrypted(d, Key(raw), Iv(raw), raw[HEADER..]);
      Ok(Repair(raw[..HEADER] + raw[HEADER + BLOCK..], UploadPlain(d, raw)[..Size(raw)], wrong[..Size(raw)]))
  }

  ghost function AudioEnvelope(d: BlockCipher, raw: Bytes): Result<Repair, Refusal>
    requires Blocks(d)
  { if IsUpload(raw) then Opened(d, raw) else Err(BadEnvelope) }

  // A published repair: the initial block stands in the header only.
  predicate IsRepaired(raw: Bytes) {
    && HEADER + BLOCK <= |raw| <= MAX_OBJECT && Marked(raw)
    && Size(raw) <= MAX_OBJECT && |raw| == HEADER + Padded(Size(raw))
  }

  ghost function AudioPlaintext(d: BlockCipher, raw: Bytes): Result<Bytes, Refusal>
    requires Blocks(d)
  {
    if !Marked(raw) then Ok(raw)
    else if AudioEnvelope(d, raw).Ok? then Ok(AudioEnvelope(d, raw).value.original)
    else if !IsRepaired(raw) then Err(BadEnvelope)
    else
      var plain := Decrypted(d, Key(raw), Iv(raw), raw[HEADER..]);
      if WellPadded(plain, Size(raw)) then Ok(plain[..Size(raw)]) else Err(BadEnvelope)
  }

  // ---- as the server computes it ----

  method ReadKey(raw: Bytes) returns (key: Bytes, iv: Bytes)
    requires HasHeader(raw)
    ensures key == Key(raw) && iv == Iv(raw)
  {
    key := Collect(raw, KEY_BASES, KEY_OFFSETS);
    iv := Collect(raw, IV_BASES, IV_OFFSETS);
  }

  method Collect(raw: Bytes, bases: seq<nat>, offsets: seq<nat>) returns (r: Bytes)
    requires Reach(raw, bases, offsets)
    ensures r == Scattered(raw, bases, offsets)
  {
    r := [];
    for i := 0 to |bases|
      invariant r == Scattered(raw, bases[..i], offsets)
    {
      ghost var before := r;
      for j := 0 to |offsets|
        invariant r == before + Near(raw, bases[i], offsets[..j])
      {
        assert offsets[..j + 1][..j] == offsets[..j];
        r := r + [raw[bases[i] + offsets[j]]];
      }
      assert offsets[..|offsets|] == offsets;
      assert bases[..i + 1][..i] == bases[..i];
    }
    assert bases[..|bases|] == bases;
  }

  // Chained decryption into a buffer, block after block.
  method CryptBlocks(d: BlockCipher, key: Bytes, iv: Bytes, plain: array<byte>, text: Bytes)
    requires Blocks(d) && |iv| == BLOCK && |text| % BLOCK == 0 && plain.Length == |text|
    modifies plain
    ensures plain[..] == Decrypted(d, key, iv, text)
  {
    var at, prev := 0, iv;
    assert text[0..] == text;
    while at < |text|
      invariant 0 <= at <= |text| && |text[at..]| % BLOCK == 0 && |prev| == BLOCK
      invariant Decrypted(d, key, iv, text) == plain[..at] + Decrypted(d, key, prev, text[at..])
    {
      FirstBlock(d, key, prev, text, at);
      var block := text[at..at + BLOCK];
      CopyInto(plain, at, Xor(d(key, block), prev));
      at, prev := at + BLOCK, block;
    }
    assert plain[..at] == plain[..];
  }

  lemma FirstBlock(d: BlockCipher, key: Bytes, prev: Bytes, text: Bytes, at: nat)
    requires Blocks(d) && |prev| == BLOCK && at < |text| && |text[at..]| % BLOCK == 0
    ensures at + BLOCK <= |text| && |text[at + BLOCK..]| % BLOCK == 0
    ensures var block := text[at..at + BLOCK];
            Decrypted(d, key, prev, text[at..]) == Xor(d(key, block), prev) + Decrypted(d, key, block, text[at + BLOCK..])
  {
    assert |text[at..]| >= BLOCK;
    assert text[at..][..BLOCK] == text[at..at + BLOCK] && text[at..][BLOCK..] == text[at + BLOCK..];
  }

  method CopyInto(dst: array<byte>, at: nat, src: Bytes)
    requires at + |src| <= dst.Length
    modifies dst
    ensures dst[..] == old(dst[..at]) + src + old(dst[at + |src|..])
    ensures dst[..at + |src|] == old(dst[..at]) + src
  {
    for i := 0 to |src|
      invariant dst[..at] == old(dst[..at]) && dst[at..at + i] == src[..i] && dst[at + i..] == old(dst[at + i..])
    {
      dst[at + i] := src[i];
    }
    assert dst[..] == dst[..at] + dst[at..at + |src|] + dst[at + |src|..];
  }

  method PadRight(plain: Bytes, size: nat) returns (ok: bool)
    requires plain != []
    ensures ok <==> WellPadded(plain, size)
  {
    var pad := plain[|plain| - 1] as nat;
    if pad < 1 || pad > BLOCK || |plain| < pad || |plain| - pad != size { return false; }
    for i := |plain| - pad to |plain|
      invariant forall k :: |plain| - pad <= k < i ==> plain[k] as nat == pad
    {
      if plain[i] as nat != pad { return false; }
    }
    return true;
  }

  method Decode(d: BlockCipher, key: Bytes, iv: Bytes, text: Bytes) returns (plain: Bytes)
    requires Blocks(d) && |iv| == BLOCK && |text| % BLOCK == 0
    ensures plain == Decrypted(d, key, iv, text)
  {
    var buffer := new byte[|text|];
    CryptBlocks(d, key, iv, buffer, text);
    plain := buffer[..];
  }

  method WithoutBlock(raw: Bytes) returns (fixed: Bytes)
    requires |raw| >= 1040
    ensures fixed == raw[..1024] + raw[1040..]
  {
    var buffer := new byte[|raw| - 16];
    CopyInto(buffer, 0, raw[..1024]);
    CopyInto(buffer, 1024, raw[1040..]);
    fixed := buffer[..];
  }

  method LooksUploaded(raw: Bytes) returns (ok: bool)
    ensures ok <==> IsUpload(raw)
  {
    if |raw| < 1056 || |raw| > MAX_OBJECT || raw[..5] != MAGIC { return false; }
    var size := BigEndian(raw[5..13]);
    if size > MAX_OBJECT { return false; }
    var expected := size / BLOCK * BLOCK + BLOCK;
    if |raw| != 1040 + expected { return false; }
    var _, iv := ReadKey(raw);
    return iv == raw[1024..1040];
  }

  method OpenEnvelope(d: BlockCipher, raw: Bytes) returns (r: Result<Repair, Refusal>)
    requires Blocks(d)
    ensures r == AudioEnvelope(d, raw)
  {
    var ok := LooksUploaded(raw);
    if !ok { return Err(BadEnvelope); }
    r := OpenUpload(d, raw);
  }

  lemma UploadAligned(raw: Bytes)
    requires UploadSized(raw)
    ensures (|raw| - 1040) % BLOCK == 0 && (|raw| - 1024) % BLOCK == 0 && |raw| - 1040 > Size(raw)
  {}

  method OpenUpload(d: BlockCipher, raw: Bytes) returns (r: Result<Repair, Refusal>)
    requires Blocks(d) && UploadSized(raw)
    ensures r == Opened(d, raw)
  {
    UploadAligned(raw);
    var size := Size(raw);
    var plain := DecodeFrom(d, raw, 1040);
    var padded := PadRight(plain, size);
    if !padded { return Err(BadEnvelope); }
    r := BuildRepair(d, raw, plain, size);
  }

  method BuildRepair(d: BlockCipher, raw: Bytes, plain: Bytes, size: nat) returns (r: Result<Repair, Refusal>)
    requires Blocks(d) && |raw| >= 1040 && (|raw| - 1024) % BLOCK == 0 && size <= |plain| && size <= |raw| - 1024
    ensures r == Ok(Repair(raw[..1024] + raw[1040..], plain[..size],
                           Decrypted(d, Key(raw), Iv(raw), raw[1024..])[..size]))
  {
    var fixed := WithoutBlock(raw);
    var wrong := DecodeFrom(d, raw, 1024);
    return Ok(Repair(fixed, plain[..size], wrong[..size]));
  }

  method DecodeFrom(d: BlockCipher, raw: Bytes, at: nat) returns (plain: Bytes)
    requires Blocks(d) && HasHeader(raw) && at <= |raw| && (|raw| - at) % BLOCK == 0
    ensures plain == Decrypted(d, Key(raw), Iv(raw), raw[at..])
  {
    var key, iv := ReadKey(raw);
    plain := Decode(d, key, iv, raw[at..]);
  }

  method OpenPlaintext(d: BlockCipher, raw: Bytes) returns (r: Result<Bytes, Refusal>)
    requires Blocks(d)
    ensures r == AudioPlaintext(d, raw)
  {
    if |raw| < 5 || raw[..5] != MAGIC { return Ok(raw); }
    var envelope := OpenEnvelope(d, raw);
    if envelope.Ok? { return Ok(envelope.value.original); }
    if |raw| < 1040 || |raw| > MAX_OBJECT { return Err(BadEnvelope); }
    var size := BigEndian(raw[5..13]);
    if size > MAX_OBJECT { return Err(BadEnvelope); }
    var expected := size / BLOCK * BLOCK + BLOCK;
    if |raw| != 1024 + expected { return Err(BadEnvelope); }
    var key, iv := ReadKey(raw);
    var plain := Decode(d, key, iv, raw[1024..]);
    var padded := PadRight(plain, size);
    if !padded { return Err(BadEnvelope); }
    return Ok(plain[..size]);
  }
}
