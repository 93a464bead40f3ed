/**
  HMAC-MD5 over an abstract hash: pads xor-ed in place, text absorbed piece by piece, and the
  value section 2 of RFC 2104 defines.
 */
module Hmac {
  type Bytes = seq<bv8>

  const BLOCK: nat := 64
  const DIGEST: nat := 16
  const IPAD: bv8 := 0x36
  const OPAD: bv8 := 0x5c

  // ---- RFC 2104, section 2 ----

  ghost predicate IsHash(h: Bytes -> Bytes) {
    forall x :: |h(x)| == DIGEST
  }

  function Zeros(n: nat): Bytes {
    seq(n, _ => 0)
  }

  // The key, or its digest when it is longer than a block, filled up with zero bytes.
  function BlockKey(h: Bytes -> Bytes, key: Bytes): (k: Bytes)
    requires IsHash(h)
    ensures |k| == BLOCK
  {
    var short := if |key| > BLOCK then h(key) else key;
    short + Zeros(BLOCK - |short|)
  }

  function Xor(s: Bytes, pad: bv8): (r: Bytes)
    ensures |r| == |s|
    ensures forall i | 0 <= i < |s| :: r[i] == s[i] ^ pad
  {
    seq(|s|, i requires 0 <= i < |s| => s[i] ^ pad)
  }

  function Mac(h: Bytes -> Bytes, key: Bytes, text: Bytes): Bytes
    requires IsHash(h)
  {
    var k := BlockKey(h, key);
    h(Xor(k, OPAD) + h(Xor(k, IPAD) + text))
  }

  // Byte by byte: a key of at most 64 bytes is xor-ed with 0x36 and 0x5c, which also fill the rest.
  lemma MacOfShortKey(h: Bytes -> Bytes, key: Bytes, text: Bytes, inner: Bytes, outer: Bytes)
    requires IsHash(h) && |key| <= 64 && |inner| == |outer| == 64
    requires forall i | 0 <= i < 64 ::
               if i < |key| then inner[i] == key[i] ^ 0x36 && outer[i] == key[i] ^ 0x5c
               else inner[i] == 0x36 && outer[i] == 0x5c
    ensures Mac(h, key, text) == h(outer + h(inner + text))
  {
    var k := BlockKey(h, key);
    forall i | 0 <= i < 64
      ensures Xor(k, 0x36)[i] == inner[i] && Xor(k, 0x5c)[i] == outer[i]
    {
      XorZero(0x36);
      XorZero(0x5c);
    }
    assert Xor(k, 0x36) == inner && Xor(k, 0x5c) == outer;
  }

  lemma XorZero(b: bv8)
    ensures 0 ^ b == b
  {
  }

  // A code is one digest: 16 bytes.
  lemma MacLength(h: Bytes -> Bytes, key: Bytes, text: Bytes)
    requires IsHash(h)
    ensures |Mac(h, key, text)| == 16
  {
  }

  lemma MacOfEmptyKey(h: Bytes -> Bytes, text: Bytes)
    requires IsHash(h)
    ensures Mac(h, [], text) == h(seq(64, _ => 0x5c) + h(seq(64, _ => 0x36) + text))
  {
    MacOfShortKey(h, [], text, seq(64, _ => 0x36), seq(64, _ => 0x5c));
  }

  // Keys over a block act as their digest.
  lemma LongKeyIsItsDigest(h: Bytes -> Bytes, key: Bytes, text: Bytes)
    requires IsHash(h) && |key| > BLOCK
    ensures Mac(h, key, text) == Mac(h, h(key), text)
  {
    assert BlockKey(h, key) == BlockKey(h, h(key));
  }

  // Zero bytes appended within the first block change nothing.
  lemma ZeroBytesVanish(h: Bytes -> Bytes, key: Bytes, n: nat, text: Bytes)
    requires IsHash(h) && |key| + n <= BLOCK
    ensures Mac(h, key + Zeros(n), text) == Mac(h, key, text)
  {
    assert BlockKey(h, key + Zeros(n)) == BlockKey(h, key);
  }

  // The inner and the outer hash are never given the same bytes, whatever follows the pads.
  lemma DomainsApart(h: Bytes -> Bytes, key: Bytes, inner: Bytes, outer: Bytes)
    requires IsHash(h)
    ensures Xor(BlockKey(h, key), IPAD) + inner != Xor(BlockKey(h, key), OPAD) + outer
  {
    var k := BlockKey(h, key);
    PadsDiffer(k[0]);
    assert (Xor(k, IPAD) + inner)[0] == k[0] ^ IPAD;
    assert (Xor(k, OPAD) + outer)[0] == k[0] ^ OPAD;
  }

  lemma PadsDiffer(b: bv8)
    ensures b ^ IPAD != b ^ OPAD
  {
  }

  // ---- the streaming form ----

  // What a context holds: the bytes given to the inner hash, and the outer pad.
  datatype Context = Context(absorbed: Bytes, kOpad: Bytes)

  function Started(h: Bytes -> Bytes, key: Bytes): Context
    requires IsHash(h)
  {
    Context(Xor(BlockKey(h, key), IPAD), Xor(BlockKey(h, key), OPAD))
  }

  function UpdatedBy(c: Context, input: Bytes): Context {
    c.(absorbed := c.absorbed + input)
  }

  function UpdatedByAll(c: Context, inputs: seq<Bytes>): Context
    decreases |inputs|
  {
    if inputs == [] then c else UpdatedByAll(UpdatedBy(c, inputs[0]), inputs[1..])
  }

  function Finished(h: Bytes -> Bytes, c: Context): Bytes {
    h(c.kOpad + h(c.absorbed))
  }

  function Joined(inputs: seq<Bytes>): Bytes {
    if inputs == [] then [] else inputs[0] + Joined(inputs[1..])
  }

  lemma {:induction false} UpdatesJoin(c: Context, inputs: seq<Bytes>)
    ensures UpdatedByAll(c, inputs) == UpdatedBy(c, Joined(inputs))
    decreases |inputs|
  {
    if inputs == [] {
      assert c.absorbed + [] == c.absorbed;
    } else {
      UpdatesJoin(UpdatedBy(c, inputs[0]), inputs[1..]);
      assert c.absorbed + inputs[0] + Joined(inputs[1..]) == c.absorbed + Joined(inputs);
    }
  }

  // Init, any list of updates, final: the RFC value of the text joined up.
  lemma StreamingIsMac(h: Bytes -> Bytes, key: Bytes, inputs: seq<Bytes>)
    requires IsHash(h)
    ensures Finished(h, UpdatedByAll(Started(h, key), inputs)) == Mac(h, key, Joined(inputs))
  {
    UpdatesJoin(Started(h, key), inputs);
  }

  // ---- the C code ----

  // pj_md5_context, known by the bytes it has absorbed.
  class Md5Context {
    var absorbed: Bytes

    constructor ()
      ensures absorbed == []
    {
      absorbed := [];
    }

    method Init()
      modifies this
      ensures absorbed == []
    {
      absorbed := [];
    }

    method Update(input: Bytes)
      modifies this
      ensures absorbed == old(absorbed) + input
    {
      absorbed := absorbed + input;
    }
  }

  class HmacContext {
    const context: Md5Context
    const kOpad: array<bv8>

    constructor ()
      ensures fresh(context) && fresh(kOpad) && kOpad.Length == BLOCK
    {
      context := new Md5Context();
      kOpad := new bv8[BLOCK](_ => 0);
    }

    ghost function State(): Context
      reads context, kOpad
    {
      Context(context.absorbed, kOpad[..])
    }

    // pj_hmac_md5_init
    method Init(h: Bytes -> Bytes, key0: Bytes)
      requires IsHash(h) && kOpad.Length == BLOCK
      modifies context, kOpad
      ensures State() == Started(h, key0)
    {
      var key := key0;
      if |key| > BLOCK {
        key := h(key0);
      }
      var kIpad := new bv8[BLOCK](_ => 0);
      FillPads(kIpad, key);
      assert kOpad[..] == BlockKey(h, key0);
      ghost var k := BlockKey(h, key0);
      var i := 0;
      while i < BLOCK
        invariant 0 <= i <= BLOCK
        invariant forall j | 0 <= j < i :: kIpad[j] == k[j] ^ IPAD && kOpad[j] == k[j] ^ OPAD
        invariant forall j | i <= j < BLOCK :: kIpad[j] == k[j] && kOpad[j] == k[j]
      {
        kIpad[i] := kIpad[i] ^ IPAD;
        kOpad[i] := kOpad[i] ^ OPAD;
        i := i + 1;
      }
      assert kIpad[..] == Xor(k, IPAD) && kOpad[..] == Xor(k, OPAD);
      context.Init();
      context.Update(kIpad[..]);
    }

    // Zero both pads, then copy the key over their start.
    method FillPads(kIpad: array<bv8>, key: Bytes)
      requires kIpad != kOpad && kIpad.Length == kOpad.Length == BLOCK && |key| <= BLOCK
      modifies kIpad, kOpad
      ensures kIpad[..] == kOpad[..] == key + Zeros(BLOCK - |key|)
    {
      forall i | 0 <= i < BLOCK {
        kIpad[i] := if i < |key| then key[i] else 0;
      }
      forall i | 0 <= i < BLOCK {
        kOpad[i] := if i < |key| then key[i] else 0;
      }
    }

    // pj_hmac_md5_update
    method Update(input: Bytes)
      modifies context
      ensures State() == UpdatedBy(old(State()), input)
    {
      context.Update(input);
    }

    // pj_hmac_md5_final, which leaves the context holding the outer text.
    method Final(h: Bytes -> Bytes) returns (digest: Bytes)
      modifies context
      ensures digest == Finished(h, old(State()))
    {
      digest := h(context.absorbed);
      context.Init();
      context.Update(kOpad[..]);
      context.Update(digest);
      assert context.absorbed == kOpad[..] + digest;
      digest := h(context.absorbed);
    }
  }

  // pj_hmac_md5
  method HmacMd5(h: Bytes -> Bytes, input: Bytes, key: Bytes) returns (digest: Bytes)
    requires IsHash(h)
    ensures digest == Mac(h, key, input)
  {
    var ctx := new HmacContext();
    ctx.Init(h, key);
    ctx.Update(input);
    digest := ctx.Final(h);
    assert Joined([input]) == input;
    StreamingIsMac(h, key, [input]);
  }
}
