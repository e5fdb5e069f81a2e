/** When the message the other side gets is the message that was sent. */
module CoapFidelity {
  import opened Bytes
  import opened CoapStrings
  import opened CoapPacket
  import opened CoapRoundTrip

  /** The block a peer reads has the sender's number, size and more bit. */
  predicate SameBlock(got: Block, sent: Block) {
    got.num == sent.num && got.size == sent.size && (got.more != 0 <==> sent.more != 0)
  }

  /** The sizes a block option has a code for. */
  predicate BlockSizeCode(size: u16) {
    size in {16, 32, 64, 128, 256, 512, 1024, 2048}
  }

  predicate BlockFits(b: Block) {
    b.num < 0x1000_0000 && BlockSizeCode(b.size)
  }

  /** Equal in everything a receiver can observe: fields of options that are not set do not count. */
  ghost predicate SameMessage(got: Packet, sent: Packet) {
    && got.kind == sent.kind && got.code == sent.code && got.mid == sent.mid
    && got.token == sent.token && got.payload == sent.payload && got.options == sent.options
    && (IF_MATCH in sent.options ==> got.ifMatch == sent.ifMatch)
    && (URI_HOST in sent.options ==> got.uriHost == sent.uriHost)
    && (ETAG in sent.options ==> got.etag == sent.etag)
    && (IF_NONE_MATCH in sent.options ==> got.ifNoneMatch)
    && (OBSERVE in sent.options ==> got.observe == sent.observe)
    && (URI_PORT in sent.options ==> got.uriPort == sent.uriPort)
    && (LOCATION_PATH in sent.options ==> got.locationPath == sent.locationPath)
    && (URI_PATH in sent.options ==> got.uriPath == sent.uriPath)
    && (CONTENT_TYPE in sent.options ==> got.contentType == sent.contentType)
    && (MAX_AGE in sent.options ==> got.maxAge == sent.maxAge)
    && (URI_QUERY in sent.options ==> got.uriQuery == sent.uriQuery)
    && (ACCEPT in sent.options ==> got.accept == sent.accept)
    && (LOCATION_QUERY in sent.options ==> got.locationQuery == sent.locationQuery)
    && (BLOCK2 in sent.options ==> SameBlock(got.block2, sent.block2))
    && (BLOCK1 in sent.options ==> SameBlock(got.block1, sent.block1))
    && (SIZE in sent.options ==> got.size == sent.size)
  }

  lemma SizeCodes()
    ensures BlockSize(0) == 16 && BlockSize(1) == 32 && BlockSize(2) == 64 && BlockSize(3) == 128
    ensures BlockSize(4) == 256 && BlockSize(5) == 512 && BlockSize(6) == 1024 && BlockSize(7) == 2048
  {
    assert Shl(16, 2) == 64 && Shl(16, 4) == 256 && Shl(16, 6) == 1024;
  }

  lemma LogOfSize(szx: nat)
    requires szx < 8
    ensures Log2(BlockSize(szx) / 16) == szx
  {
    SizeCodes();
    assert Log2(2) == 1 && Log2(4) == 2 && Log2(8) == 3 && Log2(16) == 4;
    assert Log2(32) == 5 && Log2(64) == 6 && Log2(128) == 7;
  }

  lemma BlockSizeCoded(szx: nat)
    requires szx < 8
    ensures BlockSizeCode(BlockSize(szx))
  {
    SizeCodes();
  }

  lemma PackedBits(k: nat, low: nat)
    requires low < 16
    ensures (k * 16 + low) / 16 == k && (k * 16 + low) / 8 % 2 == low / 8 && (k * 16 + low) % 8 == low % 8
  {
    var high, rest := low / 8, low % 8;
    var x := (2 * k + high) * 8 + rest;
    assert x == k * 16 + low;
    assert x / 8 == 2 * k + high && x % 8 == rest;
  }

  /** What each part of a block option decodes to. */
  lemma BlockDecoded(b: Block)
    ensures BlockSizeCode(BlockOf(BlockValue(b)).size)
    ensures BlockOf(BlockValue(b)).num < 0x1000_0000
    ensures Log2(b.size / 16) < 8 ==>
              var got := BlockOf(BlockValue(b));
              && got.num == b.num % 0x1000_0000
              && got.size == BlockSize(Log2(b.size / 16))
              && got.more == (if b.more != 0 then 1 else 0)
  {
    hide Log2, BlockSize, Shl, BlockSizeCode, BlockOf, BlockValue;
    BlockSizeCoded(BlockValue(b) % 8);
    BlockParts(BlockValue(b));
    var szx := Log2(b.size / 16);
    if szx < 8 {
      ValueParts(b, szx);
      PackedBits(b.num % 0x1000_0000, if b.more != 0 then szx + 8 else szx);
    }
  }

  lemma NumberShifted(num: u32)
    ensures (num * 16) % 0x1_0000_0000 == num % 0x1000_0000 * 16
  {
    var q, r := num / 0x1000_0000, num % 0x1000_0000;
    assert num * 16 == q * 0x1_0000_0000 + r * 16;
  }

  lemma ValueParts(b: Block, szx: nat)
    requires szx == Log2(b.size / 16) < 8
    ensures BlockValue(b) == b.num % 0x1000_0000 * 16 + (if b.more != 0 then szx + 8 else szx)
  {
    hide Log2;
    NumberShifted(b.num);
  }

  lemma BlockParts(v: u32)
    ensures var b := BlockOf(v);
            && v / 16 == b.num && BlockSize(v % 8) == b.size && b.more == v / 8 % 2
            && b.offset == Shl(v / 16 * 16, v % 8) % 0x1_0000_0000
  {
  }

  lemma BlockSurvives(b: Block)
    ensures SameBlock(BlockOf(BlockValue(b)), b) <==> BlockFits(b)
  {
    BlockDecoded(b);
    SizeCodes();
    if BlockSizeCode(b.size) {
      var szx :| 0 <= szx < 8 && BlockSize(szx) == b.size;
      LogOfSize(szx);
    }
  }

  lemma OffsetScaled(num: nat, szx: nat)
    requires szx < 8
    ensures Shl(num * 16, szx) == num * BlockSize(szx)
  {
    ShlScales(num * 16, szx);
    ShlScales(16, szx);
    ScaleSwap(num, Shl(1, szx));
  }

  lemma OffsetFits(num: nat, size: u16)
    requires num <= 0xF_FFFF && BlockSizeCode(size)
    ensures 0 <= num * size < 0x1_0000_0000
  {
  }

  /** The byte offset a receiver computes for a block is its number times its size. */
  lemma BlockOffset(b: Block)
    requires b.num <= 0xF_FFFF && BlockSizeCode(b.size)
    ensures BlockOf(BlockValue(b)).offset == b.num * b.size
  {
    BlockSurvives(b);
    hide BlockOf, BlockValue, Shl, BlockSize, BlockSizeCode;
    var v := BlockValue(b);
    BlockParts(v);
    OffsetScaled(v / 16, v % 8);
    OffsetFits(b.num, b.size);
  }

  lemma ScaleSwap(n: nat, scale: nat)
    ensures n * 16 * scale == n * (16 * scale)
  {
  }

  lemma {:induction false} ShlScales(v: nat, n: nat)
    ensures Shl(v, n) == v * Shl(1, n)
  {
    if n > 0 {
      ShlScales(v, n - 1);
    }
  }

  lemma OptionsArrive(p: Packet)
    requires WellFormed(p) && PROXY_URI !in p.options
    ensures Received(p).options == p.options
  {
  }

  /**
   * A message built with the setters arrives as itself exactly when its location strings can be cut and
   * joined, and its block options have a size with a code and a number of at most 28 bits.
   */
  lemma Faithful(p: Packet)
    requires WellFormed(p) && Serialized(p) != [] && PROXY_URI !in p.options
    ensures Parse(Serialized(p)) == Accepted(Received(p))
    ensures SameMessage(Received(p), p) <==>
            && (LOCATION_PATH in p.options ==> Joinable(p.locationPath, SLASH))
            && (LOCATION_QUERY in p.options ==> Joinable(p.locationQuery, AMPERSAND))
            && (BLOCK2 in p.options ==> BlockFits(p.block2))
            && (BLOCK1 in p.options ==> BlockFits(p.block1))
  {
    hide Parse, Serialized, WellFormed, Joinable, BlockFits, SameBlock, Joined, Split, BlockOf, BlockValue;
    Delivered(p);
    OptionsArrive(p);
    SplitJoin(p.locationPath, SLASH);
    SplitJoin(p.locationQuery, AMPERSAND);
    BlockSurvives(p.block2);
    BlockSurvives(p.block1);
  }
}
