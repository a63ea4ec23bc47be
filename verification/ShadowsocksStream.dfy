/** The Shadowsocks AEAD TCP stream ("TCP" section of SIP004): a salt, then chunks, each a
    sealed length and a sealed body under consecutive counter nonces. */
module ShadowsocksStream {
  import opened Bytes

  const MAX_CHUNK := 0x3fff
  const TAG := 16

  // AES-GCM under one key, as far as the stream relies on it; both operations take the nonce first.
  datatype Gcm = Gcm(
    encrypt: (seq<byte>, seq<byte>) -> seq<byte>,
    decrypt: (seq<byte>, seq<byte>) -> Option<seq<byte>>)

  ghost predicate Authentic(g: Gcm) {
    forall nonce, plain ::
      |g.encrypt(nonce, plain)| == |plain| + 16 && g.decrypt(nonce, g.encrypt(nonce, plain)) == Some(plain)
  }

  // The stream's cipher: both operations take the value of the counter.
  datatype Cipher = Cipher(
    seal: (nat, seq<byte>) -> seq<byte>,
    unseal: (nat, seq<byte>) -> Option<seq<byte>>)

  ghost predicate Aead(c: Cipher) {
    forall n, plain ::
      |c.seal(n, plain)| == |plain| + TAG && c.unseal(n, c.seal(n, plain)) == Some(plain)
  }

  // Cipher::seal and Cipher::open: the counter gives the nonce.
  function CipherOf(g: Gcm): Cipher {
    Cipher((n, plain) => g.encrypt(Nonce(n), plain), (n, sealed) => g.decrypt(Nonce(n), sealed))
  }

  lemma CipherIsAead(g: Gcm)
    requires Authentic(g)
    ensures Aead(CipherOf(g))
  {
    var c := CipherOf(g);
    forall n, plain
      ensures |c.seal(n, plain)| == |plain| + TAG && c.unseal(n, c.seal(n, plain)) == Some(plain)
    {
      var nonce := Nonce(n);
      assert |g.encrypt(nonce, plain)| == |plain| + TAG;
    }
  }

  // ----- Nonces -----

  function ToLE(n: nat, k: nat): (s: seq<byte>)
    ensures |s| == k
  {
    if k == 0 then [] else [n % 256] + ToLE(n / 256, k - 1)
  }

  // The nonce of counter value `n`: its low 64 bits, little-endian, then four zero bytes.
  function Nonce(n: nat): (s: seq<byte>)
    ensures |s| == 12
  {
    ToLE(n, 8) + [0, 0, 0, 0]
  }

  // Byte i of the nonce is digit i of the counter in base 256; the last four are zero.
  lemma NonceDigits(n: nat, i: nat)
    requires i < 12
    ensures Nonce(n)[i] == if i < 8 then Shifted(n, i) % 256 else 0
  {
    if i < 8 {
      ToLEDigits(n, 8, i);
    }
  }

  // The counter without its i low bytes.
  function Shifted(n: nat, i: nat): nat {
    if i == 0 then n else Shifted(n / 256, i - 1)
  }

  lemma {:induction false} ToLEDigits(n: nat, k: nat, i: nat)
    requires i < k
    ensures ToLE(n, k)[i] == Shifted(n, i) % 256
  {
    if i > 0 {
      ToLEDigits(n / 256, k - 1, i - 1);
    }
  }

  lemma {:induction false} ToLEInjective(n: nat, m: nat, k: nat)
    requires n < Pow256(k) && m < Pow256(k) && ToLE(n, k) == ToLE(m, k)
    ensures n == m
  {
    if k > 0 {
      assert ToLE(n, k)[0] == ToLE(m, k)[0] && ToLE(n, k)[1..] == ToLE(m, k)[1..];
      ToLEInjective(n / 256, m / 256, k - 1);
    }
  }

  lemma {:induction false} ToLEWraps(n: nat, k: nat)
    ensures ToLE(n + Pow256(k), k) == ToLE(n, k)
  {
    if k > 0 {
      ToLEWraps(n / 256, k - 1);
      assert (n + Pow256(k)) / 256 == n / 256 + Pow256(k - 1);
    }
  }

  lemma NoncesDiffer(i: nat, j: nat)
    requires i < j < Pow256(8)
    ensures Nonce(i) != Nonce(j)
  {
    if Nonce(i) == Nonce(j) {
      assert ToLE(i, 8) == Nonce(i)[..8] && ToLE(j, 8) == Nonce(j)[..8];
      ToLEInjective(i, j, 8);
    }
  }

  // The first `count` nonces are all different exactly as long as the 64-bit counter has not
  // come round.
  lemma NoncesDistinctIff(count: nat)
    ensures (forall i, j :: 0 <= i < j < count ==> Nonce(i) != Nonce(j)) <==> count <= Pow256(8)
  {
    var limit := Pow256(8);
    if count <= limit {
      forall i, j | 0 <= i < j < count
        ensures Nonce(i) != Nonce(j)
      {
        NoncesDiffer(i, j);
      }
    } else {
      ToLEWraps(0, 8);
      assert Nonce(0) == Nonce(limit);
    }
  }

  // ----- The writer -----

  function Chunks(plain: seq<byte>): seq<seq<byte>>
    decreases |plain|
  {
    if plain == [] then []
    else if |plain| <= MAX_CHUNK then [plain]
    else [plain[..MAX_CHUNK]] + Chunks(plain[MAX_CHUNK..])
  }

  function SealChunk(c: Cipher, n: nat, chunk: seq<byte>): seq<byte>
    requires |chunk| < 65536
  {
    c.seal(n, BE16(|chunk|)) + c.seal(n + 1, chunk)
  }

  predicate Proper(chunks: seq<seq<byte>>) {
    forall k :: 0 <= k < |chunks| ==> 1 <= |chunks[k]| <= 0x3fff
  }

  function SealChunks(c: Cipher, n: nat, chunks: seq<seq<byte>>): seq<byte>
    requires Proper(chunks)
    decreases |chunks|
  {
    if chunks == [] then [] else SealChunk(c, n, chunks[0]) + SealChunks(c, n + 2, chunks[1..])
  }

  // The blocks of a stream in the order in which they are sealed: a length, a body, a length, ...
  function Blocks(chunks: seq<seq<byte>>): (b: seq<seq<byte>>)
    requires Proper(chunks)
    ensures |b| == 2 * |chunks|
  {
    if chunks == [] then [] else [BE16(|chunks[0]|), chunks[0]] + Blocks(chunks[1..])
  }

  // The nonces of so many counter values.
  function Nonces(n: nat, count: nat): (s: seq<seq<byte>>)
    ensures |s| == count && forall i :: 0 <= i < count ==> s[i] == Nonce(n + i)
  {
    seq(count, i requires 0 <= i < count => Nonce(n + i))
  }

  // Block i sealed under nonce i.
  function SealAll(g: Gcm, nonces: seq<seq<byte>>, blocks: seq<seq<byte>>): seq<byte>
    requires |nonces| == |blocks|
    decreases |blocks|
  {
    if blocks == [] then [] else g.encrypt(nonces[0], blocks[0]) + SealAll(g, nonces[1..], blocks[1..])
  }

  // Every block of a stream is sealed under the nonce of a counter value of its own, the next after
  // the one before.
  lemma {:induction false} SealedInTurn(g: Gcm, n: nat, chunks: seq<seq<byte>>)
    requires Proper(chunks)
    ensures SealChunks(CipherOf(g), n, chunks) == SealAll(g, Nonces(n, 2 * |chunks|), Blocks(chunks))
    decreases |chunks|
  {
    if chunks != [] {
      var nonces, more := Nonces(n, 2 * |chunks|), Blocks(chunks[1..]);
      assert nonces[1..][1..] == Nonces(n + 2, 2 * |chunks[1..]|);
      SealedInTurn(g, n + 2, chunks[1..]);
      SealTwo(g, nonces, BE16(|chunks[0]|), chunks[0], more);
    }
  }

  lemma SealTwo(g: Gcm, nonces: seq<seq<byte>>, a: seq<byte>, b: seq<byte>, more: seq<seq<byte>>)
    requires |nonces| == 2 + |more|
    ensures SealAll(g, nonces, [a, b] + more) ==
            g.encrypt(nonces[0], a) + g.encrypt(nonces[1], b) + SealAll(g, nonces[1..][1..], more)
  {
    assert ([a, b] + more)[1..] == [b] + more && ([b] + more)[1..] == more;
    Cut3(g.encrypt(nonces[0], a), g.encrypt(nonces[1], b), SealAll(g, nonces[1..][1..], more));
  }

  // Chunking loses nothing and keeps every length within bounds.
  lemma {:induction false} ChunksSound(plain: seq<byte>)
    ensures Proper(Chunks(plain)) && Concat(Chunks(plain)) == plain
    decreases |plain|
  {
    if |plain| > MAX_CHUNK {
      ChunksSound(plain[MAX_CHUNK..]);
      assert Chunks(plain)[1..] == Chunks(plain[MAX_CHUNK..]);
    } else if plain != [] {
      assert Concat([plain]) == plain + Concat([]);
    }
  }

  // It cuts as few chunks as the bound allows: a full 16 KiB read becomes two.
  lemma {:induction false} ChunkCount(plain: seq<byte>)
    ensures |Chunks(plain)| == (|plain| + 0x3fff - 1) / 0x3fff
    ensures |plain| == 16 * 1024 ==> |Chunks(plain)| == 2
    decreases |plain|
  {
    if |plain| > MAX_CHUNK {
      ChunkCount(plain[MAX_CHUNK..]);
    }
  }

  // The chunks a list of read buffers is cut into.
  function AllChunks(buffers: seq<seq<byte>>): seq<seq<byte>> {
    if buffers == [] then [] else Chunks(buffers[0]) + AllChunks(buffers[1..])
  }

  lemma {:induction false} AllChunksSound(buffers: seq<seq<byte>>)
    ensures Proper(AllChunks(buffers)) && Concat(AllChunks(buffers)) == Concat(buffers)
  {
    if buffers != [] {
      AllChunksSound(buffers[1..]);
      ChunksSound(buffers[0]);
      ConcatAppend(Chunks(buffers[0]), AllChunks(buffers[1..]));
    }
  }

  lemma {:induction false} AllChunksOneMore(buffers: seq<seq<byte>>, last: seq<byte>)
    ensures AllChunks(buffers + [last]) == AllChunks(buffers) + Chunks(last)
  {
    if buffers == [] {
      assert buffers + [last] == [last] && AllChunks([last][1..]) == [];
    } else {
      assert (buffers + [last])[1..] == buffers[1..] + [last];
      AllChunksOneMore(buffers[1..], last);
    }
  }

  predicate Distinct(s: seq<seq<byte>>) {
    forall i, j :: 0 <= i < j < |s| ==> s[i] != s[j]
  }

  // For every list of buffers: the stream written is its blocks, each sealed under the nonce in its
  // place, and those nonces are all different if and only if there are at most 2^64 of them.
  lemma NoNonceTwice(g: Gcm, buffers: seq<seq<byte>>)
    ensures Proper(AllChunks(buffers))
    ensures var chunks := AllChunks(buffers);
            var nonces := Nonces(0, 2 * |chunks|);
            && SealChunks(CipherOf(g), 0, chunks) == SealAll(g, nonces, Blocks(chunks))
            && (Distinct(nonces) <==> 2 * |chunks| <= Pow256(8))
  {
    AllChunksSound(buffers);
    var chunks := AllChunks(buffers);
    SealedInTurn(g, 0, chunks);
    NoncesDistinctIff(2 * |chunks|);
    var nonces := Nonces(0, 2 * |chunks|);
    assert forall i :: 0 <= i < |nonces| ==> nonces[i] == Nonce(i);
    if Distinct(nonces) {
      forall i, j | 0 <= i < j < 2 * |chunks| ensures Nonce(i) != Nonce(j) {
        assert nonces[i] != nonces[j];
      }
    }
  }

  // The writing half of pump: the counter and the wire grow with every buffer read.
  class Writer {
    const cipher: Cipher
    var counter: nat
    var wire: seq<byte>

    constructor (cipher: Cipher, salt: seq<byte>)
      ensures this.cipher == cipher && counter == 0 && wire == salt
    {
      this.cipher := cipher;
      counter := 0;
      wire := salt;
    }

    method Write(plain: seq<byte>)
      modifies this
      ensures Proper(Chunks(plain))
      ensures wire == old(wire) + SealChunks(cipher, old(counter), Chunks(plain))
      ensures counter == old(counter) + 2 * |Chunks(plain)|
    {
      ChunksSound(plain);
      WriteChunks(Chunks(plain));
    }

    // One buffer after the other.
    method WriteAll(buffers: seq<seq<byte>>)
      modifies this
      ensures Proper(AllChunks(buffers))
      ensures wire == old(wire) + SealChunks(cipher, old(counter), AllChunks(buffers))
      ensures counter == old(counter) + 2 * |AllChunks(buffers)|
    {
      ghost var start, before := counter, wire;
      for k := 0 to |buffers|
        invariant Proper(AllChunks(buffers[..k]))
        invariant counter == start + 2 * |AllChunks(buffers[..k])|
        invariant wire == before + SealChunks(cipher, start, AllChunks(buffers[..k]))
      {
        Write(buffers[k]);
        OneMoreBuffer(cipher, start, before, buffers, k);
      }
      assert buffers[..|buffers|] == buffers;
    }

    method WriteChunks(chunks: seq<seq<byte>>)
      requires Proper(chunks)
      modifies this
      ensures wire == old(wire) + SealChunks(cipher, old(counter), chunks)
      ensures counter == old(counter) + 2 * |chunks|
    {
      ghost var start, before := counter, wire;
      for k := 0 to |chunks|
        invariant counter == start + 2 * k
        invariant wire == before + SealChunks(cipher, start, chunks[..k])
      {
        WriteChunk(chunks[k]);
        SealOneMore(cipher, start, chunks[..k], chunks[k]);
        assert chunks[..k] + [chunks[k]] == chunks[..k + 1];
      }
      assert chunks[..|chunks|] == chunks;
    }

    method WriteChunk(chunk: seq<byte>)
      requires 1 <= |chunk| <= MAX_CHUNK
      modifies this
      ensures wire == old(wire) + SealChunk(cipher, old(counter), chunk)
      ensures counter == old(counter) + 2
    {
      var sealedLen := cipher.seal(counter, BE16(|chunk|));
      counter := counter + 1;
      var sealedBody := cipher.seal(counter, chunk);
      counter := counter + 1;
      wire := wire + sealedLen;
      wire := wire + sealedBody;
    }
  }

  lemma {:induction false} SealOneMore(c: Cipher, n: nat, chunks: seq<seq<byte>>, last: seq<byte>)
    requires Proper(chunks) && 1 <= |last| <= MAX_CHUNK
    ensures SealChunks(c, n, chunks + [last]) == SealChunks(c, n, chunks) + SealChunk(c, n + 2 * |chunks|, last)
    decreases |chunks|
  {
    if chunks == [] {
      assert chunks + [last] == [last] && [last][1..] == [];
      assert SealChunks(c, n, [last]) == SealChunk(c, n, last) + SealChunks(c, n + 2, []);
    } else {
      assert (chunks + [last])[1..] == chunks[1..] + [last];
      SealOneMore(c, n + 2, chunks[1..], last);
    }
  }

  lemma {:induction false} SealMore(c: Cipher, n: nat, a: seq<seq<byte>>, b: seq<seq<byte>>)
    requires Proper(a) && Proper(b)
    ensures SealChunks(c, n, a + b) == SealChunks(c, n, a) + SealChunks(c, n + 2 * |a|, b)
    decreases |a|
  {
    if a == [] {
      assert a + b == b;
    } else {
      assert (a + b)[1..] == a[1..] + b;
      SealMore(c, n + 2, a[1..], b);
      Cut3(SealChunk(c, n, a[0]), SealChunks(c, n + 2, a[1..]), SealChunks(c, n + 2 * |a|, b));
    }
  }

  lemma OneMoreBuffer(c: Cipher, n: nat, before: seq<byte>, buffers: seq<seq<byte>>, k: nat)
    requires k < |buffers| && Proper(AllChunks(buffers[..k])) && Proper(Chunks(buffers[k]))
    ensures var done, chunks := AllChunks(buffers[..k]), Chunks(buffers[k]);
            && AllChunks(buffers[..k + 1]) == done + chunks && Proper(done + chunks)
            && before + SealChunks(c, n, done) + SealChunks(c, n + 2 * |done|, chunks) ==
               before + SealChunks(c, n, done + chunks)
  {
    var done, chunks := AllChunks(buffers[..k]), Chunks(buffers[k]);
    assert buffers[..k] + [buffers[k]] == buffers[..k + 1];
    AllChunksOneMore(buffers[..k], buffers[k]);
    SealMore(c, n, done, chunks);
    Cut3(before, SealChunks(c, n, done), SealChunks(c, n + 2 * |done|, chunks));
  }

  // ----- The reader -----

  // A read_chunk that returns no data ends the stream; Failed is an error.
  datatype Got = Data(body: seq<byte>, size: nat) | Closed | Failed

  // One chunk off the front of `rest`, the counter being at `n`.
  function ReadOne(c: Cipher, n: nat, rest: seq<byte>): (g: Got)
    ensures g.Data? ==> 0 < g.size <= |rest|
  {
    if |rest| < 2 + TAG then Closed
    else
      var len := c.unseal(n, rest[..2 + TAG]);
      if len.None? || |len.value| != 2 then Failed
      else
        var size: int := FromBE16(len.value);
        if size == 0 || size > MAX_CHUNK then Failed
        else if |rest| < 2 + TAG + size + TAG then Failed
        else
          var body := c.unseal(n + 1, rest[2 + TAG..2 + TAG + size + TAG]);
          if body.None? then Failed else Data(body.value, 2 + TAG + size + TAG)
  }

  // All that reading until the end yields, and the counter it ends with.
  datatype Stream = Stream(chunks: seq<seq<byte>>, end: Got, counter: nat)

  function ReadAll(c: Cipher, n: nat, rest: seq<byte>): Stream
    decreases |rest|
  {
    match ReadOne(c, n, rest)
    case Data(body, size) =>
      if body == [] then Stream([], Closed, n + 2)
      else
        var more := ReadAll(c, n + 2, rest[size..]);
        more.(chunks := [body] + more.chunks)
    case end => Stream([], end, n)
  }

  // The salt comes first and selects the key.
  function ReadWire(derive: seq<byte> -> Cipher, saltLen: nat, wire: seq<byte>): Stream {
    if |wire| < saltLen then Stream([], Failed, 0)
    else ReadAll(derive(wire[..saltLen]), 0, wire[saltLen..])
  }

  // The reading half of pump: the cipher is set up by the first call.
  class Reader {
    const derive: seq<byte> -> Cipher
    const saltLen: nat
    const wire: seq<byte>
    var pos: nat
    var dec: Option<Cipher>
    var counter: nat

    ghost predicate Valid()
      reads this
    {
      pos <= |wire| && (dec.Some? ==> saltLen <= |wire| && dec.value == derive(wire[..saltLen]))
      && (dec.None? ==> pos == 0 && counter == 0)
    }

    constructor (derive: seq<byte> -> Cipher, saltLen: nat, wire: seq<byte>)
      ensures Valid() && this.derive == derive && this.saltLen == saltLen && this.wire == wire
      ensures pos == 0 && dec.None? && counter == 0
    {
      this.derive, this.saltLen, this.wire := derive, saltLen, wire;
      pos, dec, counter := 0, None, 0;
    }

    // read_chunk; `None` in place of data is the clean end.
    method ReadChunk() returns (ok: bool, data: Option<seq<byte>>)
      requires Valid()
      modifies this
      ensures Valid()
      ensures old(dec.None?) && |wire| < saltLen ==> !ok
      ensures var start := if old(dec.None?) then saltLen else old(pos);
              start <= |wire| ==>
                var got := ReadOne(derive(wire[..saltLen]), old(counter), wire[start..]);
                && (got.Data? ==> ok && data == Some(got.body) && pos == start + got.size && counter == old(counter) + 2
                                  && dec.Some?)
                && (got.Closed? ==> ok && data == None && counter == old(counter))
                && (got.Failed? ==> !ok)
    {
      data := None;
      if dec.None? {
        if |wire| < saltLen {
          return false, None;
        }
        dec := Some(derive(wire[..saltLen]));
        pos := saltLen;
      }
      var got := ReadSealed(dec.value, counter, wire, pos);
      match got
      case Closed => return true, None;
      case Failed => return false, None;
      case Data(body, size) =>
        pos := pos + size;
        counter := counter + 2;
        return true, Some(body);
    }

    // What there is still to read.
    ghost function Ahead(): Stream
      requires Valid()
      reads this
    {
      if dec.None? then ReadWire(derive, saltLen, wire) else ReadAll(dec.value, counter, wire[pos..])
    }

    // The same as the first step of reading all that is ahead.
    method ReadNext() returns (ok: bool, data: Option<seq<byte>>)
      requires Valid()
      modifies this
      ensures Valid()
      ensures if ok && data.Some? && data.value != [] then
                && old(Ahead()) == Onto([data.value], Ahead()) && dec.Some? && pos >= old(pos)
                && (old(dec).Some? ==> pos > old(pos))
              else
                && old(Ahead()).chunks == [] && old(Ahead()).end == (if ok then Closed else Failed)
                && (ok ==> counter == old(Ahead()).counter)
    {
      ghost var start := if dec.None? then saltLen else pos;
      ok, data := ReadChunk();
      if ok && data.Some? && data.value != [] {
        assert wire[start..][pos - start..] == wire[pos..];
      }
    }
  }

  // The reading arm of pump: chunk after chunk until the end or an error.
  method ReadToEnd(r: Reader) returns (chunks: seq<seq<byte>>, end: Got)
    requires r.Valid() && r.dec.None?
    modifies r
    ensures var all := ReadWire(r.derive, r.saltLen, r.wire);
            chunks == all.chunks && end == all.end && (end == Closed ==> r.counter == all.counter)
  {
    chunks := [];
    ghost var all := r.Ahead();
    OntoNothing(all);
    while true
      invariant r.Valid() && all == Onto(chunks, r.Ahead())
      decreases |r.wire| - r.pos, r.dec.None?
    {
      var ok, data := r.ReadNext();
      if !ok || data.None? || data.value == [] {
        assert chunks + [] == chunks;
        return chunks, if ok then Closed else Failed;
      }
      OntoTwice(chunks, data.value, r.Ahead());
      chunks := chunks + [data.value];
    }
  }

  // Chunks read before the rest of the stream.
  function Onto(chunks: seq<seq<byte>>, s: Stream): Stream { s.(chunks := chunks + s.chunks) }

  lemma OntoNothing(s: Stream)
    ensures Onto([], s) == s
  {
    assert [] + s.chunks == s.chunks;
  }

  lemma OntoTwice(chunks: seq<seq<byte>>, chunk: seq<byte>, s: Stream)
    ensures Onto(chunks, Onto([chunk], s)) == Onto(chunks + [chunk], s)
  {
    assert chunks + ([chunk] + s.chunks) == chunks + [chunk] + s.chunks;
  }

  // The two exact reads of read_chunk and the checks between them.
  method ReadSealed(cipher: Cipher, counter: nat, wire: seq<byte>, start: nat) returns (got: Got)
    requires start <= |wire|
    ensures got == ReadOne(cipher, counter, wire[start..])
  {
    var pos := start;
    if |wire| - pos < 2 + TAG {
      return Closed;
    }
    assert wire[start..][..2 + TAG] == wire[pos..pos + 2 + TAG];
    var len := cipher.unseal(counter, wire[pos..pos + 2 + TAG]);
    pos := pos + 2 + TAG;
    if len.None? || |len.value| != 2 {
      return Failed;
    }
    var size: int := FromBE16(len.value);
    if size == 0 || size > MAX_CHUNK {
      return Failed;
    }
    if |wire| - pos < size + TAG {
      return Failed;
    }
    assert wire[start..][2 + TAG..2 + TAG + size + TAG] == wire[pos..pos + size + TAG];
    var body := cipher.unseal(counter + 1, wire[pos..pos + size + TAG]);
    pos := pos + size + TAG;
    return if body.None? then Failed else Data(body.value, pos - start);
  }

  // ----- The stream as a whole -----

  // The bytes one chunk takes on the wire.
  function Size(chunk: seq<byte>): nat { 2 + TAG + |chunk| + TAG }

  lemma SealedSize(c: Cipher, n: nat, chunk: seq<byte>)
    requires Aead(c) && 1 <= |chunk| <= MAX_CHUNK
    ensures |SealChunk(c, n, chunk)| == Size(chunk)
  {
    assert |c.seal(n, BE16(|chunk|))| == 2 + TAG;
  }

  lemma SealedIsRead(c: Cipher, n: nat, chunk: seq<byte>, tail: seq<byte>)
    requires Aead(c) && 1 <= |chunk| <= MAX_CHUNK
    ensures ReadOne(c, n, SealChunk(c, n, chunk) + tail) == Data(chunk, Size(chunk))
  {
    var a, b := c.seal(n, BE16(|chunk|)), c.seal(n + 1, chunk);
    var rest := SealChunk(c, n, chunk) + tail;
    assert |a| == 2 + TAG && |b| == |chunk| + TAG;
    assert rest[..2 + TAG] == a && rest[2 + TAG..Size(chunk)] == b;
    assert c.unseal(n, a) == Some(BE16(|chunk|)) && c.unseal(n + 1, b) == Some(chunk);
  }

  // A chunk that is cut off reads as a clean end inside its length block and as an error
  // inside its body.
  lemma CutIsNotRead(c: Cipher, n: nat, chunk: seq<byte>, k: nat)
    requires Aead(c) && 1 <= |chunk| <= MAX_CHUNK && k < Size(chunk) == |SealChunk(c, n, chunk)|
    ensures ReadOne(c, n, SealChunk(c, n, chunk)[..k]) == if k < 2 + TAG then Closed else Failed
  {
    var a := c.seal(n, BE16(|chunk|));
    assert |a| == 2 + TAG;
    assert k >= 2 + TAG ==> SealChunk(c, n, chunk)[..k][..2 + TAG] == a;
    assert c.unseal(n, a) == Some(BE16(|chunk|));
  }

  lemma ReadPastChunk(c: Cipher, n: nat, chunk: seq<byte>, tail: seq<byte>)
    requires Aead(c) && 1 <= |chunk| <= MAX_CHUNK
    ensures var more := ReadAll(c, n + 2, tail);
            ReadAll(c, n, SealChunk(c, n, chunk) + tail) == more.(chunks := [chunk] + more.chunks)
  {
    SealedIsRead(c, n, chunk, tail);
    SealedSize(c, n, chunk);
    assert (SealChunk(c, n, chunk) + tail)[Size(chunk)..] == tail;
  }

  lemma ReadCutChunk(c: Cipher, n: nat, chunk: seq<byte>, k: nat)
    requires Aead(c) && 1 <= |chunk| <= MAX_CHUNK && k < Size(chunk) == |SealChunk(c, n, chunk)|
    ensures ReadAll(c, n, SealChunk(c, n, chunk)[..k]) == Stream([], if k < 2 + TAG then Closed else Failed, n)
  {
    CutIsNotRead(c, n, chunk, k);
  }

  // ----- Any bytes -----

  // The bytes are a chunk with this body under counter values n and n + 1: an authentic length block
  // that announces 1 to 0x3fff bytes, and an authentic block of that size.
  predicate Sealed(c: Cipher, n: nat, piece: seq<byte>, body: seq<byte>) {
    && |piece| >= 34 && |piece| - 34 <= 0x3fff && |piece| - 34 >= 1
    && c.unseal(n, piece[..18]) == Some(BE16(|piece| - 34))
    && c.unseal(n + 1, piece[18..]) == Some(body)
  }

  // A chunk is read exactly if the bytes begin with one; they read as the end exactly if they are
  // too few for a length block.
  lemma ReadOneIff(c: Cipher, n: nat, rest: seq<byte>, body: seq<byte>, size: nat)
    ensures ReadOne(c, n, rest) == Data(body, size) <==> size <= |rest| && Sealed(c, n, rest[..size], body)
    ensures ReadOne(c, n, rest) == Closed <==> |rest| < 18
  {
    if size <= |rest| && size >= 34 {
      assert rest[..size][..18] == rest[..18] && rest[..size][18..] == rest[18..size];
    }
  }

  // Piece by piece a chunk with a body, under the counter values in turn.
  predicate AllSealed(c: Cipher, n: nat, pieces: seq<seq<byte>>, bodies: seq<seq<byte>>)
    decreases |pieces|
  {
    if pieces == [] || bodies == [] then pieces == bodies == []
    else
      Sealed(c, n, pieces[0], bodies[0]) && bodies[0] != [] && AllSealed(c, n + 2, pieces[1..], bodies[1..])
  }

  // The bytes are such pieces, and then the reason to stop.
  ghost predicate Accounts(c: Cipher, n: nat, rest: seq<byte>, pieces: seq<seq<byte>>, left: seq<byte>, all: Stream) {
    && rest == Concat(pieces) + left && AllSealed(c, n, pieces, all.chunks)
    && Stops(c, n + 2 * |pieces|, left, all.end)
  }

  // A stream ends cleanly when fewer bytes than a length block are left, and in error when what is left
  // does not begin with a chunk. A chunk with an empty body would end it too.
  ghost predicate Stops(c: Cipher, n: nat, left: seq<byte>, end: Got) {
    if end == Closed then |left| < 18 || exists size: nat :: size <= |left| && Sealed(c, n, left[..size], [])
    else |left| >= 18 && forall size: nat, body :: size <= |left| ==> !Sealed(c, n, left[..size], body)
  }

  lemma StopsThere(c: Cipher, n: nat, left: seq<byte>)
    requires !ReadOne(c, n, left).Data?
    ensures Stops(c, n, left, ReadOne(c, n, left))
  {
    ReadOneIff(c, n, left, [], 0);
    forall size: nat, body | size <= |left| ensures !Sealed(c, n, left[..size], body) {
      ReadOneIff(c, n, left, body, size);
    }
  }

  lemma OnePieceMore(c: Cipher, n: nat, piece: seq<byte>, body: seq<byte>,
                     rest: seq<byte>, pieces: seq<seq<byte>>, left: seq<byte>, all: Stream)
    requires Sealed(c, n, piece, body) && body != [] && Accounts(c, n + 2, rest, pieces, left, all)
    ensures Accounts(c, n, piece + rest, [piece] + pieces, left, all.(chunks := [body] + all.chunks))
  {
    assert ([piece] + pieces)[1..] == pieces && ([body] + all.chunks)[1..] == all.chunks;
    Cut3(piece, Concat(pieces), left);
    assert n + 2 + 2 * |pieces| == n + 2 * |[piece] + pieces|;
  }

  // What is read from any bytes is accounted for.
  lemma {:induction false} ReadsOnlySealed(c: Cipher, n: nat, rest: seq<byte>)
    returns (pieces: seq<seq<byte>>, left: seq<byte>)
    ensures Accounts(c, n, rest, pieces, left, ReadAll(c, n, rest))
    decreases |rest|
  {
    pieces, left := [], rest;
    assert Concat([]) + rest == rest;
    var g := ReadOne(c, n, rest);
    if !g.Data? {
      StopsThere(c, n, rest);
      return;
    }
    ReadOneIff(c, n, rest, g.body, g.size);
    if g.body != [] {
      pieces, left := ReadsOnlySealed(c, n + 2, rest[g.size..]);
      OnePieceMore(c, n, rest[..g.size], g.body, rest[g.size..], pieces, left, ReadAll(c, n + 2, rest[g.size..]));
      assert rest == rest[..g.size] + rest[g.size..];
      pieces := [rest[..g.size]] + pieces;
    }
  }

  // The wire size of the first chunks.
  function Length(chunks: seq<seq<byte>>): nat {
    if chunks == [] then 0 else Size(chunks[0]) + Length(chunks[1..])
  }

  // How many chunks are complete in the first `k` bytes.
  function Complete(chunks: seq<seq<byte>>, k: nat): (j: nat)
    ensures j <= |chunks| && Length(chunks[..j]) <= k
    ensures j < |chunks| ==> k < Length(chunks[..j]) + Size(chunks[j])
  {
    if chunks == [] || k < Size(chunks[0]) then 0
    else
      var j := 1 + Complete(chunks[1..], k - Size(chunks[0]));
      assert chunks[..j][1..] == chunks[1..][..j - 1];
      j
  }

  lemma {:induction false} WireLength(c: Cipher, n: nat, chunks: seq<seq<byte>>)
    requires Aead(c) && Proper(chunks)
    ensures |SealChunks(c, n, chunks)| == Length(chunks)
    decreases |chunks|
  {
    if chunks != [] {
      SealedSize(c, n, chunks[0]);
      WireLength(c, n + 2, chunks[1..]);
    }
  }

  // What is to be expected of the first `k` bytes, chunk by chunk.
  function Expected(chunks: seq<seq<byte>>, n: nat, k: nat): Stream
    decreases |chunks|
  {
    if chunks == [] then Stream([], Closed, n)
    else if k < Size(chunks[0]) then Stream([], if k < 2 + TAG then Closed else Failed, n)
    else
      var more := Expected(chunks[1..], n + 2, k - Size(chunks[0]));
      more.(chunks := [chunks[0]] + more.chunks)
  }

  lemma {:induction false} PrefixAsExpected(c: Cipher, n: nat, chunks: seq<seq<byte>>, k: nat)
    requires Aead(c) && Proper(chunks)
    requires k <= |SealChunks(c, n, chunks)|
    ensures ReadAll(c, n, SealChunks(c, n, chunks)[..k]) == Expected(chunks, n, k)
    decreases |chunks|
  {
    if chunks != [] {
      var first, rest := SealChunk(c, n, chunks[0]), SealChunks(c, n + 2, chunks[1..]);
      SealedSize(c, n, chunks[0]);
      if k < |first| {
        assert (first + rest)[..k] == first[..k];
        ReadCutChunk(c, n, chunks[0], k);
      } else {
        var tail := rest[..k - |first|];
        assert (first + rest)[..k] == first + tail;
        ReadPastChunk(c, n, chunks[0], tail);
        PrefixAsExpected(c, n + 2, chunks[1..], k - |first|);
      }
    }
  }

  lemma {:induction false} ExpectedShape(chunks: seq<seq<byte>>, n: nat, k: nat)
    requires k <= Length(chunks)
    ensures var j := Complete(chunks, k);
            Expected(chunks, n, k)
            == Stream(chunks[..j], if k - Length(chunks[..j]) < 2 + TAG then Closed else Failed, n + 2 * j)
    decreases |chunks|
  {
    if chunks != [] && k >= Size(chunks[0]) {
      ExpectedShape(chunks[1..], n + 2, k - Size(chunks[0]));
      var j := Complete(chunks[1..], k - Size(chunks[0]));
      assert [chunks[0]] + chunks[1..][..j] == chunks[..j + 1];
      assert chunks[..j + 1][1..] == chunks[1..][..j];
    }
  }

  // Cut the wire anywhere: reading it yields exactly the chunks that are complete, in order,
  // and ends cleanly unless the cut is inside a body. Uncut, everything comes back and the
  // reader's counter is where the writer's is.
  lemma PrefixIsRead(c: Cipher, n: nat, chunks: seq<seq<byte>>, k: nat)
    requires Aead(c) && Proper(chunks)
    requires k <= |SealChunks(c, n, chunks)|
    ensures |SealChunks(c, n, chunks)| == Length(chunks)
    ensures var j := Complete(chunks, k);
            ReadAll(c, n, SealChunks(c, n, chunks)[..k])
            == Stream(chunks[..j], if k - Length(chunks[..j]) < 2 + TAG then Closed else Failed, n + 2 * j)
  {
    WireLength(c, n, chunks);
    PrefixAsExpected(c, n, chunks, k);
    ExpectedShape(chunks, n, k);
  }

  // For every sequence of plaintext buffers the peer reads back their concatenation, chunk
  // by chunk, and ends cleanly with its counter where the writer's is.
  lemma StreamRoundTrip(derive: seq<byte> -> Cipher, salt: seq<byte>, buffers: seq<seq<byte>>)
    requires Aead(derive(salt))
    ensures Proper(AllChunks(buffers))
    ensures var chunks := AllChunks(buffers);
            var read := ReadWire(derive, |salt|, salt + SealChunks(derive(salt), 0, chunks));
            read == Stream(chunks, Closed, 2 * |chunks|) && Concat(read.chunks) == Concat(buffers)
  {
    AllChunksSound(buffers);
    var chunks := AllChunks(buffers);
    var body := SealChunks(derive(salt), 0, chunks);
    assert (salt + body)[..|salt|] == salt && (salt + body)[|salt|..] == body && body[..|body|] == body;
    PrefixIsRead(derive(salt), 0, chunks, |body|);
    var j := Complete(chunks, |body|);
    LengthSplits(chunks, j);
    assert chunks[..j] == chunks;
  }

  // The same of the two halves of pump: what one peer writes buffer by buffer the other reads, and
  // their counters agree in the end.
  method Transfer(subkey: seq<byte> -> Gcm, salt: seq<byte>, buffers: seq<seq<byte>>)
    returns (data: seq<byte>, end: Got, sent: nat, read: nat)
    requires Authentic(subkey(salt))
    ensures data == Concat(buffers) && end == Closed && sent == read == 2 * |AllChunks(buffers)|
  {
    CipherIsAead(subkey(salt));
    var derive := (s: seq<byte>) => CipherOf(subkey(s));
    var writer := new Writer(derive(salt), salt);
    writer.WriteAll(buffers);
    var reader := new Reader(derive, |salt|, writer.wire);
    StreamRoundTrip(derive, salt, buffers);
    var chunks;
    chunks, end := ReadToEnd(reader);
    return Concat(chunks), end, writer.counter, reader.counter;
  }

  // Cut anywhere, it reads back a prefix of what was written: an error in the salt or in a
  // body, a clean end anywhere else.
  lemma TruncatedStream(derive: seq<byte> -> Cipher, salt: seq<byte>, chunks: seq<seq<byte>>, k: nat)
    requires Aead(derive(salt)) && Proper(chunks)
    requires k <= |salt + SealChunks(derive(salt), 0, chunks)|
    ensures var read := ReadWire(derive, |salt|, (salt + SealChunks(derive(salt), 0, chunks))[..k]);
            && read.chunks <= chunks
            && (read.end == Closed <==>
                  k >= |salt| && k - |salt| - Length(read.chunks) < 2 + TAG)
  {
    var body := SealChunks(derive(salt), 0, chunks);
    if k >= |salt| {
      var cut := (salt + body)[..k];
      TakeOfSum(salt, body, k);
      Cut(salt, body[..k - |salt|]);
      PrefixIsRead(derive(salt), 0, chunks, k - |salt|);
      assert ReadWire(derive, |salt|, cut).chunks == chunks[..Complete(chunks, k - |salt|)];
    }
  }

  lemma {:induction false} LengthSplits(chunks: seq<seq<byte>>, j: nat)
    requires j <= |chunks|
    ensures Length(chunks) == Length(chunks[..j]) + Length(chunks[j..])
    ensures j < |chunks| ==> Length(chunks[j..]) >= Size(chunks[j])
  {
    if j > 0 {
      LengthSplits(chunks[1..], j - 1);
      assert chunks[..j][1..] == chunks[1..][..j - 1] && chunks[1..][j - 1..] == chunks[j..];
    } else {
      assert chunks[0..] == chunks;
    }
  }

  // The assumption on the cipher can be met.
  lemma AuthenticExists()
    ensures Authentic(Gcm((nonce, plain) => plain + seq(TAG, _ => 0),
                          (nonce, sealed) => if |sealed| < TAG then None else Some(sealed[..|sealed| - TAG])))
  {
    var g := Gcm((nonce: seq<byte>, plain: seq<byte>) => plain + seq(TAG, _ => 0),
                 (nonce: seq<byte>, sealed: seq<byte>) =>
                   if |sealed| < TAG then None else Some(sealed[..|sealed| - TAG]));
    forall nonce, plain
      ensures g.decrypt(nonce, g.encrypt(nonce, plain)) == Some(plain)
    {
      assert (plain + seq(TAG, _ => 0))[..|plain|] == plain;
    }
  }
}
