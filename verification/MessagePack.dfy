/** The MessagePack reader of the Smart Config import ("Formats" section of the MessagePack
    specification, as far as it is supported): what it returns on any bytes, and the grammar
    of exactly the byte strings it accepts. */
module MessagePack {
  import opened Bytes

  const MAX_DEPTH := 32
  const MAX_COUNT := 256

  // The parsed tree. Strings are their UTF-8 bytes.
  datatype Packed =
    | Int(n: int)
    | Str(text: seq<byte>)
    | Bin(bytes: seq<byte>)
    | Array(items: seq<Packed>)
    | Map(entries: seq<Entry>)
    | Other

  datatype Entry = Entry(key: seq<byte>, value: Packed)

  datatype Error = Truncated | TooLarge | TooDeep | BadUtf8 | BadKey | BadPacked | BadTag

  // A value and the number of bytes it took.
  datatype Parsed<T> = Ok(value: T, size: nat) | Err(error: Error)

  // Which byte strings are UTF-8 is left to the library.
  type Utf8 = seq<byte> -> bool

  // ----- What the tag announces -----

  datatype Head =
    | Lit(n: int)
    | Nothing
    | Num(width: nat)
    | Text(count: nat)
    | Blob(count: nat)
    | Items(count: nat)
    | Pairs(count: nat)
    | Extended

  // The number of bytes of the count that follows a tag.
  function CountWidth(tag: byte): nat {
    if tag == 0xc4 || tag == 0xd9 then 1
    else if tag == 0xc5 || tag == 0xda || tag == 0xdc || tag == 0xde then 2
    else 0
  }

  // A count of one or two bytes, big-endian.
  function Word(s: seq<byte>): nat
    requires |s| == 1 || |s| == 2
  {
    var last: int := s[|s| - 1];
    if |s| == 1 then last else var first: int := s[0]; 256 * first + last
  }

  // A tag without a count behind it.
  function Plain(tag: byte): (h: Parsed<Head>)
    ensures h.Ok? ==> h.size == 1
  {
    var t: int := tag;
    if t <= 0x7f then Ok(Lit(t), 1)
    else if t >= 0xe0 then Ok(Lit(t - 256), 1)
    else if t <= 0x8f then Ok(Pairs(t - 0x80), 1)
    else if t <= 0x9f then Ok(Items(t - 0x90), 1)
    else if t <= 0xbf then Ok(Text(t - 0xa0), 1)
    else if t == 0xc0 || t == 0xc2 || t == 0xc3 then Ok(Nothing, 1)
    else if t == 0xcc || t == 0xd0 then Ok(Num(1), 1)
    else if t == 0xcd || t == 0xd1 then Ok(Num(2), 1)
    else if t == 0xce || t == 0xd2 then Ok(Num(4), 1)
    else if t == 0xd4 then Ok(Extended, 1)
    else Err(BadTag)
  }

  function Announced(tag: byte, n: nat): Head {
    if tag == 0xc4 || tag == 0xc5 then Blob(n)
    else if tag == 0xd9 || tag == 0xda then Text(n)
    else if tag == 0xdc then Items(n)
    else Pairs(n)
  }

  function ReadHead(rest: seq<byte>): (h: Parsed<Head>)
    ensures h.Ok? ==> 1 <= h.size <= |rest|
  {
    if rest == [] then Err(Truncated)
    else
      var k := CountWidth(rest[0]);
      if k == 0 then Plain(rest[0])
      else if |rest| < 1 + k then Err(Truncated)
      else Ok(Announced(rest[0], Word(rest[1..1 + k])), 1 + k)
  }

  // ----- What the parser returns -----

  function Shift<T>(skip: nat, p: Parsed<T>): Parsed<T> {
    if p.Ok? then Ok(p.value, skip + p.size) else p
  }

  // One element read in front of others, and one behind them.
  function Cons<T>(first: Parsed<T>, more: Parsed<seq<T>>): Parsed<seq<T>> {
    if first.Err? then Err(first.error)
    else if more.Err? then more
    else Ok([first.value] + more.value, first.size + more.size)
  }

  function Snoc<T>(most: Parsed<seq<T>>, last: Parsed<T>): Parsed<seq<T>> {
    if most.Err? then most
    else if last.Err? then Err(last.error)
    else Ok(most.value + [last.value], most.size + last.size)
  }

  function Take(rest: seq<byte>, n: nat): (p: Parsed<seq<byte>>)
    ensures p.Ok? ==> p.size == n <= |rest| && p.value == rest[..n]
  {
    if |rest| < n then Err(Truncated) else Ok(rest[..n], n)
  }

  function ReadText(utf8: Utf8, rest: seq<byte>, n: nat): Parsed<Packed> {
    var p := Take(rest, n);
    if p.Err? then Err(p.error)
    else if !utf8(p.value) then Err(BadUtf8)
    else Ok(Str(p.value), n)
  }

  function ReadBlob(rest: seq<byte>, n: nat): Parsed<Packed> {
    var p := Take(rest, n);
    if p.Err? then Err(p.error) else Ok(Bin(p.value), n)
  }

  function ReadNum(rest: seq<byte>, width: nat): Parsed<Packed> {
    var p := Take(rest, width);
    if p.Err? then Err(p.error) else Ok(Int(FromBE(p.value)), width)
  }

  // The integer a packed extension of this kind stands for.
  function Unpack(kind: byte, v: Packed): Parsed<Packed> {
    if !v.Bin? then Err(BadPacked)
    else if (kind == 16 && |v.bytes| == 1) || (kind == 17 && |v.bytes| == 2) then Ok(Int(FromBE(v.bytes)), 0)
    else Err(BadPacked)
  }

  // A value without parts.
  function ReadLeaf(utf8: Utf8, head: Head, after: seq<byte>): (p: Parsed<Packed>)
    ensures p.Ok? ==> p.size <= |after|
  {
    match head
    case Lit(n) => Ok(Int(n), 0)
    case Num(width) => ReadNum(after, width)
    case Text(n) => ReadText(utf8, after, n)
    case Blob(n) => ReadBlob(after, n)
    case _ => Ok(Other, 0)
  }

  // PackedParser::read on the bytes from the current position.
  function Read(utf8: Utf8, rest: seq<byte>, depth: nat): (p: Parsed<Packed>)
    ensures p.Ok? ==> 1 <= p.size <= |rest|
    decreases |rest|, 1
  {
    if depth > MAX_DEPTH then Err(TooDeep) else ReadTagged(utf8, rest, depth)
  }

  // The part of read that follows the depth check.
  function ReadTagged(utf8: Utf8, rest: seq<byte>, depth: nat): (p: Parsed<Packed>)
    ensures p.Ok? ==> 1 <= p.size <= |rest|
    decreases |rest|, 0
  {
    var h := ReadHead(rest);
    if h.Err? then Err(h.error) else Shift(h.size, ReadBody(utf8, h.value, rest[h.size..], depth))
  }

  // What follows the head.
  function ReadBody(utf8: Utf8, head: Head, after: seq<byte>, depth: nat): (p: Parsed<Packed>)
    ensures p.Ok? ==> p.size <= |after|
    decreases |after|, 4
  {
    match head
    case Items(n) =>
      if n > MAX_COUNT then Err(TooLarge)
      else
        var p := ReadItems(utf8, after, n, depth + 1);
        if p.Err? then Err(p.error) else Ok(Array(p.value), p.size)
    case Pairs(n) =>
      if n > MAX_COUNT then Err(TooLarge)
      else
        var p := ReadPairs(utf8, after, n, depth + 1);
        if p.Err? then Err(p.error) else Ok(Map(p.value), p.size)
    case Extended =>
      if |after| < 2 then Err(Truncated)
      else
        var p := Read(utf8, after[2..], depth + 1);
        if p.Err? then p else Shift(2 + p.size, Unpack(after[0], p.value))
    case leaf => ReadLeaf(utf8, leaf, after)
  }

  function ReadItems(utf8: Utf8, rest: seq<byte>, count: nat, depth: nat): (p: Parsed<seq<Packed>>)
    ensures p.Ok? ==> p.size <= |rest| && |p.value| == count
    decreases |rest|, 2
  {
    if count == 0 then Ok([], 0)
    else
      var first := Read(utf8, rest, depth);
      if first.Err? then Err(first.error)
      else
        Cons(first, ReadItems(utf8, rest[first.size..], count - 1, depth))
  }

  function ReadPair(utf8: Utf8, rest: seq<byte>, depth: nat): (p: Parsed<Entry>)
    ensures p.Ok? ==> 1 <= p.size <= |rest|
    decreases |rest|, 2
  {
    var key := Read(utf8, rest, depth);
    if key.Err? then Err(key.error)
    else if !key.value.Str? then Err(BadKey)
    else
      var value := Read(utf8, rest[key.size..], depth);
      if value.Err? then Err(value.error)
      else Ok(Entry(key.value.text, value.value), key.size + value.size)
  }

  function ReadPairs(utf8: Utf8, rest: seq<byte>, count: nat, depth: nat): (p: Parsed<seq<Entry>>)
    ensures p.Ok? ==> p.size <= |rest| && |p.value| == count
    decreases |rest|, 3
  {
    if count == 0 then Ok([], 0)
    else
      var first := ReadPair(utf8, rest, depth);
      if first.Err? then Err(first.error)
      else
        Cons(first, ReadPairs(utf8, rest[first.size..], count - 1, depth))
  }

  // ----- The grammar -----

  // The tags and counts that may announce a head: the choice of a form is the writer's.
  predicate Spells(tag: byte, count: seq<byte>, head: Head) {
    match head
    case Lit(n) => count == [] && ((0 <= n <= 0x7f && tag == n) || (-32 <= n < 0 && tag == n + 256))
    case Nothing => count == [] && (tag == 0xc0 || tag == 0xc2 || tag == 0xc3)
    case Num(w) =>
      count == [] && ((w == 1 && (tag == 0xcc || tag == 0xd0)) || (w == 2 && (tag == 0xcd || tag == 0xd1))
                      || (w == 4 && (tag == 0xce || tag == 0xd2)))
    case Text(n) => Short(tag, count, 0xa0, 32, n) || Long(tag, count, 0xd9, 1, n) || Long(tag, count, 0xda, 2, n)
    case Blob(n) => Long(tag, count, 0xc4, 1, n) || Long(tag, count, 0xc5, 2, n)
    case Items(n) => Short(tag, count, 0x90, 16, n) || Long(tag, count, 0xdc, 2, n)
    case Pairs(n) => Short(tag, count, 0x80, 16, n) || Long(tag, count, 0xde, 2, n)
    case Extended => count == [] && tag == 0xd4
  }

  // The count is part of the tag.
  predicate Short(tag: byte, count: seq<byte>, form: int, limit: nat, n: nat) {
    count == [] && n < limit && tag == form + n
  }

  // The count follows the tag.
  predicate Long(tag: byte, count: seq<byte>, form: int, width: nat, n: nat)
    requires width == 1 || width == 2
  {
    tag == form && |count| == width && Word(count) == n
  }

  // A message with every choice of form made: its tag, the bytes of its count if it has one,
  // and its contents. A map is its keys and values in turn.
  datatype Msg =
    | LitMsg(tag: byte, count: seq<byte>, n: int)
    | NothingMsg(tag: byte, count: seq<byte>)
    | NumMsg(tag: byte, count: seq<byte>, digits: seq<byte>)
    | TextMsg(tag: byte, count: seq<byte>, s: seq<byte>)
    | BlobMsg(tag: byte, count: seq<byte>, s: seq<byte>)
    | ItemsMsg(tag: byte, count: seq<byte>, parts: seq<Msg>)
    | PairsMsg(tag: byte, count: seq<byte>, parts: seq<Msg>)
    | ExtMsg(tag: byte, count: seq<byte>, kind: byte, pad: byte, blob: Msg)

  function HeadOf(m: Msg): Head {
    match m
    case LitMsg(_, _, n) => Lit(n)
    case NothingMsg(_, _) => Nothing
    case NumMsg(_, _, digits) => Num(|digits|)
    case TextMsg(_, _, s) => Text(|s|)
    case BlobMsg(_, _, s) => Blob(|s|)
    case ItemsMsg(_, _, parts) => Items(|parts|)
    case PairsMsg(_, _, parts) => Pairs(|parts| / 2)
    case ExtMsg(_, _, _, _, _) => Extended
  }

  function Encode(m: Msg): (s: seq<byte>)
    ensures |s| >= 1
    decreases m, 2
  {
    [m.tag] + m.count + Contents(m)
  }

  // The bytes after the head.
  function Contents(m: Msg): seq<byte>
    decreases m, 1
  {
    match m
    case LitMsg(_, _, _) => []
    case NothingMsg(_, _) => []
    case NumMsg(_, _, digits) => digits
    case TextMsg(_, _, s) => s
    case BlobMsg(_, _, s) => s
    case ItemsMsg(_, _, parts) => EncodeAll(parts)
    case PairsMsg(_, _, parts) => EncodeAll(parts)
    case ExtMsg(_, _, kind, pad, blob) => [kind, pad] + Encode(blob)
  }

  function EncodeAll(parts: seq<Msg>): seq<byte>
    decreases parts, 0
  {
    if parts == [] then [] else Encode(parts[0]) + EncodeAll(parts[1..])
  }

  // The value a message stands for; nil and the booleans are not told apart.
  function Value(m: Msg): Packed
    decreases m, 1
  {
    match m
    case LitMsg(_, _, n) => Int(n)
    case NothingMsg(_, _) => Other
    case NumMsg(_, _, digits) => Int(FromBE(digits))
    case TextMsg(_, _, s) => Str(s)
    case BlobMsg(_, _, s) => Bin(s)
    case ItemsMsg(_, _, parts) => Array(Values(parts))
    case PairsMsg(_, _, parts) => Map(Entries(parts))
    case ExtMsg(_, _, _, _, blob) => Int(if blob.BlobMsg? then FromBE(blob.s) else 0)
  }

  function Values(parts: seq<Msg>): (v: seq<Packed>)
    ensures |v| == |parts|
    decreases parts, 0
  {
    if parts == [] then [] else [Value(parts[0])] + Values(parts[1..])
  }

  function Entries(parts: seq<Msg>): (v: seq<Entry>)
    ensures |v| == |parts| / 2
    decreases parts, 0
  {
    if |parts| < 2 then []
    else [Entry(if parts[0].TextMsg? then parts[0].s else [], Value(parts[1]))] + Entries(parts[2..])
  }

  // The messages the parser takes when it starts at `depth`.
  predicate Legal(utf8: Utf8, m: Msg, depth: nat)
    decreases m, 2
  {
    depth <= 32 && WellFormed(utf8, m, depth)
  }

  predicate WellFormed(utf8: Utf8, m: Msg, depth: nat)
    decreases m, 1
  {
    && Spells(m.tag, m.count, HeadOf(m))
    && match m
       case TextMsg(_, _, s) => utf8(s)
       case ItemsMsg(_, _, parts) => |parts| <= 256 && AllLegal(utf8, parts, depth + 1)
       case PairsMsg(_, _, parts) =>
         |parts| % 2 == 0 && |parts| / 2 <= 256 && KeysAreText(parts) && AllLegal(utf8, parts, depth + 1)
       case ExtMsg(_, _, kind, _, blob) =>
         blob.BlobMsg? && Legal(utf8, blob, depth + 1)
         && ((kind == 16 && |blob.s| == 1) || (kind == 17 && |blob.s| == 2))
       case _ => true
  }

  predicate AllLegal(utf8: Utf8, parts: seq<Msg>, depth: nat)
    decreases parts, 0
  {
    parts == [] || (Legal(utf8, parts[0], depth) && AllLegal(utf8, parts[1..], depth))
  }

  predicate KeysAreText(parts: seq<Msg>) {
    |parts| < 2 || (parts[0].TextMsg? && KeysAreText(parts[2..]))
  }

  // ----- The parser accepts the grammar -----

  lemma HeadComplete(tag: byte, count: seq<byte>, head: Head, tail: seq<byte>)
    requires Spells(tag, count, head)
    ensures ReadHead([tag] + count + tail) == Ok(head, 1 + |count|)
  {
    var rest := [tag] + count + tail;
    assert rest[1..1 + |count|] == count;
  }

  lemma HeadSound(rest: seq<byte>)
    requires ReadHead(rest).Ok?
    ensures var h := ReadHead(rest);
            Spells(rest[0], rest[1..h.size], h.value) && rest[..h.size] == [rest[0]] + rest[1..h.size]
  {
  }

  lemma SplitAtHead(m: Msg, tail: seq<byte>)
    requires Spells(m.tag, m.count, HeadOf(m))
    ensures var rest := Encode(m) + tail;
            var h := ReadHead(rest);
            && h == Ok(HeadOf(m), |Encode(m)| - |Contents(m)|)
            && rest[h.size..] == Contents(m) + tail
            && (Contents(m) + tail)[..|Contents(m)|] == Contents(m)
  {
    var head := [m.tag] + m.count;
    assert Encode(m) == head + Contents(m);
    assert Encode(m) + tail == head + (Contents(m) + tail);
    HeadComplete(m.tag, m.count, HeadOf(m), Contents(m) + tail);
  }

  lemma LeafAccepted(utf8: Utf8, m: Msg, depth: nat, tail: seq<byte>)
    requires WellFormed(utf8, m, depth) && !m.ItemsMsg? && !m.PairsMsg? && !m.ExtMsg?
    ensures ReadTagged(utf8, Encode(m) + tail, depth) == Ok(Value(m), |Encode(m)|)
  {
    SplitAtHead(m, tail);
  }

  lemma ItemsAccepted(utf8: Utf8, m: Msg, depth: nat, tail: seq<byte>)
    requires WellFormed(utf8, m, depth) && m.ItemsMsg?
    requires ReadItems(utf8, EncodeAll(m.parts) + tail, |m.parts|, depth + 1)
          == Ok(Values(m.parts), |EncodeAll(m.parts)|)
    ensures ReadTagged(utf8, Encode(m) + tail, depth) == Ok(Value(m), |Encode(m)|)
  {
    SplitAtHead(m, tail);
  }

  lemma PairsAccepted(utf8: Utf8, m: Msg, depth: nat, tail: seq<byte>)
    requires WellFormed(utf8, m, depth) && m.PairsMsg?
    requires ReadPairs(utf8, EncodeAll(m.parts) + tail, |m.parts| / 2, depth + 1)
          == Ok(Entries(m.parts), |EncodeAll(m.parts)|)
    ensures ReadTagged(utf8, Encode(m) + tail, depth) == Ok(Value(m), |Encode(m)|)
  {
    SplitAtHead(m, tail);
  }

  lemma ExtAccepted(utf8: Utf8, m: Msg, depth: nat, tail: seq<byte>)
    requires WellFormed(utf8, m, depth) && m.ExtMsg?
    requires Read(utf8, Encode(m.blob) + tail, depth + 1) == Ok(Value(m.blob), |Encode(m.blob)|)
    ensures ReadTagged(utf8, Encode(m) + tail, depth) == Ok(Value(m), |Encode(m)|)
  {
    SplitAtHead(m, tail);
    var after := Contents(m) + tail;
    assert after[2..] == Encode(m.blob) + tail && after[0] == m.kind;
    assert Unpack(m.kind, Value(m.blob)) == Ok(Value(m), 0);
  }

  // Every legal message is parsed to its value, and exactly its bytes are consumed, whatever
  // follows it.
  lemma {:induction false} Accepts(utf8: Utf8, m: Msg, depth: nat, tail: seq<byte>)
    requires Legal(utf8, m, depth)
    ensures Read(utf8, Encode(m) + tail, depth) == Ok(Value(m), |Encode(m)|)
    decreases m, 1
  {
    assert WellFormed(utf8, m, depth);
    match m
    case ItemsMsg(_, _, parts) =>
      AcceptsItems(utf8, parts, depth + 1, tail);
      ItemsAccepted(utf8, m, depth, tail);
    case PairsMsg(_, _, parts) =>
      AcceptsPairs(utf8, parts, depth + 1, tail);
      PairsAccepted(utf8, m, depth, tail);
    case ExtMsg(_, _, _, _, blob) =>
      Accepts(utf8, blob, depth + 1, tail);
      ExtAccepted(utf8, m, depth, tail);
    case _ =>
      LeafAccepted(utf8, m, depth, tail);
  }

  lemma {:induction false} AcceptsItems(utf8: Utf8, parts: seq<Msg>, depth: nat, tail: seq<byte>)
    requires AllLegal(utf8, parts, depth)
    ensures ReadItems(utf8, EncodeAll(parts) + tail, |parts|, depth) == Ok(Values(parts), |EncodeAll(parts)|)
    decreases parts, 0
  {
    if parts != [] {
      var first, rest := Encode(parts[0]), EncodeAll(parts[1..]);
      assert EncodeAll(parts) + tail == first + (rest + tail);
      assert (first + (rest + tail))[|first|..] == rest + tail;
      Accepts(utf8, parts[0], depth, rest + tail);
      AcceptsItems(utf8, parts[1..], depth, tail);
    }
  }

  lemma PairBytes(parts: seq<Msg>, key: seq<byte>, value: seq<byte>, rest: seq<byte>)
    requires |parts| >= 2 && key == Encode(parts[0]) && value == Encode(parts[1]) && rest == EncodeAll(parts[2..])
    ensures EncodeAll(parts) == key + (value + rest)
  {
    assert parts[1..][1..] == parts[2..] && parts[1..][0] == parts[1];
  }

  lemma PairParts(utf8: Utf8, parts: seq<Msg>, depth: nat)
    requires |parts| >= 2 && AllLegal(utf8, parts, depth)
    ensures Legal(utf8, parts[0], depth) && Legal(utf8, parts[1], depth) && AllLegal(utf8, parts[2..], depth)
  {
    assert parts[1..][1..] == parts[2..] && parts[1..][0] == parts[1];
  }

  // The first pair of a map that starts with the keys and values of `parts`.
  lemma {:induction false} AcceptsPair(utf8: Utf8, parts: seq<Msg>, depth: nat,
                                       a: seq<byte>, b: seq<byte>, tail: seq<byte>)
    requires AllLegal(utf8, parts, depth) && |parts| >= 2 && parts[0].TextMsg?
    requires a == Encode(parts[0]) && b == Encode(parts[1])
    ensures ReadPair(utf8, a + (b + tail), depth) == Ok(Entry(parts[0].s, Value(parts[1])), |a| + |b|)
    decreases parts, 0
  {
    PairParts(utf8, parts, depth);
    Cut3(a, b, tail);
    Accepts(utf8, parts[0], depth, b + tail);
    Accepts(utf8, parts[1], depth, tail);
  }

  lemma PairShape(parts: seq<Msg>, tail: seq<byte>, a: seq<byte>, b: seq<byte>, c: seq<byte>)
    requires |parts| >= 2 && parts[0].TextMsg?
    requires a == Encode(parts[0]) && b == Encode(parts[1]) && c == EncodeAll(parts[2..])
    ensures EncodeAll(parts) + tail == a + (b + (c + tail)) && |EncodeAll(parts)| == |a| + |b| + |c|
    ensures Entries(parts) == [Entry(parts[0].s, Value(parts[1]))] + Entries(parts[2..])
    ensures |parts| / 2 == |parts[2..]| / 2 + 1
  {
    PairBytes(parts, a, b, c);
    assert a + (b + c) + tail == a + (b + (c + tail));
  }

  lemma {:induction false} AcceptsPairs(utf8: Utf8, parts: seq<Msg>, depth: nat, tail: seq<byte>)
    requires AllLegal(utf8, parts, depth) && KeysAreText(parts) && |parts| % 2 == 0
    ensures ReadPairs(utf8, EncodeAll(parts) + tail, |parts| / 2, depth) == Ok(Entries(parts), |EncodeAll(parts)|)
    decreases parts, 1
  {
    if parts != [] {
      var a, b, c := Encode(parts[0]), Encode(parts[1]), EncodeAll(parts[2..]);
      AcceptsPair(utf8, parts, depth, a, b, c + tail);
      PairParts(utf8, parts, depth);
      AcceptsPairs(utf8, parts[2..], depth, tail);
      Cut3(a, b, c + tail);
      PairShape(parts, tail, a, b, c);
    }
  }

  // ----- And nothing else -----

  // The message is spelled by the first `size` bytes and was read as `p`.
  ghost predicate Explains(utf8: Utf8, m: Msg, rest: seq<byte>, depth: nat, p: Parsed<Packed>) {
    p.Ok? && p.size <= |rest| && Legal(utf8, m, depth) && Value(m) == p.value && Encode(m) == rest[..p.size]
  }

  // A head and a body that fit together are a message.
  lemma Assemble(m: Msg, rest: seq<byte>, size: nat)
    requires ReadHead(rest).Ok? && ReadHead(rest).size <= size <= |rest|
    requires m.tag == rest[0] && m.count == rest[1..ReadHead(rest).size] && HeadOf(m) == ReadHead(rest).value
    requires Contents(m) == rest[ReadHead(rest).size..][..size - ReadHead(rest).size]
    ensures Spells(m.tag, m.count, HeadOf(m)) && Encode(m) == rest[..size]
  {
    var k := ReadHead(rest).size;
    HeadSound(rest);
    assert rest[..size] == rest[..k] + rest[k..][..size - k];
    assert Encode(m) == [m.tag] + m.count + Contents(m);
  }

  lemma LeafExplained(utf8: Utf8, rest: seq<byte>, depth: nat) returns (m: Msg)
    requires Read(utf8, rest, depth).Ok?
    requires ReadTagged(utf8, rest, depth).Ok? && ReadHead(rest).Ok?
    requires !ReadHead(rest).value.Items? && !ReadHead(rest).value.Pairs? && !ReadHead(rest).value.Extended?
    ensures Explains(utf8, m, rest, depth, Read(utf8, rest, depth))
  {
    var h := ReadHead(rest);
    var count, after := rest[1..h.size], rest[h.size..];
    match h.value
    case Lit(n) => m := LitMsg(rest[0], count, n);
    case Nothing => m := NothingMsg(rest[0], count);
    case Num(w) => m := NumMsg(rest[0], count, after[..w]);
    case Text(n) => m := TextMsg(rest[0], count, after[..n]);
    case Blob(n) => m := BlobMsg(rest[0], count, after[..n]);
    Assemble(m, rest, Read(utf8, rest, depth).size);
  }

  lemma ItemsExplained(utf8: Utf8, rest: seq<byte>, depth: nat, parts: seq<Msg>) returns (m: Msg)
    requires ReadHead(rest).Ok? && ReadHead(rest).value.Items? && depth <= MAX_DEPTH
    requires ReadTagged(utf8, rest, depth).Ok?
    requires var h := ReadHead(rest);
             var p := ReadItems(utf8, rest[h.size..], h.value.count, depth + 1);
             ExplainsItems(utf8, parts, rest[h.size..], depth + 1, p)
    ensures Explains(utf8, m, rest, depth, ReadTagged(utf8, rest, depth))
  {
    m := ItemsMsg(rest[0], rest[1..ReadHead(rest).size], parts);
    Assemble(m, rest, ReadTagged(utf8, rest, depth).size);
  }

  lemma PairsExplained(utf8: Utf8, rest: seq<byte>, depth: nat, parts: seq<Msg>) returns (m: Msg)
    requires ReadHead(rest).Ok? && ReadHead(rest).value.Pairs? && depth <= MAX_DEPTH
    requires ReadTagged(utf8, rest, depth).Ok?
    requires var h := ReadHead(rest);
             var p := ReadPairs(utf8, rest[h.size..], h.value.count, depth + 1);
             ExplainsPairs(utf8, parts, rest[h.size..], depth + 1, p)
    ensures Explains(utf8, m, rest, depth, ReadTagged(utf8, rest, depth))
  {
    m := PairsMsg(rest[0], rest[1..ReadHead(rest).size], parts);
    Assemble(m, rest, ReadTagged(utf8, rest, depth).size);
  }

  lemma ExtExplained(utf8: Utf8, rest: seq<byte>, depth: nat, blob: Msg) returns (m: Msg)
    requires ReadHead(rest).Ok? && ReadHead(rest).value.Extended? && depth <= MAX_DEPTH && |rest| >= 3
    requires ReadTagged(utf8, rest, depth).Ok?
    requires Explains(utf8, blob, rest[3..], depth + 1, Read(utf8, rest[3..], depth + 1))
    ensures Explains(utf8, m, rest, depth, ReadTagged(utf8, rest, depth))
  {
    var after, inner := rest[1..], Read(utf8, rest[3..], depth + 1);
    assert after[2..] == rest[3..];
    BinIsBlob(utf8, blob, depth + 1);
    m := ExtMsg(rest[0], rest[1..1], after[0], after[1], blob);
    assert after[..2 + inner.size] == [after[0], after[1]] + Encode(blob);
    Assemble(m, rest, ReadTagged(utf8, rest, depth).size);
  }

  // Whatever the parser accepts is a legal message with that value.
  lemma {:induction false} AcceptsOnly(utf8: Utf8, rest: seq<byte>, depth: nat) returns (m: Msg)
    requires Read(utf8, rest, depth).Ok?
    ensures Explains(utf8, m, rest, depth, Read(utf8, rest, depth))
    decreases |rest|, 0
  {
    assert Read(utf8, rest, depth) == ReadTagged(utf8, rest, depth);
    var h := ReadHead(rest);
    match h.value
    case Items(n) =>
      var parts := AcceptsOnlyItems(utf8, rest[h.size..], n, depth + 1);
      m := ItemsExplained(utf8, rest, depth, parts);
    case Pairs(n) =>
      var parts := AcceptsOnlyPairs(utf8, rest[h.size..], n, depth + 1);
      m := PairsExplained(utf8, rest, depth, parts);
    case Extended =>
      assert rest[1..][2..] == rest[3..];
      var blob := AcceptsOnly(utf8, rest[3..], depth + 1);
      m := ExtExplained(utf8, rest, depth, blob);
    case _ =>
      m := LeafExplained(utf8, rest, depth);
  }

  lemma BinIsBlob(utf8: Utf8, m: Msg, depth: nat)
    requires Legal(utf8, m, depth) && Value(m).Bin?
    ensures m.BlobMsg?
  {
  }

  lemma StrIsText(utf8: Utf8, m: Msg, depth: nat)
    requires Legal(utf8, m, depth) && Value(m).Str?
    ensures m.TextMsg?
  {
  }

  ghost predicate ExplainsItems(utf8: Utf8, parts: seq<Msg>, rest: seq<byte>, depth: nat, p: Parsed<seq<Packed>>) {
    p.Ok? && p.size <= |rest| && AllLegal(utf8, parts, depth) && Values(parts) == p.value
    && EncodeAll(parts) == rest[..p.size]
  }

  lemma JoinItems(utf8: Utf8, m: Msg, more: seq<Msg>, rest: seq<byte>, depth: nat,
                  p: Parsed<Packed>, q: Parsed<seq<Packed>>)
    requires Explains(utf8, m, rest, depth, p) && ExplainsItems(utf8, more, rest[p.size..], depth, q)
    ensures ExplainsItems(utf8, [m] + more, rest, depth, Ok([p.value] + q.value, p.size + q.size))
  {
    assert ([m] + more)[1..] == more;
    assert rest[..p.size + q.size] == rest[..p.size] + rest[p.size..][..q.size];
  }

  lemma {:induction false} AcceptsOnlyItems(utf8: Utf8, rest: seq<byte>, count: nat, depth: nat)
    returns (parts: seq<Msg>)
    requires ReadItems(utf8, rest, count, depth).Ok?
    ensures ExplainsItems(utf8, parts, rest, depth, ReadItems(utf8, rest, count, depth))
    decreases |rest|, 1
  {
    if count == 0 {
      parts := [];
    } else {
      var p := Read(utf8, rest, depth);
      var q := ReadItems(utf8, rest[p.size..], count - 1, depth);
      var m := AcceptsOnly(utf8, rest, depth);
      var more := AcceptsOnlyItems(utf8, rest[p.size..], count - 1, depth);
      JoinItems(utf8, m, more, rest, depth, p, q);
      parts := [m] + more;
    }
  }

  ghost predicate ExplainsPairs(
    utf8: Utf8, parts: seq<Msg>, rest: seq<byte>, depth: nat, p: Parsed<seq<Entry>>)
  {
    p.Ok? && p.size <= |rest| && AllLegal(utf8, parts, depth) && KeysAreText(parts) && |parts| % 2 == 0
    && Entries(parts) == p.value && EncodeAll(parts) == rest[..p.size]
  }

  lemma ConsPair(utf8: Utf8, key: Msg, value: Msg, more: seq<Msg>, depth: nat)
    requires Legal(utf8, key, depth) && key.TextMsg? && Legal(utf8, value, depth)
    requires AllLegal(utf8, more, depth) && KeysAreText(more)
    ensures AllLegal(utf8, [key, value] + more, depth) && KeysAreText([key, value] + more)
    ensures Entries([key, value] + more) == [Entry(key.s, Value(value))] + Entries(more)
    ensures EncodeAll([key, value] + more) == Encode(key) + (Encode(value) + EncodeAll(more))
  {
    var parts := [key, value] + more;
    assert parts[1..] == [value] + more && parts[1..][1..] == more && parts[2..] == more;
    assert EncodeAll(parts[1..]) == Encode(value) + EncodeAll(more);
    assert AllLegal(utf8, parts[1..], depth);
  }

  lemma JoinPairs(utf8: Utf8, key: Msg, value: Msg, more: seq<Msg>, rest: seq<byte>, depth: nat,
                  k: Parsed<Packed>, v: Parsed<Packed>, q: Parsed<seq<Entry>>)
    requires Explains(utf8, key, rest, depth, k) && key.TextMsg?
    requires Explains(utf8, value, rest[k.size..], depth, v)
    requires k.size + v.size <= |rest| && ExplainsPairs(utf8, more, rest[k.size + v.size..], depth, q)
    ensures ExplainsPairs(utf8, [key, value] + more, rest, depth,
                          Ok([Entry(k.value.text, v.value)] + q.value, k.size + v.size + q.size))
  {
    ConsPair(utf8, key, value, more, depth);
    var n := k.size + v.size;
    assert rest[..n + q.size] == rest[..k.size] + (rest[k.size..][..v.size] + rest[n..][..q.size]);
  }

  // What a successful read of at least one pair has read.
  lemma PairsUnfold(utf8: Utf8, rest: seq<byte>, count: nat, depth: nat)
    returns (k: Parsed<Packed>, v: Parsed<Packed>, q: Parsed<seq<Entry>>)
    requires count > 0 && ReadPairs(utf8, rest, count, depth).Ok?
    ensures k == Read(utf8, rest, depth) && k.Ok? && k.value.Str? && k.size <= |rest|
    ensures v == Read(utf8, rest[k.size..], depth) && v.Ok? && 1 <= k.size && k.size + v.size <= |rest|
    ensures q == ReadPairs(utf8, rest[k.size + v.size..], count - 1, depth) && q.Ok?
    ensures ReadPairs(utf8, rest, count, depth)
         == Ok([Entry(k.value.text, v.value)] + q.value, k.size + v.size + q.size)
  {
    assert ReadPair(utf8, rest, depth).Ok?;
    k := Read(utf8, rest, depth);
    v := Read(utf8, rest[k.size..], depth);
    q := ReadPairs(utf8, rest[k.size + v.size..], count - 1, depth);
  }

  lemma {:induction false} AcceptsOnlyPairs(utf8: Utf8, rest: seq<byte>, count: nat, depth: nat)
    returns (parts: seq<Msg>)
    requires ReadPairs(utf8, rest, count, depth).Ok?
    ensures ExplainsPairs(utf8, parts, rest, depth, ReadPairs(utf8, rest, count, depth))
    decreases |rest|, 2
  {
    if count == 0 {
      parts := [];
    } else {
      var k, v, q := PairsUnfold(utf8, rest, count, depth);
      var key := AcceptsOnlyText(utf8, rest, depth);
      var value := AcceptsOnly(utf8, rest[k.size..], depth);
      var more := AcceptsOnlyPairs(utf8, rest[k.size + v.size..], count - 1, depth);
      JoinPairs(utf8, key, value, more, rest, depth, k, v, q);
      parts := [key, value] + more;
    }
  }

  lemma {:induction false} AcceptsOnlyText(utf8: Utf8, rest: seq<byte>, depth: nat) returns (key: Msg)
    requires Read(utf8, rest, depth).Ok? && Read(utf8, rest, depth).value.Str?
    ensures key.TextMsg? && Explains(utf8, key, rest, depth, Read(utf8, rest, depth))
    decreases |rest|, 1
  {
    key := AcceptsOnly(utf8, rest, depth);
    StrIsText(utf8, key, depth);
  }

  // ----- What follows for any input -----

  function Nodes(p: Packed): nat
    decreases p, 1
  {
    match p
    case Array(items) => 1 + NodesOf(items)
    case Map(entries) => 1 + NodesIn(entries)
    case _ => 1
  }

  function NodesOf(items: seq<Packed>): nat
    decreases items, 0
  {
    if items == [] then 0 else Nodes(items[0]) + NodesOf(items[1..])
  }

  function NodesIn(entries: seq<Entry>): nat
    decreases entries, 0
  {
    if entries == [] then 0 else Nodes(entries[0].value) + NodesIn(entries[1..])
  }

  // How deep the tree nests below its root.
  function Height(p: Packed): nat
    decreases p, 1
  {
    match p
    case Array(items) => HeightOf(items)
    case Map(entries) => HeightIn(entries)
    case _ => 0
  }

  function HeightOf(items: seq<Packed>): nat
    decreases items, 0
  {
    if items == [] then 0 else Max(1 + Height(items[0]), HeightOf(items[1..]))
  }

  function HeightIn(entries: seq<Entry>): nat
    decreases entries, 0
  {
    if entries == [] then 0 else Max(1 + Height(entries[0].value), HeightIn(entries[1..]))
  }

  function Max(a: nat, b: nat): nat { if a < b then b else a }

  lemma {:induction false} NodesFit(m: Msg)
    ensures Nodes(Value(m)) <= |Encode(m)|
    decreases m, 1
  {
    match m
    case ItemsMsg(_, _, parts) => NodesOfFit(parts);
    case PairsMsg(_, _, parts) => NodesInFit(parts);
    case _ =>
  }

  lemma {:induction false} NodesOfFit(parts: seq<Msg>)
    ensures NodesOf(Values(parts)) <= |EncodeAll(parts)|
    decreases parts, 0
  {
    if parts != [] {
      NodesFit(parts[0]);
      NodesOfFit(parts[1..]);
      assert Values(parts)[1..] == Values(parts[1..]);
    }
  }

  lemma {:induction false} NodesInFit(parts: seq<Msg>)
    ensures NodesIn(Entries(parts)) <= |EncodeAll(parts)|
    decreases parts, 0
  {
    if |parts| >= 2 {
      NodesFit(parts[1]);
      NodesInFit(parts[2..]);
      PairBytes(parts, Encode(parts[0]), Encode(parts[1]), EncodeAll(parts[2..]));
      assert Entries(parts)[1..] == Entries(parts[2..]);
    }
  }

  lemma {:induction false} HeightFits(utf8: Utf8, m: Msg, depth: nat)
    requires Legal(utf8, m, depth)
    ensures depth + Height(Value(m)) <= MAX_DEPTH
    decreases m, 1
  {
    assert WellFormed(utf8, m, depth);
    match m
    case ItemsMsg(_, _, parts) => HeightOfFits(utf8, parts, depth);
    case PairsMsg(_, _, parts) => HeightInFits(utf8, parts, depth);
    case _ =>
  }

  lemma {:induction false} HeightOfFits(utf8: Utf8, parts: seq<Msg>, depth: nat)
    requires AllLegal(utf8, parts, depth + 1) && depth <= MAX_DEPTH
    ensures depth + HeightOf(Values(parts)) <= MAX_DEPTH
    decreases parts, 0
  {
    if parts != [] {
      HeightFits(utf8, parts[0], depth + 1);
      HeightOfFits(utf8, parts[1..], depth);
      assert Values(parts)[1..] == Values(parts[1..]);
    }
  }

  lemma {:induction false} HeightInFits(utf8: Utf8, parts: seq<Msg>, depth: nat)
    requires AllLegal(utf8, parts, depth + 1) && depth <= MAX_DEPTH
    ensures depth + HeightIn(Entries(parts)) <= MAX_DEPTH
    decreases parts, 0
  {
    if |parts| >= 2 {
      PairParts(utf8, parts, depth + 1);
      HeightFits(utf8, parts[1], depth + 1);
      HeightInFits(utf8, parts[2..], depth);
      assert Entries(parts)[1..] == Entries(parts[2..]);
    }
  }

  // Exactly the inputs that begin with a legal message are parsed.
  lemma ParsesExactly(utf8: Utf8, rest: seq<byte>, depth: nat)
    ensures Read(utf8, rest, depth).Ok? <==> exists m :: Legal(utf8, m, depth) && Encode(m) <= rest
  {
    if Read(utf8, rest, depth).Ok? {
      var m := AcceptsOnly(utf8, rest, depth);
      assert Legal(utf8, m, depth) && Encode(m) <= rest;
    }
    if m :| Legal(utf8, m, depth) && Encode(m) <= rest {
      Accepts(utf8, m, depth, rest[|Encode(m)|..]);
      assert Encode(m) + rest[|Encode(m)|..] == rest;
    }
  }

  // On any bytes a successful read advances, depends on nothing but the bytes it consumed,
  // and returns a tree that is bounded by those bytes and by the depth that was left.
  lemma AnyInput(utf8: Utf8, rest: seq<byte>, depth: nat, tail: seq<byte>)
    requires Read(utf8, rest, depth).Ok?
    ensures var p := Read(utf8, rest, depth);
            && 1 <= p.size <= |rest|
            && Read(utf8, rest[..p.size] + tail, depth) == p
            && Nodes(p.value) <= p.size
            && depth + Height(p.value) <= 32
  {
    var m := AcceptsOnly(utf8, rest, depth);
    Accepts(utf8, m, depth, tail);
    NodesFit(m);
    HeightFits(utf8, m, depth);
  }

  // ----- Writing -----

  // A spelling of each value in the shortest forms.
  function Write(v: Packed): Msg
    decreases v, 1
  {
    match v
    case Int(n) =>
      if 0 <= n <= 0x7f then LitMsg(n, [], n)
      else if -32 <= n < 0 then LitMsg(n + 256, [], n)
      else if n < 0 then NothingMsg(0xc0, [])
      else if n < 256 then NumMsg(0xcc, [], ToBE(n, 1))
      else if n < 65536 then NumMsg(0xcd, [], ToBE(n, 2))
      else NumMsg(0xce, [], ToBE(n, 4))
    case Str(s) => WriteText(s)
    case Bin(s) => if |s| < 256 then BlobMsg(0xc4, [|s|], s) else BlobMsg(0xc5, Count16(|s|), s)
    case Array(items) =>
      if |items| < 16 then ItemsMsg(0x90 + |items|, [], WriteItems(items))
      else ItemsMsg(0xdc, Count16(|items|), WriteItems(items))
    case Map(entries) =>
      if |entries| < 16 then PairsMsg(0x80 + |entries|, [], WriteEntries(entries))
      else PairsMsg(0xde, Count16(|entries|), WriteEntries(entries))
    case Other => NothingMsg(0xc0, [])
  }

  function Count16(n: nat): seq<byte> { [(n / 256) % 256, n % 256] }

  function WriteItems(items: seq<Packed>): (m: seq<Msg>)
    ensures |m| == |items|
    decreases items, 0
  {
    if items == [] then [] else [Write(items[0])] + WriteItems(items[1..])
  }

  function WriteEntries(entries: seq<Entry>): (m: seq<Msg>)
    ensures |m| == 2 * |entries|
    decreases entries, 0
  {
    if entries == [] then []
    else [WriteText(entries[0].key), Write(entries[0].value)] + WriteEntries(entries[1..])
  }

  function WriteText(s: seq<byte>): Msg {
    if |s| < 32 then TextMsg(0xa0 + |s|, [], s)
    else if |s| < 256 then TextMsg(0xd9, [|s|], s)
    else TextMsg(0xda, Count16(|s|), s)
  }

  // The trees that have a spelling: the limits of the parser and of the supported forms.
  predicate Writable(utf8: Utf8, v: Packed, depth: nat)
    decreases v, 1
  {
    depth <= 32 &&
    match v
    case Int(n) => -32 <= n < 0x1_0000_0000
    case Str(s) => |s| < 65536 && utf8(s)
    case Bin(s) => |s| < 65536
    case Array(items) => |items| <= 256 && AllWritable(utf8, items, depth + 1)
    case Map(entries) => |entries| <= 256 && EntriesWritable(utf8, entries, depth + 1)
    case Other => true
  }

  predicate AllWritable(utf8: Utf8, items: seq<Packed>, depth: nat)
    decreases items, 0
  {
    items == [] || (Writable(utf8, items[0], depth) && AllWritable(utf8, items[1..], depth))
  }

  predicate EntriesWritable(utf8: Utf8, entries: seq<Entry>, depth: nat)
    decreases entries, 0
  {
    entries == [] ||
    (depth <= 32 && |entries[0].key| < 65536 && utf8(entries[0].key)
     && Writable(utf8, entries[0].value, depth) && EntriesWritable(utf8, entries[1..], depth))
  }

  lemma Count16Read(n: nat)
    requires n < 65536
    ensures Word(Count16(n)) == n
  {
  }

  lemma WritesInt(utf8: Utf8, n: int, depth: nat)
    requires depth <= MAX_DEPTH && -32 <= n < 0x1_0000_0000
    ensures Legal(utf8, Write(Int(n)), depth) && Value(Write(Int(n))) == Int(n)
  {
    if n > 0x7f {
      Pow256Values();
      BERoundTrip(n, if n < 256 then 1 else if n < 65536 then 2 else 4);
    }
    assert WellFormed(utf8, Write(Int(n)), depth);
  }

  lemma WritesText(utf8: Utf8, s: seq<byte>, depth: nat)
    requires depth <= MAX_DEPTH && |s| < 65536 && utf8(s)
    ensures Legal(utf8, WriteText(s), depth) && WriteText(s).TextMsg? && WriteText(s).s == s
  {
    Count16Read(|s|);
    assert WellFormed(utf8, WriteText(s), depth);
  }

  lemma WritesBin(utf8: Utf8, s: seq<byte>, depth: nat)
    requires depth <= MAX_DEPTH && |s| < 65536
    ensures Legal(utf8, Write(Bin(s)), depth) && Value(Write(Bin(s))) == Bin(s)
  {
    Count16Read(|s|);
    assert WellFormed(utf8, Write(Bin(s)), depth);
  }

  lemma WritesArray(utf8: Utf8, items: seq<Packed>, depth: nat, parts: seq<Msg>)
    requires depth <= MAX_DEPTH && |items| <= MAX_COUNT
    requires parts == WriteItems(items) && AllLegal(utf8, parts, depth + 1)
    ensures Legal(utf8, Write(Array(items)), depth)
  {
    Count16Read(|items|);
    var m := Write(Array(items));
    assert m.parts == parts && Spells(m.tag, m.count, Items(|items|));
    assert WellFormed(utf8, m, depth);
  }

  lemma WritesMap(utf8: Utf8, entries: seq<Entry>, depth: nat, parts: seq<Msg>)
    requires depth <= MAX_DEPTH && |entries| <= MAX_COUNT
    requires parts == WriteEntries(entries) && AllLegal(utf8, parts, depth + 1) && KeysAreText(parts)
    ensures Legal(utf8, Write(Map(entries)), depth)
  {
    Count16Read(|entries|);
    var m := Write(Map(entries));
    assert m.parts == parts && Spells(m.tag, m.count, Pairs(|entries|));
    assert |parts| % 2 == 0 && |parts| / 2 == |entries|;
    assert HeadOf(m) == Pairs(|entries|);
    assert WellFormed(utf8, m, depth);
  }

  lemma {:induction false} Writes(utf8: Utf8, v: Packed, depth: nat)
    requires Writable(utf8, v, depth)
    ensures Legal(utf8, Write(v), depth) && Value(Write(v)) == v
    decreases v, 1
  {
    match v
    case Int(n) => WritesInt(utf8, n, depth);
    case Str(s) => WritesText(utf8, s, depth);
    case Bin(s) => WritesBin(utf8, s, depth);
    case Array(items) =>
      WritesItems(utf8, items, depth + 1);
      WritesArray(utf8, items, depth, WriteItems(items));
    case Map(entries) =>
      WritesEntries(utf8, entries, depth + 1);
      WritesMap(utf8, entries, depth, WriteEntries(entries));
    case Other =>
      assert WellFormed(utf8, Write(v), depth);
  }

  lemma {:induction false} WritesItems(utf8: Utf8, items: seq<Packed>, depth: nat)
    requires AllWritable(utf8, items, depth)
    ensures AllLegal(utf8, WriteItems(items), depth) && Values(WriteItems(items)) == items
    decreases items, 0
  {
    if items != [] {
      Writes(utf8, items[0], depth);
      WritesItems(utf8, items[1..], depth);
      assert WriteItems(items)[1..] == WriteItems(items[1..]);
    }
  }

  lemma {:induction false} WritesEntries(utf8: Utf8, entries: seq<Entry>, depth: nat)
    requires EntriesWritable(utf8, entries, depth)
    ensures AllLegal(utf8, WriteEntries(entries), depth) && KeysAreText(WriteEntries(entries))
    ensures Entries(WriteEntries(entries)) == entries
    decreases entries, 0
  {
    if entries != [] {
      WritesText(utf8, entries[0].key, depth);
      Writes(utf8, entries[0].value, depth);
      WritesEntries(utf8, entries[1..], depth);
      ConsPair(utf8, WriteText(entries[0].key), Write(entries[0].value), WriteEntries(entries[1..]), depth);
      assert entries == [entries[0]] + entries[1..];
    }
  }

  // Every tree within the limits is read back from its bytes, whatever follows them.
  lemma RoundTrip(utf8: Utf8, v: Packed, depth: nat, tail: seq<byte>)
    requires Writable(utf8, v, depth)
    ensures Read(utf8, Encode(Write(v)) + tail, depth) == Ok(v, |Encode(Write(v))|)
  {
    Writes(utf8, v, depth);
    Accepts(utf8, Write(v), depth, tail);
  }

  // The number a two's-complement integer of these digits stands for.
  function Signed(digits: seq<byte>): int
    requires digits != []
  {
    if digits[0] >= 0x80 then FromBE(digits) - Pow256(|digits|) else FromBE(digits)
  }

  lemma SignedIffNegative(digits: seq<byte>)
    requires digits != []
    ensures FromBE(digits) == Signed(digits) <==> Signed(digits) >= 0
  {
    BEInverse(digits);
  }

  // The forms 0xd0 to 0xd2 are signed in the format but read as unsigned: the parser gives
  // the number that was meant exactly when that number is not negative.
  lemma SignedFormsRead(utf8: Utf8, tag: byte, digits: seq<byte>, depth: nat, tail: seq<byte>)
    requires (tag == 0xd0 && |digits| == 1) || (tag == 0xd1 && |digits| == 2) || (tag == 0xd2 && |digits| == 4)
    requires depth <= MAX_DEPTH
    ensures var p := Read(utf8, [tag] + digits + tail, depth);
            p.Ok? && (p.value == Int(Signed(digits)) <==> Signed(digits) >= 0)
  {
    var m := NumMsg(tag, [], digits);
    assert WellFormed(utf8, m, depth);
    Accepts(utf8, m, depth, tail);
    assert Encode(m) == [tag] + digits;
    SignedIffNegative(digits);
  }

  // ----- The parser as it is written -----

  datatype Result<T> = Good(value: T) | Bad(error: Error)

  function Outcome<T>(p: Parsed<T>): Result<T> {
    if p.Ok? then Good(p.value) else Bad(p.error)
  }

  lemma ConsSnoc<T>(first: Parsed<T>, middle: Parsed<seq<T>>, last: Parsed<T>)
    requires first.Ok? && middle.Ok?
    ensures Cons(first, Snoc(middle, last)) == Snoc(Cons(first, middle), last)
  {
    assert last.Ok? ==> [first.value] + (middle.value + [last.value]) == [first.value] + middle.value + [last.value];
  }

  lemma ConsNil<T>(p: Parsed<T>)
    ensures Cons(p, Ok([], 0)) == Snoc(Ok([], 0), p)
  {
    assert p.Ok? ==> [p.value] + [] == [] + [p.value];
  }

  // One element more: what reading `k` elements and then another amounts to.
  lemma {:induction false} OneMoreItem(utf8: Utf8, rest: seq<byte>, k: nat, depth: nat)
    requires ReadItems(utf8, rest, k, depth).Ok?
    ensures var sofar := ReadItems(utf8, rest, k, depth);
            ReadItems(utf8, rest, k + 1, depth) == Snoc(sofar, Read(utf8, rest[sofar.size..], depth))
    decreases k
  {
    var first := Read(utf8, rest, depth);
    if k == 0 {
      assert rest[0..] == rest;
      ConsNil(first);
    } else {
      var more := ReadItems(utf8, rest[first.size..], k - 1, depth);
      OneMoreItem(utf8, rest[first.size..], k - 1, depth);
      DropDrop(rest, first.size, first.size + more.size);
      ConsSnoc(first, more, Read(utf8, rest[first.size + more.size..], depth));
    }
  }

  // Once an element cannot be read, the rest does not matter.
  lemma {:induction false} ItemsFail(utf8: Utf8, rest: seq<byte>, k: nat, count: nat, depth: nat)
    requires k <= count && ReadItems(utf8, rest, k, depth).Err?
    ensures ReadItems(utf8, rest, count, depth) == ReadItems(utf8, rest, k, depth)
    decreases k
  {
    var first := Read(utf8, rest, depth);
    if first.Ok? {
      ItemsFail(utf8, rest[first.size..], k - 1, count - 1, depth);
    }
  }

  lemma {:induction false} OneMorePair(utf8: Utf8, rest: seq<byte>, k: nat, depth: nat)
    requires ReadPairs(utf8, rest, k, depth).Ok?
    ensures var sofar := ReadPairs(utf8, rest, k, depth);
            ReadPairs(utf8, rest, k + 1, depth) == Snoc(sofar, ReadPair(utf8, rest[sofar.size..], depth))
    decreases k
  {
    var first := ReadPair(utf8, rest, depth);
    if k == 0 {
      assert rest[0..] == rest;
      ConsNil(first);
    } else {
      var more := ReadPairs(utf8, rest[first.size..], k - 1, depth);
      OneMorePair(utf8, rest[first.size..], k - 1, depth);
      DropDrop(rest, first.size, first.size + more.size);
      ConsSnoc(first, more, ReadPair(utf8, rest[first.size + more.size..], depth));
    }
  }

  lemma {:induction false} PairsFail(utf8: Utf8, rest: seq<byte>, k: nat, count: nat, depth: nat)
    requires k <= count && ReadPairs(utf8, rest, k, depth).Err?
    ensures ReadPairs(utf8, rest, count, depth) == ReadPairs(utf8, rest, k, depth)
    decreases k
  {
    var first := ReadPair(utf8, rest, depth);
    if first.Ok? {
      PairsFail(utf8, rest[first.size..], k - 1, count - 1, depth);
    }
  }

  class PackedParser {
    const utf8: Utf8
    const input: seq<byte>
    var position: nat

    ghost predicate Valid()
      reads this
    {
      position <= |input|
    }

    constructor (utf8: Utf8, input: seq<byte>)
      ensures Valid() && this.utf8 == utf8 && this.input == input && position == 0
    {
      this.utf8, this.input, position := utf8, input, 0;
    }

    method TakeBytes(count: nat) returns (r: Result<seq<byte>>)
      requires Valid()
      modifies this
      ensures Valid() && r == Outcome(Take(input[old(position)..], count))
      ensures position == old(position) + if r.Good? then count else 0
    {
      var end := position + count;
      if end > |input| {
        return Bad(Truncated);
      }
      var bytes := input[position..end];
      assert input[position..][..count] == bytes;
      position := end;
      return Good(bytes);
    }

    // byte() for the tag, then the count if the tag has one.
    method TakeHead() returns (r: Result<Head>)
      requires Valid()
      modifies this
      ensures Valid() && r == Outcome(ReadHead(input[old(position)..]))
      ensures r.Good? ==> position == old(position) + ReadHead(input[old(position)..]).size
    {
      ghost var rest := input[position..];
      var first := TakeBytes(1);
      if first.Bad? {
        return Bad(first.error);
      }
      var tag := first.value[0];
      var k := CountWidth(tag);
      if k > 0 {
        ghost var mid := position;
        var count := TakeBytes(k);
        if count.Bad? {
          return Bad(count.error);
        }
        assert input[mid..][..k] == rest[1..1 + k];
        return Good(Announced(tag, Word(count.value)));
      }
      return Outcome(Plain(tag));
    }

    method TakeNumber(width: nat) returns (r: Result<Packed>)
      requires Valid()
      modifies this
      ensures Valid() && r == Outcome(ReadNum(input[old(position)..], width))
      ensures r.Good? ==> position == old(position) + width
    {
      var bytes := TakeBytes(width);
      if bytes.Bad? {
        return Bad(bytes.error);
      }
      var value: int := 0;
      for k := 0 to width
        invariant value == FromBE(bytes.value[..k])
      {
        assert bytes.value[..k + 1][..k] == bytes.value[..k];
        var digit: int := bytes.value[k];
        value := value * 256 + digit;
      }
      assert bytes.value[..width] == bytes.value;
      return Good(Int(value));
    }

    method TakeText(count: nat) returns (r: Result<Packed>)
      requires Valid()
      modifies this
      ensures Valid() && r == Outcome(ReadText(utf8, input[old(position)..], count))
      ensures r.Good? ==> position == old(position) + count
    {
      var bytes := TakeBytes(count);
      if bytes.Bad? {
        return Bad(bytes.error);
      }
      if !utf8(bytes.value) {
        return Bad(BadUtf8);
      }
      return Good(Str(bytes.value));
    }

    // array: the elements one after the other.
    method TakeItems(count: nat, depth: nat) returns (r: Result<seq<Packed>>)
      requires Valid()
      modifies this
      ensures Valid() && r == Outcome(ReadItems(utf8, input[old(position)..], count, depth))
      ensures r.Good? ==> position == old(position) + ReadItems(utf8, input[old(position)..], count, depth).size
      decreases |input| - position, 2
    {
      ghost var start, rest := position, input[position..];
      var values: seq<Packed> := [];
      for k := 0 to count
        invariant Valid() && start <= position && (k > 0 ==> position > start)
        invariant ReadItems(utf8, rest, k, depth) == Ok(values, position - start)
      {
        DropDrop(input, start, position);
        OneMoreItem(utf8, rest, k, depth);
        var item := TakeValue(depth);
        if item.Bad? {
          ItemsFail(utf8, rest, k + 1, count, depth);
          return Bad(item.error);
        }
        values := values + [item.value];
      }
      return Good(values);
    }

    method TakePair(depth: nat) returns (r: Result<Entry>)
      requires Valid()
      modifies this
      ensures Valid() && r == Outcome(ReadPair(utf8, input[old(position)..], depth))
      ensures r.Good? ==> position == old(position) + ReadPair(utf8, input[old(position)..], depth).size
      decreases |input| - position, 2
    {
      ghost var here := position;
      var key := TakeValue(depth);
      if key.Bad? {
        return Bad(key.error);
      }
      if !key.value.Str? {
        return Bad(BadKey);
      }
      DropDrop(input, here, position);
      var value := TakeValue(depth);
      return if value.Bad? then Bad(value.error) else Good(Entry(key.value.text, value.value));
    }

    // map: a string key and a value, over and over.
    method TakePairs(count: nat, depth: nat) returns (r: Result<seq<Entry>>)
      requires Valid()
      modifies this
      ensures Valid() && r == Outcome(ReadPairs(utf8, input[old(position)..], count, depth))
      ensures r.Good? ==> position == old(position) + ReadPairs(utf8, input[old(position)..], count, depth).size
      decreases |input| - position, 3
    {
      ghost var start, rest := position, input[position..];
      var entries: seq<Entry> := [];
      for k := 0 to count
        invariant Valid() && start <= position && (k > 0 ==> position > start)
        invariant ReadPairs(utf8, rest, k, depth) == Ok(entries, position - start)
      {
        DropDrop(input, start, position);
        OneMorePair(utf8, rest, k, depth);
        var pair := TakePair(depth);
        if pair.Bad? {
          PairsFail(utf8, rest, k + 1, count, depth);
          return Bad(pair.error);
        }
        entries := entries + [pair.value];
      }
      return Good(entries);
    }

    // read.
    method TakeValue(depth: nat) returns (r: Result<Packed>)
      requires Valid()
      modifies this
      ensures Valid() && r == Outcome(Read(utf8, input[old(position)..], depth))
      ensures r.Good? ==> position == old(position) + Read(utf8, input[old(position)..], depth).size
      decreases |input| - position, 1
    {
      if depth > MAX_DEPTH {
        return Bad(TooDeep);
      }
      ghost var start := position;
      ghost var rest := input[start..];
      assert Read(utf8, rest, depth) == ReadTagged(utf8, rest, depth);
      var head := TakeHead();
      if head.Bad? {
        return Bad(head.error);
      }
      DropDrop(input, start, position);
      r := TakeBody(head.value, depth);
    }

    // The arms of read.
    method TakeBody(head: Head, depth: nat) returns (r: Result<Packed>)
      requires Valid()
      modifies this
      ensures Valid() && r == Outcome(ReadBody(utf8, head, input[old(position)..], depth))
      ensures r.Good? ==> position == old(position) + ReadBody(utf8, head, input[old(position)..], depth).size
      decreases |input| - position, 4
    {
      match head
      case Items(n) =>
        if n > MAX_COUNT {
          return Bad(TooLarge);
        }
        var items := TakeItems(n, depth + 1);
        return if items.Bad? then Bad(items.error) else Good(Array(items.value));
      case Pairs(n) =>
        if n > MAX_COUNT {
          return Bad(TooLarge);
        }
        var entries := TakePairs(n, depth + 1);
        return if entries.Bad? then Bad(entries.error) else Good(Map(entries.value));
      case Extended =>
        r := TakeExtended(depth);
      case leaf =>
        r := TakeLeaf(leaf);
    }

    method TakeLeaf(head: Head) returns (r: Result<Packed>)
      requires Valid()
      modifies this
      ensures Valid() && r == Outcome(ReadLeaf(utf8, head, input[old(position)..]))
      ensures r.Good? ==> position == old(position) + ReadLeaf(utf8, head, input[old(position)..]).size
    {
      match head
      case Lit(n) => return Good(Int(n));
      case Num(width) =>
        r := TakeNumber(width);
      case Text(n) =>
        r := TakeText(n);
      case Blob(n) =>
        var bytes := TakeBytes(n);
        return if bytes.Bad? then Bad(bytes.error) else Good(Bin(bytes.value));
      case _ => return Good(Other);
    }

    // The packed-integer extension: a kind, a byte that is skipped, and a bin value.
    method TakeExtended(depth: nat) returns (r: Result<Packed>)
      requires Valid()
      modifies this
      ensures Valid()
      ensures var after := input[old(position)..];
              if |after| < 2 then r == Bad(Truncated)
              else
                var p := Read(utf8, after[2..], depth + 1);
                if p.Err? then r == Bad(p.error)
                else r == Outcome(Unpack(after[0], p.value)) && (r.Good? ==> position == old(position) + 2 + p.size)
      decreases |input| - position, 0
    {
      ghost var after := input[position..];
      var kind := TakeBytes(1);
      if kind.Bad? {
        return Bad(kind.error);
      }
      var pad := TakeBytes(1);
      if pad.Bad? {
        return Bad(pad.error);
      }
      assert after[2..] == input[position..];
      var inner := TakeValue(depth + 1);
      if inner.Bad? {
        return Bad(inner.error);
      }
      return Outcome(Unpack(kind.value[0], inner.value));
    }
  }
}
