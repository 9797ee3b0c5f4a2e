/**
  The plaintext of a pack container (service.rs): the members' bytes, then an index
  with one `len(id) ‖ id ‖ offset ‖ length` record per member, then the index length,
  then a magic.
 */
module PackFormat {
  import opened Wrappers
  import opened Bytes

  datatype PackEntry = PackEntry(id: seq<byte>, data: seq<byte>)

  datatype Range = Range(off: nat, len: nat)

  datatype IndexEntry = IndexEntry(id: seq<byte>, off: nat, len: nat)

  datatype PackError =
    | IdTooLong | IndexTooLarge
    | MissingMagic | TruncatedBeforeIndexLength | IndexLongerThanPack | MalformedIndexEntry
    | InvalidRange

  /** The ASCII bytes "P2PNPAK1". */
  const PACK_MAGIC: seq<byte> := [0x50, 0x32, 0x50, 0x4e, 0x50, 0x41, 0x4b, 0x31]

  // ── The layout ─────────────────────────────────────────────────────────────

  function Payload(entries: seq<PackEntry>): seq<byte> {
    if entries == [] then [] else Payload(entries[..|entries| - 1]) + entries[|entries| - 1].data
  }

  function RangeOf(entries: seq<PackEntry>, i: nat): Range
    requires i < |entries|
  {
    Range(|Payload(entries[..i])|, |entries[i].data|)
  }

  function Ranges(entries: seq<PackEntry>): (r: seq<Range>)
    ensures |r| == |entries|
  {
    seq(|entries|, i requires 0 <= i < |entries| => RangeOf(entries, i))
  }

  function IndexOf(entries: seq<PackEntry>): (r: seq<IndexEntry>)
    ensures |r| == |entries|
  {
    seq(|entries|, i requires 0 <= i < |entries| =>
      IndexEntry(entries[i].id, RangeOf(entries, i).off, RangeOf(entries, i).len))
  }

  function Record(e: IndexEntry): seq<byte> {
    Be(|e.id|, 4) + e.id + Be(e.off, 8) + Be(e.len, 8)
  }

  function Index(es: seq<IndexEntry>): seq<byte> {
    if es == [] then [] else Record(es[0]) + Index(es[1..])
  }

  function Trailer(es: seq<IndexEntry>): seq<byte> {
    Index(es) + Be(|Index(es)|, 4) + PACK_MAGIC
  }

  /** The byte string is well-formed UTF-8, as a Rust `String` must be. */
  predicate ValidUtf8(s: seq<byte>) {
    if s == [] then true
    else if s[0] < 0x80 then ValidUtf8(s[1..])
    else if |s| < 2 then false
    else if 0xC2 <= s[0] <= 0xDF then Continues(s[1]) && ValidUtf8(s[2..])
    else if |s| < 3 then false
    else if 0xE0 <= s[0] <= 0xEF then
      && Continues(s[1]) && Continues(s[2])
      && (s[0] == 0xE0 ==> s[1] >= 0xA0) && (s[0] == 0xED ==> s[1] < 0xA0)
      && ValidUtf8(s[3..])
    else if |s| < 4 then false
    else
      && 0xF0 <= s[0] <= 0xF4
      && Continues(s[1]) && Continues(s[2]) && Continues(s[3])
      && (s[0] == 0xF0 ==> s[1] >= 0x90) && (s[0] == 0xF4 ==> s[1] < 0x90)
      && ValidUtf8(s[4..])
  }

  /** A Unicode scalar value. */
  predicate Scalar(c: nat) {
    c < 0xD800 || 0xE000 <= c < 0x11_0000
  }

  /** Its UTF-8 form (section 3 of RFC 3629). */
  function Utf8(c: nat): seq<byte>
    requires Scalar(c)
  {
    if c < 0x80 then [c]
    else if c < 0x800 then [0xC0 + c / 0x40, 0x80 + c % 0x40]
    else if c < 0x1_0000 then [0xE0 + c / 0x1000, 0x80 + c / 0x40 % 0x40, 0x80 + c % 0x40]
    else [0xF0 + c / 0x4_0000, 0x80 + c / 0x1000 % 0x40, 0x80 + c / 0x40 % 0x40, 0x80 + c % 0x40]
  }

  ghost predicate AllScalar(cs: seq<nat>) {
    forall i :: 0 <= i < |cs| ==> Scalar(cs[i])
  }

  ghost function Utf8All(cs: seq<nat>): seq<byte>
    requires AllScalar(cs)
  {
    if cs == [] then [] else Utf8(cs[0]) + Utf8All(cs[1..])
  }

  lemma Utf8Prefix(c: nat, rest: seq<byte>)
    requires Scalar(c)
    ensures ValidUtf8(Utf8(c) + rest) <==> ValidUtf8(rest)
  {
    var u := Utf8(c);
    var s := u + rest;
    assert s[|u|..] == rest;
    if 0x800 <= c < 0x1_0000 {
      assert c / 0x1000 == 0 ==> c / 0x40 % 0x40 >= 0x20;
    } else if 0x1_0000 <= c {
      assert c / 0x4_0000 <= 4;
      assert c / 0x4_0000 == 0 ==> c / 0x1000 % 0x40 >= 0x10;
      assert c / 0x4_0000 == 4 ==> c / 0x1000 % 0x40 < 0x10;
    }
  }

  lemma TwoBytes(w: int, x: int) returns (c: nat)
    requires 0xC2 <= w <= 0xDF && 0 <= x < 0x40
    ensures Scalar(c) && Utf8(c) == [w, 0x80 + x]
  {
    c := (w - 0xC0) * 0x40 + x;
    assert c / 0x40 == w - 0xC0 && c % 0x40 == x;
  }

  lemma ThreeBytes(w: int, x: int, y: int) returns (c: nat)
    requires 0xE0 <= w <= 0xEF && 0 <= x < 0x40 && 0 <= y < 0x40 && (w == 0xE0 ==> x >= 0x20) && (w == 0xED ==> x < 0x20)
    ensures Scalar(c) && Utf8(c) == [w, 0x80 + x, 0x80 + y]
  {
    c := (w - 0xE0) * 0x1000 + x * 0x40 + y;
    assert c / 0x40 == (w - 0xE0) * 0x40 + x && c % 0x40 == y;
    assert c / 0x1000 == w - 0xE0 && c / 0x40 % 0x40 == x;
  }

  lemma FourBytes(w: int, x: int, y: int, z: int) returns (c: nat)
    requires 0xF0 <= w <= 0xF4 && 0 <= x < 0x40 && 0 <= y < 0x40 && 0 <= z < 0x40
    requires (w == 0xF0 ==> x >= 0x10) && (w == 0xF4 ==> x < 0x10)
    ensures Scalar(c) && Utf8(c) == [w, 0x80 + x, 0x80 + y, 0x80 + z]
  {
    c := (w - 0xF0) * 0x4_0000 + x * 0x1000 + y * 0x40 + z;
    assert c / 0x40 == (w - 0xF0) * 0x1000 + x * 0x40 + y && c % 0x40 == z;
    assert c / 0x1000 == (w - 0xF0) * 0x40 + x && c / 0x40 % 0x40 == y;
    assert c / 0x4_0000 == w - 0xF0 && c / 0x1000 % 0x40 == x;
  }

  /** The first scalar value of a well-formed string. */
  lemma {:induction false} FirstScalar(s: seq<byte>) returns (c: nat)
    requires s != [] && ValidUtf8(s)
    ensures Scalar(c) && |Utf8(c)| <= |s| && s[..|Utf8(c)|] == Utf8(c) && ValidUtf8(s[|Utf8(c)|..])
  {
    if s[0] < 0x80 {
      c := s[0];
    } else if s[0] <= 0xDF {
      c := TwoBytes(s[0], s[1] - 0x80);
    } else if s[0] <= 0xEF {
      c := ThreeBytes(s[0], s[1] - 0x80, s[2] - 0x80);
    } else {
      c := FourBytes(s[0], s[1] - 0x80, s[2] - 0x80, s[3] - 0x80);
    }
  }

  lemma {:induction false} ScalarsOf(s: seq<byte>) returns (cs: seq<nat>)
    requires ValidUtf8(s)
    ensures AllScalar(cs) && Utf8All(cs) == s
    decreases |s|
  {
    cs := [];
    if s != [] {
      var c := FirstScalar(s);
      var rest := ScalarsOf(s[|Utf8(c)|..]);
      cs := [c] + rest;
      assert cs[1..] == rest;
    }
  }

  lemma {:induction false} Utf8AllValid(cs: seq<nat>)
    requires AllScalar(cs)
    ensures ValidUtf8(Utf8All(cs))
  {
    if cs != [] {
      Utf8AllValid(cs[1..]);
      Utf8Prefix(cs[0], Utf8All(cs[1..]));
    }
  }

  /** Well-formed means: the UTF-8 form of some sequence of scalar values. */
  lemma ValidUtf8Iff(s: seq<byte>)
    ensures ValidUtf8(s) <==> exists cs :: AllScalar(cs) && Utf8All(cs) == s
  {
    if ValidUtf8(s) {
      var cs := ScalarsOf(s);
    } else if exists cs :: AllScalar(cs) && Utf8All(cs) == s {
      var cs :| AllScalar(cs) && Utf8All(cs) == s;
      Utf8AllValid(cs);
    }
  }

  predicate Continues(b: byte) {
    0x80 <= b < 0xC0
  }

  /** A record the fixed widths can carry and a `String` id. */
  predicate Encodable(e: IndexEntry) {
    |e.id| < U32 && e.off < U64 && e.len < U64 && ValidUtf8(e.id)
  }

  ghost predicate AllEncodable(es: seq<IndexEntry>) {
    forall i :: 0 <= i < |es| ==> Encodable(es[i])
  }

  // ── Unique decodability ────────────────────────────────────────────────────

  /** The record that `cur` would have to start with, read field by field. */
  ghost function Fields(cur: seq<byte>, n: nat): IndexEntry
    requires |cur| >= 20 + n
  {
    IndexEntry(cur[4..4 + n], FromBe(cur[4 + n..12 + n]), FromBe(cur[12 + n..20 + n]))
  }

  lemma RecordHasFields(cur: seq<byte>, e: IndexEntry, rest: seq<byte>)
    requires Encodable(e) && cur == Record(e) + rest
    ensures |cur| >= 20 + |e.id| && FromBe(cur[..4]) == |e.id| && Fields(cur, |e.id|) == e
  {
    var n := |e.id|;
    Be4(n);
    Be8(e.off);
    Be8(e.len);
    assert cur[..4] == Be(n, 4);
    assert cur[4..4 + n] == e.id;
    assert cur[4 + n..12 + n] == Be(e.off, 8);
    assert cur[12 + n..20 + n] == Be(e.len, 8);
  }

  /** A record is determined by any byte string it starts. */
  lemma RecordPrefix(a: IndexEntry, s: seq<byte>, b: IndexEntry, t: seq<byte>)
    requires Encodable(a) && Encodable(b) && Record(a) + s == Record(b) + t
    ensures a == b && s == t
  {
    var cur := Record(a) + s;
    RecordHasFields(cur, a, s);
    RecordHasFields(cur, b, t);
    SplitEqual(Record(a), s, Record(b), t);
  }

  /** Parsing a prefix of an index leaves the index of the remaining records. */
  lemma {:induction false} IndexPrefix(done: seq<IndexEntry>, cur: seq<byte>, es: seq<IndexEntry>)
    requires AllEncodable(done) && AllEncodable(es) && Index(es) == Index(done) + cur
    ensures |done| <= |es| && done == es[..|done|] && cur == Index(es[|done|..])
  {
    if done == [] {
      assert es[0..] == es && Index(done) + cur == cur;
    } else if es == [] {
      assert false;
    } else {
      assert Index(done) + cur == Record(done[0]) + (Index(done[1..]) + cur);
      RecordPrefix(es[0], Index(es[1..]), done[0], Index(done[1..]) + cur);
      IndexPrefix(done[1..], cur, es[1..]);
      assert done == [done[0]] + done[1..] && es[..|done|] == [es[0]] + es[1..][..|done| - 1];
      assert es[|done|..] == es[1..][|done| - 1..];
    }
  }

  lemma {:induction false} IndexSnoc(es: seq<IndexEntry>, e: IndexEntry)
    ensures Index(es + [e]) == Index(es) + Record(e)
  {
    if es == [] {
      assert es + [e] == [e] && [e][1..] == [];
      assert Index([e]) == Record(e) + Index([]);
    } else {
      assert (es + [e])[1..] == es[1..] + [e] && (es + [e])[0] == es[0];
      IndexSnoc(es[1..], e);
      assert Index(es + [e]) == Record(es[0]) + (Index(es[1..]) + Record(e));
    }
  }

  // ── Writing ────────────────────────────────────────────────────────────────

  /** The members' bytes, one after the other, and where each of them landed. */
  method AppendMembers(entries: seq<PackEntry>) returns (plain: seq<byte>, ranges: seq<Range>)
    ensures plain == Payload(entries) && ranges == Ranges(entries)
  {
    plain, ranges := [], [];
    for i := 0 to |entries|
      invariant plain == Payload(entries[..i])
      invariant ranges == Ranges(entries)[..i]
    {
      ranges := ranges + [Range(|plain|, |entries[i].data|)];
      plain := plain + entries[i].data;
      assert entries[..i + 1][..i] == entries[..i];
    }
    assert entries[..|entries|] == entries;
  }

  /** One record per member; refuses an id longer than its length prefix can say. */
  method AppendIndex(entries: seq<PackEntry>, ranges: seq<Range>) returns (index: Option<seq<byte>>)
    requires ranges == Ranges(entries)
    ensures index.None? <==> exists i :: 0 <= i < |entries| && |entries[i].id| >= U32
    ensures index.Some? ==> index.value == Index(IndexOf(entries))
  {
    var es := IndexOf(entries);
    var out: seq<byte> := [];
    for i := 0 to |entries|
      invariant out == Index(es[..i])
      invariant forall j :: 0 <= j < i ==> |entries[j].id| < U32
    {
      if |entries[i].id| >= U32 {
        return None;
      }
      IndexSnoc(es[..i], es[i]);
      assert es[..i + 1] == es[..i] + [es[i]];
      out := out + (Be(|entries[i].id|, 4) + entries[i].id + Be(ranges[i].off, 8) + Be(ranges[i].len, 8));
    }
    assert es[..|entries|] == es;
    index := Some(out);
  }

  method BuildPack(entries: seq<PackEntry>) returns (r: Result<(seq<byte>, seq<Range>), PackError>)
    ensures r == Err(IdTooLong) <==> exists i :: 0 <= i < |entries| && |entries[i].id| >= U32
    ensures r == Err(IndexTooLarge) <==> r != Err(IdTooLong) && |Index(IndexOf(entries))| >= U32
    ensures r.Ok? <==> r != Err(IdTooLong) && r != Err(IndexTooLarge)
    ensures r.Ok? ==> r.value == (Payload(entries) + Trailer(IndexOf(entries)), Ranges(entries))
  {
    var plain, ranges := AppendMembers(entries);
    var index := AppendIndex(entries, ranges);
    if index.None? {
      return Err(IdTooLong);
    }
    if |index.value| >= U32 {
      return Err(IndexTooLarge);
    }
    plain := plain + (index.value + Be(|index.value|, 4) + PACK_MAGIC);
    r := Ok((plain, ranges));
  }

  // ── Reading ────────────────────────────────────────────────────────────────

  /** The bytes end in the trailer of `es`, behind some payload. */
  ghost predicate Indexes(pack: seq<byte>, es: seq<IndexEntry>) {
    && AllEncodable(es) && |Index(es)| < U32 && |Trailer(es)| <= |pack|
    && pack == pack[..|pack| - |Trailer(es)|] + Trailer(es)
  }

  lemma FieldsMakeRecord(cur: seq<byte>, n: nat)
    requires |cur| >= 20 + n && n == FromBe(cur[..4])
    ensures cur == Record(Fields(cur, n)) + cur[20 + n..]
    ensures n < U32 && Fields(cur, n).off < U64 && Fields(cur, n).len < U64
  {
    Widths();
    FromBeBound(cur[..4]);
    FromBeBound(cur[4 + n..12 + n]);
    FromBeBound(cur[12 + n..20 + n]);
    assert cur == cur[..4] + cur[4..4 + n] + cur[4 + n..12 + n] + cur[12 + n..20 + n] + cur[20 + n..];
  }

  /** One record off the front of `cur`, and what is left (None when `cur` cannot start with one). */
  method ReadIndexEntry(cur: seq<byte>) returns (r: Option<(IndexEntry, seq<byte>)>)
    ensures r.Some? ==> Encodable(r.value.0) && cur == Record(r.value.0) + r.value.1
    ensures r.None? ==> forall e: IndexEntry, rest: seq<byte> :: Encodable(e) ==> cur != Record(e) + rest
  {
    forall e: IndexEntry, rest: seq<byte> | Encodable(e) && cur == Record(e) + rest
      ensures |cur| >= 20 + |e.id| && FromBe(cur[..4]) == |e.id| && Fields(cur, |e.id|) == e
    {
      RecordHasFields(cur, e, rest);
    }
    if |cur| < 4 { return None; }
    var n := FromBe(cur[..4]);
    if |cur| < 4 + n { return None; }
    var id := cur[4..4 + n];
    if |cur| < 12 + n { return None; }
    var off := FromBe(cur[4 + n..12 + n]);
    if |cur| < 20 + n { return None; }
    var len := FromBe(cur[12 + n..20 + n]);
    if !ValidUtf8(id) { return None; }
    FieldsMakeRecord(cur, n);
    r := Some((IndexEntry(id, off, len), cur[20 + n..]));
  }

  /** A remainder that starts with no record cannot be part of any index. */
  lemma DeadEnd(out: seq<IndexEntry>, cur: seq<byte>, es: seq<IndexEntry>)
    requires AllEncodable(out) && AllEncodable(es) && cur != []
    requires forall e: IndexEntry, rest: seq<byte> :: Encodable(e) ==> cur != Record(e) + rest
    ensures Index(es) != Index(out) + cur
  {
    if Index(es) == Index(out) + cur {
      IndexPrefix(out, cur, es);
      assert false;
    }
  }

  lemma IndexInjective(out: seq<IndexEntry>, es: seq<IndexEntry>)
    requires AllEncodable(out) && AllEncodable(es) && Index(es) == Index(out)
    ensures es == out
  {
    assert Index(out) == Index(out) + [];
    IndexPrefix(out, [], es);
    IndexPrefix(es, [], out);
  }

  lemma IndexAdvance(out: seq<IndexEntry>, e: IndexEntry, rest: seq<byte>)
    ensures Index(out) + (Record(e) + rest) == Index(out + [e]) + rest
  {
    IndexSnoc(out, e);
    assert Index(out) + (Record(e) + rest) == (Index(out) + Record(e)) + rest;
  }

  /** All the records of an index, if it consists of records only. */
  method ParseEntries(index: seq<byte>) returns (r: Option<seq<IndexEntry>>)
    ensures r.Some? ==> AllEncodable(r.value) && Index(r.value) == index
    ensures r.None? ==> forall es :: AllEncodable(es) ==> Index(es) != index
  {
    var cur := index;
    var out: seq<IndexEntry> := [];
    while cur != []
      invariant AllEncodable(out) && index == Index(out) + cur
      decreases |cur|
    {
      var entry := ReadIndexEntry(cur);
      if entry.None? {
        forall es | AllEncodable(es) ensures Index(es) != index {
          DeadEnd(out, cur, es);
        }
        return None;
      }
      IndexAdvance(out, entry.value.0, entry.value.1);
      out := out + [entry.value.0];
      cur := entry.value.1;
    }
    assert Index(out) + [] == Index(out);
    r := Some(out);
  }

  /** The parser accepts exactly the byte strings that end in a trailer, and returns
      the one index that trailer spells. */
  method ParsePackIndex(pack: seq<byte>) returns (r: Result<seq<IndexEntry>, PackError>)
    ensures r.Ok? ==> Indexes(pack, r.value)
    ensures forall es :: Indexes(pack, es) ==> r == Ok(es)
  {
    forall es | Indexes(pack, es) ensures Located(pack, es) {
      TrailerLocated(pack, es);
    }
    if |pack| < 8 || pack[|pack| - 8..] != PACK_MAGIC {
      return Err(MissingMagic);
    }
    var magicAt := |pack| - 8;
    if magicAt < 4 {
      return Err(TruncatedBeforeIndexLength);
    }
    var lenAt := magicAt - 4;
    var indexLen := FromBe(pack[lenAt..magicAt]);
    if lenAt < indexLen {
      return Err(IndexLongerThanPack);
    }
    var index := pack[lenAt - indexLen..lenAt];
    var entries := ParseEntries(index);
    if entries.None? {
      return Err(MalformedIndexEntry);
    }
    LocatedIsIndexed(pack, entries.value);
    forall es | Indexes(pack, es) ensures es == entries.value {
      IndexInjective(entries.value, es);
    }
    r := Ok(entries.value);
  }

  /** Where a trailer sits when `pack` ends in it. */
  ghost predicate Located(pack: seq<byte>, es: seq<IndexEntry>) {
    && |pack| >= 12 + |Index(es)|
    && pack[|pack| - 8..] == PACK_MAGIC
    && FromBe(pack[|pack| - 12..|pack| - 8]) == |Index(es)|
    && pack[|pack| - 12 - |Index(es)|..|pack| - 12] == Index(es)
  }

  lemma TrailerLocated(pack: seq<byte>, es: seq<IndexEntry>)
    requires Indexes(pack, es)
    ensures Located(pack, es)
  {
    Be4(|Index(es)|);
    var n, k := |pack|, |Index(es)|;
    var head := pack[..n - |Trailer(es)|];
    assert pack == head + Index(es) + Be(k, 4) + PACK_MAGIC;
    assert pack[n - 8..] == PACK_MAGIC;
    assert pack[n - 12..n - 8] == Be(k, 4);
    assert pack[n - 12 - k..n - 12] == Index(es);
  }

  lemma LocatedIsIndexed(pack: seq<byte>, es: seq<IndexEntry>)
    requires Located(pack, es) && AllEncodable(es)
    ensures Indexes(pack, es)
  {
    var n, k := |pack|, |Index(es)|;
    FromBeBound(pack[n - 12..n - 8]);
    Widths();
    Cut(pack, n - 12 - k, n - 12);
    Cut(pack, n - 12, n - 8);
    assert pack[n - 12 - k..] == Index(es) + (Be(k, 4) + PACK_MAGIC) == Trailer(es);
    Cut(pack, 0, n - 12 - k);
  }

  // ── Round trip and ranges ──────────────────────────────────────────────────

  /** What the writer can be asked to pack: string ids, and sizes within the widths. */
  ghost predicate Packable(entries: seq<PackEntry>) {
    && (forall i :: 0 <= i < |entries| ==> |entries[i].id| < U32 && ValidUtf8(entries[i].id))
    && |Payload(entries)| < U64
    && |Index(IndexOf(entries))| < U32
  }

  lemma {:induction false} PayloadPrefix(entries: seq<PackEntry>, i: nat)
    requires i <= |entries|
    ensures Payload(entries[..i]) <= Payload(entries)
    decreases |entries|
  {
    if i < |entries| {
      var init := entries[..|entries| - 1];
      PayloadPrefix(init, i);
      assert init[..i] == entries[..i];
    } else {
      assert entries[..i] == entries;
    }
  }

  /** The index of a built pack reads back as the members' ids and ranges. */
  lemma BuiltPackIndexed(entries: seq<PackEntry>)
    requires Packable(entries)
    ensures Indexes(Payload(entries) + Trailer(IndexOf(entries)), IndexOf(entries))
  {
    var es := IndexOf(entries);
    forall i | 0 <= i < |es| ensures Encodable(es[i]) {
      PayloadPrefix(entries, i + 1);
      assert entries[..i + 1][..i] == entries[..i];
    }
    var pack := Payload(entries) + Trailer(es);
    assert pack[..|pack| - |Trailer(es)|] == Payload(entries);
  }

  /** Where things are in an index record: the length of the id, the id, the offset and the
      length of the member. */
  lemma RecordLayout(e: IndexEntry)
    ensures var n := |e.id|;
      && |Record(e)| == 20 + n && Record(e)[..4] == Be(n, 4) && Record(e)[4..4 + n] == e.id
      && Record(e)[4 + n..12 + n] == Be(e.off, 8) && Record(e)[12 + n..] == Be(e.len, 8)
  {
  }

  /** Where things are in a pack: the payload, the index, the length of the index and the
      eight magic bytes. */
  lemma {:induction false} PackLayout(entries: seq<PackEntry>)
    ensures var pack := Payload(entries) + Trailer(IndexOf(entries)); var p := |Payload(entries)|; var x := |Index(IndexOf(entries))|;
      && |pack| == p + x + 12 && pack[..p] == Payload(entries) && pack[p..p + x] == Index(IndexOf(entries))
      && pack[p + x..p + x + 4] == Be(x, 4) && pack[p + x + 4..] == [0x50, 0x32, 0x50, 0x4e, 0x50, 0x41, 0x4b, 0x31]
  {
    var i := Index(IndexOf(entries));
    var t := Trailer(IndexOf(entries));
    assert t[..|i|] == i && t[|i|..|i| + 4] == Be(|i|, 4) && t[|i| + 4..] == PACK_MAGIC;
  }

  /** The ranges tile the payload in order: contiguous, disjoint, and covering. */
  lemma RangesTile(entries: seq<PackEntry>)
    ensures forall i :: 0 <= i < |entries| ==>
              (Ranges(entries)[i].off + Ranges(entries)[i].len
               == if i + 1 < |entries| then Ranges(entries)[i + 1].off else |Payload(entries)|)
    ensures entries != [] ==> Ranges(entries)[0].off == 0
  {
    forall i | 0 <= i < |entries|
      ensures Ranges(entries)[i].off + Ranges(entries)[i].len == |Payload(entries[..i + 1])|
    {
      assert entries[..i + 1][..i] == entries[..i];
    }
    assert entries[..|entries|] == entries;
  }

  /** Range `i` of any plaintext that starts with the payload is member `i`. */
  lemma RangeIsMember(entries: seq<PackEntry>, tail: seq<byte>, i: nat)
    requires i < |entries|
    ensures var g := Ranges(entries)[i]; var plain := Payload(entries) + tail;
            && g.off + g.len <= |plain| && plain[g.off..g.off + g.len] == entries[i].data
            && MemberSlice(plain, g.off, g.len) == Ok(entries[i].data)
  {
    PayloadPrefix(entries, i + 1);
    assert entries[..i + 1][..i] == entries[..i];
    var g := Ranges(entries)[i];
    assert Payload(entries[..i + 1]) == Payload(entries[..i]) + entries[i].data;
    assert Payload(entries)[..g.off + g.len] == Payload(entries[..i + 1]);
    assert (Payload(entries) + tail)[g.off..g.off + g.len] == Payload(entries[..i + 1])[g.off..];
  }

  /** The bytes of a member: its range of the container, checked against it. */
  function MemberSlice(plain: seq<byte>, off: int, len: int): (r: Result<seq<byte>, PackError>)
    ensures r.Ok? <==> 0 <= off && 0 <= len && off + len <= |plain|
    ensures r.Ok? ==> |r.value| == len
  {
    if off < 0 || len < 0 || off + len > |plain| then Err(InvalidRange) else Ok(plain[off..off + len])
  }
}
