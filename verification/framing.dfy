/** The frame layout of the append-only journals: a four-byte big-endian payload length, the payload,
    and a four-byte checksum of the payload. */
module Framing {
  import opened Outcomes

  type byte = b: int | 0 <= b < 256

  const MAX_PAYLOAD: nat := 1048576
  const LENGTH_SIZE: nat := 4
  const CHECKSUM_SIZE: nat := 4

  /** One journal entry: the record id the journal assigns and what the caller appended. */
  datatype Entry<I> = Entry(id: nat, body: I)

  /** JSON and CRC-32C stay opaque. `accepts` is the validation `Append` runs before it takes its
      lock; `encode` is `None` when marshalling fails. */
  datatype Codec<!I> = Codec(accepts: I -> bool,
                             encode: Entry<I> -> Option<seq<byte>>,
                             decode: seq<byte> -> Option<Entry<I>>,
                             checksum: seq<byte> -> nat)

  /** What an appended record has to satisfy to be readable again. */
  ghost predicate Lawful<I(!new)>(codec: Codec<I>) {
    && (forall e: Entry<I> :: codec.accepts(e.body) && 0 < e.id && codec.encode(e).Some?
          ==> codec.decode(codec.encode(e).value) == Some(e))
    && (forall p: seq<byte> :: codec.decode(p).Some? ==> codec.decode(p).value.id <= MAX_UINT64)
    && (forall p: seq<byte> :: codec.checksum(p) <= MAX_UINT32)
  }

  function BigEndian(n: nat): (bytes: seq<byte>)
    requires n <= MAX_UINT32
    ensures |bytes| == 4
  {
    var high, low := n / 0x1_0000, n % 0x1_0000;
    [high / 256, high % 256, low / 256, low % 256]
  }

  function FromBigEndian(bytes: seq<byte>): (n: nat)
    requires |bytes| == 4
  {
    bytes[0] as int * 0x100_0000 + bytes[1] as int * 0x1_0000 + bytes[2] as int * 256 + bytes[3] as int
  }

  lemma BigEndianRoundTrip(n: nat)
    requires n <= MAX_UINT32
    ensures FromBigEndian(BigEndian(n)) == n
  {
  }

  /** The record fits a frame: it encodes, to between one byte and the payload bound. */
  predicate Encodable<I>(codec: Codec<I>, e: Entry<I>) {
    && codec.accepts(e.body)
    && 0 < e.id
    && codec.encode(e).Some?
    && 0 < |codec.encode(e).value| <= MAX_PAYLOAD
  }

  ghost function Frame<I(!new)>(codec: Codec<I>, e: Entry<I>): (f: seq<byte>)
    requires Lawful(codec) && Encodable(codec, e)
    ensures |f| == LENGTH_SIZE + |codec.encode(e).value| + CHECKSUM_SIZE
  {
    var payload := codec.encode(e).value;
    BigEndian(|payload|) + payload + BigEndian(codec.checksum(payload))
  }

  // ----- reading -----

  datatype ReadError = ShortRead | InvalidLength | ChecksumMismatch | Undecodable

  /** `readRecordAtLocked`: the entry whose frame starts at `offset`, and the offset behind it. */
  function ReadAt<I>(codec: Codec<I>, file: seq<byte>, offset: nat): (r: Result<(Entry<I>, nat), ReadError>)
    ensures r.Ok? ==> offset + 8 < r.value.1 <= |file|
  {
    if offset + 4 > |file| then Err(ShortRead) else
      var length := FromBigEndian(file[offset..offset + 4]);
      if length == 0 || length > MAX_PAYLOAD then Err(InvalidLength)
      else if offset + 4 + length + 4 > |file| then Err(ShortRead) else
        var payload := file[offset + 4..offset + 4 + length];
        var want := FromBigEndian(file[offset + 4 + length..offset + 4 + length + 4]);
        if codec.checksum(payload) != want then Err(ChecksumMismatch) else
          match codec.decode(payload)
          case None => Err(Undecodable)
          case Some(e) => Ok((e, offset + 4 + length + 4))
  }

  lemma SubSlice(file: seq<byte>, offset: nat, f: seq<byte>, i: nat, j: nat)
    requires i <= j <= |f| && offset + |f| <= |file| && file[offset..offset + |f|] == f
    ensures file[offset + i..offset + j] == f[i..j]
  {
    forall k | 0 <= k < j - i
      ensures file[offset + i..offset + j][k] == f[i..j][k]
    {
      assert f[i + k] == file[offset..offset + |f|][i + k];
    }
  }

  lemma ReadWholeFrame<I(!new)>(codec: Codec<I>, file: seq<byte>, offset: nat, e: Entry<I>)
    requires Lawful(codec) && Encodable(codec, e)
    requires offset + |Frame(codec, e)| <= |file|
    requires file[offset..offset + |Frame(codec, e)|] == Frame(codec, e)
    ensures ReadAt(codec, file, offset) == Ok((e, offset + |Frame(codec, e)|))
    ensures FromBigEndian(file[offset..offset + 4]) == |codec.encode(e).value|
  {
    var f, payload := Frame(codec, e), codec.encode(e).value;
    var n, sum := |payload|, codec.checksum(payload);
    assert f == BigEndian(n) + payload + BigEndian(sum);
    SubSlice(file, offset, f, 0, 4);
    SubSlice(file, offset, f, 4, 4 + n);
    SubSlice(file, offset, f, 4 + n, 4 + n + 4);
    assert f[0..4] == BigEndian(n) && f[4..4 + n] == payload && f[4 + n..4 + n + 4] == BigEndian(sum);
    BigEndianRoundTrip(n);
    BigEndianRoundTrip(sum);
  }

  /** What `scanExisting` makes of a file: the entries before `end`, or corruption. `torn` says that
      bytes behind `end` were cut off. */
  datatype ScanResult<I> = Recovered(entries: seq<Entry<I>>, ends: seq<nat>, end: nat, torn: bool) | Corrupt

  function Scan<I>(codec: Codec<I>, file: seq<byte>, offset: nat, expected: nat): (r: ScanResult<I>)
    requires offset <= |file|
    ensures r.Recovered? ==> offset <= r.end <= |file| && |r.entries| == |r.ends|
    decreases |file| - offset
  {
    if offset == |file| then Recovered([], [], offset, false)
    else if |file| - offset < 4 then Recovered([], [], offset, true) else
      var length := FromBigEndian(file[offset..offset + 4]);
      if length == 0 || length > MAX_PAYLOAD then Corrupt
      else if offset + 4 + length + 4 > |file| then Recovered([], [], offset, true) else
        match ReadAt(codec, file, offset)
        case Err(_) => Corrupt
        case Ok((e, next)) =>
          if e.id != expected then Corrupt else
            match Scan(codec, file, next, expected + 1)
            case Corrupt => Corrupt
            case Recovered(es, ends, end, torn) => Recovered([e] + es, [next] + ends, end, torn)
  }

  // ----- scans compose -----

  /** Reading a frame looks at no byte behind it. */
  lemma ReadIsLocal<I>(codec: Codec<I>, file: seq<byte>, longer: seq<byte>, offset: nat)
    requires file <= longer && ReadAt(codec, file, offset).Ok?
    ensures ReadAt(codec, longer, offset) == ReadAt(codec, file, offset)
  {
    var n := FromBigEndian(file[offset..offset + 4]);
    assert longer[offset..offset + 4] == file[offset..offset + 4];
    assert longer[offset + 4..offset + 4 + n] == file[offset + 4..offset + 4 + n];
    assert longer[offset + 4 + n..offset + 4 + n + 4] == file[offset + 4 + n..offset + 4 + n + 4];
  }

  /** One turn of the scan loop over a readable frame. */
  lemma ScanStep<I>(codec: Codec<I>, file: seq<byte>, offset: nat, e: Entry<I>, next: nat)
    requires ReadAt(codec, file, offset) == Ok((e, next))
    ensures Scan(codec, file, offset, e.id) == Joined([e], [next], Scan(codec, file, next, e.id + 1))
  {
  }

  function Joined<I>(entries: seq<Entry<I>>, ends: seq<nat>, r: ScanResult<I>): ScanResult<I> {
    if r.Corrupt? then Corrupt else Recovered(entries + r.entries, ends + r.ends, r.end, r.torn)
  }

  /** The file from `start` is a run of whole readable frames and nothing else. */
  ghost predicate Intact<I>(codec: Codec<I>, file: seq<byte>, start: nat, first: nat, entries: seq<Entry<I>>, ends: seq<nat>) {
    start <= |file| && Scan(codec, file, start, first) == Recovered(entries, ends, |file|, false)
  }

  lemma IntactParts<I>(codec: Codec<I>, file: seq<byte>, start: nat, first: nat, entries: seq<Entry<I>>, ends: seq<nat>)
    requires Intact(codec, file, start, first, entries, ends)
    ensures |entries| == |ends|
    ensures entries == [] ==> start == |file|
    ensures entries != [] ==>
              && entries[0].id == first
              && ReadAt(codec, file, start) == Ok((entries[0], ends[0]))
              && Intact(codec, file, ends[0], first + 1, entries[1..], ends[1..])
    decreases |file| - start
  {
    if entries != [] {
      var (e, next) := ReadAt(codec, file, start).value;
      var r := Scan(codec, file, next, first + 1);
      assert entries == [e] + r.entries && ends == [next] + r.ends;
      assert entries[1..] == r.entries && ends[1..] == r.ends;
      IntactParts(codec, file, next, first + 1, entries[1..], ends[1..]);
    }
  }

  /** Scanning an intact file with more bytes behind it goes on where the intact part ends. */
  lemma {:induction false} ScanComposes<I>(codec: Codec<I>, file: seq<byte>, longer: seq<byte>, start: nat, first: nat, entries: seq<Entry<I>>, ends: seq<nat>)
    requires Intact(codec, file, start, first, entries, ends) && file <= longer
    ensures Scan(codec, longer, start, first) == Joined(entries, ends, Scan(codec, longer, |file|, first + |entries|))
    decreases |entries|
  {
    var r := Scan(codec, longer, |file|, first + |entries|);
    IntactParts(codec, file, start, first, entries, ends);
    if |entries| == 0 {
      JoinedNothing(r);
    } else {
      var rest := Scan(codec, longer, ends[0], first + 1);
      assert rest == Joined(entries[1..], ends[1..], r) by {
        ScanComposes(codec, file, longer, ends[0], first + 1, entries[1..], ends[1..]);
      }
      JoinedAssociates(entries, ends, r);
      ReadIsLocal(codec, file, longer, start);
      ScanStep(codec, longer, start, entries[0], ends[0]);
    }
  }

  lemma JoinedNothing<I>(r: ScanResult<I>)
    ensures Joined([], [], r) == r
  {
    assert r.Recovered? ==> [] + r.entries == r.entries && [] + r.ends == r.ends;
  }

  lemma JoinedAssociates<I>(entries: seq<Entry<I>>, ends: seq<nat>, r: ScanResult<I>)
    requires |entries| == |ends| > 0
    ensures Joined([entries[0]], [ends[0]], Joined(entries[1..], ends[1..], r)) == Joined(entries, ends, r)
  {
    if r.Recovered? {
      assert [entries[0]] + (entries[1..] + r.entries) == entries + r.entries;
      assert [ends[0]] + (ends[1..] + r.ends) == ends + r.ends;
    }
  }

  /** The k-th frame of an intact file starts where the one before it ends. */
  lemma {:induction false} ReadsBack<I>(codec: Codec<I>, file: seq<byte>, start: nat, first: nat, entries: seq<Entry<I>>, ends: seq<nat>, k: nat)
    requires Intact(codec, file, start, first, entries, ends) && k < |entries| == |ends|
    ensures ReadAt(codec, file, if k == 0 then start else ends[k - 1]) == Ok((entries[k], ends[k]))
    ensures entries[k].id == first + k && start < ends[k] <= |file|
    decreases k
  {
    IntactParts(codec, file, start, first, entries, ends);
    if k > 0 {
      var later, laterEnds := entries[1..], ends[1..];
      assert later[k - 1] == entries[k] && laterEnds[k - 1] == ends[k] && (k > 1 ==> laterEnds[k - 2] == ends[k - 1]);
      ReadsBack(codec, file, ends[0], first + 1, later, laterEnds, k - 1);
    }
  }

  /** An intact file ends with its last record. */
  lemma {:induction false} EndsWithTheLast<I>(codec: Codec<I>, file: seq<byte>, start: nat, first: nat, entries: seq<Entry<I>>, ends: seq<nat>)
    requires Intact(codec, file, start, first, entries, ends)
    ensures |file| == if ends == [] then start else ends[|ends| - 1]
    decreases |entries|
  {
    IntactParts(codec, file, start, first, entries, ends);
    if entries != [] {
      EndsWithTheLast(codec, file, ends[0], first + 1, entries[1..], ends[1..]);
    }
  }

  /** A frame reads the same when the file is cut right behind it. */
  lemma ReadIsShort<I>(codec: Codec<I>, file: seq<byte>, offset: nat, e: Entry<I>, next: nat)
    requires ReadAt(codec, file, offset) == Ok((e, next))
    ensures ReadAt(codec, file[..next], offset) == Ok((e, next))
  {
    var short, n := file[..next], FromBigEndian(file[offset..offset + 4]);
    assert short[offset..offset + 4] == file[offset..offset + 4];
    assert short[offset + 4..offset + 4 + n] == file[offset + 4..offset + 4 + n];
    assert short[offset + 4 + n..offset + 4 + n + 4] == file[offset + 4 + n..offset + 4 + n + 4];
  }

  // ----- cutting an intact file -----

  /** What a scan recovers is an intact file. */
  lemma {:induction false} RecoveredIsIntact<I>(codec: Codec<I>, file: seq<byte>, start: nat, first: nat)
    requires start <= |file| && Scan(codec, file, start, first).Recovered?
    ensures var scan := Scan(codec, file, start, first); Intact(codec, file[..scan.end], start, first, scan.entries, scan.ends)
    decreases |file| - start
  {
    var scan := Scan(codec, file, start, first);
    if scan.entries != [] {
      var (e, next) := ReadAt(codec, file, start).value;
      RecoveredIsIntact(codec, file, next, first + 1);
      ReadIsShort(codec, file, start, e, next);
      assert file[..next] <= file[..scan.end];
      ReadIsLocal(codec, file[..next], file[..scan.end], start);
      ScanStep(codec, file[..scan.end], start, e, next);
    }
  }

  /** How many records end at or before `kept`. */
  function WholeUpTo(ends: seq<nat>, kept: nat): (k: nat)
    ensures k <= |ends| && (k > 0 ==> ends[k - 1] <= kept) && (forall i :: k <= i < |ends| ==> kept < ends[i])
  {
    if ends == [] || ends[|ends| - 1] <= kept then |ends| else WholeUpTo(ends[..|ends| - 1], kept)
  }

  function EndOf(start: nat, ends: seq<nat>, k: nat): nat
    requires k <= |ends|
  {
    if k == 0 then start else ends[k - 1]
  }

  /** The first `k` records of an intact file are an intact file. */
  lemma {:induction false} PrefixIsIntact<I>(codec: Codec<I>, file: seq<byte>, start: nat, first: nat, entries: seq<Entry<I>>, ends: seq<nat>, k: nat)
    requires Intact(codec, file, start, first, entries, ends) && k <= |entries| == |ends|
    ensures start <= EndOf(start, ends, k) <= |file|
    ensures Intact(codec, file[..EndOf(start, ends, k)], start, first, entries[..k], ends[..k])
    decreases k
  {
    if k > 0 {
      var end := ends[k - 1];
      IntactParts(codec, file, start, first, entries, ends);
      PrefixIsIntact(codec, file, ends[0], first + 1, entries[1..], ends[1..], k - 1);
      assert EndOf(ends[0], ends[1..], k - 1) == end;
      assert entries[1..][..k - 1] == entries[1..k] && ends[1..][..k - 1] == ends[1..k];
      ReadIsShort(codec, file, start, entries[0], ends[0]);
      assert file[..ends[0]] <= file[..end];
      ReadIsLocal(codec, file[..ends[0]], file[..end], start);
      ScanStep(codec, file[..end], start, entries[0], ends[0]);
      assert [entries[0]] + entries[1..k] == entries[..k] && [ends[0]] + ends[1..k] == ends[..k];
    }
  }

  /** A cut through the last record leaves the records before it, to be cut where they end. */
  lemma CutThroughTheLast<I>(codec: Codec<I>, file: seq<byte>, start: nat, entries: seq<Entry<I>>, ends: seq<nat>, kept: nat)
    requires Intact(codec, file, start, 1, entries, ends) && 0 < |entries| == |ends|
    requires start <= kept && EndOf(start, ends, |ends| - 1) <= kept < |file|
    ensures Scan(codec, file[..kept], start, 1)
            == Recovered(entries[..|ends| - 1], ends[..|ends| - 1], EndOf(start, ends, |ends| - 1), EndOf(start, ends, |ends| - 1) < kept)
  {
    var k := |ends| - 1;
    var before := EndOf(start, ends, k);
    PrefixIsIntact(codec, file, start, 1, entries, ends, k);
    ReadsBack(codec, file, start, 1, entries, ends, k);
    EndsWithTheLast(codec, file, start, 1, entries, ends);
    TornAfter(codec, file, before, kept);
    assert file[..before] <= file[..kept];
    ScanComposes(codec, file[..before], file[..kept], start, 1, entries[..k], ends[..k]);
    assert entries[..k] + [] == entries[..k] && ends[..k] + [] == ends[..k];
  }

  /** A frame that reaches to the end of the file is incomplete wherever the file is cut. */
  lemma TornAfter<I>(codec: Codec<I>, file: seq<byte>, offset: nat, kept: nat)
    requires ReadAt(codec, file, offset).Ok? && ReadAt(codec, file, offset).value.1 == |file| && offset <= kept < |file|
    ensures forall expected :: Scan(codec, file[..kept], offset, expected) == Recovered([], [], offset, offset < kept)
  {
    if offset + 4 <= kept {
      assert file[..kept][offset..offset + 4] == file[offset..offset + 4];
    }
  }

  ghost predicate CutLeaves<I>(codec: Codec<I>, file: seq<byte>, start: nat, entries: seq<Entry<I>>, ends: seq<nat>, kept: nat, k: nat)
    requires k <= |entries| == |ends| && start <= kept <= |file|
  {
    Scan(codec, file[..kept], start, 1) == Recovered(entries[..k], ends[..k], EndOf(start, ends, k), EndOf(start, ends, k) < kept)
  }

  /** A cut anywhere leaves exactly the records that end before it. */
  lemma {:induction false} CutAnywhere<I>(codec: Codec<I>, file: seq<byte>, start: nat, entries: seq<Entry<I>>, ends: seq<nat>, kept: nat)
    requires Intact(codec, file, start, 1, entries, ends) && start <= kept <= |file|
    ensures |entries| == |ends| && CutLeaves(codec, file, start, entries, ends, kept, WholeUpTo(ends, kept))
    decreases |ends|
  {
    IntactParts(codec, file, start, 1, entries, ends);
    EndsWithTheLast(codec, file, start, 1, entries, ends);
    if kept == |file| {
      assert file[..kept] == file && entries[..|ends|] == entries && ends[..|ends|] == ends;
    } else {
      var k := |ends| - 1;
      PrefixIsIntact(codec, file, start, 1, entries, ends, k);
      if EndOf(start, ends, k) <= kept {
        CutThroughTheLast(codec, file, start, entries, ends, kept);
        OneLess(start, ends, kept);
      } else {
        CutAnywhere(codec, file[..EndOf(start, ends, k)], start, entries[..k], ends[..k], kept);
        CutFurther(codec, file, start, entries, ends, kept, WholeUpTo(ends[..k], kept));
      }
    }
  }

  lemma CutFurther<I>(codec: Codec<I>, file: seq<byte>, start: nat, entries: seq<Entry<I>>, ends: seq<nat>, kept: nat, j: nat)
    requires 0 < |entries| == |ends| && j < |ends| && start <= kept <= EndOf(start, ends, |ends| - 1) <= |file|
    requires CutLeaves(codec, file[..EndOf(start, ends, |ends| - 1)], start, entries[..|ends| - 1], ends[..|ends| - 1], kept, j)
    ensures CutLeaves(codec, file, start, entries, ends, kept, j)
  {
    var k := |ends| - 1;
    assert file[..EndOf(start, ends, k)][..kept] == file[..kept];
    assert entries[..k][..j] == entries[..j] && ends[..k][..j] == ends[..j];
  }

  lemma OneLess(start: nat, ends: seq<nat>, kept: nat)
    requires ends != [] && EndOf(start, ends, |ends| - 1) <= kept < ends[|ends| - 1]
    ensures WholeUpTo(ends, kept) == |ends| - 1
  {
    var shorter := ends[..|ends| - 1];
    assert shorter != [] ==> shorter[|shorter| - 1] == ends[|ends| - 2];
  }

  // ----- appending one frame, whole or torn -----

  /** Too short to hold the frame it announces, but not announcing an impossible one. */
  predicate Torn(tail: seq<byte>) {
    |tail| < 4 ||
    var length := FromBigEndian(tail[..4]);
    0 < length <= MAX_PAYLOAD && |tail| < 4 + length + 4
  }

  lemma ProperPrefixIsTorn<I(!new)>(codec: Codec<I>, e: Entry<I>, cut: nat)
    requires Lawful(codec) && Encodable(codec, e) && cut < |Frame(codec, e)|
    ensures Torn(Frame(codec, e)[..cut])
  {
    var n := |codec.encode(e).value|;
    if cut >= 4 {
      assert Frame(codec, e)[..cut][..4] == BigEndian(n);
      BigEndianRoundTrip(n);
    }
  }

  lemma ScanTail<I>(codec: Codec<I>, file: seq<byte>, offset: nat, expected: nat)
    requires offset <= |file| && Torn(file[offset..])
    ensures Scan(codec, file, offset, expected) == Recovered([], [], offset, offset < |file|)
  {
    if |file| - offset >= 4 {
      assert file[offset..][..4] == file[offset..offset + 4];
    }
  }

  /** Torn-tail recovery: an intact file followed by a proper prefix of one more frame scans to
      exactly its own records, and is to be cut where it ended. */
  lemma ScanTornAppend<I(!new)>(codec: Codec<I>, file: seq<byte>, start: nat, entries: seq<Entry<I>>, ends: seq<nat>, e: Entry<I>, cut: nat)
    requires Lawful(codec) && Intact(codec, file, start, 1, entries, ends)
    requires Encodable(codec, e) && cut < |Frame(codec, e)|
    ensures Scan(codec, file + Frame(codec, e)[..cut], start, 1) == Recovered(entries, ends, |file|, cut > 0)
  {
    var tail := Frame(codec, e)[..cut];
    ProperPrefixIsTorn(codec, e, cut);
    assert (file + tail)[|file|..] == tail;
    ScanTail(codec, file + tail, |file|, 1 + |entries|);
    ScanComposes(codec, file, file + tail, start, 1, entries, ends);
    assert entries + [] == entries && ends + [] == ends;
  }

  lemma TornTail<I(!new)>(codec: Codec<I>, file: seq<byte>, end: nat, start: nat, entries: seq<Entry<I>>, ends: seq<nat>, e: Entry<I>)
    requires Lawful(codec) && end < |file| && Intact(codec, file[..end], start, 1, entries, ends)
    requires Encodable(codec, e) && file[end..] < Frame(codec, e)
    ensures Scan(codec, file, start, 1) == Recovered(entries, ends, end, true)
  {
    var cut := |file| - end;
    assert file == file[..end] + Frame(codec, e)[..cut];
    ScanTornAppend(codec, file[..end], start, entries, ends, e, cut);
  }

  /** The whole frame makes it to disk: the scan yields one more record. */
  lemma ScanWholeAppend<I(!new)>(codec: Codec<I>, file: seq<byte>, start: nat, entries: seq<Entry<I>>, ends: seq<nat>, e: Entry<I>)
    requires Lawful(codec) && Intact(codec, file, start, 1, entries, ends)
    requires Encodable(codec, e) && e.id == 1 + |entries|
    ensures Intact(codec, file + Frame(codec, e), start, 1, entries + [e], ends + [|file + Frame(codec, e)|])
  {
    var longer := file + Frame(codec, e);
    assert longer[|file|..|longer|] == Frame(codec, e);
    ReadWholeFrame(codec, longer, |file|, e);
    ScanStep(codec, longer, |file|, e, |longer|);
    ScanComposes(codec, file, longer, start, 1, entries, ends);
    assert Joined([e], [|longer|], Scan(codec, longer, |longer|, e.id + 1)) == Recovered([e], [|longer|], |longer|, false);
  }

  // ----- a whole journal file -----

  /** Record ids 1, 2, 3, ... and every record encodable. */
  ghost predicate WellFormed<I>(codec: Codec<I>, entries: seq<Entry<I>>) {
    forall k :: 0 <= k < |entries| ==> Encodable(codec, entries[k]) && entries[k].id == 1 + k
  }

  /** The header followed by one frame per entry. */
  ghost function Image<I(!new)>(codec: Codec<I>, header: seq<byte>, entries: seq<Entry<I>>): (bytes: seq<byte>)
    requires Lawful(codec) && WellFormed(codec, entries)
    ensures header <= bytes
  {
    if entries == [] then header else
      Image(codec, header, entries[..|entries| - 1]) + Frame(codec, entries[|entries| - 1])
  }

  /** Where each frame of that file ends. */
  ghost function Ends<I(!new)>(codec: Codec<I>, header: seq<byte>, entries: seq<Entry<I>>): (ends: seq<nat>)
    requires Lawful(codec) && WellFormed(codec, entries)
  {
    if entries == [] then [] else
      Ends(codec, header, entries[..|entries| - 1]) + [|Image(codec, header, entries)|]
  }

  lemma {:induction false} ImageIsIntact<I(!new)>(codec: Codec<I>, header: seq<byte>, entries: seq<Entry<I>>)
    requires Lawful(codec) && WellFormed(codec, entries)
    ensures Intact(codec, Image(codec, header, entries), |header|, 1, entries, Ends(codec, header, entries))
    decreases |entries|
  {
    if entries != [] {
      var k := |entries| - 1;
      ImageIsIntact(codec, header, entries[..k]);
      ScanWholeAppend(codec, Image(codec, header, entries[..k]), |header|, entries[..k], Ends(codec, header, entries[..k]), entries[k]);
      assert entries == entries[..k] + [entries[k]];
    }
  }

  /** For every record list and every proper prefix of one more frame, the scan recovers exactly the
      list, its end offsets, and the offset behind the last whole frame. */
  lemma ScanRecovers<I(!new)>(codec: Codec<I>, header: seq<byte>, entries: seq<Entry<I>>, e: Entry<I>, cut: nat)
    requires Lawful(codec) && WellFormed(codec, entries)
    requires Encodable(codec, e) && cut < |Frame(codec, e)|
    ensures Scan(codec, Image(codec, header, entries) + Frame(codec, e)[..cut], |header|, 1)
            == Recovered(entries, Ends(codec, header, entries), |Image(codec, header, entries)|, cut > 0)
  {
    ImageIsIntact(codec, header, entries);
    ScanTornAppend(codec, Image(codec, header, entries), |header|, entries, Ends(codec, header, entries), e, cut);
  }
}
