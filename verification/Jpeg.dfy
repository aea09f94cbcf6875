/** The size of an image, read from the first bytes of a PNG or JPEG file without decoding it. */
module Jpeg {
  import opened Wrappers

  type Byte = b: int | 0 <= b < 256

  const SIGNATURE: seq<Byte> := [0x89, 0x50, 0x4E, 0x47, 0x0D, 0x0A, 0x1A, 0x0A]

  /** `raw[lo:hi]`: what there is of it. */
  function Slice(raw: seq<Byte>, lo: nat, hi: nat): seq<Byte>
    requires lo <= hi
  {
    if |raw| <= lo then [] else if |raw| <= hi then raw[lo..] else raw[lo..hi]
  }

  function BigEndian(bytes: seq<Byte>): nat {
    if bytes == [] then 0 else 256 * BigEndian(bytes[..|bytes| - 1]) + bytes[|bytes| - 1]
  }

  function Pow256(k: nat): nat {
    if k == 0 then 1 else 256 * Pow256(k - 1)
  }

  /** `n` in `k` bytes, highest first. */
  function Bytes(n: nat, k: nat): (bytes: seq<Byte>)
    ensures |bytes| == k
  {
    if k == 0 then [] else Bytes(n / 256, k - 1) + [n % 256]
  }

  lemma {:induction false} BytesSpell(n: nat, k: nat)
    requires n < Pow256(k)
    ensures BigEndian(Bytes(n, k)) == n
  {
    if k > 0 {
      BytesSpell(n / 256, k - 1);
      var bytes := Bytes(n, k);
      assert bytes[..k - 1] == Bytes(n / 256, k - 1) && bytes[k - 1] == n % 256;
    }
  }

  predicate Standalone(marker: Byte) {
    marker == 0xD8 || marker == 0xD9 || 0xD0 <= marker <= 0xD7
  }

  /** The frame headers the walk stops at; 0xCD, 0xCE and 0xCF are not among them. */
  predicate Listed(marker: Byte) {
    marker in [0xC0, 0xC1, 0xC2, 0xC3, 0xC5, 0xC6, 0xC7, 0xC9, 0xCA, 0xCB]
  }

  /** What the walk does at `i`: the size it found there, or how far it moves on. */
  datatype Step = Found(width: nat, height: nat) | Move(len: nat)

  function StepAt(raw: seq<Byte>, i: nat): (s: Step)
    requires i + 9 < |raw|
    ensures s.Move? ==> s.len > 0
  {
    if raw[i] != 0xFF then Move(1)
    else if Standalone(raw[i + 1]) then Move(2)
    else if Listed(raw[i + 1]) then Found(BigEndian(raw[i + 7..i + 9]), BigEndian(raw[i + 5..i + 7]))
    else Move(2 + BigEndian(raw[i + 2..i + 4]))
  }

  function WalkFrom(raw: seq<Byte>, i: nat): Option<(nat, nat)>
    decreases |raw| - i
  {
    if i + 9 >= |raw| then None
    else
      match StepAt(raw, i)
      case Found(w, h) => Some((w, h))
      case Move(len) => WalkFrom(raw, i + len)
  }

  function SizeOf(raw: seq<Byte>): Option<(nat, nat)> {
    if Slice(raw, 0, 8) == SIGNATURE then Some((BigEndian(Slice(raw, 16, 20)), BigEndian(Slice(raw, 20, 24))))
    else WalkFrom(raw, 2)
  }

  method Dims(raw: seq<Byte>) returns (size: Option<(nat, nat)>)
    ensures size == SizeOf(raw)
  {
    if Slice(raw, 0, 8) == SIGNATURE {
      return Some((BigEndian(Slice(raw, 16, 20)), BigEndian(Slice(raw, 20, 24))));
    }
    var i := 2;
    while i + 9 < |raw|
      invariant i >= 2 && WalkFrom(raw, i) == WalkFrom(raw, 2)
      decreases |raw| - i
    {
      if raw[i] != 0xFF {
        i := i + 1;
        continue;
      }
      var marker := raw[i + 1];
      if Standalone(marker) {
        i := i + 2;
        continue;
      }
      var segLen := BigEndian(raw[i + 2..i + 4]);
      if Listed(marker) {
        var h := BigEndian(raw[i + 5..i + 7]);
        var w := BigEndian(raw[i + 7..i + 9]);
        return Some((w, h));
      }
      i := i + 2 + segLen;
    }
    return None;
  }

  // ---------- files ----------

  /**
   What may stand before a frame header (sections B.1.1.4 and B.1.1.5 of ITU-T T.81), and stray bytes
   the walk tolerates.
   */
  datatype Item =
    | Segment(marker: Byte, payload: seq<Byte>)
    | Alone(marker: Byte)
    | Stray(byte: Byte)
  {
    ghost predicate Valid() {
      match this
      case Segment(m, payload) =>
        m != 0xFF && !(0xD0 <= m <= 0xD9) && !IsFrameMarker(m) && |payload| + 2 < 0x1_0000
      case Alone(m) => 0xD0 <= m <= 0xD9
      case Stray(b) => b != 0xFF
    }

    function Encode(): seq<Byte> {
      match this
      case Segment(m, payload) => [0xFF, m] + Bytes(|payload| + 2, 2) + payload
      case Alone(m) => [0xFF, m]
      case Stray(b) => [b]
    }
  }

  /** Types 0 to 11 without 4 and 8, which are no frames (table B.1 of ITU-T T.81). */
  predicate IsFrameMarker(m: Byte) {
    0xC0 <= m <= 0xCB && m != 0xC4 && m != 0xC8
  }

  function EncodeAll(items: seq<Item>): seq<Byte> {
    if items == [] then [] else items[0].Encode() + EncodeAll(items[1..])
  }

  /** A frame header up to its component count (section B.2.2 of ITU-T T.81). */
  datatype Frame = Frame(marker: Byte, length: nat, precision: Byte, height: nat, width: nat, components: Byte) {
    ghost predicate Valid() {
      length < 0x1_0000 && height < 0x1_0000 && width < 0x1_0000
    }

    function Encode(): seq<Byte> {
      [0xFF, marker] + Bytes(length, 2) + [precision] + Bytes(height, 2) + Bytes(width, 2) + [components]
    }
  }

  lemma TwoBytesSpell(n: nat)
    requires n < 0x1_0000
    ensures BigEndian(Bytes(n, 2)) == n
  {
    assert Pow256(2) == 256 * Pow256(1) == 0x1_0000;
    BytesSpell(n, 2);
  }

  lemma StepsOverSegment(raw: seq<Byte>, i: nat, m: Byte, n: nat)
    requires i + 9 < |raw| && n < 0x1_0000 && m != 0xFF && !Standalone(m) && !Listed(m)
    requires raw[i] == 0xFF && raw[i + 1] == m && raw[i + 2..i + 4] == Bytes(n, 2)
    ensures StepAt(raw, i) == Move(2 + n)
  {
    TwoBytesSpell(n);
  }

  /** The walk steps over one item, whatever bytes its payload holds. */
  lemma StepsOver(before: seq<Byte>, item: Item, after: seq<Byte>)
    requires item.Valid() && |before| + 9 < |before + item.Encode() + after|
    ensures StepAt(before + item.Encode() + after, |before|) == Move(|item.Encode()|)
  {
    var raw, i, e := before + item.Encode() + after, |before|, item.Encode();
    assert raw[i..i + |e|] == e;
    assert raw[i] == e[0];
    match item
    case Segment(m, payload) =>
      assert e[2..4] == Bytes(|payload| + 2, 2);
      assert raw[i + 1] == e[1] && raw[i + 2..i + 4] == e[2..4];
      StepsOverSegment(raw, i, m, |payload| + 2);
    case Alone(m) =>
      assert raw[i + 1] == e[1];
    case Stray(b) =>
  }

  lemma StopsAtFrame(before: seq<Byte>, frame: Frame, after: seq<Byte>)
    requires frame.Valid() && IsFrameMarker(frame.marker)
    ensures |frame.Encode()| == 10
    ensures StepAt(before + frame.Encode() + after, |before|) == Found(frame.width, frame.height)
  {
    var raw, i, e := before + frame.Encode() + after, |before|, frame.Encode();
    assert raw[i] == e[0] && raw[i + 1] == e[1];
    TwoBytesSpell(frame.height);
    TwoBytesSpell(frame.width);
    assert raw[i + 5..i + 7] == Bytes(frame.height, 2);
    assert raw[i + 7..i + 9] == Bytes(frame.width, 2);
  }

  function Lens(items: seq<Item>): seq<nat> {
    if items == [] then [] else [|items[0].Encode()|] + Lens(items[1..])
  }

  function Total(lens: seq<nat>): nat {
    if lens == [] then 0 else lens[0] + Total(lens[1..])
  }

  lemma {:induction false} LensAddUp(items: seq<Item>)
    ensures Total(Lens(items)) == |EncodeAll(items)|
  {
    if items != [] {
      LensAddUp(items[1..]);
    }
  }

  /** From `i` on the walk takes steps of these lengths, or leaves the file before. */
  ghost predicate Moves(raw: seq<Byte>, i: nat, lens: seq<nat>)
    decreases |lens|
  {
    lens == [] || i + 9 >= |raw| || (StepAt(raw, i) == Move(lens[0]) && Moves(raw, i + lens[0], lens[1..]))
  }

  lemma {:induction false} WalkFollows(raw: seq<Byte>, i: nat, lens: seq<nat>)
    requires Moves(raw, i, lens)
    ensures WalkFrom(raw, i) == WalkFrom(raw, i + Total(lens))
    decreases |lens|
  {
    if lens != [] && i + 9 < |raw| {
      WalkFollows(raw, i + lens[0], lens[1..]);
    }
  }

  lemma Regroup(before: seq<Byte>, e: seq<Byte>, rest: seq<Byte>, after: seq<Byte>)
    ensures before + (e + rest) + after == before + e + (rest + after) == (before + e) + rest + after
  {
  }

  lemma {:induction false} ItemsMove(before: seq<Byte>, items: seq<Item>, after: seq<Byte>)
    requires forall item | item in items :: item.Valid()
    ensures Moves(before + EncodeAll(items) + after, |before|, Lens(items))
    decreases |items|
  {
    var raw := before + EncodeAll(items) + after;
    if items != [] && |before| + 9 < |raw| {
      var e, rest := items[0].Encode(), EncodeAll(items[1..]);
      assert items[0] in items;
      Regroup(before, e, rest, after);
      StepsOver(before, items[0], rest + after);
      ItemsMove(before + e, items[1..], after);
    }
  }

  /** Items change nothing about what the walk finds behind them. */
  lemma WalkPassesItems(before: seq<Byte>, items: seq<Item>, after: seq<Byte>, raw: seq<Byte>)
    requires forall item | item in items :: item.Valid()
    requires raw == before + EncodeAll(items) + after
    ensures WalkFrom(raw, |before|) == WalkFrom(raw, |before| + |EncodeAll(items)|)
  {
    ItemsMove(before, items, after);
    WalkFollows(raw, |before|, Lens(items));
    LensAddUp(items);
  }

  lemma IsJpeg(raw: seq<Byte>)
    requires raw != [] && raw[0] == 0xFF
    ensures SizeOf(raw) == WalkFrom(raw, 2)
  {
    assert Slice(raw, 0, 8)[0] == 0xFF && SIGNATURE[0] == 0x89;
  }

  /** SOI, then any items, then a listed frame header: the walk answers that header's size. */
  lemma FrameSizeIsFound(items: seq<Item>, frame: Frame, after: seq<Byte>)
    requires (forall item | item in items :: item.Valid()) && frame.Valid() && IsFrameMarker(frame.marker)
    ensures SizeOf([0xFF, 0xD8] + EncodeAll(items) + frame.Encode() + after) == Some((frame.width, frame.height))
  {
    var soi: seq<Byte>, all := [0xFF, 0xD8], EncodeAll(items);
    var raw := soi + all + frame.Encode() + after;
    assert raw == soi + all + (frame.Encode() + after);
    WalkPassesItems(soi, items, frame.Encode() + after, raw);
    StopsAtFrame(soi + all, frame, after);
    WalkStops(raw, |soi + all|, frame.width, frame.height);
    IsJpeg(raw);
  }

  lemma WalkStops(raw: seq<Byte>, i: nat, width: nat, height: nat)
    requires i + 9 < |raw| && StepAt(raw, i) == Found(width, height)
    ensures WalkFrom(raw, i) == Some((width, height))
  {
  }

  /** A frame header of type 13, 14 or 15 is passed like any segment: only what follows it can give a size. */
  lemma UnlistedFrameIsPassed(items: seq<Item>, marker: Byte, header: seq<Byte>, after: seq<Byte>)
    requires (forall item | item in items :: item.Valid()) && |header| + 2 < 0x1_0000 && 0xCD <= marker <= 0xCF
    ensures var front: seq<Byte> := [0xFF, 0xD8] + EncodeAll(items + [Segment(marker, header)]);
            SizeOf(front + after) == WalkFrom(front + after, |front|)
  {
    var soi: seq<Byte>, all := [0xFF, 0xD8], items + [Segment(marker, header)];
    forall item | item in all ensures item.Valid() {
      assert item in items || item == Segment(marker, header);
    }
    WalkPassesItems(soi, all, after, soi + EncodeAll(all) + after);
    IsJpeg(soi + EncodeAll(all) + after);
  }

  /** A file of items alone has no size; frame headers of types 13 to 15 are such items. */
  lemma ItemsAloneHaveNoSize(items: seq<Item>, after: seq<Byte>)
    requires (forall item | item in items :: item.Valid()) && |after| < 10
    ensures SizeOf([0xFF, 0xD8] + EncodeAll(items) + after) == None
  {
    var raw: seq<Byte> := [0xFF, 0xD8] + EncodeAll(items) + after;
    WalkPassesItems([0xFF, 0xD8], items, after, raw);
    IsJpeg(raw);
  }

  /** A PNG file's size stands in its first chunk, 16 bytes in. */
  lemma PngSizeIsFound(chunk: seq<Byte>, width: nat, height: nat, after: seq<Byte>)
    requires |chunk| == 8 && width < 0x1_0000_0000 && height < 0x1_0000_0000
    ensures SizeOf(SIGNATURE + chunk + Bytes(width, 4) + Bytes(height, 4) + after) == Some((width, height))
  {
    var raw := SIGNATURE + chunk + Bytes(width, 4) + Bytes(height, 4) + after;
    assert Slice(raw, 0, 8) == SIGNATURE;
    assert Slice(raw, 16, 20) == Bytes(width, 4) && Slice(raw, 20, 24) == Bytes(height, 4);
    assert Pow256(4) == 256 * Pow256(3) && Pow256(3) == 256 * Pow256(2) && Pow256(2) == 0x1_0000;
    BytesSpell(width, 4);
    BytesSpell(height, 4);
  }
}
