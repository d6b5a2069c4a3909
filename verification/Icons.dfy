// The Windows icon file: a directory of images written with a running offset, and a reader
// that knows only what the format says.
module Icons {
  import opened Values
  import opened Wrappers

  datatype Image = Image(size: int, png: Bytes)

  // ---- Little-endian numbers; packing one that does not fit is an error ----

  function U8(n: int): Option<Bytes> {
    if 0 <= n < 256 then Some([n]) else None
  }

  function U16(n: int): Option<Bytes> {
    if 0 <= n < 65_536 then Some([n % 256, n / 256]) else None
  }

  function U32(n: int): Option<Bytes> {
    if 0 <= n < 0x1_0000_0000 then Some([n % 256, n / 256 % 256, n / 65_536 % 256, n / 0x100_0000]) else None
  }

  function Get16(b: Bytes, at: nat): nat
    requires at + 2 <= |b|
  {
    b[at] as int + 256 * b[at + 1] as int
  }

  function Get32(b: Bytes, at: nat): nat
    requires at + 4 <= |b|
  {
    b[at] as int + 256 * b[at + 1] as int + 65_536 * b[at + 2] as int + 0x100_0000 * b[at + 3] as int
  }

  // ---- Writing ----

  function Sizes(images: seq<Image>): nat {
    if images == [] then 0 else Sizes(images[..|images| - 1]) + |images[|images| - 1].png|
  }

  function OffsetOf(images: seq<Image>, i: nat): nat
    requires i <= |images|
  {
    6 + 16 * |images| + Sizes(images[..i])
  }

  function Pngs(images: seq<Image>): (b: Bytes)
    ensures |b| == Sizes(images)
  {
    if images == [] then [] else Pngs(images[..|images| - 1]) + images[|images| - 1].png
  }

  predicate EntryFits(image: Image, offset: nat) {
    0 <= image.size && |image.png| < 0x1_0000_0000 && offset < 0x1_0000_0000
  }

  // The side twice, no palette, one plane, 32 bits, the length and the place.
  predicate IsEntry(e: Bytes, image: Image, offset: nat) {
    && |e| == 16
    && e[0] == e[1] == (if image.size >= 256 then 0 else image.size)
    && e[2] == e[3] == 0 && e[4] == 1 && e[5] == 0 && e[6] == 32 && e[7] == 0
    && Get32(e, 8) == |image.png| && Get32(e, 12) == offset
  }

  // `struct.pack("<BBBBHHII", ...)`
  method Entry(image: Image, offset: nat) returns (r: Option<Bytes>)
    ensures r.Some? <==> EntryFits(image, offset)
    ensures r.Some? ==> IsEntry(r.value, image, offset)
  {
    var side := if image.size >= 256 then 0 else image.size;
    var s, length, place := U8(side), U32(|image.png|), U32(offset);
    if s.None? || length.None? || place.None? {
      return None;
    }
    r := Some(s.value + s.value + [0, 0, 1, 0, 32, 0] + length.value + place.value);
    Fielded(s.value, length.value, place.value);
    LittleEndian(|image.png|);
    LittleEndian(offset);
  }

  lemma Fielded(s: Bytes, length: Bytes, place: Bytes)
    requires |s| == 1 && |length| == 4 && |place| == 4
    ensures var b := s + s + [0, 0, 1, 0, 32, 0] + length + place;
            && |b| == 16 && b[0] == b[1] == s[0]
            && b[2] == b[3] == 0 && b[4] == 1 && b[5] == 0 && b[6] == 32 && b[7] == 0
            && Get32(b, 8) == Get32(length, 0) && Get32(b, 12) == Get32(place, 0)
  {
  }

  lemma LittleEndian(n: nat)
    requires n < 0x1_0000_0000
    ensures U32(n).Some? && Get32(U32(n).value, 0) == n
  {
    var a, b, c := n / 256, n / 65_536, n / 0x100_0000;
    assert n == 256 * a + n % 256 && a == 256 * b + a % 256 && b == 256 * c + b % 256;
  }

  function Slot(b: Bytes, at: nat, i: nat): Bytes
    requires at + 16 * i + 16 <= |b|
  {
    b[at + 16 * i..at + 16 * i + 16]
  }

  // The directory of the first `k` images, from `at` on.
  predicate IsDirectory(b: Bytes, at: nat, images: seq<Image>, k: nat) {
    && k <= |images| && at + 16 * k <= |b|
    && forall i | 0 <= i < k :: IsEntry(Slot(b, at, i), images[i], OffsetOf(images, i))
  }

  predicate Fits(images: seq<Image>, k: nat) {
    && k <= |images|
    && forall i | 0 <= i < k :: EntryFits(images[i], OffsetOf(images, i))
  }

  predicate IsIcon(b: Bytes, images: seq<Image>) {
    && |b| == OffsetOf(images, |images|)
    && b[..4] == [0, 0, 1, 0] && Get16(b, 4) == |images|
    && IsDirectory(b, 6, images, |images|)
    && b[6 + 16 * |images|..] == Pngs(images)
  }

  lemma OneEntryMore(entries: Bytes, e: Bytes, images: seq<Image>, k: nat)
    requires k < |images| && |entries| == 16 * k && IsDirectory(entries, 0, images, k)
    requires |e| == 16 && IsEntry(e, images[k], OffsetOf(images, k))
    ensures IsDirectory(entries + e, 0, images, k + 1)
  {
    hide IsEntry, OffsetOf;
    forall i | 0 <= i < k + 1 ensures IsEntry(Slot(entries + e, 0, i), images[i], OffsetOf(images, i)) {
      if i < k {
        assert Slot(entries + e, 0, i) == Slot(entries, 0, i);
      } else {
        assert Slot(entries + e, 0, k) == e;
      }
    }
  }

  // `ico`
  method Ico(images: seq<Image>) returns (r: Option<Bytes>)
    ensures r.Some? <==> |images| < 65_536 && Fits(images, |images|)
    ensures r.Some? ==> IsIcon(r.value, images)
  {
    hide IsEntry, IsDirectory, Get16, Get32, EntryFits, IsIcon;
    var count := U16(|images|);
    if count.None? {
      return None;
    }
    var offset := 6 + 16 * |images|;
    var entries: Bytes, data: Bytes := [], [];
    NoEntries(images);
    for k := 0 to |images|
      invariant offset == OffsetOf(images, k)
      invariant |entries| == 16 * k && IsDirectory(entries, 0, images, k)
      invariant data == Pngs(images[..k])
      invariant Fits(images, k)
    {
      assert images[..k + 1][..k] == images[..k];
      var entry := Entry(images[k], offset);
      if entry.None? {
        return None;
      }
      EntryLength(entry.value, images[k], offset);
      OneEntryMore(entries, entry.value, images, k);
      entries := entries + entry.value;
      offset := offset + |images[k].png|;
      data := data + images[k].png;
    }
    assert images[..|images|] == images;
    Assembled(count.value, entries, data, images);
    return Some([0, 0, 1, 0] + count.value + entries + data);
  }

  lemma EntryLength(e: Bytes, image: Image, offset: nat)
    requires IsEntry(e, image, offset)
    ensures |e| == 16
  {
  }

  lemma NoEntries(images: seq<Image>)
    ensures IsDirectory([], 0, images, 0)
  {
  }

  // A directory stays one wherever it is put.
  lemma DirectoryMoves(front: Bytes, entries: Bytes, data: Bytes, images: seq<Image>)
    requires |entries| == 16 * |images| && IsDirectory(entries, 0, images, |images|)
    ensures IsDirectory(front + entries + data, |front|, images, |images|)
  {
    hide IsEntry, OffsetOf;
    forall i | 0 <= i < |images|
      ensures IsEntry(Slot(front + entries + data, |front|, i), images[i], OffsetOf(images, i))
    {
      Inside(front, entries, data, 16 * i, 16 * i + 16);
      assert Slot(front + entries + data, |front|, i) == Slot(entries, 0, i);
    }
  }

  lemma Inside(a: Bytes, b: Bytes, c: Bytes, i: nat, j: nat)
    requires i <= j <= |b|
    ensures (a + b + c)[|a| + i..|a| + j] == b[i..j]
  {
    var x := (a + b + c)[|a| + i..|a| + j];
    assert |x| == |b[i..j]|;
    forall k | 0 <= k < |x| ensures x[k] == b[i..j][k] {
    }
  }

  lemma Header(count: Bytes, images: seq<Image>, rest: Bytes)
    requires U16(|images|) == Some(count)
    ensures var b := [0, 0, 1, 0] + count + rest;
            |[0, 0, 1, 0] + count| == 6 && b[..4] == [0, 0, 1, 0] && Get16(b, 4) == |images|
  {
  }

  lemma Assembled(count: Bytes, entries: Bytes, data: Bytes, images: seq<Image>)
    requires U16(|images|) == Some(count) && data == Pngs(images)
    requires |entries| == 16 * |images| && IsDirectory(entries, 0, images, |images|)
    ensures IsIcon([0, 0, 1, 0] + count + entries + data, images)
  {
    hide IsDirectory, Pngs, Get16;
    var front := [0, 0, 1, 0] + count;
    Header(count, images, entries + data);
    DirectoryMoves(front, entries, data, images);
    assert front + entries + data == front + (entries + data);
    assert images[..|images|] == images;
    assert (front + entries + data)[6 + 16 * |images|..] == data;
  }

  // ---- Reading ----

  // One image as the directory at the front of `b` describes it: 0 stands for 256.
  function ReadImage(b: Bytes, i: nat): Option<Image>
    requires 6 + 16 * i + 16 <= |b|
  {
    var e := Slot(b, 6, i);
    var length, offset := Get32(e, 8), Get32(e, 12);
    if offset + length <= |b| then Some(Image(if e[0] == 0 then 256 else e[0], b[offset..offset + length])) else None
  }

  function ReadFirst(b: Bytes, k: nat): Option<seq<Image>>
    requires 6 + 16 * k <= |b|
  {
    if k == 0 then Some([])
    else
      var front, last := ReadFirst(b, k - 1), ReadImage(b, k - 1);
      if front.Some? && last.Some? then Some(front.value + [last.value]) else None
  }

  function Read(b: Bytes): Option<seq<Image>> {
    if |b| < 6 || b[..4] != [0, 0, 1, 0] || |b| < 6 + 16 * Get16(b, 4) then None
    else ReadFirst(b, Get16(b, 4))
  }

  // An entry has one byte for a side: 0 there stands for 256.
  function Seen(image: Image): Image {
    image.(size := if 1 <= image.size < 256 then image.size else 256)
  }

  // The images so far are where the file of all of them begins.
  lemma {:induction false} PngsBegin(images: seq<Image>, k: nat)
    requires k <= |images|
    ensures Sizes(images[..k]) <= Sizes(images) && Pngs(images)[..Sizes(images[..k])] == Pngs(images[..k])
    decreases |images|
  {
    if k == |images| {
      assert images[..k] == images;
    } else {
      var n := |images| - 1;
      PngsBegin(images[..n], k);
      assert images[..n][..k] == images[..k];
      assert Pngs(images) == Pngs(images[..n]) + images[n].png;
    }
  }

  lemma SizesStep(images: seq<Image>, i: nat)
    requires i < |images|
    ensures Sizes(images[..i + 1]) == Sizes(images[..i]) + |images[i].png|
    ensures Pngs(images[..i + 1]) == Pngs(images[..i]) + images[i].png
  {
    assert images[..i + 1][..i] == images[..i];
  }

  lemma PngIsThere(images: seq<Image>, i: nat)
    requires i < |images|
    ensures Sizes(images[..i]) + |images[i].png| <= Sizes(images)
    ensures Pngs(images)[Sizes(images[..i])..Sizes(images[..i]) + |images[i].png|] == images[i].png
  {
    hide Pngs, Sizes;
    SizesStep(images, i);
    PngsBegin(images, i + 1);
    var from, to := Sizes(images[..i]), Sizes(images[..i + 1]);
    assert Pngs(images)[from..to] == Pngs(images)[..to][from..];
  }

  // The entries lie end to end, from the end of the directory to the end of the file.
  lemma EntriesTileTheFile(b: Bytes, images: seq<Image>)
    requires IsIcon(b, images)
    ensures OffsetOf(images, 0) == 6 + 16 * |images| && OffsetOf(images, |images|) == |b|
    ensures forall i | 0 <= i < |images| :: OffsetOf(images, i) + |images[i].png| == OffsetOf(images, i + 1)
  {
    forall i | 0 <= i < |images| ensures OffsetOf(images, i) + |images[i].png| == OffsetOf(images, i + 1) {
      SizesStep(images, i);
    }
  }

  lemma ImageReads(b: Bytes, images: seq<Image>, i: nat)
    requires IsIcon(b, images) && i < |images|
    ensures 6 + 16 * i + 16 <= |b| && ReadImage(b, i) == Some(Seen(images[i])) && images[i].size >= 0
  {
    hide Get16, Get32, Pngs, Sizes;
    assert images[..|images|] == images;
    assert IsEntry(Slot(b, 6, i), images[i], OffsetOf(images, i));
    PngIsThere(images, i);
    var from, front := Sizes(images[..i]), 6 + 16 * |images|;
    assert b[front + from..front + from + |images[i].png|] == b[front..][from..from + |images[i].png|];
  }

  lemma {:induction false} FirstImagesRead(b: Bytes, images: seq<Image>, k: nat)
    requires IsIcon(b, images) && k <= |images|
    ensures 6 + 16 * k <= |b| && ReadFirst(b, k).Some? && |ReadFirst(b, k).value| == k
    ensures forall i | 0 <= i < k :: ReadFirst(b, k).value[i] == Seen(images[i]) && images[i].size >= 0
  {
    hide IsIcon, ReadImage;
    if k > 0 {
      FirstImagesRead(b, images, k - 1);
      ImageReads(b, images, k - 1);
    } else {
      LongEnough(b, images);
    }
  }

  lemma LongEnough(b: Bytes, images: seq<Image>)
    requires IsIcon(b, images)
    ensures |b| >= 6 + 16 * |images| && Read(b) == ReadFirst(b, |images|)
  {
  }

  // A reader gets back every image and every size an entry can say: what was written,
  // exactly when every side is from 1 to 256.
  lemma IconReads(b: Bytes, images: seq<Image>)
    requires IsIcon(b, images)
    ensures Read(b).Some? && |Read(b).value| == |images|
    ensures forall i | 0 <= i < |images| :: Read(b).value[i] == Seen(images[i])
    ensures Read(b) == Some(images) <==> forall image | image in images :: 1 <= image.size <= 256
  {
    hide IsIcon, ReadFirst;
    LongEnough(b, images);
    FirstImagesRead(b, images, |images|);
    var read := Read(b).value;
    if forall image | image in images :: 1 <= image.size <= 256 {
      forall i | 0 <= i < |images| ensures read[i] == images[i] {
        assert images[i] in images;
      }
      assert read == images;
    }
    if read == images {
      forall image | image in images ensures 1 <= image.size <= 256 {
        var i :| 0 <= i < |images| && images[i] == image;
        assert read[i] == Seen(images[i]);
      }
    }
  }

  // The smallest icon, byte for byte.
  lemma SmallestIcon(b: Bytes)
    requires IsIcon(b, [Image(16, [7])])
    ensures b == [0, 0, 1, 0, 1, 0, 16, 16, 0, 0, 1, 0, 32, 0, 1, 0, 0, 0, 22, 0, 0, 0, 7]
  {
    var images := [Image(16, [7])];
    assert images[..0] == [] && images[..1] == images;
    assert Sizes(images) == 1 && Pngs(images) == [7];
    var e := Slot(b, 6, 0);
    assert IsEntry(e, images[0], OffsetOf(images, 0));
    assert b == b[..4] + b[4..6] + e + b[22..];
  }
}
