/**
 * Directory entries as they are written: names printed in 8.3 form, the 32
 * bytes of an entry, the 16-bit characters of a long-name slot.  The parser of
 * FatDirs reads back what these printers wrote, for whole directories.
 */
module FatNames {
  import opened Wrappers
  import opened Octets
  import opened FatDisk
  import opened FatDirs

  const DOT: Byte := 0x2E

  // ---------- the 8.3 form ----------

  function Upper(c: Byte): Byte {
    if 97 <= c <= 122 then c - 32 else c
  }

  // The part in upper case, filled up with spaces.
  function Padded(part: seq<Byte>, n: nat): (r: seq<Byte>)
    requires |part| <= n
    ensures |r| == n
  {
    seq(n, i requires 0 <= i < n => if i < |part| then Upper(part[i]) else 0x20)
  }

  // Where the first dot is, or the length.
  function FirstDot(name: seq<Byte>): (k: nat)
    ensures k <= |name| && (k < |name| ==> name[k] == DOT) && DOT !in name[..k]
  {
    if name == [] || name[0] == DOT then 0
    else
      var k := FirstDot(name[1..]);
      assert name[..k + 1] == [name[0]] + name[1..][..k];
      1 + k
  }

  // name_to_83: at most one dot, a stem of 1 to 8 and an extension of at most 3 bytes.
  function NameTo83(name: seq<Byte>): (r: Option<seq<Byte>>)
    ensures r.Some? ==> |r.value| == 11
  {
    var k := FirstDot(name);
    var ext := if k < |name| then name[k + 1..] else [];
    if DOT in ext || k == 0 || k > 8 || |ext| > 3 then None else Some(Padded(name[..k], 8) + Padded(ext, 3))
  }

  // Characters that survive: ASCII, no capitals, no space, NUL or dot.
  predicate Plain(part: seq<Byte>) {
    forall i :: 0 <= i < |part| ==> 0 < part[i] < 0x80 && part[i] != 0x20 && part[i] != DOT && !(65 <= part[i] <= 90)
  }

  function FullName(stem: seq<Byte>, ext: seq<Byte>): seq<Byte> {
    if ext == [] then stem else stem + [DOT] + ext
  }

  lemma {:induction false} DotAfter(stem: seq<Byte>, rest: seq<Byte>)
    requires DOT !in stem && (rest == [] || rest[0] == DOT)
    ensures FirstDot(stem + rest) == |stem|
    decreases |stem|
  {
    if stem == [] {
      assert stem + rest == rest;
    } else {
      DotAfter(stem[1..], rest);
      assert (stem + rest)[1..] == stem[1..] + rest;
    }
  }

  lemma NamePrinted(stem: seq<Byte>, ext: seq<Byte>)
    requires 1 <= |stem| <= 8 && |ext| <= 3 && Plain(stem) && Plain(ext)
    ensures NameTo83(FullName(stem, ext)) == Some(Padded(stem, 8) + Padded(ext, 3))
  {
    hide Padded;
    var rest := if ext == [] then [] else [DOT] + ext;
    var name := FullName(stem, ext);
    assert name == stem + rest;
    DotAfter(stem, rest);
    assert name[..|stem|] == stem;
    if ext != [] {
      assert name[|stem| + 1..] == ext;
    }
  }

  lemma {:induction false} PartBack(buf: seq<Byte>, part: seq<Byte>, lo: nat, n: nat, i: nat)
    requires Plain(part) && i <= |part| <= n && lo + n <= |buf| && buf[lo..lo + n] == Padded(part, n)
    ensures NamePart(buf, lo + i, lo + n) == part[i..]
    decreases n - i
  {
    if i < n {
      assert buf[lo + i] == buf[lo..lo + n][i];
      if i < |part| {
        PartBack(buf, part, lo, n, i + 1);
        assert part[i..] == [part[i]] + part[i + 1..];
      }
    }
  }

  // ---------- the 32 bytes ----------

  // What write_dir_entry_at_offset puts in the slot.
  function EntryBytes(name83: seq<Byte>, attributes: Byte, cluster: nat, size: nat): (r: seq<Byte>)
    requires |name83| == 11
    ensures |r| == 32
  {
    name83 + [attributes, 0, 0, 0, 0, 0, 0, 0, 0, Digit(cluster, 2), Digit(cluster, 3), 0, 0, 0, 0,
              Digit(cluster, 0), Digit(cluster, 1), Digit(size, 0), Digit(size, 1), Digit(size, 2), Digit(size, 3)]
  }

  datatype Written = Written(stem: seq<Byte>, ext: seq<Byte>, attributes: Byte, cluster: nat, size: nat)

  predicate Writable(w: Written) {
    && 1 <= |w.stem| <= 8 && |w.ext| <= 3 && Plain(w.stem) && Plain(w.ext)
    && w.attributes / 8 % 2 == 0 && w.cluster < 0x1_0000_0000 && w.size < 0x1_0000_0000
  }

  function Slot32(w: Written): (r: seq<Byte>)
    requires Writable(w)
    ensures |r| == 32
  {
    NamePrinted(w.stem, w.ext);
    EntryBytes(NameTo83(FullName(w.stem, w.ext)).value, w.attributes, w.cluster, w.size)
  }

  function Meant(w: Written): DirEntry {
    DirEntry(FullName(w.stem, w.ext), w.attributes, w.cluster, w.size)
  }

  lemma NameBack(buf: seq<Byte>, stem: seq<Byte>, ext: seq<Byte>)
    requires |buf| == 32 && 1 <= |stem| <= 8 && |ext| <= 3 && Plain(stem) && Plain(ext)
    requires buf[..11] == Padded(stem, 8) + Padded(ext, 3)
    ensures ShortName(buf) == FullName(stem, ext) && 0 < buf[0] < 0x80
  {
    var front := buf[..11];
    assert buf[0..0 + 8] == front[..8] && front[..8] == Padded(stem, 8);
    assert buf[8..8 + 3] == front[8..] && front[8..] == Padded(ext, 3);
    PartBack(buf, stem, 0, 8, 0);
    PartBack(buf, ext, 8, 3, 0);
    assert buf[0] == Padded(stem, 8)[0];
  }

  // The entry is read back: name, attributes, all 32 bits of first cluster and size.
  lemma EntryRoundTrip(w: Written)
    requires Writable(w)
    ensures ParseEntry(Slot32(w)) == Some(Meant(w)) && Classify(Slot32(w)) == File(Meant(w))
  {
    hide Padded, ShortName, Plain, NameTo83, FullName;
    NamePrinted(w.stem, w.ext);
    var buf := Slot32(w);
    assert buf[..11] == NameTo83(FullName(w.stem, w.ext)).value;
    NameBack(buf, w.stem, w.ext);
    SizeBytes(w.cluster);
    SizeBytes(w.size);
    NumbersBack(buf, w.cluster, w.size);
  }

  lemma NumbersBack(buf: seq<Byte>, cluster: nat, size: nat)
    requires |buf| == 32 && cluster < 0x1_0000_0000 && size < 0x1_0000_0000
    requires buf[20] == Digit(cluster, 2) && buf[21] == Digit(cluster, 3)
    requires buf[26] == Digit(cluster, 0) && buf[27] == Digit(cluster, 1)
    requires forall i :: 0 <= i < 4 ==> buf[28 + i] == Digit(size, i)
    ensures 0x1_0000 * Le16(buf, 20) + Le16(buf, 26) == cluster && Le32(buf, 28) == size
  {
    hide Digit;
    SizeBytes(cluster);
    SizeBytes(size);
    assert cluster % 0x1_0000_0000 == cluster && size % 0x1_0000_0000 == size;
    assert buf[28 + 0] == Digit(size, 0) && buf[28 + 1] == Digit(size, 1);
    assert buf[28 + 2] == Digit(size, 2) && buf[28 + 3] == Digit(size, 3);
  }

  // ---------- whole directories ----------

  // The directory holds these entries from its start, and then ends or is over.
  ghost predicate Holds(raw: seq<Byte>, ws: seq<Written>) {
    && (forall i :: 0 <= i < |ws| ==> Writable(ws[i]))
    && 32 * |ws| <= |raw| && (forall i :: 0 <= i < |ws| ==> raw[32 * i..32 * i + 32] == Slot32(ws[i]))
    && (32 * |ws| + 32 <= |raw| ==> raw[32 * |ws|] == 0)
  }

  lemma {:induction false} DirectoryFrom(raw: seq<Byte>, ws: seq<Written>, k: nat)
    requires Holds(raw, ws) && k <= |ws|
    ensures |Scan(raw, 32 * k, [])| == |ws| - k
    ensures forall i :: k <= i < |ws| ==> Scan(raw, 32 * k, [])[i - k] == Found(32 * i, Meant(ws[i]))
    decreases |ws| - k
  {
    hide Slot32, Writable, Meant, Classify;
    if k == |ws| {
      NoMore(raw, 32 * k);
    } else {
      OneMore(raw, 32 * k, ws[k]);
      DirectoryFrom(raw, ws, k + 1);
    }
  }

  lemma NoMore(raw: seq<Byte>, i: nat)
    requires i + 32 <= |raw| ==> raw[i] == 0
    ensures Scan(raw, i, []) == []
  {
    if i + 32 <= |raw| {
      assert raw[i..i + 32][0] == 0;
    }
  }

  lemma OneMore(raw: seq<Byte>, i: nat, w: Written)
    requires Writable(w) && i + 32 <= |raw| && raw[i..i + 32] == Slot32(w)
    ensures Scan(raw, i, []) == [Found(i, Meant(w))] + Scan(raw, i + 32, [])
  {
    hide Slot32, Writable, Meant, Classify;
    EntryRoundTrip(w);
    assert Named(Meant(w), []) == Meant(w);
  }

  // Every entry written is found at its place, in order, and nothing else.
  lemma DirectoryRoundTrip(raw: seq<Byte>, ws: seq<Written>)
    requires Holds(raw, ws)
    ensures |Scan(raw, 0, [])| == |ws|
    ensures forall i :: 0 <= i < |ws| ==> Scan(raw, 0, [])[i] == Found(32 * i, Meant(ws[i]))
  {
    hide Holds, Meant;
    DirectoryFrom(raw, ws, 0);
  }

  // So a file is found under the name it was written with.
  lemma LookupWritten(raw: seq<Byte>, ws: seq<Written>, k: nat)
    requires Holds(raw, ws) && k < |ws|
    requires forall i :: 0 <= i < k ==> FullName(ws[i].stem, ws[i].ext) != FullName(ws[k].stem, ws[k].ext)
    ensures Lookup(raw, FullName(ws[k].stem, ws[k].ext)) == Some(Found(32 * k, Meant(ws[k])))
  {
    hide Holds, FullName, Scan;
    DirectoryRoundTrip(raw, ws);
    FirstAt(Scan(raw, 0, []), FullName(ws[k].stem, ws[k].ext), k);
  }

  // ---------- long names ----------

  // A slot with the thirteen 16-bit characters in their three places.
  ghost predicate LongSlot(buf: seq<Byte>, units: seq<nat>) {
    && |buf| == 32 && |units| == 13 && buf[0] != 0 && buf[11] == 0x0F
    && (forall j :: 0 <= j < 5 ==> UnitAt(buf, 1 + 2 * j, units[j]))
    && (forall j :: 0 <= j < 6 ==> UnitAt(buf, 14 + 2 * j, units[5 + j]))
    && (forall j :: 0 <= j < 2 ==> UnitAt(buf, 28 + 2 * j, units[11 + j]))
  }

  // Little-endian, like every number on the disk.
  ghost predicate UnitAt(buf: seq<Byte>, o: nat, u: nat) {
    o + 2 <= |buf| && u < 0x1_0000 && buf[o] == u % 0x100 && buf[o + 1] == u / 0x100
  }

  lemma UnitBack(buf: seq<Byte>, units: seq<nat>, j: nat)
    requires LongSlot(buf, units) && j < 13
    ensures LfnUnit(buf, j) == units[j]
  {
    if j < 5 {
      assert UnitAt(buf, 1 + 2 * j, units[j]);
    } else if j < 11 {
      assert UnitAt(buf, 14 + 2 * (j - 5), units[5 + (j - 5)]);
    } else {
      assert UnitAt(buf, 28 + 2 * (j - 11), units[11 + (j - 11)]);
    }
  }

  // ASCII text up to the terminator.
  lemma {:induction false} TextBack(buf: seq<Byte>, units: seq<nat>, text: seq<nat>, j: nat)
    requires LongSlot(buf, units) && j <= |text| <= 13 && text == units[..|text|]
    requires forall i :: 0 <= i < |text| ==> 0 < text[i] < 0x80
    requires |text| < 13 ==> units[|text|] == 0 || units[|text|] == 0xFFFF
    ensures LfnText(buf, j) == text[j..]
    decreases 13 - j
  {
    hide LfnUnit, UnitAt;
    if j < 13 {
      UnitBack(buf, units, j);
      if j < |text| {
        assert text[j] == units[..|text|][j] == units[j];
        TextBack(buf, units, text, j + 1);
        assert text[j..] == [text[j]] + text[j + 1..];
      }
    }
  }

  lemma SlotIsLong(buf: seq<Byte>, units: seq<nat>)
    requires LongSlot(buf, units)
    ensures Classify(buf) == Long(LfnText(buf, 0))
  {
  }

  // A slot of a long name gives the entry behind it that name.
  lemma LongNamed(raw: seq<Byte>, units: seq<nat>, text: seq<nat>, w: Written)
    requires Writable(w) && 64 <= |raw| && raw[32..64] == Slot32(w) && LongSlot(raw[0..32], units)
    requires 0 < |text| <= 13 && text == units[..|text|] && forall i :: 0 <= i < |text| ==> 0 < text[i] < 0x80
    requires |text| < 13 ==> units[|text|] == 0 || units[|text|] == 0xFFFF
    ensures Scan(raw, 0, []) != [] && Scan(raw, 0, [])[0] == Found(32, Meant(w).(name := text))
  {
    hide Slot32, Writable, Meant, LongSlot, LfnUnit;
    TextBack(raw[0..32], units, text, 0);
    EntryRoundTrip(w);
    assert text[0..] == text && [] + text == text;
    SlotIsLong(raw[0..32], units);
    assert Scan(raw, 0, []) == Scan(raw, 32, text);
  }
}
