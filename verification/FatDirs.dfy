/**
 * Directories: 32-byte entries parsed out of the directory's bytes.  Scan is
 * the parse that every directory routine of the driver repeats for itself; the
 * lemmas say what marking an entry deleted and rewriting its size do to it.
 */
module FatDirs {
  import opened Wrappers
  import opened Octets
  import opened FatDisk

  // Names are sequences of character codes.
  type Name = seq<nat>

  datatype DirEntry = DirEntry(name: Name, attributes: nat, firstCluster: nat, size: nat)
  datatype Found = Found(offset: nat, entry: DirEntry)

  const DELETED: Byte := 0xE5
  const LONG_NAME: Byte := 0x0F

  // ---------- one entry ----------

  predicate NameEnds(x: Byte) {
    x == 0x20 || x == 0
  }

  function Lower(x: Byte): nat {
    if 65 <= x <= 90 then Num(x) + 32 else x
  }

  function NamePart(buf: seq<Byte>, lo: nat, hi: nat): Name
    requires lo <= hi <= |buf|
    decreases hi - lo
  {
    if lo == hi || NameEnds(buf[lo]) then [] else [Lower(buf[lo])] + NamePart(buf, lo + 1, hi)
  }

  function ShortName(buf: seq<Byte>): Name
    requires |buf| == 32
  {
    var ext := NamePart(buf, 8, 11);
    if ext == [] then NamePart(buf, 0, 8) else NamePart(buf, 0, 8) + [0x2E] + ext
  }

  function Le16(buf: seq<Byte>, o: nat): nat
    requires o + 2 <= |buf|
  {
    Num(buf[o]) + 0x100 * Num(buf[o + 1])
  }

  function Le32(buf: seq<Byte>, o: nat): nat
    requires o + 4 <= |buf|
  {
    Le16(buf, o) + 0x1_0000 * Le16(buf, o + 2)
  }

  predicate IsVolumeLabel(attributes: Byte) {
    attributes / 8 % 2 == 1
  }

  // FatDirEntry::parse on an entry that is not part of a long name.
  function ParseEntry(buf: seq<Byte>): Option<DirEntry>
    requires |buf| == 32
  {
    if buf[0] == DELETED || buf[0] == 0 || IsVolumeLabel(buf[11]) then None
    else Some(DirEntry(ShortName(buf), buf[11], 0x1_0000 * Le16(buf, 20) + Le16(buf, 26), Le32(buf, 28)))
  }

  // The j-th of the thirteen 16-bit characters of a long-name entry.
  function LfnUnit(buf: seq<Byte>, j: nat): nat
    requires |buf| == 32 && j < 13
  {
    if j < 5 then Le16(buf, 1 + 2 * j)
    else if j < 11 then Le16(buf, 14 + 2 * (j - 5))
    else Le16(buf, 28 + 2 * (j - 11))
  }

  function LfnText(buf: seq<Byte>, j: nat): Name
    requires |buf| == 32 && j <= 13
    decreases 13 - j
  {
    if j == 13 || LfnUnit(buf, j) == 0 || LfnUnit(buf, j) == 0xFFFF then []
    else (if LfnUnit(buf, j) < 128 then [LfnUnit(buf, j)] else []) + LfnText(buf, j + 1)
  }

  function Named(e: DirEntry, lfn: Name): DirEntry {
    if lfn == [] then e else e.(name := lfn)
  }

  // ---------- the scan ----------

  // What the 32 bytes at a slot are.
  datatype Item = End | Long(text: Name) | Gone | File(e: DirEntry)

  function Classify(buf: seq<Byte>): Item
    requires |buf| == 32
  {
    if buf[0] == 0 then End
    else if buf[11] == LONG_NAME then Long(LfnText(buf, 0))
    else match ParseEntry(buf)
      case None => Gone
      case Some(e) => File(e)
  }

  // The entries from offset i on, given the long name collected so far.
  function Scan(raw: seq<Byte>, i: nat, lfn: Name): seq<Found>
    decreases |raw| - i
  {
    if i + 32 > |raw| then []
    else
      match Classify(raw[i..i + 32])
      case End => []
      case Long(text) => Scan(raw, i + 32, lfn + text)
      case Gone => Scan(raw, i + 32, [])
      case File(e) => [Found(i, Named(e, lfn))] + Scan(raw, i + 32, [])
  }

  // The first entry of that name.
  function First(found: seq<Found>, name: Name): Option<Found> {
    if found == [] then None
    else if found[0].entry.name == name then Some(found[0])
    else First(found[1..], name)
  }

  function Lookup(raw: seq<Byte>, name: Name): Option<Found> {
    First(Scan(raw, 0, []), name)
  }

  lemma {:induction false} FirstIs(found: seq<Found>, name: Name)
    ensures First(found, name).Some? ==>
      exists k :: 0 <= k < |found| && found[k] == First(found, name).value && found[k].entry.name == name
        && forall j :: 0 <= j < k ==> found[j].entry.name != name
    ensures First(found, name).None? ==> forall k :: 0 <= k < |found| ==> found[k].entry.name != name
  {
    if found != [] && found[0].entry.name != name {
      FirstIs(found[1..], name);
      if First(found[1..], name).Some? {
        var k :| 0 <= k < |found[1..]| && found[1..][k] == First(found[1..], name).value
            && found[1..][k].entry.name == name
          && forall j :: 0 <= j < k ==> found[1..][j].entry.name != name;
        assert found[k + 1] == found[1..][k];
        forall j | 0 <= j < k + 1
          ensures found[j].entry.name != name
        {
          if j > 0 {
            assert found[j] == found[1..][j - 1];
          }
        }
      } else {
        assert forall k :: 1 <= k < |found| ==> found[k] == found[1..][k - 1];
      }
    }
  }

  // Where found entries lie.
  predicate Slot(raw: seq<Byte>, i: nat, f: Found) {
    && i <= f.offset
    && (f.offset - i) % 32 == 0
    && f.offset + 32 <= |raw|
    && Classify(raw[f.offset..f.offset + 32]).File?
  }

  lemma {:induction false} ScanSlots(raw: seq<Byte>, i: nat, lfn: Name, k: nat)
    requires k < |Scan(raw, i, lfn)|
    ensures Slot(raw, i, Scan(raw, i, lfn)[k])
    ensures k > 0 ==> Scan(raw, i, lfn)[0].offset < Scan(raw, i, lfn)[k].offset
    decreases |raw| - i
  {
    hide Classify;
    match Classify(raw[i..i + 32])
    case Long(text) => ScanSlots(raw, i + 32, lfn + text, k);
    case Gone => ScanSlots(raw, i + 32, [], k);
    case File(e) =>
      if k > 0 {
        ScanSlots(raw, i + 32, [], k - 1);
      }
  }

  // The scan looks only at bytes from i on.
  lemma {:induction false} ScanLocal(raw: seq<Byte>, raw': seq<Byte>, i: nat, lfn: Name)
    requires |raw| == |raw'| && forall x :: i <= x < |raw| ==> raw'[x] == raw[x]
    ensures Scan(raw', i, lfn) == Scan(raw, i, lfn)
    decreases |raw| - i
  {
    hide Classify;
    if i + 32 <= |raw| {
      assert raw'[i..i + 32] == raw[i..i + 32];
      match Classify(raw[i..i + 32])
      case End =>
      case Long(text) => ScanLocal(raw, raw', i + 32, lfn + text);
      case _ => ScanLocal(raw, raw', i + 32, []);
    }
  }

  // ---------- rewriting an entry ----------

  // The two rewrites the driver makes: mark deleted, or set the size field.
  datatype Patch = Delete | Resize(size: nat)

  function Apply(p: Patch, raw: seq<Byte>, o: nat): (raw': seq<Byte>)
    requires o + 32 <= |raw|
    ensures |raw'| == |raw|
    ensures forall x :: 0 <= x < |raw| && (x < o || o + 32 <= x) ==> raw'[x] == raw[x]
  {
    match p
    case Delete => raw[o := DELETED]
    case Resize(size) =>
      raw[o + 28 := Digit(size, 0)][o + 29 := Digit(size, 1)][o + 30 := Digit(size, 2)][o + 31 := Digit(size, 3)]
  }

  function Outcome(p: Patch, f: Found): seq<Found> {
    match p
    case Delete => []
    case Resize(size) => [f.(entry := f.entry.(size := size % 0x1_0000_0000))]
  }

  lemma SizeBytes(size: nat)
    ensures Num(Digit(size, 0)) + 0x100 * Num(Digit(size, 1))
         + 0x1_0000 * (Num(Digit(size, 2)) + 0x100 * Num(Digit(size, 3))) == size % 0x1_0000_0000
  {
    Digits(size);
    Digits(size / 0x100 / 0x100);
    assert Digit(size, 2) == Digit(size / 0x100, 1) == Digit(size / 0x100 / 0x100, 0);
    assert Digit(size, 3) == Digit(size / 0x100, 2) == Digit(size / 0x100 / 0x100, 1);
    var q := size / 0x100 / 0x100;
    HalfWords(size, q, size % 0x100 + 0x100 * (size / 0x100 % 0x100), q / 0x1_0000, q % 0x1_0000);
  }

  lemma HalfWords(size: nat, q: nat, low: nat, h: nat, high: nat)
    requires size == 0x1_0000 * q + low && q == 0x1_0000 * h + high && low < 0x1_0000 && high < 0x1_0000
    ensures size % 0x1_0000 == low && size % 0x1_0000_0000 == low + 0x1_0000 * high
  {
    Low16(size, q, low);
    Low32(size, h, low + 0x1_0000 * high);
  }

  lemma Low32(value: nat, q: nat, r: nat)
    requires value == 0x1_0000_0000 * q + r && r < 0x1_0000_0000
    ensures value % 0x1_0000_0000 == r
  {
  }

  lemma {:induction false} NamePartSame(buf: seq<Byte>, buf': seq<Byte>, lo: nat, hi: nat)
    requires lo <= hi <= |buf| && hi <= |buf'| && forall x :: lo <= x < hi ==> buf'[x] == buf[x]
    ensures NamePart(buf', lo, hi) == NamePart(buf, lo, hi)
    decreases hi - lo
  {
    if lo < hi {
      NamePartSame(buf, buf', lo + 1, hi);
    }
  }

  // One rewritten entry: gone, or the same with the new size.
  function PatchItem(p: Patch, e: DirEntry): Item {
    match p
    case Delete => Gone
    case Resize(size) => File(e.(size := size % 0x1_0000_0000))
  }

  lemma ResizeFields(size: nat, buf: seq<Byte>)
    requires |buf| == 32
    ensures var buf' := Apply(Resize(size), buf, 0);
      && buf'[0] == buf[0] && buf'[11] == buf[11]
      && ShortName(buf') == ShortName(buf) && Le16(buf', 20) == Le16(buf, 20) && Le16(buf', 26) == Le16(buf, 26)
      && Le32(buf', 28) == size % 0x1_0000_0000
  {
    hide NameEnds, Lower;
    var buf' := Apply(Resize(size), buf, 0);
    NamePartSame(buf, buf', 0, 8);
    NamePartSame(buf, buf', 8, 11);
    SizeBytes(size);
  }

  lemma PatchEntry(p: Patch, buf: seq<Byte>)
    requires |buf| == 32 && Classify(buf).File?
    ensures Classify(Apply(p, buf, 0)) == PatchItem(p, Classify(buf).e)
  {
    if p.Resize? {
      hide Apply, ShortName, Le16, Le32, IsVolumeLabel;
      ResizeFields(p.size, buf);
    }
  }

  lemma ApplySlice(p: Patch, raw: seq<Byte>, o: nat)
    requires o + 32 <= |raw|
    ensures Apply(p, raw, o)[o..o + 32] == Apply(p, raw[o..o + 32], 0)
  {
  }

  // Rewriting the k-th entry found changes that entry of the parse and no other.
  lemma {:induction false} ScanPatch(p: Patch, raw: seq<Byte>, i: nat, lfn: Name, k: nat)
    requires k < |Scan(raw, i, lfn)| && Scan(raw, i, lfn)[k].offset + 32 <= |raw|
    ensures var f := Scan(raw, i, lfn);
      Scan(Apply(p, raw, f[k].offset), i, lfn) == f[..k] + Outcome(p, f[k]) + f[k + 1..]
    decreases |raw| - i
  {
    hide Apply, Outcome, Classify;
    var f := Scan(raw, i, lfn);
    var o := f[k].offset;
    var raw' := Apply(p, raw, o);
    ScanSlots(raw, i, lfn, k);
    ScanSlots(raw, i, lfn, 0);
    if o == i {
      PatchFirst(p, raw, i, lfn);
    } else {
      assert raw'[i..i + 32] == raw[i..i + 32];
      match Classify(raw[i..i + 32])
      case Long(text) => ScanPatch(p, raw, i + 32, lfn + text, k);
      case Gone => ScanPatch(p, raw, i + 32, [], k);
      case File(e) =>
        var g := Scan(raw, i + 32, []);
        assert f == [f[0]] + g;
        ScanPatch(p, raw, i + 32, [], k - 1);
        assert f[..k] == [f[0]] + g[..k - 1] && f[k + 1..] == g[k..];
        assert [f[0]] + (g[..k - 1] + Outcome(p, g[k - 1]) + g[k..]) == f[..k] + Outcome(p, f[k]) + f[k + 1..];
    }
  }

  lemma PatchFirst(p: Patch, raw: seq<Byte>, i: nat, lfn: Name)
    requires Scan(raw, i, lfn) != [] && Scan(raw, i, lfn)[0].offset == i && i + 32 <= |raw|
    ensures var f := Scan(raw, i, lfn);
      Scan(Apply(p, raw, i), i, lfn) == f[..0] + Outcome(p, f[0]) + f[1..]
  {
    hide Apply, Classify;
    var f := Scan(raw, i, lfn);
    var raw' := Apply(p, raw, i);
    var buf := raw[i..i + 32];
    ScanSlots(raw, i, lfn, 0);
    ApplySlice(p, raw, i);
    assert f == [Found(i, Named(Classify(buf).e, lfn))] + Scan(raw, i + 32, []);
    PatchEntry(p, buf);
    ScanLocal(raw, raw', i + 32, []);
  }

  // The entry a lookup returns has an index in the parse.
  lemma LookupIndex(raw: seq<Byte>, name: Name) returns (k: nat)
    requires Lookup(raw, name).Some?
    ensures k < |Scan(raw, 0, [])| && Scan(raw, 0, [])[k] == Lookup(raw, name).value
    ensures forall j :: 0 <= j < k ==> Scan(raw, 0, [])[j].entry.name != name
    ensures Slot(raw, 0, Lookup(raw, name).value) && Lookup(raw, name).value.entry.name == name
  {
    var f := Scan(raw, 0, []);
    FirstIs(f, name);
    k :| 0 <= k < |f| && f[k] == First(f, name).value && f[k].entry.name == name
      && forall j :: 0 <= j < k ==> f[j].entry.name != name;
    ScanSlots(raw, 0, [], k);
  }

  // Deleting removes exactly the entry looked up; resizing changes only its size.
  lemma PatchLookup(p: Patch, raw: seq<Byte>, name: Name) returns (k: nat)
    requires Lookup(raw, name).Some?
    ensures var f := Scan(raw, 0, []); var o := Lookup(raw, name).value.offset;
      && k < |f| && f[k] == Lookup(raw, name).value && o + 32 <= |raw|
      && Scan(Apply(p, raw, o), 0, []) == f[..k] + Outcome(p, f[k]) + f[k + 1..]
  {
    k := LookupIndex(raw, name);
    ScanPatch(p, raw, 0, [], k);
  }

  // After a resize the same name leads to the same entry with the new size.
  lemma ResizeLookup(size: nat, raw: seq<Byte>, name: Name)
    requires Lookup(raw, name).Some?
    ensures Lookup(raw, name).value.offset + 32 <= |raw|
    ensures Lookup(Apply(Resize(size), raw, Lookup(raw, name).value.offset), name)
         == Some(Lookup(raw, name).value.(entry := Lookup(raw, name).value.entry.(size := size % 0x1_0000_0000)))
  {
    hide Apply, Scan;
    var k := LookupIndex(raw, name);
    ScanPatch(Resize(size), raw, 0, [], k);
    var f := Scan(raw, 0, []);
    var g := f[..k] + Outcome(Resize(size), f[k]) + f[k + 1..];
    FirstAt(g, name, k);
  }

  lemma {:induction false} FirstAt(found: seq<Found>, name: Name, k: nat)
    requires k < |found| && found[k].entry.name == name
    requires forall j :: 0 <= j < k ==> found[j].entry.name != name
    ensures First(found, name) == Some(found[k])
  {
    if k > 0 {
      FirstAt(found[1..], name, k - 1);
    }
  }

  // ---------- the loops of the parser ----------

  method CollectName(buf: seq<Byte>, lo: nat, hi: nat) returns (name: Name)
    requires lo <= hi <= |buf|
    ensures name == NamePart(buf, lo, hi)
  {
    name := [];
    var i := lo;
    while i < hi && !NameEnds(buf[i])
      invariant lo <= i <= hi
      invariant name + NamePart(buf, i, hi) == NamePart(buf, lo, hi)
    {
      assert name + ([Lower(buf[i])] + NamePart(buf, i + 1, hi)) == name + [Lower(buf[i])] + NamePart(buf, i + 1, hi);
      name := name + [Lower(buf[i])];
      i := i + 1;
    }
    assert name + [] == name;
  }

  method ParseDirEntry(buf: seq<Byte>) returns (r: Option<DirEntry>)
    requires |buf| == 32
    ensures r == ParseEntry(buf)
  {
    if buf[0] == DELETED || buf[0] == 0 || IsVolumeLabel(buf[11]) {
      return None;
    }
    var stem := CollectName(buf, 0, 8);
    var ext := CollectName(buf, 8, 11);
    var name := if ext == [] then stem else stem + [0x2E] + ext;
    return Some(DirEntry(name, buf[11], 0x1_0000 * Le16(buf, 20) + Le16(buf, 26), Le32(buf, 28)));
  }

  method AppendLfn(pending: Name, buf: seq<Byte>) returns (name: Name)
    requires |buf| == 32
    ensures name == pending + LfnText(buf, 0)
  {
    hide LfnUnit;
    name := pending;
    var j := 0;
    while j < 13
      invariant j <= 13
      invariant name + LfnText(buf, j) == pending + LfnText(buf, 0)
    {
      var c := LfnUnit(buf, j);
      if c == 0 || c == 0xFFFF {
        break;
      }
      ghost var more := if c < 128 then [c] else [];
      assert name + (more + LfnText(buf, j + 1)) == name + more + LfnText(buf, j + 1);
      if c < 128 {
        name := name + [c];
      }
      j := j + 1;
    }
    assert name + [] == name;
  }

  function Entries(found: seq<Found>): seq<DirEntry> {
    if found == [] then [] else [found[0].entry] + Entries(found[1..])
  }

  // One step of the scan, slot by slot.
  lemma ScanStep(raw: seq<Byte>, i: nat, lfn: Name)
    requires i + 32 <= |raw|
    ensures var buf := raw[i..i + 32]; var f := Scan(raw, i, lfn);
      if buf[0] == 0 then f == []
      else if buf[11] == LONG_NAME then f == Scan(raw, i + 32, lfn + LfnText(buf, 0))
      else match ParseEntry(buf)
        case None => f == Scan(raw, i + 32, [])
        case Some(e) => f == [Found(i, Named(e, lfn))] + Scan(raw, i + 32, [])
  {
    hide ParseEntry;
  }

  lemma EntriesStep(f: Found, rest: seq<Found>)
    ensures Entries([f] + rest) == [f.entry] + Entries(rest)
  {
    assert ([f] + rest)[1..] == rest;
  }

  // parse_dir_entries: the whole directory.
  method ParseDirEntries(raw: seq<Byte>) returns (entries: seq<DirEntry>)
    ensures entries == Entries(Scan(raw, 0, []))
  {
    hide Classify, ParseEntry;
    entries := [];
    var i := 0;
    var pending: Name := [];
    while i + 32 <= |raw|
      invariant entries + Entries(Scan(raw, i, pending)) == Entries(Scan(raw, 0, []))
    {
      var buf := raw[i..i + 32];
      ScanStep(raw, i, pending);
      if buf[0] == 0 {
        break;
      }
      if buf[11] == LONG_NAME {
        pending := AppendLfn(pending, buf);
        i := i + 32;
        continue;
      }
      var r := ParseDirEntry(buf);
      if r.Some? {
        var e := if pending == [] then r.value else r.value.(name := pending);
        EntriesStep(Found(i, e), Scan(raw, i + 32, []));
        assert entries + ([e] + Entries(Scan(raw, i + 32, []))) == entries + [e] + Entries(Scan(raw, i + 32, []));
        entries := entries + [e];
      }
      pending := [];
      i := i + 32;
    }
    assert entries + [] == entries;
  }
}
