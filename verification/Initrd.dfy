/**
 * The initial ram disk: the build tool's printer and the kernel's parser of
 * the cpio "newc" layout (with name padding computed on the name's size alone),
 * and the proof that one undoes the other.
 */
module Initrd {
  import opened Wrappers
  import opened Octets
  import opened Utf8

  // ---------- numbers ----------

  function Align4(n: nat): nat {
    (n + 3) / 4 * 4
  }

  function HexDigit(d: nat): Byte
    requires d < 16
  {
    if d < 10 then 48 + d else 87 + d
  }

  // n lower-case hex digits, most significant first.
  function Hex(v: nat, n: nat): (s: seq<Byte>)
    ensures |s| == n
    decreases n, v
  {
    if n == 0 then [] else Hex(v / 16, n - 1) + [HexDigit(v % 16)]
  }

  function Hex8(v: nat): (s: seq<Byte>)
    ensures |s| == 8
  {
    Hex(v % 0x1_0000_0000, 8)
  }

  predicate IsHex(b: Byte) {
    48 <= b <= 57 || 97 <= b <= 102
  }

  function DigitValue(b: Byte): nat
    requires IsHex(b)
  {
    if b <= 57 then Num(b) - 48 else Num(b) - 87
  }

  function HexValue(s: seq<Byte>): nat
    requires forall i :: 0 <= i < |s| ==> IsHex(s[i])
  {
    if s == [] then 0 else 16 * HexValue(s[..|s| - 1]) + DigitValue(s[|s| - 1])
  }

  function ParseHex8(data: seq<Byte>, o: nat): Option<nat> {
    if o + 8 > |data| then None
    else if forall i :: o <= i < o + 8 ==> IsHex(data[i]) then Some(HexValue(data[o..o + 8]))
    else None
  }

  function Pow16(n: nat): nat {
    if n == 0 then 1 else 16 * Pow16(n - 1)
  }

  lemma {:induction false} HexRoundTrip(v: nat, n: nat)
    requires v < Pow16(n)
    ensures forall i :: 0 <= i < n ==> IsHex(Hex(v, n)[i])
    ensures HexValue(Hex(v, n)) == v
    decreases n
  {
    if n > 0 {
      assert v / 16 < Pow16(n - 1);
      HexRoundTrip(v / 16, n - 1);
      assert Hex(v, n)[..n - 1] == Hex(v / 16, n - 1);
    }
  }

  lemma Hex8RoundTrip(v: nat, data: seq<Byte>, o: nat)
    requires v < 0x1_0000_0000 && o + 8 <= |data| && data[o..o + 8] == Hex8(v)
    ensures ParseHex8(data, o) == Some(v)
  {
    hide IsHex;
    Hex8Value(v);
    assert forall i :: o <= i < o + 8 ==> data[i] == data[o..o + 8][i - o];
  }

  // Eight digits carry a number modulo 2^32.
  lemma Hex8Value(v: nat)
    ensures forall i :: 0 <= i < 8 ==> IsHex(Hex8(v)[i])
    ensures HexValue(Hex8(v)) == v % 0x1_0000_0000
  {
    hide IsHex;
    EightDigits();
    HexRoundTrip(v % 0x1_0000_0000, 8);
  }

  lemma EightDigits()
    ensures Pow16(8) == 0x1_0000_0000
  {
    assert Pow16(4) == 0x1_0000;
  }

  // ---------- the printer ----------

  datatype Item = Item(name: seq<Byte>, data: seq<Byte>, isDir: bool)

  const MAGIC: seq<Byte> := [0x30, 0x37, 0x30, 0x37, 0x30, 0x31]
  const MAGIC_CRC: seq<Byte> := [0x30, 0x37, 0x30, 0x37, 0x30, 0x32]

  // The name of the last entry, "TRAILER!!!".
  function EndMark(): (s: seq<Byte>)
    ensures |s| == 10 && forall i :: 0 <= i < |s| ==> s[i] < 0x80
  {
    [0x54, 0x52, 0x41, 0x49, 0x4C, 0x45, 0x52, 0x21, 0x21, 0x21]
  }

  function Zeros(n: nat): (s: seq<Byte>)
    ensures |s| == n
  {
    seq(n, _ => 0)
  }

  // Magic, inode, mode, owner, group, links and time.
  function HeaderFront(mode: nat): (s: seq<Byte>)
    ensures |s| == 54 && s[..6] == MAGIC
  {
    MAGIC + (Hex8(0) + Hex8(mode) + Hex8(0) + Hex8(0) + Hex8(1) + Hex8(0))
  }

  function HeaderMiddle(): (s: seq<Byte>)
    ensures |s| == 32
  {
    Hex8(0) + Hex8(0) + Hex8(0) + Hex8(0)
  }

  function Header(mode: nat, namesize: nat, filesize: nat): (s: seq<Byte>)
    ensures |s| == 110
  {
    HeaderFront(mode) + Hex8(filesize) + HeaderMiddle() + Hex8(namesize) + Hex8(0)
  }

  // One archive entry: header, name with its NUL, data, the last two padded to 4.
  function Entry(name: seq<Byte>, data: seq<Byte>, mode: nat): (s: seq<Byte>)
    ensures |s| == 110 + Align4(|name| + 1) + Align4(|data|)
  {
    Header(mode, |name| + 1, |data|)
      + (name + Zeros(Align4(|name| + 1) - |name|))
      + (data + Zeros(Align4(|data|) - |data|))
  }

  function BuildEntry(item: Item): seq<Byte> {
    if item.isDir then Entry(item.name, [], 0x41ED) else Entry(item.name, item.data, 0x81A4)
  }

  function BuildTrailer(): seq<Byte> {
    Entry(EndMark(), [], 0)
  }

  function Archive(items: seq<Item>): seq<Byte> {
    if items == [] then BuildTrailer() else BuildEntry(items[0]) + Archive(items[1..])
  }

  // ---------- the parser ----------

  predicate HasDotDot(s: seq<Byte>) {
    exists i :: 0 <= i < |s| - 1 && s[i] == 0x2E && s[i + 1] == 0x2E
  }

  datatype Head = Head(namesize: nat, filesize: nat, next: nat)

  function ParseHeader(data: seq<Byte>, o: nat): Option<Head> {
    if o + 110 > |data| || (data[o..o + 6] != MAGIC && data[o..o + 6] != MAGIC_CRC) then None
    else
      var name, file := ParseHex8(data, o + 94), ParseHex8(data, o + 54);
      if name.None? || file.None? || name.value == 0 || name.value > 4096 then None
      else
        var start := o + 110 + Align4(name.value);
        if o + 110 + name.value > |data| || start + file.value > |data| || data[o + 110 + name.value - 1] != 0 then None
        else Some(Head(name.value, file.value, start + Align4(file.value)))
  }

  // What the parser asks of the file system.
  datatype Event = MakeDir(name: seq<Byte>) | WriteFile(name: seq<Byte>, data: seq<Byte>)

  function Deliver(name: seq<Byte>, data: seq<Byte>): seq<Event> {
    if name != [] && name[|name| - 1] == 0x2F then
      (if |name| > 1 then [MakeDir(name[..|name| - 1])] else [])
    else [WriteFile(name, data)]
  }

  // One turn of the parser's loop.
  datatype Turn = Stop | Skip(next: nat) | Take(events: seq<Event>, next: nat)

  function TurnAt(data: seq<Byte>, o: nat): (t: Turn)
    ensures !t.Stop? ==> o < t.next && o + 110 <= |data|
  {
    if o + 110 > |data| then Stop
    else if data[o..o + 6] == Zeros(6) then Skip(o + 1)
    else match ParseHeader(data, o)
      case None => Stop
      case Some(h) =>
        HeadBounds(data, o);
        var name := data[o + 110..o + 110 + h.namesize - 1];
        if !ValidUtf8(name) then Skip(h.next)
        else if name == EndMark() then Stop
        else if HasDotDot(name) then Skip(h.next)
        else
          var start := o + 110 + Align4(h.namesize);
          Take(Deliver(name, data[start..start + h.filesize]), h.next)
  }

  // The events from offset o on.
  function Load(data: seq<Byte>, o: nat): seq<Event>
    decreases |data| - o
  {
    match TurnAt(data, o)
    case Stop => []
    case Skip(next) => Load(data, next)
    case Take(events, next) => events + Load(data, next)
  }

  // The loop: stays inside the archive on any bytes, and ends.
  method LoadInitrd(data: seq<Byte>) returns (events: seq<Event>)
    ensures events == Load(data, 0)
  {
    hide ParseHeader, HasDotDot, Deliver, ValidUtf8, EndMark, Zeros, Align4;
    events := [];
    var o := 0;
    while true
      invariant events + Load(data, o) == Load(data, 0)
      decreases |data| - o
    {
      if o + 110 > |data| {
        assert TurnAt(data, o) == Stop;
        break;
      }
      if data[o..o + 6] == Zeros(6) {
        assert TurnAt(data, o) == Skip(o + 1);
        o := o + 1;
        continue;
      }
      var head := ParseHeader(data, o);
      if head.None? {
        assert TurnAt(data, o) == Stop;
        break;
      }
      HeadBounds(data, o);
      var h := head.value;
      var name := data[o + 110..o + 110 + h.namesize - 1];
      if !ValidUtf8(name) {
        assert TurnAt(data, o) == Skip(h.next);
        o := h.next;
        continue;
      }
      if name == EndMark() {
        assert TurnAt(data, o) == Stop;
        break;
      }
      if HasDotDot(name) {
        assert TurnAt(data, o) == Skip(h.next);
        o := h.next;
        continue;
      }
      var start := o + 110 + Align4(h.namesize);
      var event := Deliver(name, data[start..start + h.filesize]);
      assert TurnAt(data, o) == Take(event, h.next);
      assert events + (event + Load(data, h.next)) == events + event + Load(data, h.next);
      events := events + event;
      o := h.next;
      if o == 0 || o >= |data| {
        break;
      }
    }
    assert events + [] == events;
  }

  lemma HeadBounds(data: seq<Byte>, o: nat)
    requires ParseHeader(data, o).Some?
    ensures var h := ParseHeader(data, o).value;
      && 0 < h.namesize <= 4096 && o + 110 + h.namesize <= |data|
      && o + 110 + Align4(h.namesize) + h.filesize <= |data| && o + 110 < h.next
  {
  }

  // ---------- round trip ----------

  // Names the parser takes: short enough, UTF-8, no "..", not the end mark.
  predicate ValidName(name: seq<Byte>) {
    |name| < 4096 && ValidUtf8(name) && !HasDotDot(name) && name != EndMark()
  }

  // Sizes the header can carry.
  predicate Fits(item: Item) {
    |item.name| < 4096 && |item.data| < 0x1_0000_0000 && (item.isDir ==> item.data == [])
  }

  predicate ValidItem(item: Item) {
    ValidName(item.name) && Fits(item)
  }

  // What arrives of any items whose sizes fit: names that are not UTF-8 or hold ".."
  // are skipped, and an item named like the trailer ends the archive.
  function Received(items: seq<Item>): seq<Event> {
    if items == [] || Ends(items[0]) then [] else Taken(items[0]) + Received(items[1..])
  }

  predicate Ends(item: Item) {
    ValidUtf8(item.name) && item.name == EndMark()
  }

  function Taken(item: Item): seq<Event> {
    if ValidName(item.name) then Deliver(item.name, item.data) else []
  }

  function Delivered(items: seq<Item>): seq<Event> {
    if items == [] then [] else Deliver(items[0].name, items[0].data) + Delivered(items[1..])
  }

  // A slice of the middle part, wherever it stands.
  lemma SliceIn(pre: seq<Byte>, mid: seq<Byte>, rest: seq<Byte>, i: nat, j: nat)
    requires i <= j <= |mid|
    ensures (pre + mid + rest)[|pre| + i..|pre| + j] == mid[i..j]
  {
  }

  lemma HeaderFields(mode: nat, namesize: nat, filesize: nat)
    ensures Header(mode, namesize, filesize)[..6] == MAGIC
    ensures Header(mode, namesize, filesize)[54..62] == Hex8(filesize)
    ensures Header(mode, namesize, filesize)[94..102] == Hex8(namesize)
  {
    hide Hex8;
  }

  lemma EntryFields(name: seq<Byte>, data: seq<Byte>, mode: nat)
    ensures var e := Entry(name, data, mode);
      && e[..110] == Header(mode, |name| + 1, |data|)
      && e[110..110 + |name|] == name && e[110 + |name|] == 0
      && e[110 + Align4(|name| + 1)..110 + Align4(|name| + 1) + |data|] == data
  {
    hide Header;
  }

  lemma EntryHeader(name: seq<Byte>, data: seq<Byte>, mode: nat)
    ensures var e := Entry(name, data, mode);
      e[..6] == MAGIC && e[54..62] == Hex8(|data|) && e[94..102] == Hex8(|name| + 1)
  {
    hide Header, Entry, Hex8;
    var e := Entry(name, data, mode);
    EntryFields(name, data, mode);
    HeaderFields(mode, |name| + 1, |data|);
    assert e[..6] == e[..110][..6] && e[54..62] == e[..110][54..62] && e[94..102] == e[..110][94..102];
  }

  // An entry read back where it was written.
  lemma EntryHead(pre: seq<Byte>, name: seq<Byte>, data: seq<Byte>, mode: nat, rest: seq<Byte>)
    requires |name| < 4096 && |data| < 0x1_0000_0000
    ensures var all := pre + Entry(name, data, mode) + rest; var o := |pre|;
      && o + 110 + |name| < |all| && o + 110 + Align4(|name| + 1) + |data| <= |all| && all[o..o + 6] == MAGIC
      && ParseHeader(all, o) == Some(Head(|name| + 1, |data|, o + |Entry(name, data, mode)|))
      && all[o + 110..o + 110 + |name|] == name
      && all[o + 110 + Align4(|name| + 1)..o + 110 + Align4(|name| + 1) + |data|] == data
  {
    hide Entry, Hex8, ParseHex8, Align4;
    var e := Entry(name, data, mode);
    var all, o := pre + e + rest, |pre|;
    AlignUp(|name| + 1);
    AlignUp(|data|);
    EntryHeader(name, data, mode);
    EntryFields(name, data, mode);
    SliceIn(pre, e, rest, 0, 6);
    SliceIn(pre, e, rest, 54, 62);
    SliceIn(pre, e, rest, 94, 102);
    SliceIn(pre, e, rest, 110, 110 + |name|);
    SliceIn(pre, e, rest, 110 + Align4(|name| + 1), 110 + Align4(|name| + 1) + |data|);
    assert all[o + 110 + |name|] == e[110 + |name|];
    Hex8RoundTrip(|data|, all, o + 54);
    Hex8RoundTrip(|name| + 1, all, o + 94);
  }

  lemma AlignUp(n: nat)
    ensures n <= Align4(n) < n + 4
  {
  }

  // Parsing what the tool printed, wherever it stands.
  lemma {:induction false} LoadArchive(pre: seq<Byte>, items: seq<Item>)
    requires forall i :: 0 <= i < |items| ==> Fits(items[i])
    ensures Load(pre + Archive(items), |pre|) == Received(items)
    decreases |items|
  {
    hide BuildTrailer, BuildEntry, Fits, TurnAt, Taken, Ends;
    if items == [] {
      ArchiveEnd(pre);
    } else {
      var e, rest := BuildEntry(items[0]), Archive(items[1..]);
      LoadArchive(pre + e, items[1..]);
      ArchiveStep(pre, items[0], rest);
      assert pre + Archive(items) == pre + e + rest;
    }
  }

  lemma ArchiveEnd(pre: seq<Byte>)
    ensures Load(pre + BuildTrailer(), |pre|) == []
  {
    hide Entry, EndMark, ParseHeader, Align4, TurnAt;
    EntryHead(pre, EndMark(), [], 0, []);
    assert pre + BuildTrailer() == pre + BuildTrailer() + [];
    LoadTrailer(pre + BuildTrailer(), |pre|);
  }

  lemma ArchiveStep(pre: seq<Byte>, item: Item, rest: seq<Byte>)
    requires Fits(item)
    ensures var all := pre + BuildEntry(item) + rest; var next := |pre + BuildEntry(item)|;
      Load(all, |pre|) == if Ends(item) then [] else Taken(item) + Load(all, next)
  {
    hide Entry, EndMark, ParseHeader, Align4, TurnAt, Ends, Taken;
    var mode := if item.isDir then 0x41ED else 0x81A4;
    var e := Entry(item.name, item.data, mode);
    assert BuildEntry(item) == e;
    EntryHead(pre, item.name, item.data, mode, rest);
    LoadEntry(pre + e + rest, |pre|, item, |pre| + |e|);
  }

  lemma LoadTrailer(all: seq<Byte>, o: nat)
    requires o + 110 <= |all| && all[o..o + 6] == MAGIC
    requires ParseHeader(all, o).Some? && ParseHeader(all, o).value.namesize == 11
    requires o + 121 <= |all| && all[o + 110..o + 120] == EndMark()
    ensures Load(all, o) == []
  {
    hide ParseHeader, ValidUtf8, EndMark;
    NotPadding();
    TrailerIsName();
  }

  lemma NotPadding()
    ensures MAGIC != Zeros(6)
  {
    assert MAGIC[0] != Zeros(6)[0];
  }

  lemma LoadEntry(all: seq<Byte>, o: nat, item: Item, next: nat)
    requires |item.name| < 4096 && o + 110 <= |all| && all[o..o + 6] == MAGIC
    requires ParseHeader(all, o) == Some(Head(|item.name| + 1, |item.data|, next))
    requires o + 110 + Align4(|item.name| + 1) + |item.data| <= |all| && o + 110 + |item.name| <= |all|
    requires all[o + 110..o + 110 + |item.name|] == item.name
    requires all[o + 110 + Align4(|item.name| + 1)..o + 110 + Align4(|item.name| + 1) + |item.data|] == item.data
    ensures Load(all, o) == if Ends(item) then [] else Taken(item) + Load(all, next)
  {
    hide ParseHeader, ValidUtf8, EndMark, HasDotDot, Deliver, Align4;
    NotPadding();
    HeadBounds(all, o);
    if ValidName(item.name) {
      assert TurnAt(all, o) == Take(Deliver(item.name, item.data), next);
    } else if !Ends(item) {
      assert TurnAt(all, o) == Skip(next);
    }
  }

  lemma TrailerIsName()
    ensures ValidUtf8(EndMark())
  {
    hide EndMark;
    Ascii(EndMark(), 0);
  }

  // Everything that arrives, for any items whose sizes fit.
  lemma RoundTripAny(items: seq<Item>)
    requires forall i :: 0 <= i < |items| ==> Fits(items[i])
    ensures Load(Archive(items), 0) == Received(items)
  {
    LoadArchive([], items);
    assert [] + Archive(items) == Archive(items);
  }

  lemma {:induction false} AllReceived(items: seq<Item>)
    requires forall i :: 0 <= i < |items| ==> ValidItem(items[i])
    ensures Received(items) == Delivered(items)
    decreases |items|
  {
    if items != [] {
      assert ValidItem(items[0]);
      AllReceived(items[1..]);
    }
  }

  // Valid items arrive unchanged and in order.
  lemma RoundTrip(items: seq<Item>)
    requires forall i :: 0 <= i < |items| ==> ValidItem(items[i])
    ensures Load(Archive(items), 0) == Delivered(items)
  {
    hide Load, Archive;
    assert forall i :: 0 <= i < |items| ==> ValidItem(items[i]) ==> Fits(items[i]);
    RoundTripAny(items);
    AllReceived(items);
  }

  // ---------- what arrives, item by item ----------

  predicate IsPath(name: seq<Byte>) {
    name != [] && name[|name| - 1] == 0x2F
  }

  lemma {:induction false} DeliveredFiles(items: seq<Item>)
    requires forall i :: 0 <= i < |items| ==> !IsPath(items[i].name)
    ensures |Delivered(items)| == |items|
    ensures forall k :: 0 <= k < |items| ==> Delivered(items)[k] == WriteFile(items[k].name, items[k].data)
    decreases |items|
  {
    if items != [] {
      DeliveredFiles(items[1..]);
      forall k | 0 < k < |items|
        ensures Delivered(items)[k] == WriteFile(items[k].name, items[k].data)
      {
        assert items[1..][k - 1] == items[k];
      }
    }
  }

  // Files arrive one for one, in order, with their names and all their data.
  lemma FilesArrive(items: seq<Item>)
    requires forall i :: 0 <= i < |items| ==> ValidItem(items[i]) && !IsPath(items[i].name)
    ensures |Load(Archive(items), 0)| == |items|
    ensures forall k :: 0 <= k < |items| ==> Load(Archive(items), 0)[k] == WriteFile(items[k].name, items[k].data)
  {
    RoundTrip(items);
    DeliveredFiles(items);
  }

  // A name that ends in a slash makes the directory before it; a slash alone makes nothing.
  lemma DirectoryArrives(item: Item, dir: seq<Byte>)
    requires ValidItem(item) && item.name == dir + [0x2F]
    ensures Load(Archive([item]), 0) == if dir == [] then [] else [MakeDir(dir)]
  {
    RoundTrip([item]);
    assert Delivered([item][1..]) == [];
    assert item.name[..|item.name| - 1] == dir;
  }

  lemma {:induction false} ReceivedJoin(xs: seq<Item>, ys: seq<Item>)
    requires forall i :: 0 <= i < |xs| ==> !Ends(xs[i])
    ensures Received(xs + ys) == Received(xs) + Received(ys)
    decreases |xs|
  {
    hide Ends, Taken;
    if xs == [] {
      assert xs + ys == ys;
    } else {
      ReceivedJoin(xs[1..], ys);
      assert (xs + ys)[1..] == xs[1..] + ys;
    }
  }

  // Archives are read one after the other.
  lemma ArchivesJoin(xs: seq<Item>, ys: seq<Item>)
    requires forall i :: 0 <= i < |xs| ==> Fits(xs[i]) && xs[i].name != EndMark()
    requires forall i :: 0 <= i < |ys| ==> Fits(ys[i])
    ensures Load(Archive(xs + ys), 0) == Load(Archive(xs), 0) + Load(Archive(ys), 0)
  {
    hide Fits, EndMark;
    RoundTripAny(xs);
    RoundTripAny(ys);
    RoundTripAny(xs + ys);
    ReceivedJoin(xs, ys);
  }

  // An item with a name that is not UTF-8, or holds two dots in a row, leaves no trace.
  lemma ItemSkipped(item: Item, pre: seq<Byte>, post: seq<Byte>)
    requires Fits(item) && item.name != EndMark()
    requires !ValidUtf8(item.name) || item.name == pre + [0x2E, 0x2E] + post
    ensures Load(Archive([item]), 0) == []
  {
    RoundTripAny([item]);
    assert Received([item][1..]) == [];
    if ValidUtf8(item.name) {
      assert item.name[|pre|] == 0x2E && item.name[|pre| + 1] == 0x2E;
    }
  }

  // Nothing behind an item named like the trailer is read.
  lemma TrailerEnds(item: Item, items: seq<Item>)
    requires Fits(item) && item.name == EndMark() && forall i :: 0 <= i < |items| ==> Fits(items[i])
    ensures Load(Archive([item] + items), 0) == []
  {
    hide Fits, EndMark, ValidUtf8, TurnAt, BuildEntry;
    TrailerIsName();
    var all := [item] + items;
    assert all[0] == item;
    RoundTripAny(all);
  }

  // ---------- the text of the layout ----------

  // The bytes of a string of ASCII characters.
  ghost predicate Spells(s: seq<Byte>, text: string) {
    |s| == |text| && forall i :: 0 <= i < |s| ==> Num(s[i]) == text[i] as nat
  }

  lemma LayoutText()
    ensures Spells(MAGIC, "070701") && Spells(MAGIC_CRC, "070702") && Spells(EndMark(), "TRAILER!!!")
    ensures forall d: nat :: d < 16 ==> Num(HexDigit(d)) == "0123456789abcdef"[d] as nat
  {
  }

  // Padding to the next multiple of four.
  lemma Aligned(n: nat)
    ensures n <= Align4(n) < n + 4 && Align4(n) % 4 == 0
  {
  }

  // Where an entry has which number: inode, mode, owner, group, links and time come before the file's
  // size; four device numbers stand between it and the size of the name; the checksum is last.
  lemma EntryLayout(name: seq<Byte>, data: seq<Byte>, mode: nat)
    ensures var e := Entry(name, data, mode);
      && Spells(e[..6], "070701") && e[6..14] == Hex8(0) && e[14..22] == Hex8(mode) && e[22..30] == Hex8(0)
      && e[30..38] == Hex8(0) && e[38..46] == Hex8(1) && e[46..54] == Hex8(0) && e[54..62] == Hex8(|data|)
      && e[62..94] == Hex8(0) + Hex8(0) + Hex8(0) + Hex8(0) && e[94..102] == Hex8(|name| + 1)
      && e[102..110] == Hex8(0)
  {
    hide Hex8;
    EntryHeader(name, data, mode);
    EntryFields(name, data, mode);
    LayoutText();
    var e, h := Entry(name, data, mode), Header(mode, |name| + 1, |data|);
    assert forall i, j :: 0 <= i <= j <= 110 ==> e[i..j] == e[..110][i..j];
    FrontLayout(mode);
    assert h[..54] == HeaderFront(mode) && h[62..94] == HeaderMiddle() && h[102..110] == Hex8(0);
    assert forall i, j :: 0 <= i <= j <= 54 ==> h[i..j] == h[..54][i..j];
  }

  lemma FrontLayout(mode: nat)
    ensures var h := HeaderFront(mode);
      && h[..6] == MAGIC && h[6..14] == Hex8(0) && h[14..22] == Hex8(mode) && h[22..30] == Hex8(0)
      && h[30..38] == Hex8(0) && h[38..46] == Hex8(1) && h[46..54] == Hex8(0)
  {
    hide Hex8;
  }

  // A directory is printed with mode 040755 and without data, a file with mode 0100644 and its data.
  lemma ItemLayout(item: Item)
    requires |item.data| < 0x1_0000_0000
    ensures ParseHex8(BuildEntry(item), 14) == Some(if item.isDir then 16877 else 33188)
    ensures ParseHex8(BuildEntry(item), 54) == Some(if item.isDir then 0 else |item.data|)
  {
    hide Hex8, Entry, ParseHex8;
    var data, mode := if item.isDir then [] else item.data, if item.isDir then 0x41ED else 0x81A4;
    EntryLayout(item.name, data, mode);
    Hex8RoundTrip(mode, BuildEntry(item), 14);
    Hex8RoundTrip(|data|, BuildEntry(item), 54);
  }

  // ---------- what is accepted ----------

  ghost predicate AllHex(s: seq<Byte>) {
    forall i :: 0 <= i < |s| ==> IsHex(s[i])
  }

  // Digits that are read print back.
  lemma {:induction false} HexBack(s: seq<Byte>)
    requires AllHex(s)
    ensures HexValue(s) < Pow16(|s|) && Hex(HexValue(s), |s|) == s
    decreases |s|
  {
    if s != [] {
      var n := |s| - 1;
      HexBack(s[..n]);
      LastDigit(s[n], HexValue(s[..n]));
      assert s == s[..n] + [s[n]];
    }
  }

  lemma LastDigit(b: Byte, v: nat)
    requires IsHex(b)
    ensures var w := 16 * v + DigitValue(b); w / 16 == v && w % 16 < 16 && HexDigit(w % 16) == b
  {
  }

  // A field is read as v exactly if the printer prints v so.
  lemma FieldIff(data: seq<Byte>, o: nat, v: nat)
    requires o + 8 <= |data|
    ensures ParseHex8(data, o) == Some(v) <==> v < 0x1_0000_0000 && data[o..o + 8] == Hex8(v)
  {
    hide IsHex, Hex8;
    if v < 0x1_0000_0000 && data[o..o + 8] == Hex8(v) {
      Hex8RoundTrip(v, data, o);
    }
    if ParseHex8(data, o) == Some(v) {
      var s := data[o..o + 8];
      assert AllHex(s);
      HexBack(s);
      EightDigits();
      Hex8Value(v);
      HexBack(Hex8(v));
    }
  }

  // At o stands a header that the printer could have made: any magic of the two, these two numbers in
  // their places, a name that ends in NUL, and name and data inside the archive.
  ghost predicate Printed(data: seq<Byte>, o: nat, namesize: nat, filesize: nat) {
    && 1 <= namesize <= 0x1000 && filesize <= 0xFFFF_FFFF
    && o + 110 + namesize <= |data| && o + 110 + Align4(namesize) + filesize <= |data|
    && (Spells(data[o..o + 6], "070701") || Spells(data[o..o + 6], "070702"))
    && data[o + 54..o + 62] == Hex8(filesize) && data[o + 94..o + 102] == Hex8(namesize)
    && data[o + 110 + namesize - 1] == 0
  }

  lemma SpellsMagic(s: seq<Byte>)
    ensures Spells(s, "070701") <==> s == MAGIC
    ensures Spells(s, "070702") <==> s == MAGIC_CRC
  {
    LayoutText();
    if Spells(s, "070701") {
      assert s == MAGIC;
    }
    if Spells(s, "070702") {
      assert s == MAGIC_CRC;
    }
  }

  // On any bytes the parser accepts exactly the headers the printer could have made.
  lemma HeaderIff(data: seq<Byte>, o: nat, n: nat, f: nat)
    ensures ParseHeader(data, o) == Some(Head(n, f, o + 110 + Align4(n) + Align4(f))) <==> Printed(data, o, n, f)
  {
    hide ParseHex8, Hex8, Align4, Spells;
    if o + 110 <= |data| {
      SpellsMagic(data[o..o + 6]);
      FieldIff(data, o + 94, n);
      FieldIff(data, o + 54, f);
    }
  }

  // Reading stops at a zero byte.  Zeros are passed over one by one while six of them lie
  // ahead, so the last ones before a header are taken for a header.
  lemma {:induction false} ZeroStops(data: seq<Byte>, o: nat)
    requires o < |data| && data[o] == 0
    ensures Load(data, o) == []
    decreases |data| - o
  {
    if o + 110 <= |data| {
      var s := data[o..o + 6];
      assert s[0] == 0 && s != MAGIC && s != MAGIC_CRC;
      if s == Zeros(6) {
        assert data[o + 1] == s[1] == 0;
        ZeroStops(data, o + 1);
      }
    }
  }

  // Padding in front of an archive is skipped only if there is none, or nothing to skip to.
  lemma PaddingSkippedIff(items: seq<Item>, k: nat)
    requires forall i :: 0 <= i < |items| ==> Fits(items[i])
    ensures Load(Zeros(k) + Archive(items), 0) == Load(Archive(items), 0) <==> k == 0 || Received(items) == []
  {
    hide Load, Archive, Received;
    RoundTripAny(items);
    if k == 0 {
      assert Zeros(k) + Archive(items) == Archive(items);
    } else {
      ZeroStops(Zeros(k) + Archive(items), 0);
    }
  }

  lemma PaddingLosesFile()
    ensures var item := Item([0x61], [], false);
      Load(Archive([item]), 0) == [WriteFile([0x61], [])] && Load(Zeros(4) + Archive([item]), 0) == []
  {
    hide Load, Archive;
    var item := Item([0x61], [], false);
    Ascii(item.name, 0);
    assert |item.name| == 1 && item.name != EndMark() && ValidItem(item);
    FilesArrive([item]);
    ZeroStops(Zeros(4) + Archive([item]), 0);
  }
}
