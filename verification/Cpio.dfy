// tests/qemu-test.py, archive: the writer of a cpio archive in the "newc" format,
// against an independent reader of that format.

module Cpio {
  import opened Common
  import opened Octets

  const HEADER: nat := 110
  const FIELDS: nat := 13
  const FIELD_LIMIT: nat := 0x1_0000_0000
  /** "070701" */
  const MAGIC: seq<Byte> := [0x30, 0x37, 0x30, 0x37, 0x30, 0x31]

  datatype Entry = Entry(name: seq<Byte>, mode: nat, data: seq<Byte>)

  // ----- the writer -----

  function Digit(n: nat): Byte
    requires n < 16
  {
    ByteOf(if n < 10 then 48 + n else 87 + n)
  }

  /** Lower-case hexadecimal, padded with zeros to at least `width` digits and never cut. */
  function Hex(n: nat, width: nat): seq<Byte>
    decreases width, n
  {
    if width <= 1 && n < 16 then [Digit(n)]
    else Hex(n / 16, if width > 0 then width - 1 else 0) + [Digit(n % 16)]
  }

  function HexFields(fields: seq<nat>): seq<Byte> {
    if fields == [] then [] else Hex(fields[0], 8) + HexFields(fields[1..])
  }

  function FieldsOf(ino: nat, e: Entry): (fields: seq<nat>)
    ensures |fields| == FIELDS
  {
    [ino, e.mode, 0, 0, 1, 0, |e.data|, 0, 0, 0, 0, |e.name| + 1, 0]
  }

  function Zeros(n: nat): (z: seq<Byte>)
    ensures |z| == n
  {
    seq(n, _ => 0)
  }

  /** Python's -n % 4 */
  function Pad(n: int): (p: nat)
    ensures p < 4 && (n + p) % 4 == 0
  {
    -n % 4
  }

  function Padded(s: seq<Byte>): seq<Byte> {
    s + Zeros(Pad(|s|))
  }

  function Named(result: seq<Byte>, ino: nat, e: Entry): seq<Byte> {
    result + (MAGIC + HexFields(FieldsOf(ino, e))) + (e.name + [0])
  }

  /** The archive with one more entry. */
  function Emit(result: seq<Byte>, ino: nat, e: Entry): seq<Byte> {
    Padded(Padded(Named(result, ino, e)) + e.data)
  }

  function ArchiveFrom(result: seq<Byte>, ino: nat, entries: seq<Entry>): seq<Byte>
    decreases |entries|
  {
    if entries == [] then result else ArchiveFrom(Emit(result, ino, entries[0]), ino + 1, entries[1..])
  }

  method Archive(entries: seq<Entry>) returns (result: seq<Byte>)
    ensures result == ArchiveFrom([], 1, entries)
  {
    result := [];
    for i := 0 to |entries|
      invariant ArchiveFrom(result, i + 1, entries[i..]) == ArchiveFrom([], 1, entries)
    {
      var e := entries[i];
      assert entries[i..][0] == e && entries[i..][1..] == entries[i + 1..];
      ghost var before := result;
      var encoded := e.name + [0];
      var fields := [i + 1, e.mode, 0, 0, 1, 0, |e.data|, 0, 0, 0, 0, |encoded|, 0];
      result := result + (MAGIC + HexFields(fields));
      result := result + encoded;
      result := result + Zeros(Pad(|result|));
      result := result + e.data;
      result := result + Zeros(Pad(|result|));
      assert result == Emit(before, i + 1, e);
    }
  }

  // ----- a reader of the format -----

  /** What a reader finds: all thirteen header fields, the name as a C string, and the data. */
  datatype Item = Item(fields: seq<nat>, name: seq<Byte>, data: seq<Byte>)

  function HexValue(b: Byte): Option<nat> {
    var v := ValueOf(b);
    if 48 <= v < 58 then Some(v - 48)
    else if 97 <= v < 103 then Some(v - 87)
    else if 65 <= v < 71 then Some(v - 55)
    else None
  }

  /** The number that a string of hexadecimal digits spells. */
  function Unhex(s: seq<Byte>): Option<nat> {
    if s == [] then Some(0)
    else
      var n, d := Unhex(s[..|s| - 1]), HexValue(s[|s| - 1]);
      if n == None || d == None then None else Some(n.value * 16 + d.value)
  }

  function ReadFields(s: seq<Byte>): Option<seq<nat>>
    decreases |s|
  {
    if s == [] then Some([])
    else if |s| < 8 then None
    else
      var n, rest := Unhex(s[..8]), ReadFields(s[8..]);
      if n == None || rest == None then None else Some([n.value] + rest.value)
  }

  function CString(s: seq<Byte>): seq<Byte> {
    if s == [] || s[0] == 0 then [] else [s[0]] + CString(s[1..])
  }

  function Align(n: nat): (m: nat)
    ensures m % 4 == 0 && n <= m < n + 4
  {
    n + Pad(n)
  }

  datatype Found = Found(item: Item, next: nat)

  /** The entry whose header starts at `at`, and where the next one starts. */
  function ReadEntry(s: seq<Byte>, at: nat): (r: Option<Found>)
    requires at <= |s|
    ensures r.Some? ==> at < r.value.next <= |s|
  {
    if at + HEADER > |s| || s[at..at + 6] != MAGIC then None
    else
      var fields := ReadFields(s[at + 6..at + HEADER]);
      if fields == None || |fields.value| != FIELDS then None
      else ReadBody(s, at, fields.value)
  }

  function ReadBody(s: seq<Byte>, at: nat, fields: seq<nat>): (r: Option<Found>)
    requires at + HEADER <= |s| && |fields| == FIELDS
    ensures r.Some? ==> at < r.value.next <= |s|
  {
    var nameEnd := at + HEADER + fields[11];
    var dataAt := Align(nameEnd);
    var dataEnd := dataAt + fields[6];
    if fields[11] == 0 || Align(dataEnd) > |s| || s[nameEnd - 1] != 0 then None
    else Some(Found(Item(fields, CString(s[at + HEADER..nameEnd]), s[dataAt..dataEnd]), Align(dataEnd)))
  }

  /** All entries from `at` to the end of the archive. */
  function ReadAll(s: seq<Byte>, at: nat): Option<seq<Item>>
    requires at <= |s|
    decreases |s| - at
  {
    if at == |s| then Some([])
    else
      match ReadEntry(s, at)
      case None => None
      case Some(found) =>
        match ReadAll(s, found.next)
        case None => None
        case Some(items) => Some([found.item] + items)
  }

  // ----- hexadecimal round trip -----

  function Pow16(n: nat): (p: nat)
    ensures p > 0
  {
    if n == 0 then 1 else 16 * Pow16(n - 1)
  }

  lemma EightDigits()
    ensures Pow16(8) == FIELD_LIMIT
  {
  }

  lemma DigitValue(n: nat)
    requires n < 16
    ensures HexValue(Digit(n)) == Some(n)
  {
    var code := if n < 10 then 48 + n else 87 + n;
    ValueOfByte(code);
    assert Digit(n) == ByteOf(code);
  }

  lemma DivBelow(n: nat, p: nat)
    requires n < 16 * p
    ensures n / 16 < p && n == n / 16 * 16 + n % 16
  {
  }

  lemma UnhexAppend(s: seq<Byte>, last: Byte, n: nat, d: nat)
    requires Unhex(s) == Some(n) && HexValue(last) == Some(d)
    ensures Unhex(s + [last]) == Some(n * 16 + d)
  {
  }

  lemma OneDigit(n: nat)
    requires n < 16
    ensures Unhex([Digit(n)]) == Some(n)
  {
    DigitValue(n);
    UnhexAppend([], Digit(n), 0, n);
    assert [] + [Digit(n)] == [Digit(n)];
  }

  lemma {:induction false} HexReads(n: nat, width: nat)
    requires width > 0 && n < Pow16(width)
    ensures |Hex(n, width)| == width && Unhex(Hex(n, width)) == Some(n)
    decreases width
  {
    if width > 1 {
      DivBelow(n, Pow16(width - 1));
      HexReads(n / 16, width - 1);
      DigitValue(n % 16);
      UnhexAppend(Hex(n / 16, width - 1), Digit(n % 16), n / 16, n % 16);
    } else {
      assert Pow16(width) == 16 * Pow16(width - 1) == 16;
      OneDigit(n);
    }
  }

  lemma {:induction false} FieldsRead(fields: seq<nat>)
    requires forall i :: 0 <= i < |fields| ==> fields[i] < FIELD_LIMIT
    ensures |HexFields(fields)| == |fields| * 8 && ReadFields(HexFields(fields)) == Some(fields)
    decreases |fields|
  {
    if fields != [] {
      var first, rest := Hex(fields[0], 8), HexFields(fields[1..]);
      EightDigits();
      HexReads(fields[0], 8);
      FieldsRead(fields[1..]);
      assert (first + rest)[..8] == first && (first + rest)[8..] == rest;
      assert [fields[0]] + fields[1..] == fields;
    }
  }

  // ----- alignment -----

  lemma PaddedAligned(s: seq<Byte>)
    ensures |Padded(s)| == Align(|s|) && Padded(s)[..|s|] == s
  {
  }

  /** Where the header and the data of entry `i` start. */
  function HeaderAt(entries: seq<Entry>, i: nat): nat
    requires i <= |entries|
  {
    |ArchiveFrom([], 1, entries[..i])|
  }

  function DataAt(entries: seq<Entry>, i: nat): nat
    requires i < |entries|
  {
    |Padded(Named(ArchiveFrom([], 1, entries[..i]), i + 1, entries[i]))|
  }

  lemma {:induction false} ArchiveAligned(result: seq<Byte>, ino: nat, entries: seq<Entry>)
    requires |result| % 4 == 0
    ensures |ArchiveFrom(result, ino, entries)| % 4 == 0
    decreases |entries|
  {
    if entries != [] {
      PaddedAligned(Padded(Named(result, ino, entries[0])) + entries[0].data);
      ArchiveAligned(Emit(result, ino, entries[0]), ino + 1, entries[1..]);
    }
  }

  lemma {:induction false} ArchiveSplit(result: seq<Byte>, ino: nat, a: seq<Entry>, b: seq<Entry>)
    ensures ArchiveFrom(result, ino, a + b) == ArchiveFrom(ArchiveFrom(result, ino, a), ino + |a|, b)
    decreases |a|
  {
    if a == [] {
      assert a + b == b;
    } else {
      assert (a + b)[1..] == a[1..] + b;
      ArchiveSplit(Emit(result, ino, a[0]), ino + 1, a[1..], b);
    }
  }

  /** The archive only grows: what is there stays where it is. */
  lemma {:induction false} ArchiveGrows(result: seq<Byte>, ino: nat, entries: seq<Entry>)
    ensures IsPrefix(result, ArchiveFrom(result, ino, entries))
    decreases |entries|
  {
    if entries != [] {
      var next := Emit(result, ino, entries[0]);
      EmitGrows(result, ino, entries[0]);
      ArchiveGrows(next, ino + 1, entries[1..]);
      var all := ArchiveFrom(next, ino + 1, entries[1..]);
      assert all[..|result|] == all[..|next|][..|result|];
    }
  }

  lemma EmitGrows(result: seq<Byte>, ino: nat, e: Entry)
    ensures IsPrefix(result, Padded(Named(result, ino, e)))
    ensures IsPrefix(Padded(Named(result, ino, e)) + e.data, Emit(result, ino, e))
    ensures IsPrefix(result, Emit(result, ino, e))
  {
  }

  lemma ArchiveCons(result: seq<Byte>, ino: nat, e: Entry, rest: seq<Entry>)
    ensures ArchiveFrom(result, ino, [e] + rest) == ArchiveFrom(Emit(result, ino, e), ino + 1, rest)
  {
  }

  /** The archive is what precedes an entry, the entry, and what follows. */
  lemma ArchiveAround(entries: seq<Entry>, i: nat)
    requires i < |entries|
    ensures ArchiveFrom([], 1, entries)
         == ArchiveFrom(Emit(ArchiveFrom([], 1, entries[..i]), i + 1, entries[i]), i + 2, entries[i + 1..])
  {
    var first, e, rest := entries[..i], entries[i], entries[i + 1..];
    assert entries == first + ([e] + rest);
    ArchiveSplit([], 1, first, [e] + rest);
    ArchiveCons(ArchiveFrom([], 1, first), 1 + |first|, e, rest);
  }

  /** Every header and every data block starts on a 4-byte boundary, and the data lies where it starts. */
  lemma Alignment(entries: seq<Entry>, i: nat)
    requires i < |entries|
    ensures HeaderAt(entries, i) % 4 == 0 && DataAt(entries, i) % 4 == 0 && |ArchiveFrom([], 1, entries)| % 4 == 0
    ensures DataAt(entries, i) + |entries[i].data| <= |ArchiveFrom([], 1, entries)|
    ensures ArchiveFrom([], 1, entries)[DataAt(entries, i)..DataAt(entries, i) + |entries[i].data|] == entries[i].data
  {
    var before := ArchiveFrom([], 1, entries[..i]);
    ArchiveAligned([], 1, entries[..i]);
    ArchiveAligned([], 1, entries);
    PaddedAligned(Named(before, i + 1, entries[i]));
    ArchiveAround(entries, i);
    var next := Emit(before, i + 1, entries[i]);
    ArchiveGrows(next, i + 2, entries[i + 1..]);
    DataInside(before, i + 1, entries[i], ArchiveFrom([], 1, entries));
  }

  lemma DataInside(before: seq<Byte>, ino: nat, e: Entry, all: seq<Byte>)
    requires IsPrefix(Emit(before, ino, e), all)
    ensures var at := |Padded(Named(before, ino, e))|;
      at + |e.data| <= |all| && all[at..at + |e.data|] == e.data
  {
  }

  lemma SliceOfPrefixes(a: seq<Byte>, b: seq<Byte>, c: seq<Byte>, i: nat, j: nat)
    requires IsPrefix(a, b) && IsPrefix(b, c) && i <= j <= |a|
    ensures c[i..j] == a[i..j] && b[i..j] == a[i..j]
  {
    assert c[i..j] == c[..|b|][i..j];
    assert b[i..j] == b[..|a|][i..j];
  }

  // ----- the round trip -----

  /** Every header field of entry number `ino` fits in eight digits. */
  predicate Fits(ino: nat, e: Entry) {
    ino < FIELD_LIMIT && e.mode < FIELD_LIMIT && |e.data| < FIELD_LIMIT && |e.name| + 1 < FIELD_LIMIT
  }

  ghost predicate AllFit(ino: nat, entries: seq<Entry>) {
    forall i :: 0 <= i < |entries| ==> Fits(ino + i, entries[i])
  }

  function ItemOf(ino: nat, e: Entry): Item {
    Item(FieldsOf(ino, e), CString(e.name), e.data)
  }

  function ItemsFrom(ino: nat, entries: seq<Entry>): (items: seq<Item>)
    ensures |items| == |entries|
    decreases |entries|
  {
    if entries == [] then [] else [ItemOf(ino, entries[0])] + ItemsFrom(ino + 1, entries[1..])
  }

  lemma {:induction false} CStringEnds(s: seq<Byte>)
    ensures CString(s + [0]) == CString(s)
    decreases |s|
  {
    if s != [] {
      assert (s + [0])[1..] == s[1..] + [0];
      CStringEnds(s[1..]);
    }
  }

  lemma HeaderFits(ino: nat, e: Entry)
    requires Fits(ino, e)
    ensures |HexFields(FieldsOf(ino, e))| == HEADER - 6
    ensures ReadFields(HexFields(FieldsOf(ino, e))) == Some(FieldsOf(ino, e))
  {
    var fields := FieldsOf(ino, e);
    FieldsRead(fields);
  }

  /** The pieces of one entry, where a reader that starts at `|result|` looks for them. */
  lemma EntryPieces(result: seq<Byte>, text: seq<Byte>, name: seq<Byte>, data: seq<Byte>, s: seq<Byte>)
    requires |text| == HEADER - 6
    requires IsPrefix(Padded(Padded(result + (MAGIC + text) + (name + [0])) + data), s)
    ensures var at, nameEnd := |result|, |result| + HEADER + |name| + 1;
      && Align(Align(nameEnd) + |data|) <= |s|
      && s[at..at + 6] == MAGIC && s[at + 6..at + HEADER] == text
      && s[at + HEADER..nameEnd] == name + [0] && s[nameEnd - 1] == 0
      && s[Align(nameEnd)..Align(nameEnd) + |data|] == data
      && |Padded(Padded(result + (MAGIC + text) + (name + [0])) + data)| == Align(Align(nameEnd) + |data|)
  {
    var named := result + (MAGIC + text) + (name + [0]);
    var full := Padded(named) + data;
    PaddedAligned(named);
    PaddedAligned(full);
    var at, nameEnd := |result|, |named|;
    SliceOfPrefixes(full, Padded(full), s, |Padded(named)|, |full|);
    SliceOfPrefixes(named, full, full, at, at + 6);
    SliceOfPrefixes(full, Padded(full), s, at, at + 6);
    SliceOfPrefixes(named, full, full, at + 6, at + HEADER);
    SliceOfPrefixes(full, Padded(full), s, at + 6, at + HEADER);
    SliceOfPrefixes(named, full, full, at + HEADER, nameEnd);
    SliceOfPrefixes(full, Padded(full), s, at + HEADER, nameEnd);
    assert s[at + HEADER..nameEnd][|name|] == 0;
  }

  lemma EntryReadBy(result: seq<Byte>, text: seq<Byte>, fields: seq<nat>, name: seq<Byte>, data: seq<Byte>,
                    s: seq<Byte>)
    requires |text| == HEADER - 6 && ReadFields(text) == Some(fields)
    requires |fields| == FIELDS && fields[11] == |name| + 1 && fields[6] == |data|
    requires IsPrefix(Padded(Padded(result + (MAGIC + text) + (name + [0])) + data), s)
    ensures |result| <= |s|
    ensures ReadEntry(s, |result|)
         == Some(Found(Item(fields, CString(name + [0]), data),
                       |Padded(Padded(result + (MAGIC + text) + (name + [0])) + data)|))
  {
    EntryPieces(result, text, name, data, s);
  }

  lemma EntryRead(result: seq<Byte>, ino: nat, e: Entry, s: seq<Byte>)
    requires Fits(ino, e) && IsPrefix(Emit(result, ino, e), s)
    ensures |result| <= |s| && ReadEntry(s, |result|) == Some(Found(ItemOf(ino, e), |Emit(result, ino, e)|))
  {
    HeaderFits(ino, e);
    EntryReadBy(result, HexFields(FieldsOf(ino, e)), FieldsOf(ino, e), e.name, e.data, s);
    CStringEnds(e.name);
  }

  lemma ReadNext(s: seq<Byte>, at: nat, found: Found, items: seq<Item>)
    requires at < found.next <= |s| && ReadEntry(s, at) == Some(found) && ReadAll(s, found.next) == Some(items)
    ensures ReadAll(s, at) == Some([found.item] + items)
  {
  }

  lemma RestFits(ino: nat, entries: seq<Entry>)
    requires entries != [] && AllFit(ino, entries)
    ensures Fits(ino, entries[0]) && AllFit(ino + 1, entries[1..])
  {
  }

  lemma EntryThenRest(result: seq<Byte>, ino: nat, e: Entry, s: seq<Byte>, items: seq<Item>)
    requires Fits(ino, e) && IsPrefix(Emit(result, ino, e), s)
    requires ReadAll(s, |Emit(result, ino, e)|) == Some(items)
    ensures |result| <= |s| && ReadAll(s, |result|) == Some([ItemOf(ino, e)] + items)
  {
    EntryRead(result, ino, e, s);
    ReadNext(s, |result|, Found(ItemOf(ino, e), |Emit(result, ino, e)|), items);
  }

  lemma {:induction false} ArchiveRead(result: seq<Byte>, ino: nat, entries: seq<Entry>)
    requires AllFit(ino, entries)
    ensures |result| <= |ArchiveFrom(result, ino, entries)|
    ensures ReadAll(ArchiveFrom(result, ino, entries), |result|) == Some(ItemsFrom(ino, entries))
    decreases |entries|
  {
    if entries != [] {
      var e, rest := entries[0], entries[1..];
      var next := Emit(result, ino, e);
      RestFits(ino, entries);
      ArchiveGrows(next, ino + 1, rest);
      ArchiveRead(next, ino + 1, rest);
      EntryThenRest(result, ino, e, ArchiveFrom(next, ino + 1, rest), ItemsFrom(ino + 1, rest));
    }
  }

  /** A reader finds every entry, in order, with all its fields, its data, and its name up to the first NUL. */
  lemma ReaderFindsEntries(entries: seq<Entry>)
    requires AllFit(1, entries)
    ensures ReadAll(ArchiveFrom([], 1, entries), 0) == Some(ItemsFrom(1, entries))
  {
    ArchiveRead([], 1, entries);
  }

  lemma {:induction false} CStringWhole(s: seq<Byte>)
    ensures CString(s) == s <==> 0 !in s
    decreases |s|
  {
    if s != [] {
      CStringWhole(s[1..]);
    }
  }

  /** The items of the entries as they were given. */
  function Given(ino: nat, entries: seq<Entry>): seq<Item>
    decreases |entries|
  {
    if entries == [] then []
    else [Item(FieldsOf(ino, entries[0]), entries[0].name, entries[0].data)] + Given(ino + 1, entries[1..])
  }

  lemma {:induction false} GivenIff(ino: nat, entries: seq<Entry>)
    ensures ItemsFrom(ino, entries) == Given(ino, entries) <==> forall e :: e in entries ==> 0 !in e.name
    decreases |entries|
  {
    if entries != [] {
      CStringWhole(entries[0].name);
      GivenIff(ino + 1, entries[1..]);
      var a, b := ItemsFrom(ino, entries), Given(ino, entries);
      assert a[1..] == ItemsFrom(ino + 1, entries[1..]) && b[1..] == Given(ino + 1, entries[1..]);
      assert forall e :: e in entries <==> e == entries[0] || e in entries[1..];
    }
  }

  /** The archive gives back exactly the entries, if and only if no name contains a NUL. */
  lemma RecoversIff(entries: seq<Entry>)
    requires AllFit(1, entries)
    ensures ReadAll(ArchiveFrom([], 1, entries), 0) == Some(Given(1, entries))
       <==> forall e :: e in entries ==> 0 !in e.name
  {
    ReaderFindsEntries(entries);
    GivenIff(1, entries);
  }

  // ----- the layout, byte by byte -----

  /** The number in field `k` of the header that starts at `at`: eight hexadecimal digits behind the magic. */
  function HeaderField(s: seq<Byte>, at: nat, k: nat): Option<nat>
    requires at + 14 + 8 * k <= |s|
  {
    Unhex(s[at + 6 + 8 * k..at + 14 + 8 * k])
  }

  lemma FieldReads(n: nat)
    requires n < FIELD_LIMIT
    ensures |Hex(n, 8)| == 8 && Unhex(Hex(n, 8)) == Some(n)
  {
    EightDigits();
    HexReads(n, 8);
  }

  lemma SliceBehind(a: seq<Byte>, b: seq<Byte>, i: nat, j: nat)
    requires i <= j <= |b|
    ensures (a + b)[|a| + i..|a| + j] == b[i..j] && (a + b)[..|a|] == a
  {
  }

  lemma {:induction false} FieldText(fields: seq<nat>, k: nat)
    requires k < |fields| && forall i :: 0 <= i < |fields| ==> fields[i] < FIELD_LIMIT
    ensures |HexFields(fields)| == 8 * |fields|
    ensures HexFields(fields)[8 * k..8 * k + 8] == Hex(fields[k], 8)
    decreases |fields|
  {
    var first, rest := Hex(fields[0], 8), HexFields(fields[1..]);
    FieldReads(fields[0]);
    assert HexFields(fields) == first + rest;
    if |fields| == 1 {
      assert rest == [];
      SliceBehind(first, rest, 0, 0);
    } else if k == 0 {
      FieldText(fields[1..], 0);
      SliceBehind(first, rest, 0, 0);
    } else {
      FieldText(fields[1..], k - 1);
      SliceBehind(first, rest, 8 * (k - 1), 8 * (k - 1) + 8);
    }
  }

  lemma SliceOfSlice(s: seq<Byte>, a: nat, b: nat, i: nat, j: nat)
    requires a <= b <= |s| && i <= j <= b - a
    ensures s[a..b][i..j] == s[a + i..a + j]
  {
    assert forall k :: 0 <= k < j - i ==> s[a..b][i..j][k] == s[a + i..a + j][k];
  }

  /** The header of entry `i` as the format describes it, and the name behind it. */
  ghost predicate LaidOut(s: seq<Byte>, at: nat, ino: nat, e: Entry) {
    && at + 110 + |e.name| + 1 <= |s|
    && s[at..at + 6] == [0x30, 0x37, 0x30, 0x37, 0x30, 0x31]
    && HeaderField(s, at, 0) == Some(ino)
    && HeaderField(s, at, 1) == Some(e.mode)
    && HeaderField(s, at, 4) == Some(1)
    && HeaderField(s, at, 6) == Some(|e.data|)
    && HeaderField(s, at, 11) == Some(|e.name| + 1)
    && (forall k :: 0 <= k < 13 && k !in {0, 1, 4, 6, 11} ==> HeaderField(s, at, k) == Some(0))
    && s[at + 110..at + 110 + |e.name| + 1] == e.name + [0]
  }

  lemma HeaderFields(s: seq<Byte>, at: nat, fields: seq<nat>)
    requires at + HEADER <= |s| && |fields| == FIELDS && s[at + 6..at + HEADER] == HexFields(fields)
    requires forall i :: 0 <= i < |fields| ==> fields[i] < FIELD_LIMIT
    ensures forall k :: 0 <= k < FIELDS ==> HeaderField(s, at, k) == Some(fields[k])
  {
    forall k | 0 <= k < FIELDS
      ensures HeaderField(s, at, k) == Some(fields[k])
    {
      FieldText(fields, k);
      FieldReads(fields[k]);
      SliceOfSlice(s, at + 6, at + HEADER, 8 * k, 8 * k + 8);
    }
  }

  lemma EntryLaidOut(result: seq<Byte>, ino: nat, e: Entry, s: seq<Byte>)
    requires Fits(ino, e) && IsPrefix(Emit(result, ino, e), s)
    ensures LaidOut(s, |result|, ino, e)
  {
    var fields := FieldsOf(ino, e);
    HeaderFits(ino, e);
    EntryPieces(result, HexFields(fields), e.name, e.data, s);
    HeaderFields(s, |result|, fields);
  }

  /**
   * The header of every entry: magic 070701, the entry's number from 1 up, its mode, one
   * link, the sizes of data and name in their fields, zeros in the others; then the name.
   */
  lemma HeaderLayout(entries: seq<Entry>, i: nat)
    requires AllFit(1, entries) && i < |entries|
    ensures LaidOut(ArchiveFrom([], 1, entries), HeaderAt(entries, i), i + 1, entries[i])
  {
    assert Fits(1 + i, entries[i]);
    ArchiveAround(entries, i);
    LaidOutFrom(ArchiveFrom([], 1, entries[..i]), i + 1, entries[i], entries[i + 1..], ArchiveFrom([], 1, entries));
  }

  lemma LaidOutFrom(before: seq<Byte>, ino: nat, e: Entry, rest: seq<Entry>, all: seq<Byte>)
    requires Fits(ino, e) && all == ArchiveFrom(Emit(before, ino, e), ino + 1, rest)
    ensures LaidOut(all, |before|, ino, e)
  {
    ArchiveGrows(Emit(before, ino, e), ino + 1, rest);
    EntryLaidOut(before, ino, e, all);
  }

  lemma EmitSizes(before: seq<Byte>, ino: nat, e: Entry)
    requires Fits(ino, e)
    ensures |Padded(Named(before, ino, e))| == Align(|before| + 110 + |e.name| + 1)
    ensures |Emit(before, ino, e)| == Align(|Padded(Named(before, ino, e))| + |e.data|)
  {
    HeaderFits(ino, e);
    PaddedAligned(Named(before, ino, e));
    PaddedAligned(Padded(Named(before, ino, e)) + e.data);
  }

  lemma ArchiveSnoc(entries: seq<Entry>, i: nat)
    requires i < |entries|
    ensures ArchiveFrom([], 1, entries[..i + 1]) == Emit(ArchiveFrom([], 1, entries[..i]), i + 1, entries[i])
  {
    assert entries[..i + 1] == entries[..i] + [entries[i]];
    ArchiveSplit([], 1, entries[..i], [entries[i]]);
    assert [entries[i]][1..] == [];
  }

  /** The data follows the name at the next multiple of four, and the next header the data. */
  lemma Places(entries: seq<Entry>, i: nat)
    requires AllFit(1, entries) && i < |entries|
    ensures DataAt(entries, i) == Align(HeaderAt(entries, i) + 110 + |entries[i].name| + 1)
    ensures HeaderAt(entries, 0) == 0
    ensures HeaderAt(entries, i + 1) == Align(DataAt(entries, i) + |entries[i].data|)
  {
    assert Fits(1 + i, entries[i]);
    EmitSizes(ArchiveFrom([], 1, entries[..i]), i + 1, entries[i]);
    ArchiveSnoc(entries, i);
    assert entries[..0] == [];
  }

  lemma PaddingIsZero(s: seq<Byte>, j: nat)
    requires |s| <= j < |Padded(s)|
    ensures Padded(s)[j] == 0
  {
  }

  lemma PrefixAt(a: seq<Byte>, b: seq<Byte>, j: nat)
    requires IsPrefix(a, b) && j < |a|
    ensures b[j] == a[j]
  {
    assert b[..|a|][j] == b[j];
  }

  /** The gaps behind name and data are filled with zeros. */
  lemma GapsAreZero(entries: seq<Entry>, i: nat, j: nat)
    requires AllFit(1, entries) && i < |entries|
    requires var nameEnd, dataEnd := HeaderAt(entries, i) + 111 + |entries[i].name|,
                                     DataAt(entries, i) + |entries[i].data|;
             nameEnd <= j < DataAt(entries, i) || dataEnd <= j < HeaderAt(entries, i + 1)
    ensures j < |ArchiveFrom([], 1, entries)| && ArchiveFrom([], 1, entries)[j] == 0
  {
    assert Fits(1 + i, entries[i]);
    HeaderFits(i + 1, entries[i]);
    ArchiveSnoc(entries, i);
    ArchiveAround(entries, i);
    GapFrom(ArchiveFrom([], 1, entries[..i]), i + 1, entries[i], entries[i + 1..], ArchiveFrom([], 1, entries), j);
  }

  lemma GapFrom(before: seq<Byte>, ino: nat, e: Entry, rest: seq<Entry>, all: seq<Byte>, j: nat)
    requires all == ArchiveFrom(Emit(before, ino, e), ino + 1, rest)
    requires var named := Named(before, ino, e);
             || |named| <= j < |Padded(named)|
             || |Padded(named)| + |e.data| <= j < |Emit(before, ino, e)|
    ensures j < |all| && all[j] == 0
  {
    var named, next := Named(before, ino, e), Emit(before, ino, e);
    ArchiveGrows(next, ino + 1, rest);
    EmitGrows(before, ino, e);
    PrefixAt(next, all, j);
    if j < |Padded(named)| {
      PaddingIsZero(named, j);
      PrefixAt(Padded(named) + e.data, next, j);
    } else {
      PaddingIsZero(Padded(named) + e.data, j);
    }
  }
}
