// app/slint-dashboard/patches/0001-gbm-negotiate-scanout-modifiers.patch,
// drmformats.rs: the parser of the kernel's IN_FORMATS blob.

module InFormats {
  import opened Arithmetic
  import opened Common
  import opened Octets

  const HEADER: nat := 24
  const RECORD: nat := 24
  /** No slice is longer than isize::MAX. */
  const MAX_LENGTH: nat := 0x7fff_ffff_ffff_ffff

  // ----- what a blob means -----

  /** One modifier and the window of 64 format indices it is described for. */
  datatype Record = Record(mask: nat, offset: nat, reserved: nat, modifier: nat)

  datatype Table = Table(formats: seq<nat>, records: seq<Record>)

  function Number(blob: seq<Byte>, at: nat, width: nat): nat
    requires at + width <= |blob|
  {
    FromLe(blob[at..at + width])
  }

  /** The header is whole, of the known version, and both tables lie inside the blob. */
  predicate Supported(blob: seq<Byte>) {
    && |blob| >= HEADER
    && Number(blob, 0, 4) == 1
    && Number(blob, 4, 4) == 0
    && Number(blob, 12, 4) + Number(blob, 8, 4) * 4 <= |blob|
    && Number(blob, 20, 4) + Number(blob, 16, 4) * RECORD <= |blob|
  }

  function RecordFrom(s: seq<Byte>): Record
    requires |s| == RECORD
  {
    Record(FromLe(s[0..8]), FromLe(s[8..12]), FromLe(s[12..16]), FromLe(s[16..24]))
  }

  function RecordAt(blob: seq<Byte>, at: nat): Record
    requires at + RECORD <= |blob|
  {
    RecordFrom(blob[at..at + RECORD])
  }

  function TableOf(blob: seq<Byte>): Table
    requires Supported(blob)
  {
    Table(
      seq(Number(blob, 8, 4), i requires 0 <= i < Number(blob, 8, 4) => Number(blob, Number(blob, 12, 4) + i * 4, 4)),
      seq(Number(blob, 16, 4), i requires 0 <= i < Number(blob, 16, 4) =>
        RecordAt(blob, Number(blob, 20, 4) + i * RECORD)))
  }

  /** mask & (1 << k) != 0 */
  predicate Bit(mask: nat, k: nat) {
    mask / Pow2(k) % 2 == 1
  }

  predicate Covers(r: Record, index: nat) {
    index >= r.offset && index - r.offset < 64 && Bit(r.mask, index - r.offset)
  }

  /** The modifiers of the chosen records, in record order. */
  function Chosen(records: seq<Record>, chosen: Record -> bool): seq<nat> {
    if records == [] then []
    else (if chosen(records[0]) then [records[0].modifier] else []) + Chosen(records[1..], chosen)
  }

  function CoversIndex(index: nat): Record -> bool {
    r => Covers(r, index)
  }

  /** The modifiers of the records that cover a format index, in record order. */
  function Select(records: seq<Record>, index: nat): seq<nat> {
    Chosen(records, CoversIndex(index))
  }

  /** The first place of a format in the format table. */
  function FirstIndex(formats: seq<nat>, format: nat): (i: Option<nat>)
    ensures i == None <==> format !in formats
    ensures i.Some? ==> i.value < |formats| && formats[i.value] == format && format !in formats[..i.value]
  {
    if formats == [] then None
    else if formats[0] == format then Some(0)
    else
      match FirstIndex(formats[1..], format)
      case None => None
      case Some(i) =>
        assert formats[..i + 1] == [formats[0]] + formats[1..][..i];
        Some(i + 1)
  }

  function Meaning(t: Table, format: nat): seq<nat> {
    match FirstIndex(t.formats, format)
    case None => []
    case Some(index) => Select(t.records, index)
  }

  // ----- the parser -----

  function CheckedAdd(a: usize, b: usize): Option<usize> {
    if a as int + b as int <= USIZE_MAX as int then Some(a + b) else None
  }

  function CheckedMul(a: usize, b: usize): Option<usize> {
    if a as int * b as int <= USIZE_MAX as int then Some((a as int * b as int) as usize) else None
  }

  /** Reading `width` bytes at an offset, if they are there. */
  function NumberAt(blob: seq<Byte>, offset: usize, width: usize): (n: Option<nat>)
    requires |blob| <= MAX_LENGTH
    ensures n.Some? <==> offset as nat + width as nat <= |blob|
    ensures n.Some? ==> n.value == Number(blob, offset as nat, width as nat)
    ensures n.Some? && width == 4 ==> n.value < 0x1_0000_0000
  {
    var end := CheckedAdd(offset, width);
    if end == None || end.value as int > |blob| then None
    else
      var bytes := blob[offset..end.value];
      FromLeBelow(bytes);
      Ranges();
      Some(FromLe(bytes))
  }

  /** blob.get(start..start + count * size) */
  predicate Inside(blob: seq<Byte>, start: usize, count: usize, size: usize) {
    var length := CheckedMul(count, size);
    length.Some? &&
    var end := CheckedAdd(start, length.value);
    end.Some? && end.value as int <= |blob|
  }

  lemma InsideMeans(blob: seq<Byte>, start: usize, count: usize, size: usize)
    requires |blob| <= MAX_LENGTH
    ensures Inside(blob, start, count, size) <==> start as int + count as int * size as int <= |blob|
  {
  }

  lemma Reassociate<T>(a: seq<T>, b: seq<T>, c: seq<T>)
    ensures a + (b + c) == a + b + c
  {
  }

  lemma {:induction false} ChosenAppend(a: seq<Record>, b: seq<Record>, chosen: Record -> bool)
    ensures Chosen(a + b, chosen) == Chosen(a, chosen) + Chosen(b, chosen)
    decreases |a|
  {
    if a == [] {
      assert a + b == b;
    } else {
      var head := if chosen(a[0]) then [a[0].modifier] else [];
      assert (a + b)[1..] == a[1..] + b;
      ChosenAppend(a[1..], b, chosen);
      Reassociate(head, Chosen(a[1..], chosen), Chosen(b, chosen));
    }
  }

  lemma ChosenNext(records: seq<Record>, i: nat, chosen: Record -> bool)
    requires i < |records|
    ensures Chosen(records[..i + 1], chosen)
         == Chosen(records[..i], chosen) + (if chosen(records[i]) then [records[i].modifier] else [])
  {
    assert records[..i + 1] == records[..i] + [records[i]];
    ChosenAppend(records[..i], [records[i]], chosen);
    assert [records[i]][1..] == [];
  }

  lemma SliceOfSlice(s: seq<Byte>, i: nat, j: nat, k: nat, l: nat)
    requires i <= j <= |s| && k <= l <= j - i
    ensures s[i..j][k..l] == s[i + k..i + l]
  {
    var a, b := s[i..j][k..l], s[i + k..i + l];
    assert |a| == |b| && forall n :: 0 <= n < |a| ==> a[n] == b[n];
  }

  lemma RecordNumbers(blob: seq<Byte>, at: nat)
    requires at + RECORD <= |blob|
    ensures RecordAt(blob, at).mask == Number(blob, at, 8) && RecordAt(blob, at).offset == Number(blob, at + 8, 4)
    ensures RecordAt(blob, at).modifier == Number(blob, at + 16, 8)
  {
    SliceOfSlice(blob, at, at + RECORD, 0, 8);
    SliceOfSlice(blob, at, at + RECORD, 8, 12);
    SliceOfSlice(blob, at, at + RECORD, 16, 24);
  }

  /** No read leaves the blob and no index arithmetic overflows: both are checked in this body. */
  method ModifiersForFormat(blob: seq<Byte>, format: nat) returns (result: Option<seq<nat>>)
    requires |blob| <= MAX_LENGTH
    ensures result == None <==>
              || |blob| < 24 || FromLe(blob[0..4]) != 1 || FromLe(blob[4..8]) != 0
              || FromLe(blob[12..16]) + 4 * FromLe(blob[8..12]) > |blob|
              || FromLe(blob[20..24]) + 24 * FromLe(blob[16..20]) > |blob|
    ensures result == None <==> !Supported(blob)
    ensures Supported(blob) ==> result == Some(Meaning(TableOf(blob), format))
  {
    var version := NumberAt(blob, 0, 4);
    if version == None {
      return None;
    }
    if version.value != 1 {
      return None;
    }
    var flags := NumberAt(blob, 4, 4);
    if flags == None || flags.value != 0 {
      return None;
    }
    var countField, formatsField := NumberAt(blob, 8, 4), NumberAt(blob, 12, 4);
    var modifierCountField, modifiersField := NumberAt(blob, 16, 4), NumberAt(blob, 20, 4);
    if countField == None || formatsField == None || modifierCountField == None || modifiersField == None {
      return None;
    }
    var count, formats := countField.value as usize, formatsField.value as usize;
    var modifierCount, modifiers := modifierCountField.value as usize, modifiersField.value as usize;
    InsideMeans(blob, formats, count, 4);
    InsideMeans(blob, modifiers, modifierCount, 24);
    if !Inside(blob, formats, count, 4) || !Inside(blob, modifiers, modifierCount, 24) {
      return None;
    }
    var index := FindFormat(blob, formats, count, format);
    if index == count {
      return Some([]);
    }
    var selected := CollectModifiers(blob, modifiers, modifierCount, index);
    return Some(selected);
  }

  /** The search for the first occurrence; `count` when there is none. */
  method FindFormat(blob: seq<Byte>, formats: usize, count: usize, format: nat) returns (index: usize)
    requires |blob| <= MAX_LENGTH && Supported(blob)
    requires formats as nat == Number(blob, 12, 4) && count as nat == Number(blob, 8, 4)
    ensures index <= count
    ensures FirstIndex(TableOf(blob).formats, format) == if index == count then None else Some(index as nat)
  {
    ghost var table := TableOf(blob).formats;
    index := 0;
    while index < count
      invariant index <= count && format !in table[..index]
    {
      assert table[index] == Number(blob, formats as nat + index as nat * 4, 4);
      if NumberAt(blob, formats + index * 4, 4) == Some(format) {
        FirstIsUnique(table, format, index as nat);
        return;
      }
      index := index + 1;
    }
    assert table[..index] == table;
  }

  lemma FirstIsUnique(formats: seq<nat>, format: nat, i: nat)
    requires i < |formats| && formats[i] == format && format !in formats[..i]
    ensures FirstIndex(formats, format) == Some(i)
  {
  }

  method CollectModifiers(blob: seq<Byte>, modifiers: usize, modifierCount: usize, index: usize)
    returns (result: seq<nat>)
    requires |blob| <= MAX_LENGTH && Supported(blob)
    requires modifiers as nat == Number(blob, 20, 4) && modifierCount as nat == Number(blob, 16, 4)
    ensures result == Select(TableOf(blob).records, index as nat)
  {
    ghost var table := TableOf(blob).records;
    result := [];
    var i: usize := 0;
    while i < modifierCount
      invariant i <= modifierCount && result == Select(table[..i], index as nat)
    {
      var at := modifiers + i * 24;
      assert table[i] == RecordAt(blob, at as nat);
      RecordNumbers(blob, at as nat);
      var mask := NumberAt(blob, at, 8).value;
      var offset := NumberAt(blob, at + 8, 4).value as usize;
      ChosenNext(table, i as nat, CoversIndex(index as nat));
      if index >= offset && index - offset < 64 && Bit(mask, (index - offset) as nat) {
        var modifier := NumberAt(blob, at + 16, 8).value;
        result := result + [modifier];
      }
      i := i + 1;
    }
    assert table[..i] == table;
  }

  // ----- the selection is exactly the covering records -----

  lemma {:induction false} ChosenIff(records: seq<Record>, chosen: Record -> bool, modifier: nat)
    ensures modifier in Chosen(records, chosen)
       <==> exists i :: 0 <= i < |records| && chosen(records[i]) && records[i].modifier == modifier
    decreases |records|
  {
    if records != [] {
      ChosenIff(records[1..], chosen, modifier);
      if modifier in Chosen(records[1..], chosen) {
        var i :| 0 <= i < |records[1..]| && chosen(records[1..][i]) && records[1..][i].modifier == modifier;
        assert chosen(records[i + 1]) && records[i + 1].modifier == modifier;
      }
      if i :| 0 <= i < |records| && chosen(records[i]) && records[i].modifier == modifier {
        if i > 0 {
          assert chosen(records[1..][i - 1]) && records[1..][i - 1].modifier == modifier;
        }
      }
    }
  }

  /** A modifier is returned exactly when some record that covers the index carries it. */
  lemma SelectedIff(records: seq<Record>, index: nat, modifier: nat)
    ensures modifier in Select(records, index)
       <==> exists i :: 0 <= i < |records| && Covers(records[i], index) && records[i].modifier == modifier
  {
    var chosen := CoversIndex(index);
    assert forall r :: chosen(r) == Covers(r, index);
    ChosenIff(records, chosen, modifier);
  }

  // ----- parsing inverts every well-formed serializer -----

  /** A modifier with the formats it supports, from format index `offset` on. */
  datatype Window = Window(offset: nat, supported: seq<bool>, modifier: nat)

  predicate Encodable(w: Window) {
    w.offset < Range(4) && |w.supported| <= 64 && w.modifier < Range(8)
  }

  function MaskOf(bits: seq<bool>): nat {
    if bits == [] then 0 else (if bits[0] then 1 else 0) + 2 * MaskOf(bits[1..])
  }

  function RecordOf(w: Window): Record {
    Record(MaskOf(w.supported), w.offset, 0, w.modifier)
  }

  function RecordBytes(r: Record): (s: seq<Byte>)
    ensures |s| == RECORD
  {
    ToLe(r.mask, 8) + ToLe(r.offset, 4) + ToLe(r.reserved, 4) + ToLe(r.modifier, 8)
  }

  /** The filling before, between and after the tables, and which of the two comes first. */
  datatype Filling = Filling(before: seq<Byte>, between: seq<Byte>, tail: seq<Byte>, recordsFirst: bool)

  /** A blob in pieces: six header words, and the two tables anywhere behind them in either order. */
  datatype Image = Image(header: seq<seq<Byte>>, formats: seq<seq<Byte>>, records: seq<seq<Byte>>, filling: Filling)

  function Flat(chunks: seq<seq<Byte>>): seq<Byte> {
    if chunks == [] then [] else chunks[0] + Flat(chunks[1..])
  }

  function BytesOf(im: Image): seq<Byte> {
    var l, f, r := im.filling, Flat(im.formats), Flat(im.records);
    if l.recordsFirst then Flat(im.header) + l.before + r + l.between + f + l.tail
    else Flat(im.header) + l.before + f + l.between + r + l.tail
  }

  function FormatsStart(l: Filling, windows: nat): nat {
    HEADER + |l.before| + (if l.recordsFirst then windows * RECORD + |l.between| else 0)
  }

  function RecordsStart(l: Filling, formats: nat): nat {
    HEADER + |l.before| + (if l.recordsFirst then 0 else formats * 4 + |l.between|)
  }

  function FormatsAt(im: Image): nat {
    FormatsStart(im.filling, |im.records|)
  }

  function ModifiersAt(im: Image): nat {
    RecordsStart(im.filling, |im.formats|)
  }

  ghost predicate Sized(chunks: seq<seq<Byte>>, size: nat) {
    forall i :: 0 <= i < |chunks| ==> |chunks[i]| == size
  }

  ghost predicate Shaped(im: Image) {
    |im.header| == 6 && Sized(im.header, 4) && Sized(im.formats, 4) && Sized(im.records, RECORD)
  }

  /** Every piece has its size, and the header says where the tables are. */
  ghost predicate Describes(im: Image) {
    && Shaped(im)
    && FromLe(im.header[0]) == 1
    && FromLe(im.header[1]) == 0
    && FromLe(im.header[2]) == |im.formats|
    && FromLe(im.header[3]) == FormatsAt(im)
    && FromLe(im.header[4]) == |im.records|
    && FromLe(im.header[5]) == ModifiersAt(im)
  }

  function Words(numbers: seq<nat>): (chunks: seq<seq<Byte>>)
    ensures |chunks| == |numbers|
  {
    seq(|numbers|, i requires 0 <= i < |numbers| => ToLe(numbers[i], 4))
  }

  function RecordChunks(windows: seq<Window>): (chunks: seq<seq<Byte>>)
    ensures |chunks| == |windows|
  {
    seq(|windows|, i requires 0 <= i < |windows| => RecordBytes(RecordOf(windows[i])))
  }

  function HeaderOf(l: Filling, formats: nat, windows: nat): (fields: seq<nat>)
    ensures |fields| == 6
  {
    [1, 0, formats, FormatsStart(l, windows), windows, RecordsStart(l, formats)]
  }

  function Serialize(l: Filling, formats: seq<nat>, windows: seq<Window>): Image {
    Image(Words(HeaderOf(l, |formats|, |windows|)), Words(formats), RecordChunks(windows), l)
  }

  ghost predicate WellFormed(l: Filling, formats: seq<nat>, windows: seq<Window>) {
    && |formats| < Range(4) && |windows| < Range(4)
    && FormatsStart(l, |windows|) < Range(4) && RecordsStart(l, |formats|) < Range(4)
    && (forall f :: f in formats ==> f < Range(4))
    && (forall w :: w in windows ==> Encodable(w))
  }

  lemma DivHalves(b: nat, m: nat, p: nat)
    requires b < 2 && p > 0
    ensures (b + 2 * m) / (2 * p) == m / p
  {
    var q, r := m / p, m % p;
    assert m == p * q + r;
    assert b + 2 * m == 2 * p * q + (2 * r + b);
    QuotientIs(b + 2 * m, 2 * p, q, 2 * r + b);
  }

  lemma LowBitOf(b: nat, m: nat)
    requires b < 2
    ensures Bit(b + 2 * m, 0) <==> b == 1
  {
    assert Pow2(0) == 1;
  }

  lemma HigherBitOf(b: nat, m: nat, k: nat)
    requires b < 2 && k > 0
    ensures Bit(b + 2 * m, k) <==> Bit(m, k - 1)
  {
    DivHalves(b, m, Pow2(k - 1));
  }

  lemma NoBits(k: nat)
    ensures !Bit(0, k)
  {
    QuotientIs(0, Pow2(k), 0, 0);
  }

  /** The mask has exactly the bits it was made of, and none above. */
  lemma {:induction false} BitOfMask(bits: seq<bool>, k: nat)
    ensures Bit(MaskOf(bits), k) <==> k < |bits| && bits[k]
    decreases |bits|
  {
    if bits == [] {
      NoBits(k);
    } else {
      var b, m := if bits[0] then 1 else 0, MaskOf(bits[1..]);
      if k == 0 {
        LowBitOf(b, m);
      } else {
        BitOfMask(bits[1..], k - 1);
        HigherBitOf(b, m, k);
      }
    }
  }

  lemma {:induction false} MaskFits(bits: seq<bool>, width: nat)
    requires |bits| <= width * 8
    ensures MaskOf(bits) < Range(width)
    decreases width, |bits|
  {
    if |bits| > 0 && width > 0 {
      MaskBelow(bits);
      Pow2Monotone(|bits|, width * 8);
      Pow2Range(width);
    }
  }

  lemma {:induction false} MaskBelow(bits: seq<bool>)
    ensures MaskOf(bits) < Pow2(|bits|)
    decreases |bits|
  {
    if bits != [] {
      MaskBelow(bits[1..]);
    }
  }

  lemma {:induction false} Pow2Range(width: nat)
    ensures Pow2(width * 8) == Range(width)
  {
    if width > 0 {
      Pow2Range(width - 1);
      var n := width * 8;
      assert Pow2(n) == 2 * Pow2(n - 1) == 4 * Pow2(n - 2) == 8 * Pow2(n - 3) == 16 * Pow2(n - 4);
      assert Pow2(n - 4) == 2 * Pow2(n - 5) == 4 * Pow2(n - 6) == 8 * Pow2(n - 7) == 16 * Pow2(n - 8);
    }
  }

  // ----- slices of concatenations -----

  lemma FourParts(a: seq<Byte>, b: seq<Byte>, c: seq<Byte>, d: seq<Byte>)
    ensures var s := a + b + c + d;
      && s[0..|a|] == a && s[|a|..|a| + |b|] == b
      && s[|a| + |b|..|a| + |b| + |c|] == c && s[|a| + |b| + |c|..|s|] == d
  {
  }

  lemma SixParts(a: seq<Byte>, b: seq<Byte>, c: seq<Byte>, d: seq<Byte>, e: seq<Byte>, f: seq<Byte>)
    ensures var s := a + b + c + d + e + f;
      && s[0..0 + |a|] == a
      && s[|a| + |b|..|a| + |b| + |c|] == c
      && s[|a| + |b| + |c| + |d|..|a| + |b| + |c| + |d| + |e|] == e
  {
  }

  lemma SliceOfPart(s: seq<Byte>, start: nat, part: seq<Byte>, i: nat, j: nat)
    requires start + |part| <= |s| && s[start..start + |part|] == part && i <= j <= |part|
    ensures s[start + i..start + j] == part[i..j]
  {
    SliceOfSlice(s, start, start + |part|, i, j);
  }

  lemma {:induction false} FlatAt(chunks: seq<seq<Byte>>, i: nat)
    requires i < |chunks|
    ensures Flat(chunks) == Flat(chunks[..i]) + chunks[i] + Flat(chunks[i + 1..])
    decreases |chunks|
  {
    if i == 0 {
      assert chunks[..0] == [];
    } else {
      FlatAt(chunks[1..], i - 1);
      assert chunks[..i][1..] == chunks[1..][..i - 1] && chunks[1..][i..] == chunks[i + 1..];
      Reassociate(chunks[0], Flat(chunks[1..][..i - 1]) + chunks[i], Flat(chunks[i + 1..]));
      Reassociate(chunks[0], Flat(chunks[1..][..i - 1]), chunks[i]);
    }
  }

  lemma {:induction false} FlatLength(chunks: seq<seq<Byte>>, size: nat)
    requires Sized(chunks, size)
    ensures |Flat(chunks)| == |chunks| * size
    decreases |chunks|
  {
    if chunks != [] {
      var n := |chunks| - 1;
      FlatLength(chunks[1..], size);
      assert (n + 1) * size == n * size + size;
    }
  }

  lemma FlatSlice(chunks: seq<seq<Byte>>, size: nat, i: nat)
    requires Sized(chunks, size) && i < |chunks|
    ensures i * size + size <= |Flat(chunks)| && Flat(chunks)[i * size..i * size + size] == chunks[i]
  {
    FlatAt(chunks, i);
    FlatLength(chunks[..i], size);
  }

  // ----- what the parser finds in the pieces -----

  /** Where the pieces lie. */
  ghost predicate Placed(blob: seq<Byte>, im: Image) {
    var h, f, r := Flat(im.header), Flat(im.formats), Flat(im.records);
    && |h| == HEADER && |f| == |im.formats| * 4 && |r| == |im.records| * RECORD
    && FormatsAt(im) + |f| <= |blob| && ModifiersAt(im) + |r| <= |blob|
    && blob[0..0 + |h|] == h
    && blob[FormatsAt(im)..FormatsAt(im) + |f|] == f
    && blob[ModifiersAt(im)..ModifiersAt(im) + |r|] == r
  }

  lemma Places(im: Image)
    requires Shaped(im)
    ensures Placed(BytesOf(im), im)
  {
    FlatLength(im.header, 4);
    FlatLength(im.formats, 4);
    FlatLength(im.records, RECORD);
    var l, f, r := im.filling, Flat(im.formats), Flat(im.records);
    if l.recordsFirst {
      SixParts(Flat(im.header), l.before, r, l.between, f, l.tail);
    } else {
      SixParts(Flat(im.header), l.before, f, l.between, r, l.tail);
    }
  }

  lemma HeaderWord(blob: seq<Byte>, im: Image, i: nat)
    requires Shaped(im) && Placed(blob, im) && i < 6
    ensures blob[i * 4..i * 4 + 4] == im.header[i]
  {
    FlatSlice(im.header, 4, i);
    SliceOfPart(blob, 0, Flat(im.header), i * 4, i * 4 + 4);
  }

  lemma ImageFormat(blob: seq<Byte>, im: Image, i: nat)
    requires Shaped(im) && Placed(blob, im) && i < |im.formats|
    ensures blob[FormatsAt(im) + i * 4..FormatsAt(im) + i * 4 + 4] == im.formats[i]
  {
    FlatSlice(im.formats, 4, i);
    SliceOfPart(blob, FormatsAt(im), Flat(im.formats), i * 4, i * 4 + 4);
  }

  lemma ImageRecord(blob: seq<Byte>, im: Image, i: nat)
    requires Shaped(im) && Placed(blob, im) && i < |im.records|
    ensures blob[ModifiersAt(im) + i * RECORD..ModifiersAt(im) + i * RECORD + RECORD] == im.records[i]
  {
    FlatSlice(im.records, RECORD, i);
    SliceOfPart(blob, ModifiersAt(im), Flat(im.records), i * RECORD, i * RECORD + RECORD);
  }

  lemma HeaderSupported(blob: seq<Byte>, im: Image)
    requires Describes(im) && Placed(blob, im)
    ensures Supported(blob)
    ensures Number(blob, 8, 4) == |im.formats| && Number(blob, 12, 4) == FormatsAt(im)
    ensures Number(blob, 16, 4) == |im.records| && Number(blob, 20, 4) == ModifiersAt(im)
  {
    HeaderWord(blob, im, 0);
    HeaderWord(blob, im, 1);
    HeaderWord(blob, im, 2);
    HeaderWord(blob, im, 3);
    HeaderWord(blob, im, 4);
    HeaderWord(blob, im, 5);
  }

  lemma TableEntry(blob: seq<Byte>, i: nat)
    requires Supported(blob)
    ensures |TableOf(blob).formats| == Number(blob, 8, 4) && |TableOf(blob).records| == Number(blob, 16, 4)
    ensures i < Number(blob, 8, 4) ==> TableOf(blob).formats[i] == Number(blob, Number(blob, 12, 4) + i * 4, 4)
    ensures i < Number(blob, 16, 4) ==> TableOf(blob).records[i] == RecordAt(blob, Number(blob, 20, 4) + i * RECORD)
  {
  }

  lemma TableFormat(blob: seq<Byte>, im: Image, i: nat)
    requires Supported(blob) && Shaped(im) && Placed(blob, im) && Number(blob, 12, 4) == FormatsAt(im)
    requires i < |im.formats| == Number(blob, 8, 4)
    ensures |TableOf(blob).formats| == |im.formats| && TableOf(blob).formats[i] == FromLe(im.formats[i])
  {
    TableEntry(blob, i);
    ImageFormat(blob, im, i);
  }

  lemma TableRecord(blob: seq<Byte>, im: Image, i: nat)
    requires Supported(blob) && Shaped(im) && Placed(blob, im) && Number(blob, 20, 4) == ModifiersAt(im)
    requires i < |im.records| == Number(blob, 16, 4)
    ensures |im.records[i]| == RECORD
    ensures |TableOf(blob).records| == |im.records| && TableOf(blob).records[i] == RecordFrom(im.records[i])
  {
    TableEntry(blob, i);
    ImageRecord(blob, im, i);
  }

  // ----- the pieces of a serialized description -----

  lemma WordsRead(numbers: seq<nat>, i: nat)
    requires i < |numbers| && numbers[i] < Range(4)
    ensures FromLe(Words(numbers)[i]) == numbers[i]
  {
    LeRoundTrip(numbers[i], 4);
  }

  lemma RecordFields(w: Window)
    requires Encodable(w)
    ensures RecordFrom(RecordBytes(RecordOf(w))) == RecordOf(w)
  {
    var r := RecordOf(w);
    MaskFits(w.supported, 8);
    FieldsOfRecord(ToLe(r.mask, 8), ToLe(r.offset, 4), ToLe(r.reserved, 4), ToLe(r.modifier, 8));
    LeRoundTrip(r.mask, 8);
    LeRoundTrip(r.offset, 4);
    LeRoundTrip(r.reserved, 4);
    LeRoundTrip(r.modifier, 8);
  }

  lemma FieldsOfRecord(a: seq<Byte>, b: seq<Byte>, c: seq<Byte>, d: seq<Byte>)
    requires |a| == |d| == 8 && |b| == |c| == 4
    ensures RecordFrom(a + b + c + d) == Record(FromLe(a), FromLe(b), FromLe(c), FromLe(d))
  {
    FourParts(a, b, c, d);
  }

  lemma HeaderRead(fields: seq<nat>)
    requires |fields| == 6 && forall i :: 0 <= i < 6 ==> fields[i] < Range(4)
    ensures forall i :: 0 <= i < 6 ==> FromLe(Words(fields)[i]) == fields[i]
  {
    forall i | 0 <= i < 6
      ensures FromLe(Words(fields)[i]) == fields[i]
    {
      WordsRead(fields, i);
    }
  }

  lemma PiecesSized(numbers: seq<nat>, windows: seq<Window>)
    ensures Sized(Words(numbers), 4) && Sized(RecordChunks(windows), RECORD)
  {
  }

  lemma Described(im: Image, fields: seq<nat>)
    requires Shaped(im) && |fields| == 6 && forall i :: 0 <= i < 6 ==> FromLe(im.header[i]) == fields[i]
    requires fields[0] == 1 && fields[1] == 0 && fields[2] == |im.formats| && fields[3] == FormatsAt(im)
    requires fields[4] == |im.records| && fields[5] == ModifiersAt(im)
    ensures Describes(im)
  {
  }

  lemma HeaderFits(l: Filling, formats: nat, windows: nat)
    requires formats < Range(4) && windows < Range(4)
    requires FormatsStart(l, windows) < Range(4) && RecordsStart(l, formats) < Range(4)
    ensures forall i :: 0 <= i < 6 ==> HeaderOf(l, formats, windows)[i] < Range(4)
  {
  }

  lemma SerializedDescribes(l: Filling, formats: seq<nat>, windows: seq<Window>)
    requires WellFormed(l, formats, windows)
    ensures Describes(Serialize(l, formats, windows))
  {
    var fields := HeaderOf(l, |formats|, |windows|);
    HeaderFits(l, |formats|, |windows|);
    HeaderRead(fields);
    PiecesSized(formats, windows);
    PiecesSized(fields, windows);
    Described(Serialize(l, formats, windows), fields);
  }

  lemma SerializedEntry(l: Filling, formats: seq<nat>, windows: seq<Window>, i: nat)
    requires WellFormed(l, formats, windows)
    ensures i < |formats| ==> FromLe(Serialize(l, formats, windows).formats[i]) == formats[i]
    ensures i < |windows| ==> RecordFrom(Serialize(l, formats, windows).records[i]) == RecordOf(windows[i])
  {
    if i < |formats| {
      assert formats[i] in formats;
      WordsRead(formats, i);
    }
    if i < |windows| {
      RecordFields(windows[i]);
    }
  }

  /** The formats and the records that a table lists. */
  ghost predicate Lists(t: Table, formats: seq<nat>, windows: seq<Window>) {
    && t.formats == formats
    && |t.records| == |windows|
    && forall i :: 0 <= i < |windows| ==> t.records[i] == RecordOf(windows[i])
  }

  /** Parsing gives back the formats and the records of any well-formed description. */
  lemma RoundTrip(l: Filling, formats: seq<nat>, windows: seq<Window>)
    requires WellFormed(l, formats, windows)
    ensures Supported(BytesOf(Serialize(l, formats, windows)))
    ensures Lists(TableOf(BytesOf(Serialize(l, formats, windows))), formats, windows)
  {
    var im := Serialize(l, formats, windows);
    SerializedDescribes(l, formats, windows);
    Places(im);
    HeaderSupported(BytesOf(im), im);
    TableEntry(BytesOf(im), 0);
    var t := TableOf(BytesOf(im));
    forall i | 0 <= i < |formats|
      ensures t.formats[i] == formats[i]
    {
      TableFormat(BytesOf(im), im, i);
      SerializedEntry(l, formats, windows, i);
    }
    forall i | 0 <= i < |windows|
      ensures t.records[i] == RecordOf(windows[i])
    {
      TableRecord(BytesOf(im), im, i);
      SerializedEntry(l, formats, windows, i);
    }
  }

  /** The window supports the format at an index. */
  predicate Supports(w: Window, index: nat) {
    w.offset <= index < w.offset + |w.supported| && w.supported[index - w.offset]
  }

  /** The modifiers of the windows that support a format index, in the order of the windows. */
  function Offered(windows: seq<Window>, index: nat): seq<nat> {
    if windows == [] then []
    else (if Supports(windows[0], index) then [windows[0].modifier] else []) + Offered(windows[1..], index)
  }

  /**
   * For any plane description, either order of its tables and any filling around them, what
   * is negotiated for a format is exactly the sequence of modifiers of the windows that
   * support its first index, and nothing when the format is not listed.
   */
  lemma NegotiatedExactly(l: Filling, formats: seq<nat>, windows: seq<Window>, format: nat)
    requires WellFormed(l, formats, windows)
    ensures var blob := BytesOf(Serialize(l, formats, windows));
      && Supported(blob)
      && Meaning(TableOf(blob), format) ==
         if format in formats then Offered(windows, FirstIndex(formats, format).value) else []
  {
    RoundTrip(l, formats, windows);
    MeaningOfListed(TableOf(BytesOf(Serialize(l, formats, windows))), formats, windows, format);
  }

  lemma MeaningOfListed(t: Table, formats: seq<nat>, windows: seq<Window>, format: nat)
    requires Lists(t, formats, windows) && forall w :: w in windows ==> Encodable(w)
    ensures Meaning(t, format) == if format in formats then Offered(windows, FirstIndex(formats, format).value) else []
  {
    if format in formats {
      assert forall i :: 0 <= i < |windows| ==> windows[i] in windows;
      WindowsSelected(t.records, windows, FirstIndex(formats, format).value);
    }
  }

  lemma CoversWindow(w: Window, index: nat)
    requires |w.supported| <= 64
    ensures Covers(RecordOf(w), index) <==> Supports(w, index)
  {
    if index >= w.offset {
      BitOfMask(w.supported, index - w.offset);
    }
  }

  lemma {:induction false} WindowsSelected(records: seq<Record>, windows: seq<Window>, index: nat)
    requires |records| == |windows| && forall i :: 0 <= i < |windows| ==> records[i] == RecordOf(windows[i])
    requires forall i :: 0 <= i < |windows| ==> |windows[i].supported| <= 64
    ensures Select(records, index) == Offered(windows, index)
    decreases |windows|
  {
    if windows != [] {
      CoversWindow(windows[0], index);
      WindowsSelected(records[1..], windows[1..], index);
    }
  }

  lemma {:induction false} OfferedIff(windows: seq<Window>, index: nat, modifier: nat)
    ensures modifier in Offered(windows, index)
       <==> exists i :: 0 <= i < |windows| && windows[i].modifier == modifier && Supports(windows[i], index)
    decreases |windows|
  {
    if windows != [] {
      OfferedIff(windows[1..], index, modifier);
      if modifier in Offered(windows[1..], index) {
        var i :| 0 <= i < |windows[1..]| && windows[1..][i].modifier == modifier && Supports(windows[1..][i], index);
        assert windows[i + 1].modifier == modifier && Supports(windows[i + 1], index);
      }
      if i :| 0 < i < |windows| && windows[i].modifier == modifier && Supports(windows[i], index) {
        assert windows[1..][i - 1].modifier == modifier && Supports(windows[1..][i - 1], index);
      }
    }
  }

  /** So a modifier is negotiated exactly when the format is listed and a window supports its first index. */
  lemma NegotiatedIff(l: Filling, formats: seq<nat>, windows: seq<Window>, format: nat, modifier: nat)
    requires WellFormed(l, formats, windows)
    ensures Supported(BytesOf(Serialize(l, formats, windows)))
    ensures modifier in Meaning(TableOf(BytesOf(Serialize(l, formats, windows))), format) <==>
      && format in formats
      && (exists i ::
            0 <= i < |windows| && windows[i].modifier == modifier
            && Supports(windows[i], FirstIndex(formats, format).value))
  {
    NegotiatedExactly(l, formats, windows, format);
    if format in formats {
      OfferedIff(windows, FirstIndex(formats, format).value, modifier);
    }
  }
}
