/** The binary form in which writable items survive a restart. */
module SavedCodec {
  import opened Wrappers
  import opened Floats
  import opened Odf
  import opened Utf8
  import opened Collect

  const VERSION: byte := 1
  const MAX_NVS_BLOB: nat := 4000

  datatype SaveError = TooLarge(size: nat) | SerializeFailed

  datatype LoadError = UnexpectedEnd | BadUtf8 | UnsupportedVersion(version: byte) | UnknownTag(tag: byte)

  // ----- the format -----

  function U16Bytes(n: nat): seq<byte>
    requires n < 0x1_0000
  {
    [n % 256, n / 256]
  }

  function LeBytes(n: nat, k: nat): seq<byte> {
    if k == 0 then [] else [n % 256] + LeBytes(n / 256, k - 1)
  }

  function LeValue(b: seq<byte>): nat {
    if b == [] then 0 else b[0] + 256 * LeValue(b[1..])
  }

  function F64Bytes(x: F64): seq<byte> { LeBytes(x as int, 8) }

  predicate TextFits(s: string) { |Encode(s)| < 0x1_0000 }

  predicate ItemFits(i: SavedItem) { TextFits(i.path) && (i.v.OmiStr? ==> TextFits(i.v.s)) }

  function TextBytes(s: string): seq<byte>
    requires TextFits(s)
  {
    U16Bytes(|Encode(s)|) + Encode(s)
  }

  function ValueBytes(v: OmiValue): seq<byte>
    requires v.OmiStr? ==> TextFits(v.s)
  {
    match v
    case OmiNull => [0]
    case OmiBool(b) => if b then [2] else [1]
    case OmiNumber(n) => [3] + F64Bytes(n)
    case OmiStr(s) => [4] + TextBytes(s)
  }

  function StampBytes(t: Option<F64>): seq<byte> { if t.Some? then [1] + F64Bytes(t.value) else [0] }

  function ItemBytes(i: SavedItem): seq<byte>
    requires ItemFits(i)
  {
    TextBytes(i.path) + ValueBytes(i.v) + StampBytes(i.t)
  }

  predicate AllFit(items: seq<SavedItem>) { forall i | i in items :: ItemFits(i) }

  function ItemsBytes(items: seq<SavedItem>): seq<byte>
    requires AllFit(items)
  {
    if items == [] then [] else ItemBytes(items[0]) + ItemsBytes(items[1..])
  }

  function Blob(items: seq<SavedItem>): seq<byte>
    requires AllFit(items) && |items| < 0x1_0000
  {
    [VERSION] + U16Bytes(|items|) + ItemsBytes(items)
  }

  function Serialized(items: seq<SavedItem>): Result<seq<byte>, SaveError> {
    if |items| >= 0x1_0000 || !AllFit(items) then Err(SerializeFailed)
    else if |Blob(items)| > MAX_NVS_BLOB then Err(TooLarge(|Blob(items)|))
    else Ok(Blob(items))
  }

  lemma {:induction false} ItemsBytesSnoc(items: seq<SavedItem>, i: SavedItem)
    requires AllFit(items) && ItemFits(i)
    ensures AllFit(items + [i]) && ItemsBytes(items + [i]) == ItemsBytes(items) + ItemBytes(i)
    decreases |items|
  {
    hide ItemBytes, ItemFits;
    if items == [] {
      assert items + [i] == [i];
    } else {
      assert (items + [i])[1..] == items[1..] + [i];
      ItemsBytesSnoc(items[1..], i);
    }
  }

  /** The body of the loop: path, tag and value, timestamp. */
  method AppendItem(buf: seq<byte>, item: SavedItem) returns (r: Result<seq<byte>, SaveError>)
    ensures r == if ItemFits(item) then Ok(buf + ItemBytes(item)) else Err(SerializeFailed)
  {
    hide Encode, LeBytes, U16Bytes;
    var path := Encode(item.path);
    if |path| >= 0x1_0000 {
      return Err(SerializeFailed);
    }
    var b := buf + (U16Bytes(|path|) + path);
    match item.v {
      case OmiNull => b := b + [0];
      case OmiBool(x) => b := b + (if x then [2] else [1]);
      case OmiNumber(x) => b := b + ([3] + F64Bytes(x));
      case OmiStr(s) =>
        var text := Encode(s);
        if |text| >= 0x1_0000 {
          return Err(SerializeFailed);
        }
        b := b + ([4] + (U16Bytes(|text|) + text));
    }
    assert b == buf + TextBytes(item.path) + ValueBytes(item.v);
    b := b + (if item.t.Some? then [1] + F64Bytes(item.t.value) else [0]);
    assert b == buf + ItemBytes(item);
    return Ok(b);
  }

  method SerializeSavedItems(items: seq<SavedItem>) returns (r: Result<seq<byte>, SaveError>)
    ensures r == Serialized(items)
  {
    hide ItemBytes, ItemFits, U16Bytes;
    var buf: seq<byte> := [VERSION];
    if |items| >= 0x1_0000 {
      return Err(SerializeFailed);
    }
    buf := buf + U16Bytes(|items|);
    ghost var head := buf;
    for n := 0 to |items|
      invariant AllFit(items[..n]) && buf == head + ItemsBytes(items[..n])
    {
      var item := items[n];
      assert item in items && items[..n + 1] == items[..n] + [item];
      buf :- AppendItem(buf, item);
      ItemsBytesSnoc(items[..n], item);
    }
    assert items[..|items|] == items;
    if |buf| > MAX_NVS_BLOB {
      return Err(TooLarge(|buf|));
    }
    return Ok(buf);
  }

  // ----- reading -----

  type Read<T> = Result<(T, seq<byte>), LoadError>

  function Take(s: seq<byte>, n: nat): Read<seq<byte>> {
    if |s| < n then Err(UnexpectedEnd) else Ok((s[..n], s[n..]))
  }

  function ReadU8(s: seq<byte>): Read<byte> {
    if s == [] then Err(UnexpectedEnd) else Ok((s[0], s[1..]))
  }

  function ReadU16(s: seq<byte>): Read<nat> {
    if |s| < 2 then Err(UnexpectedEnd) else Ok((s[0] as int + 256 * s[1] as int, s[2..]))
  }

  function ToF64(b: seq<byte>): F64
    requires |b| == 8
  {
    LeBound(b);
    LeValue(b) as F64
  }

  function ReadF64(s: seq<byte>): Read<F64> {
    if |s| < 8 then Err(UnexpectedEnd) else Ok((ToF64(s[..8]), s[8..]))
  }

  function DecodeUtf8(s: seq<byte>): Option<string> {
    if s == [] then Some("")
    else
      var n := CharLen(s[0]);
      if n == 0 || |s| < n || !OneChar(s[..n]) then None
      else
        var rest := DecodeUtf8(s[n..]);
        if rest.None? then None else Some([DecodeChar(s[..n])] + rest.value)
  }

  function ReadText(s: seq<byte>): Read<string> {
    var (n, r) :- ReadU16(s);
    var (b, r') :- Take(r, n);
    var text := DecodeUtf8(b);
    if text.None? then Err(BadUtf8) else Ok((text.value, r'))
  }

  function ReadValue(s: seq<byte>): Read<OmiValue> {
    var (tag, r) :- ReadU8(s);
    match tag
    case 0 => Ok((OmiNull, r))
    case 1 => Ok((OmiBool(false), r))
    case 2 => Ok((OmiBool(true), r))
    case 3 => var (x, r') :- ReadF64(r); Ok((OmiNumber(x), r'))
    case 4 => var (text, r') :- ReadText(r); Ok((OmiStr(text), r'))
    case _ => Err(UnknownTag(tag))
  }

  function ReadStamp(s: seq<byte>): Read<Option<F64>> {
    var (has, r) :- ReadU8(s);
    if has == 1 then
      var (x, r') :- ReadF64(r); Ok((Some(x), r'))
    else Ok((None, r))
  }

  function ReadItem(s: seq<byte>): Read<SavedItem> {
    var (path, r) :- ReadText(s);
    var (v, r') :- ReadValue(r);
    var (t, r'') :- ReadStamp(r');
    Ok((SavedItem(path, v, t), r''))
  }

  function ReadItems(s: seq<byte>, count: nat): Read<seq<SavedItem>>
    decreases count
  {
    if count == 0 then Ok(([], s))
    else
      var (i, r) :- ReadItem(s);
      var (more, r') :- ReadItems(r, count - 1);
      Ok(([i] + more, r'))
  }

  function ReadBlob(s: seq<byte>): Read<seq<SavedItem>> {
    var (version, r) :- ReadU8(s);
    if version != VERSION then Err(UnsupportedVersion(version))
    else
      var (count, r') :- ReadU16(r);
      ReadItems(r', count)
  }

  /** Bytes after the last item are not looked at. */
  function Loaded(s: seq<byte>): Result<seq<SavedItem>, LoadError> {
    var (items, _) :- ReadBlob(s);
    Ok(items)
  }

  // ----- the reader, moving a position over the data -----

  method ReadTextAt(data: seq<byte>, pos: nat) returns (r: Result<(string, nat), LoadError>)
    requires pos <= |data|
    ensures r.Ok? ==> pos <= r.value.1 <= |data| && ReadText(data[pos..]) == Ok((r.value.0, data[r.value.1..]))
    ensures r.Err? ==> ReadText(data[pos..]) == Err(r.error)
  {
    hide DecodeUtf8;
    if pos + 2 > |data| {
      return Err(UnexpectedEnd);
    }
    var len := data[pos] as int + 256 * data[pos + 1] as int;
    var at := pos + 2;
    assert data[pos..][2..] == data[at..];
    if at + len > |data| {
      return Err(UnexpectedEnd);
    }
    assert data[at..][..len] == data[at..at + len] && data[at..][len..] == data[at + len..];
    var text := DecodeUtf8(data[at..at + len]);
    if text.None? {
      return Err(BadUtf8);
    }
    return Ok((text.value, at + len));
  }

  method ReadValueAt(data: seq<byte>, pos: nat) returns (r: Result<(OmiValue, nat), LoadError>)
    requires pos <= |data|
    ensures r.Ok? ==> pos <= r.value.1 <= |data| && ReadValue(data[pos..]) == Ok((r.value.0, data[r.value.1..]))
    ensures r.Err? ==> ReadValue(data[pos..]) == Err(r.error)
  {
    hide ReadText, ToF64;
    if pos >= |data| {
      return Err(UnexpectedEnd);
    }
    var tag, at := data[pos], pos + 1;
    assert data[pos..][1..] == data[at..];
    if tag == 0 {
      return Ok((OmiNull, at));
    } else if tag == 1 {
      return Ok((OmiBool(false), at));
    } else if tag == 2 {
      return Ok((OmiBool(true), at));
    } else if tag == 3 {
      if at + 8 > |data| {
        return Err(UnexpectedEnd);
      }
      assert data[at..][..8] == data[at..at + 8] && data[at..][8..] == data[at + 8..];
      return Ok((OmiNumber(ToF64(data[at..at + 8])), at + 8));
    } else if tag == 4 {
      var text :- ReadTextAt(data, at);
      return Ok((OmiStr(text.0), text.1));
    }
    return Err(UnknownTag(tag));
  }

  method ReadStampAt(data: seq<byte>, pos: nat) returns (r: Result<(Option<F64>, nat), LoadError>)
    requires pos <= |data|
    ensures r.Ok? ==> pos <= r.value.1 <= |data| && ReadStamp(data[pos..]) == Ok((r.value.0, data[r.value.1..]))
    ensures r.Err? ==> ReadStamp(data[pos..]) == Err(r.error)
  {
    hide ToF64;
    if pos >= |data| {
      return Err(UnexpectedEnd);
    }
    var at := pos + 1;
    assert data[pos..][1..] == data[at..];
    if data[pos] != 1 {
      return Ok((None, at));
    }
    if at + 8 > |data| {
      return Err(UnexpectedEnd);
    }
    assert data[at..][..8] == data[at..at + 8] && data[at..][8..] == data[at + 8..];
    return Ok((Some(ToF64(data[at..at + 8])), at + 8));
  }

  method DeserializeSavedItems(data: seq<byte>) returns (r: Result<seq<SavedItem>, LoadError>)
    ensures r == Loaded(data)
  {
    hide ReadText, ReadValue, ReadStamp, ReadItems;
    if |data| == 0 {
      return Err(UnexpectedEnd);
    }
    if data[0] != VERSION {
      return Err(UnsupportedVersion(data[0]));
    }
    if |data| < 3 {
      return Err(UnexpectedEnd);
    }
    var count: nat := data[1] as int + 256 * data[2] as int;
    var pos: nat := 3;
    assert data[1..][2..] == data[3..];
    var items := [];
    ghost var all := ReadItems(data[3..], count);
    AfterNothing(all);
    for i := 0 to count
      invariant pos <= |data|
      invariant all == After(items, ReadItems(data[pos..], count - i))
    {
      ReadItemsStep(data[pos..], count - i);
      var path :- ReadTextAt(data, pos);
      var v :- ReadValueAt(data, path.1);
      var t :- ReadStampAt(data, v.1);
      var item := SavedItem(path.0, v.0, t.0);
      AfterStep(items, item, ReadItems(data[t.1..], count - i - 1));
      items := items + [item];
      pos := t.1;
    }
    ReadItemsNone(data[pos..]);
    assert items + [] == items;
    return Ok(items);
  }

  function After(items: seq<SavedItem>, r: Read<seq<SavedItem>>): Read<seq<SavedItem>> {
    if r.Err? then r else Ok((items + r.value.0, r.value.1))
  }

  lemma AfterStep(items: seq<SavedItem>, i: SavedItem, r: Read<seq<SavedItem>>)
    ensures After(items, After([i], r)) == After(items + [i], r)
  {
    if r.Ok? {
      assert items + ([i] + r.value.0) == items + [i] + r.value.0;
    }
  }

  lemma AfterNothing(r: Read<seq<SavedItem>>)
    ensures After([], r) == r
  {
    if r.Ok? {
      assert [] + r.value.0 == r.value.0;
    }
  }

  lemma ReadItemsStep(s: seq<byte>, count: nat)
    requires count > 0
    ensures ReadItems(s, count) == match ReadItem(s) case Err(e) => Err(e) case Ok((i, rest)) => After([i], ReadItems(rest, count - 1))
  {
  }

  lemma ReadItemsNone(s: seq<byte>)
    ensures ReadItems(s, 0) == Ok(([], s))
  {
  }

  // ----- little-endian words and text -----

  lemma {:induction false} LeBound(b: seq<byte>)
    ensures |b| == 0 ==> LeValue(b) == 0
    ensures |b| == 8 ==> LeValue(b) < 0x1_0000_0000_0000_0000
  {
    if |b| == 8 {
      LeBelow(b[4..], 4);
      var hi := LeValue(b[4..]);
      assert LeValue(b[3..]) == b[3] + 256 * hi by { assert b[3..][1..] == b[4..]; }
      assert LeValue(b[2..]) == b[2] + 256 * LeValue(b[3..]) by { assert b[2..][1..] == b[3..]; }
      assert LeValue(b[1..]) == b[1] + 256 * LeValue(b[2..]) by { assert b[1..][1..] == b[2..]; }
    }
  }

  lemma LeBelow(b: seq<byte>, k: nat)
    requires |b| == 4
    ensures LeValue(b) < 0x1_0000_0000
  {
    assert LeValue(b[3..]) == b[3] by { assert b[3..][1..] == []; }
    assert LeValue(b[2..]) == b[2] + 256 * LeValue(b[3..]) by { assert b[2..][1..] == b[3..]; }
    assert LeValue(b[1..]) == b[1] + 256 * LeValue(b[2..]) by { assert b[1..][1..] == b[2..]; }
  }

  function Power256(k: nat): nat { if k == 0 then 1 else 256 * Power256(k - 1) }

  lemma {:induction false} LeRoundTrip(n: nat, k: nat)
    requires n < Power256(k)
    ensures |LeBytes(n, k)| == k && LeValue(LeBytes(n, k)) == n
    decreases k
  {
    if k > 0 {
      assert n / 256 < Power256(k - 1);
      LeRoundTrip(n / 256, k - 1);
      assert LeBytes(n, k)[1..] == LeBytes(n / 256, k - 1);
    }
  }

  lemma F64RoundTrip(x: F64)
    ensures |F64Bytes(x)| == 8 && ToF64(F64Bytes(x)) == x
  {
    assert Power256(8) == 0x1_0000_0000_0000_0000;
    LeRoundTrip(x as int, 8);
  }

  lemma {:induction false} TextRoundTrip(s: string)
    ensures DecodeUtf8(Encode(s)) == Some(s)
    decreases |s|
  {
    hide OneChar, EncodeChar, DecodeChar, CharLen;
    if s != "" {
      var e, n := EncodeChar(s[0]), |EncodeChar(s[0])|;
      EncodeDecode(s[0]);
      NotNothing(e);
      TextRoundTrip(s[1..]);
      assert Encode(s)[..n] == e && Encode(s)[n..] == Encode(s[1..]);
      assert s == [s[0]] + s[1..];
    }
  }

  lemma NotNothing(e: seq<byte>)
    requires OneChar(e)
    ensures e != []
  {
  }

  // ----- round trip, and no shorter form is read -----

  lemma TextRead(s: string, rest: seq<byte>)
    requires TextFits(s)
    ensures ReadText(TextBytes(s) + rest) == Ok((s, rest))
  {
    hide Encode, DecodeUtf8;
    var e, all := Encode(s), TextBytes(s) + rest;
    TextRoundTrip(s);
    assert all[2..] == e + rest;
    assert (e + rest)[..|e|] == e && (e + rest)[|e|..] == rest;
  }

  lemma TextCut(s: string, k: nat)
    requires TextFits(s) && k < |TextBytes(s)|
    ensures ReadText(TextBytes(s)[..k]) == Err(UnexpectedEnd)
  {
    hide Encode, DecodeUtf8;
  }

  lemma ValueRead(v: OmiValue, rest: seq<byte>)
    requires v.OmiStr? ==> TextFits(v.s)
    ensures ReadValue(ValueBytes(v) + rest) == Ok((v, rest))
  {
    hide TextBytes, ReadText, F64Bytes, ToF64;
    var all := ValueBytes(v) + rest;
    if v.OmiNumber? {
      F64RoundTrip(v.n);
      assert all[1..] == F64Bytes(v.n) + rest;
      assert all[1..][..8] == F64Bytes(v.n) && all[1..][8..] == rest;
    } else if v.OmiStr? {
      TextRead(v.s, rest);
      assert all[1..] == TextBytes(v.s) + rest;
    } else {
      assert all[1..] == rest;
    }
  }

  lemma ValueCut(v: OmiValue, k: nat)
    requires (v.OmiStr? ==> TextFits(v.s)) && k < |ValueBytes(v)|
    ensures ReadValue(ValueBytes(v)[..k]) == Err(UnexpectedEnd)
  {
    hide TextBytes, ReadText, F64Bytes, ToF64;
    var cut := ValueBytes(v)[..k];
    if k > 0 {
      if v.OmiNumber? {
        F64RoundTrip(v.n);
      } else {
        TextCut(v.s, k - 1);
        assert cut[1..] == TextBytes(v.s)[..k - 1];
      }
    }
  }

  lemma StampRead(t: Option<F64>, rest: seq<byte>)
    ensures ReadStamp(StampBytes(t) + rest) == Ok((t, rest))
  {
    hide F64Bytes, ToF64;
    var all := StampBytes(t) + rest;
    if t.Some? {
      F64RoundTrip(t.value);
      assert all[1..] == F64Bytes(t.value) + rest;
      assert all[1..][..8] == F64Bytes(t.value) && all[1..][8..] == rest;
    } else {
      assert all[1..] == rest;
    }
  }

  lemma StampCut(t: Option<F64>, k: nat)
    requires k < |StampBytes(t)|
    ensures ReadStamp(StampBytes(t)[..k]) == Err(UnexpectedEnd)
  {
    hide F64Bytes, ToF64;
    if k > 0 {
      F64RoundTrip(t.value);
    }
  }

  lemma ItemRead(i: SavedItem, rest: seq<byte>)
    requires ItemFits(i)
    ensures ReadItem(ItemBytes(i) + rest) == Ok((i, rest))
  {
    hide TextFits, TextBytes, ValueBytes, StampBytes, ReadText, ReadValue, ReadStamp;
    var a, b, c := TextBytes(i.path), ValueBytes(i.v), StampBytes(i.t);
    assert ItemBytes(i) + rest == a + (b + (c + rest));
    TextRead(i.path, b + (c + rest));
    ValueRead(i.v, c + rest);
    StampRead(i.t, rest);
  }

  lemma ItemCut(i: SavedItem, k: nat)
    requires ItemFits(i) && k < |ItemBytes(i)|
    ensures ReadItem(ItemBytes(i)[..k]) == Err(UnexpectedEnd)
  {
    hide TextFits, TextBytes, ValueBytes, StampBytes, ReadText, ReadValue, ReadStamp;
    var a, b, c := TextBytes(i.path), ValueBytes(i.v), StampBytes(i.t);
    var cut := ItemBytes(i)[..k];
    if k < |a| {
      assert cut == a[..k];
      TextCut(i.path, k);
    } else if k < |a| + |b| {
      assert cut == a + b[..k - |a|];
      TextRead(i.path, b[..k - |a|]);
      ValueCut(i.v, k - |a|);
    } else {
      assert cut == a + (b + c[..k - |a| - |b|]);
      TextRead(i.path, b + c[..k - |a| - |b|]);
      ValueRead(i.v, c[..k - |a| - |b|]);
      StampCut(i.t, k - |a| - |b|);
    }
  }

  lemma {:induction false} ItemsRead(items: seq<SavedItem>, rest: seq<byte>)
    requires AllFit(items)
    ensures ReadItems(ItemsBytes(items) + rest, |items|) == Ok((items, rest))
    decreases |items|
  {
    hide ReadItem, ItemBytes, ItemFits;
    if items == [] {
      assert ItemsBytes(items) + rest == rest;
    } else {
      assert items[0] in items && items == [items[0]] + items[1..];
      assert ItemsBytes(items) + rest == ItemBytes(items[0]) + (ItemsBytes(items[1..]) + rest);
      ItemRead(items[0], ItemsBytes(items[1..]) + rest);
      ItemsRead(items[1..], rest);
    }
  }

  lemma {:induction false} ItemsCut(items: seq<SavedItem>, k: nat)
    requires AllFit(items) && k < |ItemsBytes(items)|
    ensures ReadItems(ItemsBytes(items)[..k], |items|) == Err(UnexpectedEnd)
    decreases |items|
  {
    hide ReadItem, ItemBytes, ItemFits;
    var a := ItemBytes(items[0]);
    assert items[0] in items;
    if k < |a| {
      assert ItemsBytes(items)[..k] == a[..k];
      ItemCut(items[0], k);
    } else {
      assert ItemsBytes(items)[..k] == a + ItemsBytes(items[1..])[..k - |a|];
      ItemRead(items[0], ItemsBytes(items[1..])[..k - |a|]);
      ItemsCut(items[1..], k - |a|);
    }
  }

  lemma U16Read(n: nat, rest: seq<byte>)
    requires n < 0x1_0000
    ensures ReadU16(U16Bytes(n) + rest) == Ok((n, rest))
  {
    assert (U16Bytes(n) + rest)[2..] == rest;
  }

  /** What was saved is what is loaded, whatever follows it in the partition. */
  lemma LoadedIsSaved(items: seq<SavedItem>, after: seq<byte>)
    requires Serialized(items).Ok?
    ensures Loaded(Serialized(items).value + after) == Ok(items)
  {
    hide ItemsBytes, ReadItems, U16Bytes, ReadU16, ItemFits;
    var s, body := Serialized(items).value + after, ItemsBytes(items);
    assert s[1..] == U16Bytes(|items|) + (body + after);
    U16Read(|items|, body + after);
    ItemsRead(items, after);
  }

  /** Every strict prefix of a blob is rejected as too short. */
  lemma PrefixRejected(items: seq<SavedItem>, k: nat)
    requires Serialized(items).Ok? && k < |Serialized(items).value|
    ensures Loaded(Serialized(items).value[..k]) == Err(UnexpectedEnd)
  {
    hide ItemsBytes, ReadItems, ItemFits;
    var blob, body := Serialized(items).value, ItemsBytes(items);
    var s := blob[..k];
    if k >= 3 {
      assert s[1..] == U16Bytes(|items|) + body[..k - 3];
      U16Read(|items|, body[..k - 3]);
      ItemsCut(items, k - 3);
    } else if k > 0 {
      assert |s[1..]| < 2;
    }
  }

  /** So two lists with the same blob are the same list. */
  lemma SavedInjective(a: seq<SavedItem>, b: seq<SavedItem>)
    requires Serialized(a).Ok? && Serialized(a) == Serialized(b)
    ensures a == b
  {
    hide Serialized, Loaded;
    LoadedIsSaved(a, []);
    LoadedIsSaved(b, []);
  }

  // ----- where every byte stands -----

  /** Least significant byte first. */
  function Two(low: byte, high: byte): nat { low as int + 0x100 * high as int }

  function Eight(b: seq<byte>): nat
    requires |b| == 8
  {
    Two(b[0], b[1]) + 0x1_0000 * Two(b[2], b[3]) + 0x1_0000_0000 * Two(b[4], b[5]) + 0x1_0000_0000_0000 * Two(b[6], b[7])
  }

  lemma TwoIs(n: nat, k: nat)
    ensures LeBytes(n, k + 2) == [n % 256, n / 256 % 256] + LeBytes(n / 0x1_0000, k)
    ensures Two(n % 256, n / 256 % 256) == n % 0x1_0000
  {
    assert n / 256 / 256 == n / 0x1_0000;
    assert LeBytes(n, k + 2) == [n % 256] + LeBytes(n / 256, k + 1);
    assert LeBytes(n / 256, k + 1) == [n / 256 % 256] + LeBytes(n / 0x1_0000, k);
  }

  lemma EightIs(n: nat)
    requires n < 0x1_0000_0000_0000_0000
    ensures |LeBytes(n, 8)| == 8 && Eight(LeBytes(n, 8)) == n
  {
    hide Two, LeBytes;
    LeLength(n, 8);
    var n2 := n / 0x1_0000;
    var n4 := n2 / 0x1_0000;
    var n6 := n4 / 0x1_0000;
    TwoIs(n, 6);
    TwoIs(n2, 4);
    TwoIs(n4, 2);
    TwoIs(n6, 0);
  }

  lemma {:induction false} LeLength(n: nat, k: nat)
    ensures |LeBytes(n, k)| == k
    decreases k
  {
    if k > 0 {
      LeLength(n / 256, k - 1);
    }
  }

  /** The bytes of one item, place by place, as the wire format says. */
  lemma ItemLayout(i: SavedItem)
    requires ItemFits(i)
    ensures var b, n := ItemBytes(i), |Encode(i.path)|;
      && |b| >= n + 4
      && Two(b[0], b[1]) == n && b[2..n + 2] == Encode(i.path)
      && b[n + 2] == (match i.v
                      case OmiNull => 0
                      case OmiBool(x) => if x then 2 else 1
                      case OmiNumber(_) => 3
                      case OmiStr(_) => 4)
      && var end := n + 3 + (if i.v.OmiNumber? then 8 else if i.v.OmiStr? then 2 + |Encode(i.v.s)| else 0);
         && end < |b|
         && (i.v.OmiNumber? ==> Eight(b[n + 3..n + 11]) == i.v.n as int)
         && (i.v.OmiStr? ==> Two(b[n + 3], b[n + 4]) == |Encode(i.v.s)| && b[n + 5..end] == Encode(i.v.s))
         && b[end] == (if i.t.Some? then 1 else 0)
         && |b| == end + (if i.t.Some? then 9 else 1)
         && (i.t.Some? ==> Eight(b[end + 1..]) == i.t.value as int)
  {
    hide Encode, LeBytes, Eight;
    var b, n := ItemBytes(i), |Encode(i.path)|;
    var head, value, stamp := TextBytes(i.path), ValueBytes(i.v), StampBytes(i.t);
    assert |head| == n + 2 && head[2..] == Encode(i.path);
    if i.v.OmiNumber? {
      EightIs(i.v.n as int);
      assert value[1..] == F64Bytes(i.v.n);
      assert b[n + 3..n + 11] == value[1..];
    }
    if i.v.OmiStr? {
      assert value[3..] == Encode(i.v.s);
      assert b[n + 5..n + 2 + |value|] == value[3..];
    }
    if i.t.Some? {
      EightIs(i.t.value as int);
      assert stamp[1..] == F64Bytes(i.t.value);
      assert b[n + 3 + |value|..] == stamp[1..];
    }
    assert b[2..n + 2] == head[2..];
  }

  /** A blob: the version, the number of items, and the items one behind the other. */
  lemma BlobLayout(items: seq<SavedItem>, i: SavedItem)
    requires AllFit(items) && ItemFits(i) && |items| + 1 < 0x1_0000
    ensures Blob([]) == [1, 0, 0] && AllFit(items + [i])
    ensures var b := Blob(items + [i]);
            |b| >= 3 && b[0] == 1 && Two(b[1], b[2]) == |items| + 1 && b[3..] == Blob(items)[3..] + ItemBytes(i)
  {
    hide ItemBytes, ItemFits, ItemsBytes;
    ItemsBytesSnoc(items, i);
    NoItems();
  }

  lemma NoItems()
    ensures ItemsBytes([]) == []
  {
  }
}
