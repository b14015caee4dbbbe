/**
  * NIP-19 entities: the type-length-value codec, hex, and the nprofile / nevent / naddr bodies.
  *
  * Strings inside entries (relay URLs, identifiers) are their UTF-8 bytes, and bech32 is taken as an
  * inverse pair, so an entity is its TLV byte string.  `validUrl` stands for the relay URL check.
  */
module Nip19 {
  import opened Wrappers
  import opened ByteStrings

  const MaxEntries: nat := 20
  const MaxRelayLength: nat := 512
  const MaxIdentifierLength: nat := 1024

  const Special: nat := 0
  const Relay: nat := 1
  const Author: nat := 2
  const Kind: nat := 3

  datatype Entry = Entry(typ: nat, value: Bytes)

  // ---------------------------------------------------------------- TLV

  /** Typed-array stores keep the low eight bits. */
  function EncodeEntry(e: Entry): Bytes {
    [e.typ % 256, |e.value| % 256] + e.value
  }

  function EncodeEntries(entries: seq<Entry>): Bytes {
    if entries == [] then [] else EncodeEntry(entries[0]) + EncodeEntries(entries[1..])
  }

  /** At most `room` entries; a single byte left at the end is ignored. */
  function DecodeEntries(data: Bytes, room: nat): Result<seq<Entry>>
    decreases |data|
  {
    if |data| < 2 then Ok([])
    else
      var end := data[1] as nat + 2;
      if end > |data| || room == 0 then Err
      else match DecodeEntries(data[end..], room - 1)
        case Err => Err
        case Ok(rest) => Ok([Entry(data[0], data[2..end])] + rest)
  }

  function DecodeTlv(data: Bytes): Result<seq<Entry>> {
    DecodeEntries(data, MaxEntries)
  }

  predicate FitsOneByte(e: Entry) {
    e.typ < 256 && |e.value| < 256
  }

  ghost predicate Codable(entries: seq<Entry>, room: nat) {
    |entries| <= room && forall i :: 0 <= i < |entries| ==> FitsOneByte(entries[i])
  }

  lemma {:induction false} DecodeInvertsEncode(entries: seq<Entry>, room: nat)
    requires Codable(entries, room)
    ensures DecodeEntries(EncodeEntries(entries), room) == Ok(entries)
    decreases |entries|
  {
    if entries == [] {
    } else {
      DecodeInvertsEncode(entries[1..], room - 1);
      FirstDecoded(entries[0], EncodeEntries(entries[1..]), room);
      assert entries == [entries[0]] + entries[1..];
    }
  }

  lemma {:induction false} FirstDecoded(e: Entry, rest: Bytes, room: nat)
    requires FitsOneByte(e) && room > 0 && DecodeEntries(rest, room - 1).Ok?
    ensures DecodeEntries(EncodeEntry(e) + rest, room) == Ok([e] + DecodeEntries(rest, room - 1).value)
  {
    FirstEntry(e, rest);
  }

  lemma {:induction false} FirstEntry(e: Entry, rest: Bytes)
    requires FitsOneByte(e)
    ensures var data := EncodeEntry(e) + rest;
            var end := 2 + |e.value|;
            data[0] == e.typ && data[1] == |e.value| && data[2..end] == e.value && data[end..] == rest
  {
  }

  /** Whatever is decoded fits, and encodes to the input or the input without its last byte. */
  lemma {:induction false} EncodeAfterDecode(data: Bytes, room: nat)
    requires DecodeEntries(data, room).Ok?
    ensures var entries := DecodeEntries(data, room).value;
            Codable(entries, room)
            && |data| - 1 <= |EncodeEntries(entries)| <= |data|
            && EncodeEntries(entries) == data[..|EncodeEntries(entries)|]
    decreases |data|
  {
    if |data| < 2 {
    } else {
      var end := data[1] as nat + 2;
      DecodedHead(data, room);
      EncodeAfterDecode(data[end..], room - 1);
      EncodedHead(data, end, DecodeEntries(data[end..], room - 1).value);
    }
  }

  lemma {:induction false} DecodedHead(data: Bytes, room: nat)
    requires |data| >= 2 && DecodeEntries(data, room).Ok?
    ensures var end := data[1] as nat + 2;
            && end <= |data| && room > 0 && DecodeEntries(data[end..], room - 1).Ok?
            && DecodeEntries(data, room).value
                 == [Entry(data[0], data[2..end])] + DecodeEntries(data[end..], room - 1).value
  {
  }

  lemma {:induction false} EncodedHead(data: Bytes, end: nat, rest: seq<Entry>)
    requires |data| >= 2 && end == data[1] as nat + 2 <= |data|
    requires |EncodeEntries(rest)| <= |data| - end && EncodeEntries(rest) == data[end..][..|EncodeEntries(rest)|]
    ensures var es := [Entry(data[0], data[2..end])] + rest;
            |EncodeEntries(es)| == end + |EncodeEntries(rest)| && EncodeEntries(es) == data[..|EncodeEntries(es)|]
  {
    var first, tail := Entry(data[0], data[2..end]), EncodeEntries(rest);
    assert ([first] + rest)[1..] == rest;
    assert EncodeEntry(first) == data[..end];
    assert data[..end] + data[end..][..|tail|] == data[..end + |tail|];
  }

  /** The codec round trip, and exactly when it holds: at most 20 entries of at most 255 bytes each. */
  lemma {:induction false} TlvRoundTrip(entries: seq<Entry>)
    ensures DecodeTlv(EncodeEntries(entries)) == Ok(entries) <==> Codable(entries, MaxEntries)
  {
    if Codable(entries, MaxEntries) { DecodeInvertsEncode(entries, MaxEntries); }
    if DecodeTlv(EncodeEntries(entries)) == Ok(entries) { EncodeAfterDecode(EncodeEntries(entries), MaxEntries); }
  }

  /** encodeTLV: total length first, then the entries at a moving offset. */
  method EncodeTlv(entries: seq<Entry>) returns (bytes: Bytes)
    ensures bytes == EncodeEntries(entries)
  {
    var totalLength := 0;
    for i := 0 to |entries|
      invariant totalLength == |EncodeEntries(entries[..i])|
    {
      EncodeSnoc(entries[..i], entries[i]);
      assert entries[..i + 1] == entries[..i] + [entries[i]];
      totalLength := totalLength + 2 + |entries[i].value|;
    }
    assert entries[..|entries|] == entries;
    var result := new Byte[totalLength](_ => 0);
    var offset := 0;
    for i := 0 to |entries|
      invariant offset == |EncodeEntries(entries[..i])|
      invariant offset + |EncodeEntries(entries[i..])| == result.Length
      invariant result[..offset] == EncodeEntries(entries[..i])
    {
      assert entries[i..][1..] == entries[i + 1..];
      EncodeSnoc(entries[..i], entries[i]);
      assert entries[..i + 1] == entries[..i] + [entries[i]];
      offset := WriteEntry(result, offset, entries[i]);
    }
    bytes := result[..];
    assert result[..offset] == result[..];
  }

  lemma {:induction false} EncodeSnoc(entries: seq<Entry>, e: Entry)
    ensures EncodeEntries(entries + [e]) == EncodeEntries(entries) + EncodeEntry(e)
  {
    if entries == [] {
      assert [e][1..] == [] && [] + [e] == [e];
    } else {
      assert (entries + [e])[1..] == entries[1..] + [e];
      EncodeSnoc(entries[1..], e);
    }
  }

  method WriteEntry(result: array<Byte>, start: nat, e: Entry) returns (offset: nat)
    requires start + 2 + |e.value| <= result.Length
    modifies result
    ensures offset == start + 2 + |e.value|
    ensures result[..offset] == old(result[..start]) + EncodeEntry(e)
  {
    result[start] := e.typ % 256;
    result[start + 1] := |e.value| % 256;
    offset := start + 2;
    for k := 0 to |e.value|
      invariant result[..start] == old(result[..start])
      invariant result[start] == e.typ % 256 && result[start + 1] == |e.value| % 256
      invariant result[offset..offset + k] == e.value[..k]
    {
      result[offset + k] := e.value[k];
    }
    var end := offset + |e.value|;
    assert result[..end] == result[..start] + [result[start], result[start + 1]] + result[offset..end];
    offset := end;
  }

  /** The entries read before the offset, and what the rest decodes to, make up the whole. */
  ghost predicate ReadSoFar(data: Bytes, entries: seq<Entry>, offset: nat) {
    && offset <= |data| && |entries| <= MaxEntries
    && DecodeTlv(data) == Join(entries, DecodeEntries(data[offset..], MaxEntries - |entries|))
  }

  /** decodeTLV: entries pushed while at least two bytes remain. */
  method ReadTlv(data: Bytes) returns (r: Result<seq<Entry>>)
    ensures r == DecodeTlv(data)
  {
    var entries: seq<Entry> := [];
    var offset := 0;
    JoinNothing(data);
    while offset < |data| - 1
      invariant ReadSoFar(data, entries, offset)
    {
      ReadOne(data, entries, offset);
      var typ := data[offset];
      var length := data[offset + 1] as nat;
      if offset + 2 + length > |data| { return Err; }
      var value := data[offset + 2..offset + 2 + length];
      if |entries| >= MaxEntries { return Err; }
      entries := entries + [Entry(typ, value)];
      offset := offset + 2 + length;
    }
    AllRead(data, entries, offset);
    r := Ok(entries);
  }

  lemma {:induction false} ReadOne(data: Bytes, entries: seq<Entry>, offset: nat)
    requires ReadSoFar(data, entries, offset) && offset + 2 <= |data|
    ensures var end := offset + 2 + data[offset + 1] as nat;
            if end > |data| || |entries| >= MaxEntries then DecodeTlv(data) == Err
            else ReadSoFar(data, entries + [Entry(data[offset], data[offset + 2..end])], end)
  {
    var end := offset + 2 + data[offset + 1] as nat;
    DecodeStep(data, offset, MaxEntries - |entries|);
    if end <= |data| && |entries| < MaxEntries {
      var entry, room := Entry(data[offset], data[offset + 2..end]), MaxEntries - |entries| - 1;
      var rest := DecodeEntries(data[end..], room);
      assert MaxEntries - |entries + [entry]| == room;
      assert DecodeTlv(data) == Join(entries, Join([entry], rest));
      JoinStep(entries, entry, rest);
    }
  }

  lemma {:induction false} AllRead(data: Bytes, entries: seq<Entry>, offset: nat)
    requires ReadSoFar(data, entries, offset) && |data| < offset + 2
    ensures DecodeTlv(data) == Ok(entries)
  {
    assert DecodeEntries(data[offset..], MaxEntries - |entries|) == Ok([]);
    assert entries + [] == entries;
  }

  function Join(done: seq<Entry>, rest: Result<seq<Entry>>): Result<seq<Entry>> {
    match rest case Err => Err case Ok(more) => Ok(done + more)
  }

  lemma {:induction false} JoinNothing(data: Bytes)
    ensures Join([], DecodeEntries(data[0..], MaxEntries)) == DecodeTlv(data)
  {
    assert data[0..] == data;
    if DecodeTlv(data).Ok? { assert [] + DecodeTlv(data).value == DecodeTlv(data).value; }
  }

  lemma {:induction false} DecodeStep(data: Bytes, offset: nat, room: nat)
    requires offset + 2 <= |data|
    ensures var end := offset + 2 + data[offset + 1] as nat;
      DecodeEntries(data[offset..], room) ==
        if end > |data| || room == 0 then Err
        else Join([Entry(data[offset], data[offset + 2..end])], DecodeEntries(data[end..], room - 1))
  {
    var rest, length := data[offset..], data[offset + 1] as nat;
    if offset + 2 + length <= |data| {
      assert rest[2..2 + length] == data[offset + 2..offset + 2 + length];
      assert rest[2 + length..] == data[offset + 2 + length..];
    }
  }

  lemma {:induction false} JoinStep(done: seq<Entry>, e: Entry, rest: Result<seq<Entry>>)
    ensures Join(done, Join([e], rest)) == Join(done + [e], rest)
  {
    if rest.Ok? { assert done + ([e] + rest.value) == done + [e] + rest.value; }
  }

  // ---------------------------------------------------------------- hex

  predicate IsHexDigit(c: char) {
    '0' <= c <= '9' || 'a' <= c <= 'f' || 'A' <= c <= 'F'
  }

  function HexValue(c: char): (v: nat)
    requires IsHexDigit(c)
    ensures v < 16
  {
    if '0' <= c <= '9' then c as int - 48 else if 'a' <= c <= 'f' then c as int - 87 else c as int - 55
  }

  function HexDigit(v: nat): (c: char)
    requires v < 16
    ensures IsHexDigit(c) && HexValue(c) == v
  {
    if v < 10 then '0' + v as char else 'a' + (v - 10) as char
  }

  predicate IsHex(s: string) {
    s != "" && |s| % 2 == 0 && forall i :: 0 <= i < |s| ==> IsHexDigit(s[i])
  }

  function ParseHex(s: string): (r: Bytes)
    requires |s| % 2 == 0 && forall i :: 0 <= i < |s| ==> IsHexDigit(s[i])
    ensures |r| == |s| / 2
  {
    if s == "" then [] else [HexValue(s[0]) * 16 + HexValue(s[1])] + ParseHex(s[2..])
  }

  function HexToBytes(s: string): Result<Bytes> {
    if IsHex(s) then Ok(ParseHex(s)) else Err
  }

  function BytesToHex(b: Bytes): (r: string)
    ensures |r| == 2 * |b|
  {
    if b == [] then "" else [HexDigit(b[0] / 16), HexDigit(b[0] % 16)] + BytesToHex(b[1..])
  }

  function LowerChar(c: char): char {
    if 'A' <= c <= 'F' then c + 32 as char else c
  }

  function Lower(s: string): (r: string)
    ensures |r| == |s|
  {
    if s == "" then "" else [LowerChar(s[0])] + Lower(s[1..])
  }

  lemma {:induction false} HexOfParsedDigits(a: char, b: char)
    requires IsHexDigit(a) && IsHexDigit(b)
    ensures var v := HexValue(a) * 16 + HexValue(b);
            v < 256 && HexDigit(v / 16) == LowerChar(a) && HexDigit(v % 16) == LowerChar(b)
  {
  }

  /** Hex text comes back in lower case. */
  lemma {:induction false} HexRoundTrip(s: string)
    requires |s| % 2 == 0 && forall i :: 0 <= i < |s| ==> IsHexDigit(s[i])
    ensures BytesToHex(ParseHex(s)) == Lower(s)
    decreases |s|
  {
    if s == "" {
    } else {
      HexRoundTrip(s[2..]);
      HexOfParsedDigits(s[0], s[1]);
      assert Lower(s) == [LowerChar(s[0])] + ([LowerChar(s[1])] + Lower(s[1..][1..]));
      assert s[1..][1..] == s[2..];
    }
  }

  /** The loop of hexToBytes. */
  method ReadHex(hex: string) returns (r: Result<Bytes>)
    ensures r == HexToBytes(hex)
  {
    if |hex| == 0 || |hex| % 2 != 0 || exists i :: 0 <= i < |hex| && !IsHexDigit(hex[i]) { return Err; }
    var bytes := ReadDigits(hex);
    r := Ok(bytes);
  }

  method ReadDigits(hex: string) returns (r: Bytes)
    requires |hex| % 2 == 0 && forall k :: 0 <= k < |hex| ==> IsHexDigit(hex[k])
    ensures r == ParseHex(hex)
  {
    var bytes := new Byte[|hex| / 2](_ => 0);
    assert hex[0..] == hex;
    for i := 0 to bytes.Length
      invariant bytes[..i] + ParseHex(hex[2 * i..]) == ParseHex(hex)
    {
      ghost var done := bytes[..i];
      HexStep(hex, i, done);
      bytes[i] := HexValue(hex[2 * i]) * 16 + HexValue(hex[2 * i + 1]);
      assert bytes[..i + 1] == done + [bytes[i]];
    }
    assert bytes[..bytes.Length] == bytes[..] && hex[2 * bytes.Length..] == "";
    assert bytes[..] + [] == bytes[..];
    r := bytes[..];
  }

  lemma {:induction false} HexStep(hex: string, i: nat, done: Bytes)
    requires |hex| % 2 == 0 && 2 * i + 1 < |hex| && forall k :: 0 <= k < |hex| ==> IsHexDigit(hex[k])
    ensures done + ParseHex(hex[2 * i..])
         == done + [HexValue(hex[2 * i]) * 16 + HexValue(hex[2 * i + 1])] + ParseHex(hex[2 * (i + 1)..])
  {
    assert hex[2 * i..][2..] == hex[2 * (i + 1)..];
  }

  /** The loop of bytesToHex. */
  method WriteHex(bytes: Bytes) returns (hex: string)
    ensures hex == BytesToHex(bytes)
  {
    hex := "";
    assert bytes[0..] == bytes;
    for i := 0 to |bytes|
      invariant hex + BytesToHex(bytes[i..]) == BytesToHex(bytes)
    {
      assert bytes[i..][1..] == bytes[i + 1..];
      hex := hex + [HexDigit(bytes[i] / 16), HexDigit(bytes[i] % 16)];
    }
  }

  // ---------------------------------------------------------------- entities

  type Url = Bytes

  datatype Profile = Profile(pubkey: string, relays: Option<seq<Url>>)
  datatype Pointer = Pointer(id: string, relays: Option<seq<Url>>, author: Option<string>, kind: Option<nat>)
  datatype Address = Address(identifier: Bytes, pubkey: string, kind: int, relays: Option<seq<Url>>)

  function RelayList(relays: Option<seq<Url>>): seq<Url> {
    if relays.Some? then relays.value else []
  }

  /** An absent list and an empty one are not told apart. */
  function NonEmptyList(relays: seq<Url>): Option<seq<Url>> {
    if relays == [] then None else Some(relays)
  }

  function RelayEntries(relays: seq<Url>): (r: seq<Entry>)
    ensures |r| == |relays| && forall i :: 0 <= i < |r| ==> r[i] == Entry(Relay, relays[i])
  {
    seq(|relays|, i requires 0 <= i < |relays| => Entry(Relay, relays[i]))
  }

  predicate RelaysAllowed(valid: Url -> bool, relays: seq<Url>, limit: nat) {
    |relays| <= limit && forall i :: 0 <= i < |relays| ==> |relays[i]| <= MaxRelayLength && valid(relays[i])
  }

  function ProfileEntries(valid: Url -> bool, p: Profile): Result<seq<Entry>> {
    if |p.pubkey| != 64 || !IsHex(p.pubkey) || !RelaysAllowed(valid, RelayList(p.relays), MaxEntries - 1) then Err
    else Ok([Entry(Special, ParseHex(p.pubkey))] + RelayEntries(RelayList(p.relays)))
  }

  /** An empty author counts as none; the kind is not encoded. */
  function HasAuthor(p: Pointer): bool {
    p.author.Some? && p.author.value != ""
  }

  function PointerEntries(valid: Url -> bool, p: Pointer): Result<seq<Entry>> {
    if |p.id| != 64 || !IsHex(p.id) || !RelaysAllowed(valid, RelayList(p.relays), MaxEntries - 3) then Err
    else if HasAuthor(p) && (|p.author.value| != 64 || !IsHex(p.author.value)) then Err
    else Ok([Entry(Special, ParseHex(p.id))] + RelayEntries(RelayList(p.relays))
            + if HasAuthor(p) then [Entry(Author, ParseHex(p.author.value))] else [])
  }

  /** Conversion to a signed 32-bit integer, as the operand of a shift. */
  function ToInt32(x: int): int {
    var u := x % 0x1_0000_0000;
    if u < 0x8000_0000 then u else u - 0x1_0000_0000
  }

  function ShiftRight(x: int, power: nat): int
    requires power > 0
  {
    ToInt32(x) / power
  }

  function LowByte(x: int): Byte {
    ToInt32(x) % 256
  }

  function KindBytes(kind: int): (r: Bytes)
    ensures |r| == 4
  {
    [LowByte(ShiftRight(kind, 0x100_0000)), LowByte(ShiftRight(kind, 0x1_0000)), LowByte(ShiftRight(kind, 0x100)), LowByte(kind)]
  }

  function KindOf(b: Bytes): int
    requires |b| == 4
  {
    ToInt32(b[0] as int * 0x100_0000) + ToInt32(b[1] as int * 0x1_0000) + ToInt32(b[2] as int * 0x100) + b[3] as int
  }

  function AddressEntries(valid: Url -> bool, a: Address): Result<seq<Entry>> {
    if a.identifier == [] || |a.pubkey| != 64 || a.kind < 0 || a.kind > 0xffff_ffff then Err
    else if |a.identifier| > MaxIdentifierLength || !RelaysAllowed(valid, RelayList(a.relays), MaxEntries - 3) then Err
    else if !IsHex(a.pubkey) then Err
    else Ok([Entry(Special, a.identifier)] + RelayEntries(RelayList(a.relays))
            + [Entry(Author, ParseHex(a.pubkey)), Entry(Kind, KindBytes(a.kind))])
  }

  function Body(entries: Result<seq<Entry>>): Result<Bytes> {
    match entries case Err => Err case Ok(es) => Ok(EncodeEntries(es))
  }

  /** The loop of decodeProfile over the entries still to read. */
  function ReadProfile(es: seq<Entry>, pubkey: Option<string>, relays: seq<Url>): Result<Profile> {
    if es == [] then (if pubkey.None? then Err else Ok(Profile(pubkey.value, NonEmptyList(relays))))
    else
      var e := es[0];
      if e.typ == Special then
        if |e.value| != 32 then Err else ReadProfile(es[1..], Some(BytesToHex(e.value)), relays)
      else if e.typ == Relay then ReadProfile(es[1..], pubkey, relays + [e.value])
      else ReadProfile(es[1..], pubkey, relays)
  }

  function ReadPointer(es: seq<Entry>, id: Option<string>, relays: seq<Url>, author: Option<string>): Result<Pointer> {
    if es == [] then (if id.None? then Err else Ok(Pointer(id.value, NonEmptyList(relays), author, None)))
    else
      var e := es[0];
      if e.typ == Special then
        if |e.value| != 32 then Err else ReadPointer(es[1..], Some(BytesToHex(e.value)), relays, author)
      else if e.typ == Relay then ReadPointer(es[1..], id, relays + [e.value], author)
      else if e.typ == Author then
        if |e.value| != 32 then Err else ReadPointer(es[1..], id, relays, Some(BytesToHex(e.value)))
      else ReadPointer(es[1..], id, relays, author)
  }

  function ReadAddress(es: seq<Entry>, identifier: Bytes, relays: seq<Url>, pubkey: Option<string>, kind: Option<int>)
    : Result<Address>
  {
    if es == [] then
      if identifier == [] || pubkey.None? || kind.None? then Err
      else Ok(Address(identifier, pubkey.value, kind.value, NonEmptyList(relays)))
    else
      var e := es[0];
      if e.typ == Special then ReadAddress(es[1..], e.value, relays, pubkey, kind)
      else if e.typ == Relay then ReadAddress(es[1..], identifier, relays + [e.value], pubkey, kind)
      else if e.typ == Author then
        if |e.value| != 32 then Err else ReadAddress(es[1..], identifier, relays, Some(BytesToHex(e.value)), kind)
      else if e.typ == Kind then
        if |e.value| != 4 then Err else ReadAddress(es[1..], identifier, relays, pubkey, Some(KindOf(e.value)))
      else ReadAddress(es[1..], identifier, relays, pubkey, kind)
  }

  function EncodeProfile(valid: Url -> bool, p: Profile): Result<Bytes> { Body(ProfileEntries(valid, p)) }

  function EncodePointer(valid: Url -> bool, p: Pointer): Result<Bytes> { Body(PointerEntries(valid, p)) }

  function EncodeAddress(valid: Url -> bool, a: Address): Result<Bytes> { Body(AddressEntries(valid, a)) }

  function DecodeProfile(data: Bytes): Result<Profile> {
    match DecodeTlv(data) case Err => Err case Ok(es) => ReadProfile(es, None, [])
  }

  function DecodePointer(data: Bytes): Result<Pointer> {
    match DecodeTlv(data) case Err => Err case Ok(es) => ReadPointer(es, None, [], None)
  }

  function DecodeAddress(data: Bytes): Result<Address> {
    match DecodeTlv(data) case Err => Err case Ok(es) => ReadAddress(es, [], [], None, None)
  }

  // ---------------------------------------------------------------- entity round trips

  predicate Short(relays: seq<Url>) {
    forall i :: 0 <= i < |relays| ==> |relays[i]| <= 255
  }

  lemma {:induction false} RelayEntriesTail(relays: seq<Url>)
    requires relays != []
    ensures RelayEntries(relays) == [Entry(Relay, relays[0])] + RelayEntries(relays[1..])
  {
  }

  lemma {:induction false} ProfileReadsRelays(relays: seq<Url>, rest: seq<Entry>, pubkey: Option<string>, done: seq<Url>)
    ensures ReadProfile(RelayEntries(relays) + rest, pubkey, done) == ReadProfile(rest, pubkey, done + relays)
    decreases |relays|
  {
    if relays == [] {
      assert RelayEntries(relays) + rest == rest && done + relays == done;
    } else {
      RelayEntriesTail(relays);
      var es := RelayEntries(relays) + rest;
      assert es[1..] == RelayEntries(relays[1..]) + rest;
      ProfileReadsRelays(relays[1..], rest, pubkey, done + [relays[0]]);
      assert done + [relays[0]] + relays[1..] == done + relays;
    }
  }

  lemma {:induction false} PointerReadsRelays(relays: seq<Url>, rest: seq<Entry>, id: Option<string>, done: seq<Url>,
                                              author: Option<string>)
    ensures ReadPointer(RelayEntries(relays) + rest, id, done, author) == ReadPointer(rest, id, done + relays, author)
    decreases |relays|
  {
    if relays == [] {
      assert RelayEntries(relays) + rest == rest && done + relays == done;
    } else {
      RelayEntriesTail(relays);
      var es := RelayEntries(relays) + rest;
      assert es[1..] == RelayEntries(relays[1..]) + rest;
      PointerReadsRelays(relays[1..], rest, id, done + [relays[0]], author);
      assert done + [relays[0]] + relays[1..] == done + relays;
    }
  }

  lemma {:induction false} AddressReadsRelays(relays: seq<Url>, rest: seq<Entry>, identifier: Bytes, done: seq<Url>)
    ensures ReadAddress(RelayEntries(relays) + rest, identifier, done, None, None)
         == ReadAddress(rest, identifier, done + relays, None, None)
    decreases |relays|
  {
    if relays == [] {
      assert RelayEntries(relays) + rest == rest && done + relays == done;
    } else {
      RelayEntriesTail(relays);
      var es := RelayEntries(relays) + rest;
      assert es[1..] == RelayEntries(relays[1..]) + rest;
      AddressReadsRelays(relays[1..], rest, identifier, done + [relays[0]]);
      assert done + [relays[0]] + relays[1..] == done + relays;
    }
  }

  lemma {:induction false} ToInt32Small(x: int)
    requires -0x8000_0000 <= x < 0x8000_0000
    ensures ToInt32(x) == x
  {
    if x < 0 { assert x % 0x1_0000_0000 == x + 0x1_0000_0000; }
  }

  lemma {:induction false} ToInt32Wraps(x: int)
    requires 0 <= x < 0x1_0000_0000
    ensures ToInt32(x) == if x < 0x8000_0000 then x else x - 0x1_0000_0000
  {
  }

  lemma {:induction false} Byte3(kind: int)
    requires 0 <= kind <= 0xffff_ffff
    ensures LowByte(ShiftRight(kind, 0x100_0000)) == kind / 0x100_0000
  {
    ToInt32Wraps(kind);
    var s := ShiftRight(kind, 0x100_0000);
    assert s == kind / 0x100_0000 || s == kind / 0x100_0000 - 256;
    ToInt32Small(s);
  }

  lemma {:induction false} Byte2(kind: int)
    requires 0 <= kind <= 0xffff_ffff
    ensures LowByte(ShiftRight(kind, 0x1_0000)) == kind / 0x1_0000 % 256
  {
    ToInt32Wraps(kind);
    var s := ShiftRight(kind, 0x1_0000);
    assert s == kind / 0x1_0000 || s == kind / 0x1_0000 - 256 * 256;
    ToInt32Small(s);
  }

  lemma {:induction false} Byte1(kind: int)
    requires 0 <= kind <= 0xffff_ffff
    ensures LowByte(ShiftRight(kind, 0x100)) == kind / 0x100 % 256
  {
    ToInt32Wraps(kind);
    var s := ShiftRight(kind, 0x100);
    assert s == kind / 0x100 || s == kind / 0x100 - 256 * 0x1_0000;
    ToInt32Small(s);
  }

  lemma {:induction false} Byte0(kind: int)
    requires 0 <= kind <= 0xffff_ffff
    ensures LowByte(kind) == kind % 256
  {
    ToInt32Wraps(kind);
  }

  /** The signed shifts still store the four bytes of the unsigned kind, high byte first. */
  lemma {:induction false} KindBytesAreBigEndian(kind: int)
    requires 0 <= kind <= 0xffff_ffff
    ensures KindBytes(kind) == [kind / 0x100_0000, kind / 0x1_0000 % 256, kind / 0x100 % 256, kind % 256]
  {
    Byte3(kind);
    Byte2(kind);
    Byte1(kind);
    Byte0(kind);
  }

  lemma {:induction false} KindOfBytes(b3: Byte, b2: Byte, b1: Byte, b0: Byte)
    ensures KindOf([b3, b2, b1, b0])
         == b3 as int * 0x100_0000 + b2 as int * 0x1_0000 + b1 as int * 0x100 + b0 as int
            - (if b3 < 128 then 0 else 0x1_0000_0000)
  {
    ToInt32Wraps(b3 as int * 0x100_0000);
    ToInt32Wraps(b2 as int * 0x1_0000);
    ToInt32Wraps(b1 as int * 0x100);
  }

  lemma {:induction false} FourBytes(kind: int)
    requires 0 <= kind <= 0xffff_ffff
    ensures kind / 0x100_0000 * 0x100_0000 + kind / 0x1_0000 % 256 * 0x1_0000 + kind / 0x100 % 256 * 0x100 + kind % 256 == kind
  {
    var a := kind / 0x100;
    var b := a / 0x100;
    assert kind / 0x1_0000 == b && kind / 0x100_0000 == b / 0x100;
  }

  /** The kind survives exactly below 2^31; above, the decoder's signed shift takes off 2^32. */
  lemma {:induction false} KindRoundTrip(kind: int)
    requires 0 <= kind <= 0xffff_ffff
    ensures KindOf(KindBytes(kind)) == if kind < 0x8000_0000 then kind else kind - 0x1_0000_0000
  {
    KindBytesAreBigEndian(kind);
    KindOfBytes(kind / 0x100_0000, kind / 0x1_0000 % 256, kind / 0x100 % 256, kind % 256);
    FourBytes(kind);
  }

  lemma {:induction false} HexHas32Bytes(s: string)
    requires IsHex(s) && |s| == 64
    ensures HexToBytes(s) == Ok(ParseHex(s)) && |ParseHex(s)| == 32 && BytesToHex(ParseHex(s)) == Lower(s)
  {
    HexRoundTrip(s);
  }

  /** Every relay or identifier read back is the value of some entry, so it has at most 255 bytes. */
  lemma {:induction false} ProfileRelaysAreShort(es: seq<Entry>, pubkey: Option<string>, relays: seq<Url>)
    requires Short(relays) && Codable(es, |es|) && ReadProfile(es, pubkey, relays).Ok?
    ensures Short(RelayList(ReadProfile(es, pubkey, relays).value.relays))
    decreases |es|
  {
    if es == [] {
    } else {
      var e := es[0];
      if e.typ == Special { ProfileRelaysAreShort(es[1..], Some(BytesToHex(e.value)), relays); }
      else if e.typ == Relay { ProfileRelaysAreShort(es[1..], pubkey, relays + [e.value]); }
      else { ProfileRelaysAreShort(es[1..], pubkey, relays); }
    }
  }

  lemma {:induction false} PointerRelaysAreShort(es: seq<Entry>, id: Option<string>, relays: seq<Url>, author: Option<string>)
    requires Short(relays) && Codable(es, |es|) && ReadPointer(es, id, relays, author).Ok?
    ensures Short(RelayList(ReadPointer(es, id, relays, author).value.relays))
    decreases |es|
  {
    if es == [] {
    } else {
      var e := es[0];
      if e.typ == Special { PointerRelaysAreShort(es[1..], Some(BytesToHex(e.value)), relays, author); }
      else if e.typ == Relay { PointerRelaysAreShort(es[1..], id, relays + [e.value], author); }
      else if e.typ == Author { PointerRelaysAreShort(es[1..], id, relays, Some(BytesToHex(e.value))); }
      else { PointerRelaysAreShort(es[1..], id, relays, author); }
    }
  }

  lemma {:induction false} AddressPartsAreShort(es: seq<Entry>, identifier: Bytes, relays: seq<Url>,
                                                pubkey: Option<string>, kind: Option<int>)
    requires Short(relays) && |identifier| <= 255 && Codable(es, |es|)
    requires ReadAddress(es, identifier, relays, pubkey, kind).Ok?
    ensures var a := ReadAddress(es, identifier, relays, pubkey, kind).value;
            Short(RelayList(a.relays)) && |a.identifier| <= 255
    decreases |es|
  {
    if es == [] {
    } else {
      var e := es[0];
      if e.typ == Special { AddressPartsAreShort(es[1..], e.value, relays, pubkey, kind); }
      else if e.typ == Relay { AddressPartsAreShort(es[1..], identifier, relays + [e.value], pubkey, kind); }
      else if e.typ == Author { AddressPartsAreShort(es[1..], identifier, relays, Some(BytesToHex(e.value)), kind); }
      else if e.typ == Kind { AddressPartsAreShort(es[1..], identifier, relays, pubkey, Some(KindOf(e.value))); }
      else { AddressPartsAreShort(es[1..], identifier, relays, pubkey, kind); }
    }
  }

  /** What is decoded from a profile: the key in lower case, an empty relay list as none. */
  function DecodedProfile(p: Profile): Profile {
    Profile(Lower(p.pubkey), NonEmptyList(RelayList(p.relays)))
  }

  /**
    * A profile the encoder accepts has at most 20 entries, and decodes to its fields, relays in order, exactly when
    * every relay URL has at most 255 bytes.  The encoder accepts up to 512.
    */
  lemma {:induction false} ProfileRoundTrip(valid: Url -> bool, p: Profile)
    requires EncodeProfile(valid, p).Ok?
    ensures |ProfileEntries(valid, p).value| <= MaxEntries
    ensures DecodeProfile(EncodeProfile(valid, p).value) == Ok(DecodedProfile(p)) <==> Short(RelayList(p.relays))
  {
    var es := ProfileEntries(valid, p).value;
    var relays := RelayList(p.relays);
    HexHas32Bytes(p.pubkey);
    if Short(relays) {
      DecodeInvertsEncode(es, MaxEntries);
      assert es[1..] == RelayEntries(relays);
      ProfileReadsRelays(relays, [], Some(Lower(p.pubkey)), []);
      assert RelayEntries(relays) + [] == RelayEntries(relays) && [] + relays == relays;
    }
    var data := EncodeEntries(es);
    if DecodeProfile(data) == Ok(DecodedProfile(p)) {
      EncodeAfterDecode(data, MaxEntries);
      ProfileRelaysAreShort(DecodeTlv(data).value, None, []);
    }
  }

  function DecodedPointer(p: Pointer): Pointer {
    Pointer(Lower(p.id), NonEmptyList(RelayList(p.relays)),
            if HasAuthor(p) then Some(Lower(p.author.value)) else None, None)
  }

  /** The same for an event pointer; its kind is never encoded. */
  lemma {:induction false} PointerRoundTrip(valid: Url -> bool, p: Pointer)
    requires EncodePointer(valid, p).Ok?
    ensures |PointerEntries(valid, p).value| <= MaxEntries
    ensures DecodePointer(EncodePointer(valid, p).value) == Ok(DecodedPointer(p)) <==> Short(RelayList(p.relays))
  {
    var es := PointerEntries(valid, p).value;
    var relays := RelayList(p.relays);
    if Short(relays) {
      PointerCodable(valid, p);
      DecodeInvertsEncode(es, MaxEntries);
      PointerReadsBack(valid, p);
    }
    var data := EncodeEntries(es);
    if DecodePointer(data) == Ok(DecodedPointer(p)) {
      EncodeAfterDecode(data, MaxEntries);
      PointerRelaysAreShort(DecodeTlv(data).value, None, [], None);
    }
  }

  lemma {:induction false} PointerCodable(valid: Url -> bool, p: Pointer)
    requires PointerEntries(valid, p).Ok? && Short(RelayList(p.relays))
    ensures Codable(PointerEntries(valid, p).value, MaxEntries)
  {
    HexHas32Bytes(p.id);
    if HasAuthor(p) { HexHas32Bytes(p.author.value); }
  }

  lemma {:induction false} PointerReadsBack(valid: Url -> bool, p: Pointer)
    requires PointerEntries(valid, p).Ok?
    ensures ReadPointer(PointerEntries(valid, p).value, None, [], None) == Ok(DecodedPointer(p))
  {
    var es := PointerEntries(valid, p).value;
    var relays := RelayList(p.relays);
    var tail := if HasAuthor(p) then [Entry(Author, ParseHex(p.author.value))] else [];
    HexHas32Bytes(p.id);
    assert es[1..] == RelayEntries(relays) + tail;
    PointerReadsRelays(relays, tail, Some(Lower(p.id)), [], None);
    assert [] + relays == relays;
    if HasAuthor(p) {
      HexHas32Bytes(p.author.value);
      assert tail[1..] == [];
    }
  }

  function DecodedAddress(a: Address): Address {
    Address(a.identifier, Lower(a.pubkey), if a.kind < 0x8000_0000 then a.kind else a.kind - 0x1_0000_0000,
            NonEmptyList(RelayList(a.relays)))
  }

  /** The same for an address, whose identifier must fit as well; the encoder accepts identifiers up to 1024. */
  lemma {:induction false} AddressRoundTrip(valid: Url -> bool, a: Address)
    requires EncodeAddress(valid, a).Ok?
    ensures |AddressEntries(valid, a).value| <= MaxEntries
    ensures DecodeAddress(EncodeAddress(valid, a).value) == Ok(DecodedAddress(a)) <==>
              Short(RelayList(a.relays)) && |a.identifier| <= 255
  {
    var es := AddressEntries(valid, a).value;
    if Short(RelayList(a.relays)) && |a.identifier| <= 255 {
      AddressCodable(valid, a);
      DecodeInvertsEncode(es, MaxEntries);
      AddressReadsBack(valid, a);
    }
    var data := EncodeEntries(es);
    if DecodeAddress(data) == Ok(DecodedAddress(a)) {
      EncodeAfterDecode(data, MaxEntries);
      AddressPartsAreShort(DecodeTlv(data).value, [], [], None, None);
    }
  }

  lemma {:induction false} AddressCodable(valid: Url -> bool, a: Address)
    requires AddressEntries(valid, a).Ok? && Short(RelayList(a.relays)) && |a.identifier| <= 255
    ensures Codable(AddressEntries(valid, a).value, MaxEntries)
  {
    HexHas32Bytes(a.pubkey);
  }

  lemma {:induction false} AddressReadsBack(valid: Url -> bool, a: Address)
    requires AddressEntries(valid, a).Ok?
    ensures ReadAddress(AddressEntries(valid, a).value, [], [], None, None) == Ok(DecodedAddress(a))
  {
    var es := AddressEntries(valid, a).value;
    var relays := RelayList(a.relays);
    var tail := [Entry(Author, ParseHex(a.pubkey)), Entry(Kind, KindBytes(a.kind))];
    HexHas32Bytes(a.pubkey);
    assert es[1..] == RelayEntries(relays) + tail;
    AddressReadsRelays(relays, tail, a.identifier, []);
    assert [] + relays == relays;
    KindRoundTrip(a.kind);
    var last := [Entry(Kind, KindBytes(a.kind))];
    assert tail[1..] == last && last[1..] == [];
    assert ReadAddress(last, a.identifier, relays, Some(Lower(a.pubkey)), None) == Ok(DecodedAddress(a));
    assert ReadAddress(tail, a.identifier, relays, None, None) == Ok(DecodedAddress(a));
  }

  // ---------------------------------------------------------------- inputs that do not round trip

  function SomeKey(): string {
    seq(64, _ => '0')
  }

  /** Any relay URL the encoder accepts but one byte cannot measure. */
  predicate IsLongRelay(valid: Url -> bool, url: Url) {
    valid(url) && 255 < |url| <= MaxRelayLength
  }

  /** With such a relay the profile is encoded, and what it decodes to, if anything, is not it. */
  lemma {:induction false} LongProfileRelayIsLost(valid: Url -> bool, url: Url)
    requires IsLongRelay(valid, url)
    ensures var p := Profile(SomeKey(), Some([url]));
            EncodeProfile(valid, p).Ok? && DecodeProfile(EncodeProfile(valid, p).value) != Ok(DecodedProfile(p))
  {
    var p := Profile(SomeKey(), Some([url]));
    assert RelayList(p.relays)[0] == url;
    ProfileRoundTrip(valid, p);
  }

  lemma {:induction false} LongPointerRelayIsLost(valid: Url -> bool, url: Url)
    requires IsLongRelay(valid, url)
    ensures var p := Pointer(SomeKey(), Some([url]), None, None);
            EncodePointer(valid, p).Ok? && DecodePointer(EncodePointer(valid, p).value) != Ok(DecodedPointer(p))
  {
    var p := Pointer(SomeKey(), Some([url]), None, None);
    assert RelayList(p.relays)[0] == url;
    PointerRoundTrip(valid, p);
  }

  lemma {:induction false} LongIdentifierDiffers(valid: Url -> bool, a: Address)
    requires EncodeAddress(valid, a).Ok? && |a.identifier| > 255
    ensures DecodeAddress(EncodeAddress(valid, a).value) != Ok(DecodedAddress(a))
  {
    AddressRoundTrip(valid, a);
  }

  /** The same for every identifier the encoder accepts but one byte cannot measure, here without relays. */
  lemma {:induction false} LongIdentifierIsLost(valid: Url -> bool, identifier: Bytes)
    requires 255 < |identifier| <= MaxIdentifierLength
    ensures var a := Address(identifier, SomeKey(), 30023, None);
            EncodeAddress(valid, a).Ok? && DecodeAddress(EncodeAddress(valid, a).value) != Ok(DecodedAddress(a))
  {
    LongIdentifierDiffers(valid, Address(identifier, SomeKey(), 30023, None));
  }

  // ---------------------------------------------------------------- unknown entries

  function Known(es: seq<Entry>): seq<Entry> {
    if es == [] then [] else (if es[0].typ <= 3 then [es[0]] else []) + Known(es[1..])
  }

  lemma {:induction false} KnownStep(es: seq<Entry>)
    requires es != []
    ensures if es[0].typ > 3 then Known(es) == Known(es[1..])
            else Known(es) != [] && Known(es)[0] == es[0] && Known(es)[1..] == Known(es[1..])
  {
    if es[0].typ > 3 { assert [] + Known(es[1..]) == Known(es[1..]); }
  }

  /** Entries of unknown type are ignored wherever they stand; profiles and pointers also ignore the other types. */
  lemma {:induction false} ProfileIgnoresUnknown(es: seq<Entry>, pubkey: Option<string>, relays: seq<Url>)
    ensures ReadProfile(es, pubkey, relays) == ReadProfile(Known(es), pubkey, relays)
    decreases |es|
  {
    if es == [] {
    } else {
      var e := es[0];
      KnownStep(es);
      if e.typ == Special { ProfileIgnoresUnknown(es[1..], Some(BytesToHex(e.value)), relays); }
      else if e.typ == Relay { ProfileIgnoresUnknown(es[1..], pubkey, relays + [e.value]); }
      else { ProfileIgnoresUnknown(es[1..], pubkey, relays); }
    }
  }

  lemma {:induction false} PointerIgnoresUnknown(es: seq<Entry>, id: Option<string>, relays: seq<Url>, author: Option<string>)
    ensures ReadPointer(es, id, relays, author) == ReadPointer(Known(es), id, relays, author)
    decreases |es|
  {
    if es == [] {
    } else {
      var e := es[0];
      KnownStep(es);
      if e.typ == Special { PointerIgnoresUnknown(es[1..], Some(BytesToHex(e.value)), relays, author); }
      else if e.typ == Relay { PointerIgnoresUnknown(es[1..], id, relays + [e.value], author); }
      else if e.typ == Author { PointerIgnoresUnknown(es[1..], id, relays, Some(BytesToHex(e.value))); }
      else { PointerIgnoresUnknown(es[1..], id, relays, author); }
    }
  }

  lemma {:induction false} AddressIgnoresUnknown(es: seq<Entry>, identifier: Bytes, relays: seq<Url>,
                                                 pubkey: Option<string>, kind: Option<int>)
    ensures ReadAddress(es, identifier, relays, pubkey, kind) == ReadAddress(Known(es), identifier, relays, pubkey, kind)
    decreases |es|
  {
    if es == [] {
    } else {
      var e := es[0];
      KnownStep(es);
      if e.typ == Special { AddressIgnoresUnknown(es[1..], e.value, relays, pubkey, kind); }
      else if e.typ == Relay { AddressIgnoresUnknown(es[1..], identifier, relays + [e.value], pubkey, kind); }
      else if e.typ == Author { AddressIgnoresUnknown(es[1..], identifier, relays, Some(BytesToHex(e.value)), kind); }
      else if e.typ == Kind {
        if |e.value| == 4 { AddressIgnoresUnknown(es[1..], identifier, relays, pubkey, Some(KindOf(e.value))); }
      } else { AddressIgnoresUnknown(es[1..], identifier, relays, pubkey, kind); }
    }
  }

  // ---------------------------------------------------------------- the loops

  /** The entry building of encodeAddress; each relay is checked before its entry is pushed. */
  method BuildAddress(valid: Url -> bool, a: Address) returns (r: Result<seq<Entry>>)
    ensures r == AddressEntries(valid, a)
  {
    if |a.identifier| == 0 || |a.pubkey| != 64 || a.kind < 0 || a.kind > 0xffff_ffff { return Err; }
    if |a.identifier| > MaxIdentifierLength { return Err; }
    var entries := [Entry(Special, a.identifier)];
    var relays := RelayList(a.relays);
    if |relays| > MaxEntries - 3 { return Err; }
    for i := 0 to |relays|
      invariant entries == [Entry(Special, a.identifier)] + RelayEntries(relays)[..i]
      invariant forall k :: 0 <= k < i ==> |relays[k]| <= MaxRelayLength && valid(relays[k])
    {
      if |relays[i]| > MaxRelayLength || !valid(relays[i]) { return Err; }
      entries := entries + [Entry(Relay, relays[i])];
    }
    assert RelayEntries(relays)[..|relays|] == RelayEntries(relays);
    ghost var built := entries;
    var pubkey := ReadHex(a.pubkey);
    if pubkey.Err? { return Err; }
    entries := entries + [Entry(Author, pubkey.value)];
    entries := entries + [Entry(Kind, KindBytes(a.kind))];
    assert entries == built + [Entry(Author, pubkey.value), Entry(Kind, KindBytes(a.kind))];
    r := Ok(entries);
  }

  /** The extraction loop of decodeAddress. */
  method ExtractAddress(es: seq<Entry>) returns (r: Result<Address>)
    ensures r == ReadAddress(es, [], [], None, None)
  {
    var identifier: Bytes := [];
    var relays: seq<Url> := [];
    var pubkey: Option<string> := None;
    var kind: Option<int> := None;
    assert es[0..] == es;
    for i := 0 to |es|
      invariant ReadAddress(es[i..], identifier, relays, pubkey, kind) == ReadAddress(es, [], [], None, None)
    {
      var entry := es[i];
      assert es[i..][1..] == es[i + 1..];
      if entry.typ == Special {
        identifier := entry.value;
      } else if entry.typ == Relay {
        relays := relays + [entry.value];
      } else if entry.typ == Author {
        if |entry.value| != 32 { return Err; }
        pubkey := Some(BytesToHex(entry.value));
      } else if entry.typ == Kind {
        if |entry.value| != 4 { return Err; }
        kind := Some(KindOf(entry.value));
      }
    }
    if |identifier| == 0 || pubkey.None? || kind.None? { return Err; }
    r := Ok(Address(identifier, pubkey.value, kind.value, NonEmptyList(relays)));
  }
}
