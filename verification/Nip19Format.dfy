/** The bytes of NIP-19 entities: what each encoder accepts and writes, and what each decoder reads, in literal terms. */
module Nip19Format {
  import opened Wrappers
  import opened ByteStrings
  import opened Nip19

  // ---------------------------------------------------------------- hex

  predicate HexOf(c: char, v: nat) {
    v < 16 && (c == "0123456789abcdef"[v] || c == "0123456789ABCDEF"[v])
  }

  /** Two characters for each byte, the high half first, in either case. */
  ghost predicate IsHexOf(bytes: Bytes, s: string) {
    |s| == 2 * |bytes| && forall k :: 0 <= k < |bytes| ==> HexOf(s[2 * k], bytes[k] / 16) && HexOf(s[2 * k + 1], bytes[k] % 16)
  }

  predicate AllHex(s: string) {
    forall c :: c in s ==> c in "0123456789abcdefABCDEF"
  }

  lemma {:induction false} LowerDigits(c: char)
    ensures c in "0123456789abcdef" <==> '0' <= c <= '9' || 'a' <= c <= 'f'
  {
    var digits := "0123456789abcdef";
    if '0' <= c <= '9' {
      assert digits[c as int - 48] == c;
    } else if 'a' <= c <= 'f' {
      assert digits[c as int - 87] == c;
    }
  }

  lemma {:induction false} UpperDigits(c: char)
    ensures c in "ABCDEF" <==> 'A' <= c <= 'F'
  {
    var digits := "ABCDEF";
    if 'A' <= c <= 'F' { assert digits[c as int - 65] == c; }
  }

  lemma {:induction false} DigitIs(c: char)
    ensures c in "0123456789abcdefABCDEF" <==> IsHexDigit(c)
  {
    LowerDigits(c);
    UpperDigits(c);
    assert "0123456789abcdefABCDEF" == "0123456789abcdef" + "ABCDEF";
  }

  lemma {:induction false} AllHexIs(s: string)
    ensures AllHex(s) <==> forall i :: 0 <= i < |s| ==> IsHexDigit(s[i])
  {
    forall i | 0 <= i < |s| ensures s[i] in "0123456789abcdefABCDEF" <==> IsHexDigit(s[i]) { DigitIs(s[i]); }
  }

  lemma {:induction false} ValueIs(c: char)
    requires IsHexDigit(c)
    ensures HexOf(c, HexValue(c)) && forall v: nat :: HexOf(c, v) ==> v == HexValue(c)
  {
  }

  lemma {:induction false} TwoDigits(high: nat, low: nat)
    requires high < 16 && low < 16
    ensures var v := high * 16 + low; v < 256 && v / 16 == high && v % 16 == low
  {
  }

  lemma {:induction false} ParsedPair(a: char, b: char)
    requires IsHexDigit(a) && IsHexDigit(b)
    ensures var v := HexValue(a) * 16 + HexValue(b); v < 256 && HexOf(a, v / 16) && HexOf(b, v % 16)
  {
    ValueIs(a);
    ValueIs(b);
    TwoDigits(HexValue(a), HexValue(b));
  }

  lemma {:induction false} ParseStep(s: string)
    requires |s| >= 2 && |s| % 2 == 0 && forall i :: 0 <= i < |s| ==> IsHexDigit(s[i])
    ensures ParseHex(s) == [HexValue(s[0]) * 16 + HexValue(s[1])] + ParseHex(s[2..])
  {
  }

  lemma {:induction false} ParsedAt(s: string, k: nat)
    requires |s| % 2 == 0 && (forall i :: 0 <= i < |s| ==> IsHexDigit(s[i])) && 2 * k + 1 < |s|
    ensures ParseHex(s)[k] == HexValue(s[2 * k]) * 16 + HexValue(s[2 * k + 1])
    decreases k
  {
    ParseStep(s);
    if k == 0 {
    } else {
      ParsedAt(s[2..], k - 1);
    }
  }

  lemma {:induction false} ParsedIs(s: string)
    requires |s| % 2 == 0 && AllHex(s)
    ensures (forall i :: 0 <= i < |s| ==> IsHexDigit(s[i])) && IsHexOf(ParseHex(s), s)
  {
    AllHexIs(s);
    var bytes := ParseHex(s);
    forall k | 0 <= k < |bytes| ensures HexOf(s[2 * k], bytes[k] / 16) && HexOf(s[2 * k + 1], bytes[k] % 16) {
      ParsedAt(s, k);
      ParsedPair(s[2 * k], s[2 * k + 1]);
    }
  }

  lemma {:induction false} HexIsUnique(a: Bytes, b: Bytes, s: string)
    requires IsHexOf(a, s) && IsHexOf(b, s)
    ensures a == b
  {
    forall k | 0 <= k < |a| ensures a[k] == b[k] {
      OneValue(s[2 * k], a[k] / 16, b[k] / 16);
      OneValue(s[2 * k + 1], a[k] % 16, b[k] % 16);
    }
  }

  lemma {:induction false} OneValue(c: char, v: nat, w: nat)
    requires HexOf(c, v) && HexOf(c, w)
    ensures v == w
  {
    LowerDigits(c);
    UpperDigits(c);
    assert IsHexDigit(c) by {
      assert "0123456789abcdef"[v] in "0123456789abcdef";
      assert v >= 10 ==> "0123456789ABCDEF"[v] == "ABCDEF"[v - 10];
      assert v < 10 ==> "0123456789ABCDEF"[v] == "0123456789abcdef"[v];
    }
    ValueIs(c);
  }

  /** hexToBytes reads exactly the non-empty texts of pairs of hex digits, pair by pair. */
  lemma {:induction false} HexIsRead(s: string, bytes: Bytes)
    ensures HexToBytes(s) == Ok(bytes) <==> s != "" && AllHex(s) && IsHexOf(bytes, s)
  {
    AllHexIs(s);
    if s != "" && |s| % 2 == 0 && AllHex(s) {
      ParsedIs(s);
      if IsHexOf(bytes, s) { HexIsUnique(bytes, ParseHex(s), s); }
    }
  }

  // ---------------------------------------------------------------- what the encoders write

  function Field(typ: Byte, value: Bytes): Bytes {
    [typ, |value| % 256] + value
  }

  /** A field of type 1 for each relay. */
  function RelayFields(relays: seq<Url>): Bytes {
    if relays == [] then [] else Field(1, relays[0]) + RelayFields(relays[1..])
  }

  predicate GoodRelays(valid: Url -> bool, relays: seq<Url>, limit: nat) {
    |relays| <= limit && forall r :: r in relays ==> |r| <= 512 && valid(r)
  }

  predicate GoodKey(s: string) {
    |s| == 64 && AllHex(s)
  }

  lemma {:induction false} GoodKeyIs(s: string)
    ensures GoodKey(s) <==> |s| == 64 && IsHex(s)
    ensures GoodKey(s) ==> IsHexOf(ParseHex(s), s) && |ParseHex(s)| == 32
  {
    AllHexIs(s);
    if GoodKey(s) { ParsedIs(s); }
  }

  lemma {:induction false} GoodRelaysAre(valid: Url -> bool, relays: seq<Url>, limit: nat)
    ensures GoodRelays(valid, relays, limit) <==> RelaysAllowed(valid, relays, limit)
  {
    if RelaysAllowed(valid, relays, limit) {
      forall r | r in relays ensures |r| <= 512 && valid(r) {
        var i :| 0 <= i < |relays| && relays[i] == r;
      }
    }
  }

  lemma {:induction false} EncodeConcat(a: seq<Entry>, b: seq<Entry>)
    ensures EncodeEntries(a + b) == EncodeEntries(a) + EncodeEntries(b)
    decreases |a|
  {
    if a == [] {
      assert a + b == b && [] + EncodeEntries(b) == EncodeEntries(b);
    } else {
      assert (a + b)[1..] == a[1..] + b;
      EncodeConcat(a[1..], b);
      assert EncodeEntry(a[0]) + (EncodeEntries(a[1..]) + EncodeEntries(b))
          == EncodeEntry(a[0]) + EncodeEntries(a[1..]) + EncodeEntries(b);
    }
  }

  lemma {:induction false} EncodeOne(e: Entry)
    requires e.typ < 256
    ensures EncodeEntries([e]) == Field(e.typ, e.value)
  {
    assert [e][1..] == [] && EncodeEntries([]) == [];
    assert EncodeEntry(e) + [] == Field(e.typ, e.value);
  }

  lemma {:induction false} RelaysAreWritten(relays: seq<Url>)
    ensures EncodeEntries(RelayEntries(relays)) == RelayFields(relays)
    decreases |relays|
  {
    if relays == [] {
    } else {
      RelayEntriesTail(relays);
      var es := RelayEntries(relays);
      assert es[1..] == RelayEntries(relays[1..]) && es[0] == Entry(1, relays[0]);
      RelaysAreWritten(relays[1..]);
    }
  }

  /**
    * nprofile: a key of 64 hex digits and at most 19 valid relay URLs of at most 512 bytes are written as field 0 with
    * the 32 bytes of the key and a field 1 for each relay; anything else is refused.
    */
  lemma {:induction false} ProfileIsWritten(valid: Url -> bool, p: Profile, data: Bytes)
    ensures EncodeProfile(valid, p) == Ok(data) <==>
              && GoodKey(p.pubkey) && GoodRelays(valid, RelayList(p.relays), 19)
              && exists key :: IsHexOf(key, p.pubkey) && data == Field(0, key) + RelayFields(RelayList(p.relays))
  {
    var relays := RelayList(p.relays);
    GoodKeyIs(p.pubkey);
    GoodRelaysAre(valid, relays, 19);
    if GoodKey(p.pubkey) && GoodRelays(valid, relays, 19) {
      var key := ParseHex(p.pubkey);
      EncodeConcat([Entry(0, key)], RelayEntries(relays));
      EncodeOne(Entry(0, key));
      RelaysAreWritten(relays);
      forall other | IsHexOf(other, p.pubkey) ensures other == key { HexIsUnique(other, key, p.pubkey); }
    }
  }

  /** An author that is given and not empty. */
  predicate Authored(p: Pointer) {
    p.author.Some? && |p.author.value| > 0
  }

  /** Field 2 with the author's key, if one is given. */
  ghost predicate IsAuthorField(p: Pointer, field: Bytes) {
    if Authored(p) then GoodKey(p.author.value) && exists key :: IsHexOf(key, p.author.value) && field == Field(2, key)
    else field == []
  }

  lemma {:induction false} AuthorIsWritten(p: Pointer)
    requires Authored(p) ==> GoodKey(p.author.value)
    ensures HasAuthor(p) <==> Authored(p)
    ensures Authored(p) ==> (forall i :: 0 <= i < |p.author.value| ==> IsHexDigit(p.author.value[i]))
    ensures forall field :: IsAuthorField(p, field) <==>
              field == if Authored(p) then EncodeEntries([Entry(2, ParseHex(p.author.value))]) else []
  {
    if Authored(p) {
      GoodKeyIs(p.author.value);
      var key := ParseHex(p.author.value);
      forall other | IsHexOf(other, p.author.value) ensures other == key { HexIsUnique(other, key, p.author.value); }
      EncodeOne(Entry(2, key));
    }
  }

  lemma {:induction false} PointerBytes(id: Bytes, relays: seq<Url>, tail: seq<Entry>)
    ensures EncodeEntries([Entry(0, id)] + RelayEntries(relays) + tail)
         == Field(0, id) + RelayFields(relays) + EncodeEntries(tail)
  {
    EncodeOne(Entry(0, id));
    RelaysAreWritten(relays);
    EncodeConcat([Entry(0, id)], RelayEntries(relays));
    EncodeConcat([Entry(0, id)] + RelayEntries(relays), tail);
  }

  /** nevent: the same for an event id with at most 17 relays, and field 2 with the author's key, if one is given; the
      kind is not written. */
  lemma {:induction false} PointerIsWritten(valid: Url -> bool, p: Pointer, data: Bytes)
    ensures EncodePointer(valid, p) == Ok(data) <==>
              && GoodKey(p.id) && GoodRelays(valid, RelayList(p.relays), 17)
              && exists id, field :: IsHexOf(id, p.id) && IsAuthorField(p, field) &&
                   data == Field(0, id) + RelayFields(RelayList(p.relays)) + field
  {
    var relays := RelayList(p.relays);
    GoodKeyIs(p.id);
    if Authored(p) { GoodKeyIs(p.author.value); }
    GoodRelaysAre(valid, relays, 17);
    if GoodKey(p.id) && GoodRelays(valid, relays, 17) && (Authored(p) ==> GoodKey(p.author.value)) {
      PointerIsWrittenIf(valid, p, data);
    }
  }

  lemma {:induction false} PointerIsWrittenIf(valid: Url -> bool, p: Pointer, data: Bytes)
    requires GoodKey(p.id) && GoodRelays(valid, RelayList(p.relays), 17) && (Authored(p) ==> GoodKey(p.author.value))
    ensures EncodePointer(valid, p) == Ok(data) <==>
              exists id, field :: IsHexOf(id, p.id) && IsAuthorField(p, field) &&
                data == Field(0, id) + RelayFields(RelayList(p.relays)) + field
  {
    var relays := RelayList(p.relays);
    GoodKeyIs(p.id);
    if Authored(p) { GoodKeyIs(p.author.value); }
    GoodRelaysAre(valid, relays, 17);
    AuthorIsWritten(p);
    var id := ParseHex(p.id);
    forall other | IsHexOf(other, p.id) ensures other == id { HexIsUnique(other, id, p.id); }
    var tail := if Authored(p) then [Entry(2, ParseHex(p.author.value))] else [];
    PointerBytes(id, relays, tail);
    assert IsAuthorField(p, EncodeEntries(tail));
    assert EncodePointer(valid, p) == Ok(Field(0, id) + RelayFields(relays) + EncodeEntries(tail));
  }

  /** A 32-bit number in four bytes, the highest first. */
  predicate IsWord(bytes: Bytes, n: int) {
    |bytes| == 4 && n == bytes[0] as int * 16777216 + bytes[1] as int * 65536 + bytes[2] as int * 256 + bytes[3]
  }

  lemma {:induction false} WordIs(kind: int, bytes: Bytes)
    requires 0 <= kind <= 4294967295
    ensures IsWord(bytes, kind) <==> bytes == KindBytes(kind)
  {
    KindBytesAreBigEndian(kind);
    FourBytes(kind);
    if IsWord(bytes, kind) { WordDigits(bytes[0], bytes[1], bytes[2], bytes[3]); }
  }

  lemma {:induction false} WordDigits(a: Byte, b: Byte, c: Byte, d: Byte)
    ensures var n := a as int * 16777216 + b as int * 65536 + c as int * 256 + d as int;
            n / 16777216 == a && n / 65536 % 256 == b && n / 256 % 256 == c && n % 256 == d
  {
    assert a as int * 65536 + b as int * 256 + c as int == (a as int * 256 + b as int) * 256 + c as int;
  }

  /** naddr: an identifier of 1 to 1024 bytes in field 0, at most 17 relays, field 2 with the author's key and field 3
      with a kind of 0 to 4294967295 in four bytes. */
  lemma {:induction false} AddressIsWritten(valid: Url -> bool, a: Address, data: Bytes)
    ensures EncodeAddress(valid, a) == Ok(data) <==>
              && 1 <= |a.identifier| <= 1024 && GoodKey(a.pubkey) && 0 <= a.kind <= 4294967295
              && GoodRelays(valid, RelayList(a.relays), 17)
              && exists key, kind :: IsHexOf(key, a.pubkey) && IsWord(kind, a.kind) &&
                   data == Field(0, a.identifier) + RelayFields(RelayList(a.relays)) + Field(2, key) + Field(3, kind)
  {
    GoodKeyIs(a.pubkey);
    GoodRelaysAre(valid, RelayList(a.relays), 17);
    if && 1 <= |a.identifier| <= 1024 && GoodKey(a.pubkey) && 0 <= a.kind <= 4294967295
       && GoodRelays(valid, RelayList(a.relays), 17)
    {
      var key := ParseHex(a.pubkey);
      forall other | IsHexOf(other, a.pubkey) ensures other == key { HexIsUnique(other, key, a.pubkey); }
      forall word ensures IsWord(word, a.kind) <==> word == KindBytes(a.kind) { WordIs(a.kind, word); }
      AddressBytes(a.identifier, RelayList(a.relays), key, KindBytes(a.kind));
    }
  }

  lemma {:induction false} AddressBytes(identifier: Bytes, relays: seq<Url>, key: Bytes, kind: Bytes)
    ensures EncodeEntries([Entry(0, identifier)] + RelayEntries(relays) + [Entry(2, key), Entry(3, kind)])
         == Field(0, identifier) + RelayFields(relays) + Field(2, key) + Field(3, kind)
  {
    EncodeOne(Entry(0, identifier));
    EncodeOne(Entry(2, key));
    EncodeOne(Entry(3, kind));
    RelaysAreWritten(relays);
    EncodeConcat([Entry(0, identifier)], RelayEntries(relays));
    EncodeConcat([Entry(2, key)], [Entry(3, kind)]);
    EncodeConcat([Entry(0, identifier)] + RelayEntries(relays), [Entry(2, key)] + [Entry(3, kind)]);
    assert [Entry(2, key)] + [Entry(3, kind)] == [Entry(2, key), Entry(3, kind)];
  }

  // ---------------------------------------------------------------- what the decoders read

  /** The values of the entries of one type, in order. */
  function ValuesOf(es: seq<Entry>, typ: nat): seq<Bytes> {
    if es == [] then [] else (if es[0].typ == typ then [es[0].value] else []) + ValuesOf(es[1..], typ)
  }

  predicate AllSized(values: seq<Bytes>, size: nat) {
    forall v :: v in values ==> |v| == size
  }

  /** The last of these values counts. */
  function LastValue(values: seq<Bytes>): Option<Bytes> {
    if values == [] then None else Some(values[|values| - 1])
  }

  function HexText(value: Option<Bytes>): Option<string> {
    if value.Some? then Some(BytesToHex(value.value)) else None
  }

  function Or<T>(value: Option<T>, default: Option<T>): Option<T> {
    if value.Some? then value else default
  }

  lemma {:induction false} ValuesGrow(es: seq<Entry>, typ: nat)
    requires es != []
    ensures var rest, values := ValuesOf(es[1..], typ), ValuesOf(es, typ);
            if es[0].typ == typ
            then && values == [es[0].value] + rest
                 && LastValue(values) == Or(LastValue(rest), Some(es[0].value))
                 && (forall size :: AllSized(values, size) <==> |es[0].value| == size && AllSized(rest, size))
            else values == rest
  {
    var rest := ValuesOf(es[1..], typ);
    if es[0].typ == typ {
      var values := [es[0].value] + rest;
      assert forall v :: v in values <==> v == es[0].value || v in rest;
    } else {
      assert [] + rest == rest;
    }
  }

  lemma {:induction false} ProfileReads(es: seq<Entry>, pubkey: Option<string>, relays: seq<Url>)
    ensures var keys := ValuesOf(es, 0);
            var key := Or(HexText(LastValue(keys)), pubkey);
            ReadProfile(es, pubkey, relays) ==
              if AllSized(keys, 32) && key.Some? then Ok(Profile(key.value, NonEmptyList(relays + ValuesOf(es, 1)))) else Err
    decreases |es|
  {
    if es == [] {
      assert relays + [] == relays;
    } else {
      ValuesGrow(es, 0);
      ValuesGrow(es, 1);
      var e := es[0];
      ProfileReads(es[1..], if e.typ == 0 then Some(BytesToHex(e.value)) else pubkey,
                   if e.typ == 1 then relays + [e.value] else relays);
      assert e.typ == 1 ==> relays + ([e.value] + ValuesOf(es[1..], 1)) == relays + [e.value] + ValuesOf(es[1..], 1);
    }
  }

  /** nprofile: every field 0 has 32 bytes and the last of them is the key; the fields 1 are the relays, in order; other
      fields are skipped. */
  lemma {:induction false} ProfileIsRead(data: Bytes)
    ensures var es := DecodeTlv(data);
            DecodeProfile(data) ==
              if es.Ok? && ValuesOf(es.value, 0) != [] && AllSized(ValuesOf(es.value, 0), 32)
              then Ok(Profile(HexText(LastValue(ValuesOf(es.value, 0))).value, NonEmptyList(ValuesOf(es.value, 1))))
              else Err
  {
    var es := DecodeTlv(data);
    if es.Ok? {
      ProfileReads(es.value, None, []);
      assert [] + ValuesOf(es.value, 1) == ValuesOf(es.value, 1);
    }
  }

  lemma {:induction false} PointerReads(es: seq<Entry>, id: Option<string>, relays: seq<Url>, author: Option<string>)
    ensures var ids, authors := ValuesOf(es, 0), ValuesOf(es, 2);
            var key := Or(HexText(LastValue(ids)), id);
            ReadPointer(es, id, relays, author) ==
              if AllSized(ids, 32) && AllSized(authors, 32) && key.Some?
              then Ok(Pointer(key.value, NonEmptyList(relays + ValuesOf(es, 1)), Or(HexText(LastValue(authors)), author), None))
              else Err
    decreases |es|
  {
    if es == [] {
      assert relays + [] == relays;
    } else {
      ValuesGrow(es, 0);
      ValuesGrow(es, 1);
      ValuesGrow(es, 2);
      var e := es[0];
      PointerReads(es[1..], if e.typ == 0 then Some(BytesToHex(e.value)) else id,
                   if e.typ == 1 then relays + [e.value] else relays, if e.typ == 2 then Some(BytesToHex(e.value)) else author);
      assert e.typ == 1 ==> relays + ([e.value] + ValuesOf(es[1..], 1)) == relays + [e.value] + ValuesOf(es[1..], 1);
    }
  }

  /** nevent: the same for the id, and field 2 for the author, who may be missing. */
  lemma {:induction false} PointerIsRead(data: Bytes)
    ensures var es := DecodeTlv(data);
            DecodePointer(data) ==
              if && es.Ok? && ValuesOf(es.value, 0) != []
                 && AllSized(ValuesOf(es.value, 0), 32) && AllSized(ValuesOf(es.value, 2), 32)
              then Ok(Pointer(HexText(LastValue(ValuesOf(es.value, 0))).value, NonEmptyList(ValuesOf(es.value, 1)),
                              HexText(LastValue(ValuesOf(es.value, 2))), None))
              else Err
  {
    var es := DecodeTlv(data);
    if es.Ok? {
      PointerReads(es.value, None, [], None);
      assert [] + ValuesOf(es.value, 1) == ValuesOf(es.value, 1);
    }
  }

  /** A word read as a signed number. */
  function SignedWord(b: Bytes): int
    requires |b| == 4
  {
    b[0] as int * 16777216 + b[1] as int * 65536 + b[2] as int * 256 + b[3] as int - (if b[0] < 128 then 0 else 4294967296)
  }

  /** The identifier, key and kind an address has so far. */
  datatype Parts = Parts(identifier: Bytes, pubkey: Option<string>, kind: Option<int>)

  function AfterEntry(parts: Parts, e: Entry): Parts {
    if e.typ == 0 then parts.(identifier := e.value)
    else if e.typ == 2 then parts.(pubkey := Some(BytesToHex(e.value)))
    else if e.typ == 3 && |e.value| == 4 then parts.(kind := Some(SignedWord(e.value)))
    else parts
  }

  /** The last field 0, 2 and 3, over what was read before them. */
  ghost predicate ArePartsOf(parts: Parts, es: seq<Entry>, before: Parts) {
    var kind := LastValue(ValuesOf(es, 3));
    && Some(parts.identifier) == Or(LastValue(ValuesOf(es, 0)), Some(before.identifier))
    && parts.pubkey == Or(HexText(LastValue(ValuesOf(es, 2))), before.pubkey)
    && parts.kind == (if kind.None? then before.kind else if |kind.value| == 4 then Some(SignedWord(kind.value)) else parts.kind)
  }

  lemma {:induction false} AddressReads(es: seq<Entry>, before: Parts, relays: seq<Url>, parts: Parts)
    requires ArePartsOf(parts, es, before) && AllSized(ValuesOf(es, 2), 32) && AllSized(ValuesOf(es, 3), 4)
    ensures ReadAddress(es, before.identifier, relays, before.pubkey, before.kind) ==
              if parts.identifier == [] || parts.pubkey.None? || parts.kind.None? then Err
              else Ok(Address(parts.identifier, parts.pubkey.value, parts.kind.value, NonEmptyList(relays + ValuesOf(es, 1))))
    decreases |es|
  {
    if es == [] {
      assert relays + [] == relays;
    } else {
      ValuesGrow(es, 0);
      ValuesGrow(es, 1);
      ValuesGrow(es, 2);
      ValuesGrow(es, 3);
      var e := es[0];
      if e.typ == 3 { KindOfBytes(e.value[0], e.value[1], e.value[2], e.value[3]); }
      PartsGrow(es, before, parts);
      AddressStep(es, before, relays);
      AddressReads(es[1..], AfterEntry(before, e), if e.typ == 1 then relays + [e.value] else relays, parts);
      assert e.typ == 1 ==> relays + ([e.value] + ValuesOf(es[1..], 1)) == relays + [e.value] + ValuesOf(es[1..], 1);
    }
  }

  lemma {:induction false} PartsGrow(es: seq<Entry>, before: Parts, parts: Parts)
    requires es != [] && ArePartsOf(parts, es, before) && AllSized(ValuesOf(es, 3), 4)
    ensures ArePartsOf(parts, es[1..], AfterEntry(before, es[0]))
  {
    ValuesGrow(es, 0);
    ValuesGrow(es, 2);
    ValuesGrow(es, 3);
  }

  lemma {:induction false} AddressStep(es: seq<Entry>, before: Parts, relays: seq<Url>)
    requires es != [] && (es[0].typ == 2 ==> |es[0].value| == 32) && (es[0].typ == 3 ==> |es[0].value| == 4)
    ensures var e := es[0];
            var after := AfterEntry(before, e);
            ReadAddress(es, before.identifier, relays, before.pubkey, before.kind) ==
              ReadAddress(es[1..], after.identifier, if e.typ == 1 then relays + [e.value] else relays, after.pubkey, after.kind)
  {
    var e := es[0];
    if e.typ == 3 {
      assert e.value == [e.value[0], e.value[1], e.value[2], e.value[3]];
      KindOfBytes(e.value[0], e.value[1], e.value[2], e.value[3]);
    }
  }

  lemma {:induction false} MisfitIsRefused(es: seq<Entry>, before: Parts, relays: seq<Url>)
    requires !AllSized(ValuesOf(es, 2), 32) || !AllSized(ValuesOf(es, 3), 4)
    ensures ReadAddress(es, before.identifier, relays, before.pubkey, before.kind) == Err
    decreases |es|
  {
    if es == [] {
    } else {
      ValuesGrow(es, 2);
      ValuesGrow(es, 3);
      var e := es[0];
      if (e.typ == 2 && |e.value| != 32) || (e.typ == 3 && |e.value| != 4) {
      } else {
        AddressStep(es, before, relays);
        MisfitIsRefused(es[1..], AfterEntry(before, e), if e.typ == 1 then relays + [e.value] else relays);
      }
    }
  }

  /** naddr: the last fields 0, 2 and 3 are the identifier, which must not be empty, the key and the kind, as a signed
      number; each field 2 has 32 bytes and each field 3 four; the fields 1 are the relays, in order. */
  lemma {:induction false} AddressIsRead(data: Bytes)
    ensures var es := DecodeTlv(data);
            DecodeAddress(data) ==
              if es.Err? || !AllSized(ValuesOf(es.value, 2), 32) || !AllSized(ValuesOf(es.value, 3), 4)
                 || ValuesOf(es.value, 0) == [] || ValuesOf(es.value, 2) == [] || ValuesOf(es.value, 3) == []
                 || LastValue(ValuesOf(es.value, 0)).value == []
              then Err
              else Ok(Address(LastValue(ValuesOf(es.value, 0)).value, HexText(LastValue(ValuesOf(es.value, 2))).value,
                              SignedWord(LastValue(ValuesOf(es.value, 3)).value), NonEmptyList(ValuesOf(es.value, 1))))
  {
    if DecodeTlv(data).Ok? { AddressOfEntries(DecodeTlv(data).value); }
  }

  lemma {:induction false} AddressOfEntries(es: seq<Entry>)
    ensures ReadAddress(es, [], [], None, None) ==
              if !AllSized(ValuesOf(es, 2), 32) || !AllSized(ValuesOf(es, 3), 4)
                 || ValuesOf(es, 0) == [] || ValuesOf(es, 2) == [] || ValuesOf(es, 3) == []
                 || LastValue(ValuesOf(es, 0)).value == []
              then Err
              else Ok(Address(LastValue(ValuesOf(es, 0)).value, HexText(LastValue(ValuesOf(es, 2))).value,
                              SignedWord(LastValue(ValuesOf(es, 3)).value), NonEmptyList(ValuesOf(es, 1))))
  {
    var nothing := Parts([], None, None);
    if !AllSized(ValuesOf(es, 2), 32) || !AllSized(ValuesOf(es, 3), 4) {
      MisfitIsRefused(es, nothing, []);
    } else {
      var kind := LastValue(ValuesOf(es, 3));
      if kind.Some? { assert kind.value in ValuesOf(es, 3); }
      var identifier := LastValue(ValuesOf(es, 0));
      var parts := Parts(if identifier.Some? then identifier.value else [], HexText(LastValue(ValuesOf(es, 2))),
                         if kind.Some? then Some(SignedWord(kind.value)) else None);
      AddressReads(es, nothing, [], parts);
      assert [] + ValuesOf(es, 1) == ValuesOf(es, 1);
    }
  }
}
