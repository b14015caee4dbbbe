/** The base64 layer of NIP-44: the encoding of section 4 of RFC 4648, and the hand-written fallback loops. */
module Base64 {
  import opened Wrappers
  import opened ByteStrings

  type Sextet = x: nat | x < 64

  /** The digits A-Z, a-z, 0-9, + and /. */
  function Digit(i: Sextet): char {
    if i < 26 then 'A' + i as char
    else if i < 52 then 'a' + (i - 26) as char
    else if i < 62 then '0' + (i - 52) as char
    else if i == 62 then '+' else '/'
  }

  predicate IsDigit(c: char) {
    'A' <= c <= 'Z' || 'a' <= c <= 'z' || '0' <= c <= '9' || c == '+' || c == '/'
  }

  function Value(c: char): Sextet
    requires IsDigit(c)
  {
    if 'A' <= c <= 'Z' then (c as int) - 65
    else if 'a' <= c <= 'z' then (c as int) - 97 + 26
    else if '0' <= c <= '9' then (c as int) - 48 + 52
    else if c == '+' then 62 else 63
  }

  lemma {:induction false} DigitsAndValues(i: Sextet, c: char)
    ensures IsDigit(Digit(i)) && Value(Digit(i)) == i && Digit(i) != '=' && Digit(i) as int < 256
    ensures IsDigit(c) ==> Digit(Value(c)) == c
  {
  }

  /** Table 1 of RFC 4648, line by line. */
  lemma {:induction false} AlphabetIs(i: Sextet)
    ensures i < 26 ==> Digit(i) == "ABCDEFGHIJKLMNOPQRSTUVWXYZ"[i]
    ensures 26 <= i < 52 ==> Digit(i) == "abcdefghijklmnopqrstuvwxyz"[i - 26]
    ensures 52 <= i ==> Digit(i) == "0123456789+/"[i - 52]
  {
  }

  // ---------------------------------------------------------------- RFC 4648

  /** Four digits for three bytes. */
  function Group(a: Byte, b: Byte, c: Byte): (r: string)
    ensures |r| == 4
  {
    [Digit(a / 4), Digit(a % 4 * 16 + b / 16), Digit(b % 16 * 4 + c / 64), Digit(c % 64)]
  }

  function Encode(bytes: seq<Byte>): (r: string)
    ensures |r| == (|bytes| + 2) / 3 * 4
  {
    if |bytes| == 0 then ""
    else if |bytes| == 1 then Group(bytes[0], 0, 0)[..2] + "=="
    else if |bytes| == 2 then Group(bytes[0], bytes[1], 0)[..3] + "="
    else Group(bytes[0], bytes[1], bytes[2]) + Encode(bytes[3..])
  }

  predicate AllDigits(s: string) {
    forall i :: 0 <= i < |s| ==> IsDigit(s[i])
  }

  predicate LastGroup(s: string)
    requires |s| == 4
  {
    AllDigits(s[..2]) && (AllDigits(s) || (IsDigit(s[2]) && s[3] == '=') || (s[2] == '=' && s[3] == '='))
  }

  /** The strings the validation pattern accepts. */
  predicate ValidText(s: string) {
    |s| >= 4 && |s| % 4 == 0 && AllDigits(s[..|s| - 4]) && LastGroup(s[|s| - 4..])
  }

  /** The value the lookup table gives a character of a valid text; padding counts as zero. */
  function Lookup(c: char): Sextet {
    if IsDigit(c) then Value(c) else 0
  }

  function GroupBytes(s: string): (r: seq<Byte>)
    requires |s| == 4
    ensures |r| == 3
  {
    var v0, v1, v2, v3 := Lookup(s[0]), Lookup(s[1]), Lookup(s[2]), Lookup(s[3]);
    [v0 * 4 + v1 / 16, v1 % 16 * 16 + v2 / 4, v2 % 4 * 64 + v3]
  }

  function PaddingOf(s: string): nat
    requires |s| >= 2
  {
    if s[|s| - 1] != '=' then 0 else if s[|s| - 2] != '=' then 1 else 2
  }

  /** The bytes of a valid text. */
  function Decode(s: string): (r: seq<Byte>)
    requires ValidText(s)
    ensures |r| == |s| / 4 * 3 - PaddingOf(s)
    decreases |s|
  {
    if |s| == 4 then
      assert s[0..] == s;
      GroupBytes(s)[..3 - PaddingOf(s)]
    else
      TailIsValid(s);
      GroupBytes(s[..4]) + Decode(s[4..])
  }

  lemma {:induction false} TailIsValid(s: string)
    requires ValidText(s) && |s| > 4
    ensures ValidText(s[4..]) && AllDigits(s[..4]) && PaddingOf(s[4..]) == PaddingOf(s)
  {
    var t := s[4..];
    assert t[|t| - 4..] == s[|s| - 4..];
    assert forall i :: 0 <= i < |t| - 4 ==> t[i] == s[..|s| - 4][i + 4];
    assert forall i :: 0 <= i < 4 ==> s[i] == s[..|s| - 4][i];
  }

  lemma {:induction false} GroupValues(a: Byte, b: Byte, c: Byte)
    ensures var g := Group(a, b, c);
      && AllDigits(g)
      && Lookup(g[0]) == a / 4 && Lookup(g[1]) == a % 4 * 16 + b / 16
      && Lookup(g[2]) == b % 16 * 4 + c / 64 && Lookup(g[3]) == c % 64
  {
    DigitsAndValues(a / 4, 'A');
    DigitsAndValues(a % 4 * 16 + b / 16, 'A');
    DigitsAndValues(b % 16 * 4 + c / 64, 'A');
    DigitsAndValues(c % 64, 'A');
  }

  lemma {:induction false} RejoinFirst(a: Byte, b: Byte)
    ensures a / 4 * 4 + (a % 4 * 16 + b / 16) / 16 == a
  {
    Split16(a % 4, b / 16);
  }

  lemma {:induction false} RejoinSecond(a: Byte, b: Byte, c: Byte)
    ensures (a % 4 * 16 + b / 16) % 16 * 16 + (b % 16 * 4 + c / 64) / 4 == b
  {
    Split16(a % 4, b / 16);
    Split4(b % 16, c / 64);
  }

  lemma {:induction false} RejoinThird(b: Byte, c: Byte)
    ensures (b % 16 * 4 + c / 64) % 4 * 64 + c % 64 == c
  {
    Split4(b % 16, c / 64);
  }

  lemma {:induction false} Split4(q: nat, r: nat)
    requires r < 4
    ensures (q * 4 + r) / 4 == q && (q * 4 + r) % 4 == r
  {
  }

  lemma {:induction false} Split16(q: nat, r: nat)
    requires r < 16
    ensures (q * 16 + r) / 16 == q && (q * 16 + r) % 16 == r
  {
  }

  lemma {:induction false} GroupRoundTrip(a: Byte, b: Byte, c: Byte)
    ensures AllDigits(Group(a, b, c)) && GroupBytes(Group(a, b, c)) == [a, b, c]
  {
    GroupValues(a, b, c);
    RejoinFirst(a, b);
    RejoinSecond(a, b, c);
    RejoinThird(b, c);
  }

  /** Padded encoding is a text the decoder accepts, and decoding gives the bytes back. */
  lemma {:induction false} DecodeInvertsEncode(bytes: seq<Byte>)
    requires bytes != []
    ensures ValidText(Encode(bytes)) && Decode(Encode(bytes)) == bytes
    decreases |bytes|
  {
    if |bytes| == 1 { OneByte(bytes); }
    else if |bytes| == 2 { TwoBytes(bytes); }
    else if |bytes| == 3 { ThreeBytes(bytes); }
    else {
      DecodeInvertsEncode(bytes[3..]);
      GroupThenRest(bytes);
    }
  }

  lemma {:induction false} GroupThenRest(bytes: seq<Byte>)
    requires |bytes| > 3
    requires ValidText(Encode(bytes[3..])) && Decode(Encode(bytes[3..])) == bytes[3..]
    ensures ValidText(Encode(bytes)) && Decode(Encode(bytes)) == bytes
  {
    var first := bytes[..3];
    var group := SomeGroup(first);
    EncodeStep(bytes, group);
    JoinValid(group, Encode(bytes[3..]));
    assert bytes == first + bytes[3..];
  }

  lemma {:induction false} EncodeStep(bytes: seq<Byte>, group: string)
    requires |bytes| >= 3 && group == Group(bytes[..3][0], bytes[..3][1], bytes[..3][2])
    ensures Encode(bytes) == group + Encode(bytes[3..])
  {
  }

  lemma {:induction false} SomeGroup(first: seq<Byte>) returns (group: string)
    requires |first| == 3
    ensures group == Group(first[0], first[1], first[2]) && AllDigits(group) && GroupBytes(group) == first
  {
    group := Group(first[0], first[1], first[2]);
    GroupRoundTrip(first[0], first[1], first[2]);
  }

  lemma {:induction false} JoinValid(group: string, rest: string)
    requires |group| == 4 && AllDigits(group) && ValidText(rest)
    ensures ValidText(group + rest) && Decode(group + rest) == GroupBytes(group) + Decode(rest)
  {
    var s := group + rest;
    assert s[|s| - 4..] == rest[|rest| - 4..];
    assert s[..|s| - 4] == group + rest[..|rest| - 4];
    assert s[4..] == rest && s[..4] == group;
  }

  lemma {:induction false} SingleGroup(s: string)
    requires |s| == 4 && LastGroup(s)
    ensures ValidText(s) && Decode(s) == GroupBytes(s)[..3 - PaddingOf(s)]
  {
    assert s[0..] == s && s[..0] == "";
  }

  /** A digit replaced by padding only changes the bytes the padding cuts off. */
  lemma {:induction false} PaddedGroup(group: string, text: string, n: nat)
    requires |group| == 4 && |text| == 4 && AllDigits(group) && 1 <= n <= 2
    requires text[..n + 1] == group[..n + 1] && text[3] == '=' && (n == 1 ==> text[2] == '=')
    ensures ValidText(text) && Decode(text) == GroupBytes(group)[..n]
  {
    assert text[0] == text[..n + 1][0] == group[0] && text[1] == text[..n + 1][1] == group[1];
    assert n == 2 ==> text[2] == text[..n + 1][2] == group[2];
    assert LastGroup(text);
    SingleGroup(text);
    DigitsAndValues(0, text[2]);
    assert PaddingOf(text) == 3 - n;
    PaddedBytes(group, text, n);
  }

  lemma {:induction false} PaddedBytes(group: string, text: string, n: nat)
    requires |group| == 4 && |text| == 4 && 1 <= n <= 2
    requires group[0] == text[0] && group[1] == text[1]
    requires n == 2 ==> group[2] == text[2]
    ensures GroupBytes(text)[..n] == GroupBytes(group)[..n]
  {
    assert GroupBytes(text)[0] == GroupBytes(group)[0];
    assert n == 2 ==> GroupBytes(text)[1] == GroupBytes(group)[1];
  }

  lemma {:induction false} OneByte(bytes: seq<Byte>)
    requires |bytes| == 1
    ensures ValidText(Encode(bytes)) && Decode(Encode(bytes)) == bytes
  {
    var group := Group(bytes[0], 0, 0);
    GroupRoundTrip(bytes[0], 0, 0);
    PaddedGroup(group, group[..2] + "==", 1);
  }

  lemma {:induction false} TwoBytes(bytes: seq<Byte>)
    requires |bytes| == 2
    ensures ValidText(Encode(bytes)) && Decode(Encode(bytes)) == bytes
  {
    EncodeTwo(bytes);
    PaddedTwo(bytes[0], bytes[1]);
  }

  lemma {:induction false} EncodeTwo(bytes: seq<Byte>)
    requires |bytes| == 2
    ensures Encode(bytes) == Group(bytes[0], bytes[1], 0)[..3] + "="
  {
  }

  lemma {:induction false} PaddedTwo(a: Byte, b: Byte)
    ensures var text := Group(a, b, 0)[..3] + "="; ValidText(text) && Decode(text) == [a, b]
  {
    var group := Group(a, b, 0);
    GroupRoundTrip(a, b, 0);
    PaddedGroup(group, group[..3] + "=", 2);
  }

  lemma {:induction false} FullGroup(group: string)
    requires |group| == 4 && AllDigits(group)
    ensures ValidText(group) && Decode(group) == GroupBytes(group)
  {
    DigitsAndValues(0, group[3]);
    SingleGroup(group);
  }

  lemma {:induction false} ThreeBytes(bytes: seq<Byte>)
    requires |bytes| == 3
    ensures ValidText(Encode(bytes)) && Decode(Encode(bytes)) == bytes
  {
    var group := SomeGroup(bytes);
    FullGroup(group);
    assert bytes[..3] == bytes && bytes[3..] == [];
    EncodeStep(bytes, group);
    assert Encode([]) == "" && group + "" == group;
  }

  /** Test vectors of section 10 of RFC 4648: f, fo, foo and foob. */
  lemma {:induction false} KnownTexts()
    ensures Encode([102]) == "Zg==" && Encode([102, 111]) == "Zm8=" && Encode([102, 111, 111]) == "Zm9v"
    ensures Encode([102, 111, 111, 98]) == "Zm9vYg=="
  {
    KnownGroups();
    KnownWholeGroups();
  }

  lemma {:induction false} KnownGroups()
    ensures Encode([102]) == "Zg==" && Encode([102, 111]) == "Zm8=" && Encode([98]) == "Yg=="
    ensures Group(102, 111, 111) == "Zm9v"
  {
    assert Group(102, 0, 0) == "ZgAA" && Group(102, 111, 0) == "Zm8A" && Group(98, 0, 0) == "YgAA";
  }

  lemma {:induction false} KnownWholeGroups()
    requires Encode([98]) == "Yg==" && Group(102, 111, 111) == "Zm9v"
    ensures Encode([102, 111, 111]) == "Zm9v" && Encode([102, 111, 111, 98]) == "Zm9vYg=="
  {
    var foo: seq<Byte>, foob: seq<Byte> := [102, 111, 111], [102, 111, 111, 98];
    assert foo[3..] == [] && foob[3..] == [98];
    assert Encode([]) == "";
    assert Encode(foo) == Group(102, 111, 111) + Encode([]);
    assert Encode(foob) == Group(102, 111, 111) + Encode([98]);
  }

  // ---------------------------------------------------------------- the hand-written encoder

  function Missing(n: nat): nat {
    (3 - n % 3) % 3
  }

  /** What the encoding loop writes: missing bytes read as zero, and never a padding character. */
  function EncodeUnpadded(bytes: seq<Byte>): string
    decreases |bytes|
  {
    if |bytes| == 0 then ""
    else
      var b, c := (if |bytes| > 1 then bytes[1] else 0), (if |bytes| > 2 then bytes[2] else 0);
      Group(bytes[0], b, c) + EncodeUnpadded(if |bytes| < 3 then [] else bytes[3..])
  }

  lemma {:induction false} Split64(q: nat, r: nat)
    requires r < 64
    ensures (q * 64 + r) / 64 == q && (q * 64 + r) % 64 == r
  {
  }

  lemma {:induction false} TopDigit(a: Byte, b: Byte, c: Byte)
    ensures (a * 65536 + b * 256 + c) / 262144 % 64 == a / 4
  {
    var q, r := a / 4, a % 4;
    assert a * 65536 + b * 256 + c == 262144 * q + (r * 65536 + b * 256 + c);
  }

  lemma {:induction false} SecondDigit(a: Byte, b: Byte, c: Byte)
    ensures (a * 65536 + b * 256 + c) / 4096 % 64 == a % 4 * 16 + b / 16
  {
    var q, r := a / 4, a % 4;
    var u, v := b / 16, b % 16;
    assert a * 65536 + b * 256 + c == 4096 * (64 * q + (r * 16 + u)) + (v * 256 + c);
    assert (a * 65536 + b * 256 + c) / 4096 == 64 * q + (r * 16 + u);
    Split64(q, r * 16 + u);
  }

  lemma {:induction false} ThirdDigit(a: Byte, b: Byte, c: Byte)
    ensures (a * 65536 + b * 256 + c) / 64 % 64 == b % 16 * 4 + c / 64
    ensures (a * 65536 + b * 256 + c) % 64 == c % 64
  {
    ThirdSplit(a, b / 16, b % 16, c / 64, c % 64);
  }

  lemma {:induction false} ThirdSplit(a: nat, u: nat, v: nat, x: nat, y: nat)
    requires v < 16 && x < 4 && y < 64
    ensures var n := a * 65536 + (u * 16 + v) * 256 + (x * 64 + y); n / 64 % 64 == v * 4 + x && n % 64 == y
  {
    Split64(a * 1024 + u * 64 + v * 4 + x, y);
    Split64(a * 16 + u, v * 4 + x);
  }

  lemma {:induction false} BitmapDigits(a: Byte, b: Byte, c: Byte)
    ensures var bitmap := a * 65536 + b * 256 + c;
            && bitmap / 262144 % 64 == a / 4 && bitmap / 4096 % 64 == a % 4 * 16 + b / 16
            && bitmap / 64 % 64 == b % 16 * 4 + c / 64 && bitmap % 64 == c % 64
  {
    TopDigit(a, b, c);
    SecondDigit(a, b, c);
    ThirdDigit(a, b, c);
  }

  /** The four characters of one turn; i is the position after the bytes read, n their number in all. */
  method DigitsOf(a: Byte, b: Byte, c: Byte, i: nat, n: nat) returns (digits: string)
    requires i <= n
    ensures digits == Group(a, b, c)
  {
    var bitmap := a * 65536 + b * 256 + c;
    BitmapDigits(a, b, c);
    var third := if i - 2 < n then Digit(bitmap / 64 % 64) else '=';
    var fourth := if i - 1 < n then Digit(bitmap % 64) else '=';
    digits := [Digit(bitmap / 262144 % 64), Digit(bitmap / 4096 % 64), third, fourth];
  }

  /**
    * base64Encode without btoa or Buffer.  `i` advances only while bytes remain, so when the tail tests run it
    * is at most the length and neither of them ever selects the padding character.
    */
  method EncodeManually(bytes: seq<Byte>) returns (result: string)
    ensures result == EncodeUnpadded(bytes)
  {
    result := "";
    var i := 0;
    assert bytes[0..] == bytes;
    while i < |bytes|
      invariant i <= |bytes|
      invariant result + EncodeUnpadded(bytes[i..]) == EncodeUnpadded(bytes)
    {
      ghost var rest := bytes[i..];
      var a: nat := bytes[i];
      i := i + 1;
      var b: nat := 0;
      if i < |bytes| { b := bytes[i]; i := i + 1; }
      var c: nat := 0;
      if i < |bytes| { c := bytes[i]; i := i + 1; }
      assert i <= |bytes| && bytes[i..] == if |rest| < 3 then [] else rest[3..];
      var digits := DigitsOf(a, b, c, i, |bytes|);
      UnpaddedStep(rest, bytes[i..], result, digits);
      result := result + digits;
    }
  }

  lemma {:induction false} UnpaddedStep(rest: seq<Byte>, later: seq<Byte>, written: string, digits: string)
    requires rest != [] && later == if |rest| < 3 then [] else rest[3..]
    requires digits == Group(rest[0], if |rest| > 1 then rest[1] else 0, if |rest| > 2 then rest[2] else 0)
    ensures (written + digits) + EncodeUnpadded(later) == written + EncodeUnpadded(rest)
  {
    assert EncodeUnpadded(rest) == digits + EncodeUnpadded(later);
  }

  lemma {:induction false} ShortIsZeroFilled(bytes: seq<Byte>)
    requires 1 <= |bytes| <= 2
    ensures EncodeUnpadded(bytes) == Encode(bytes + Zeros(Missing(|bytes|)))
  {
    var filled := bytes + Zeros(Missing(|bytes|));
    assert |filled| == 3 && filled[0] == bytes[0] && filled[2] == 0;
    assert filled[3..] == [];
    assert EncodeUnpadded([]) == "" && Encode([]) == "";
  }

  /** The loop's output is the padded encoding of the input filled up with zero bytes. */
  lemma {:induction false} UnpaddedIsZeroFilled(bytes: seq<Byte>)
    ensures EncodeUnpadded(bytes) == Encode(bytes + Zeros(Missing(|bytes|)))
    decreases |bytes|
  {
    var filled := bytes + Zeros(Missing(|bytes|));
    if |bytes| == 0 {
      assert filled == [];
    } else if |bytes| < 3 {
      ShortIsZeroFilled(bytes);
    } else {
      UnpaddedIsZeroFilled(bytes[3..]);
      SameMissing(bytes);
      assert filled[3..] == bytes[3..] + Zeros(Missing(|bytes|));
    }
  }

  lemma {:induction false} SameMissing(bytes: seq<Byte>)
    requires |bytes| >= 3
    ensures Missing(|bytes[3..]|) == Missing(|bytes|)
  {
  }

  /**
    * Decoding the loop's output gives the bytes followed by the missing number of zero bytes, so the round trip is
    * the identity exactly when the number of bytes is a multiple of three.
    */
  lemma {:induction false} ManualRoundTrip(bytes: seq<Byte>)
    requires bytes != []
    ensures ValidText(EncodeUnpadded(bytes))
    ensures Decode(EncodeUnpadded(bytes)) == bytes + Zeros(Missing(|bytes|))
    ensures Decode(EncodeUnpadded(bytes)) == bytes <==> |bytes| % 3 == 0
  {
    UnpaddedIsZeroFilled(bytes);
    FilledRoundTrip(bytes, bytes + Zeros(Missing(|bytes|)), EncodeUnpadded(bytes));
    FilledOnlyIfNeeded(bytes);
  }

  lemma {:induction false} FilledRoundTrip(bytes: seq<Byte>, filled: seq<Byte>, text: string)
    requires bytes != [] && |filled| >= |bytes| && text == Encode(filled)
    ensures ValidText(text) && Decode(text) == filled
  {
    DecodeInvertsEncode(filled);
  }

  lemma {:induction false} FilledOnlyIfNeeded(bytes: seq<Byte>)
    ensures bytes + Zeros(Missing(|bytes|)) == bytes <==> |bytes| % 3 == 0
  {
    if |bytes| % 3 == 0 {
      assert Zeros(Missing(|bytes|)) == [];
    } else {
      assert |bytes + Zeros(Missing(|bytes|))| > |bytes|;
    }
  }

  // ---------------------------------------------------------------- the hand-written decoder

  predicate TableEntry(code: nat, entry: int, digits: nat)
    requires code < 256
  {
    entry == if IsDigit(code as char) && Value(code as char) < digits then Value(code as char) else -1
  }

  ghost predicate IsTable(lookup: array<int>)
    reads lookup
  {
    lookup.Length == 256 && forall code :: 0 <= code < 256 ==>
      lookup[code] == if IsDigit(code as char) then Value(code as char) else if code == 61 then 0 else -1
  }

  /** The 256-entry lookup table; -1 marks characters outside the alphabet, padding counts as zero. */
  method BuildLookup() returns (lookup: array<int>)
    ensures fresh(lookup) && lookup.Length == 256
    ensures IsTable(lookup)
  {
    lookup := new int[256](_ => -1);
    for i := 0 to 64
      invariant forall code: nat :: code < 256 ==> TableEntry(code, lookup[code], i)
    {
      DigitsAndValues(i, 'A');
      ghost var before := lookup[..];
      lookup[Digit(i) as int] := i;
      forall code: nat | code < 256 ensures TableEntry(code, lookup[code], i + 1) {
        assert TableEntry(code, before[code], i);
        DigitsAndValues(0, code as char);
      }
    }
    assert forall code: nat :: code < 256 ==> TableEntry(code, lookup[code], 64);
    lookup['=' as int] := 0;
  }

  /** A later group of a valid text still starts with two digits, and only the last group is padded. */
  lemma {:induction false} GroupsOfText(s: string, k: nat)
    requires ValidText(s) && 4 * k < |s|
    ensures 4 * k + 4 <= |s|
    ensures forall j :: 4 * k <= j < 4 * k + 4 ==> (IsDigit(s[j]) || s[j] == '=')
  {
    var i, last := 4 * k, s[|s| - 4..];
    if i + 4 < |s| {
      assert forall j :: i <= j < i + 4 ==> s[j] == s[..|s| - 4][j];
    } else {
      assert forall j :: 0 <= j < 4 ==> last[j] == s[i + j];
      assert last[0] == last[..2][0] && last[1] == last[..2][1];
    }
  }

  lemma {:induction false} DigitCode(c: char)
    ensures IsDigit(c) || c == '=' ==> c as int < 256
  {
  }

  lemma {:induction false} SkipPrefix(x: seq<Byte>, y: seq<Byte>, p: nat)
    requires p <= |y|
    ensures (x + y)[|x| + p..] == y[p..]
  {
  }

  /** What follows k groups decodes to what follows their 3k bytes. */
  lemma {:induction false} DecodeSuffix(s: string, k: nat)
    requires ValidText(s) && 4 * k < |s|
    ensures ValidText(s[4 * k..]) && 3 * k <= |Decode(s)| && Decode(s)[3 * k..] == Decode(s[4 * k..])
    decreases k
  {
    if k == 0 {
      assert s[0..] == s;
    } else {
      TailIsValid(s);
      var t := s[4..];
      DecodeSuffix(t, k - 1);
      assert t[4 * (k - 1)..] == s[4 * k..];
      DecodeStep(s, t, 3 * (k - 1));
    }
  }

  lemma {:induction false} DecodeStep(s: string, t: string, p: nat)
    requires ValidText(s) && |s| > 4 && t == s[4..] && ValidText(t) && p <= |Decode(t)|
    ensures p + 3 <= |Decode(s)| && Decode(s)[p + 3..] == Decode(t)[p..]
  {
    SkipPrefix(GroupBytes(s[..4]), Decode(t), p);
  }

  /** How many bytes the group numbered k stands for. */
  function GroupLength(s: string, k: nat): nat
    requires ValidText(s) && 4 * k < |s|
  {
    if 4 * k + 4 < |s| then 3 else 3 - PaddingOf(s)
  }

  /** One group, as the loop meets it: its bytes are next in the result, cut off by the padding. */
  lemma {:induction false} NextGroup(s: string, k: nat)
    requires ValidText(s) && 4 * k < |s|
    ensures 4 * k + 4 <= |s|
    ensures var p, n := 3 * k, GroupLength(s, k);
            && p + n <= |Decode(s)| && (4 * k + 4 == |s| ==> p + n == |Decode(s)|)
            && Decode(s)[p..p + n] == GroupBytes(s[4 * k..4 * k + 4])[..n]
  {
    GroupsOfText(s, k);
    DecodeSuffix(s, k);
    var t := s[4 * k..];
    assert t[..4] == s[4 * k..4 * k + 4];
    if 4 * k + 4 == |s| {
      assert t == t[..4];
      LastGroupDecodes(t, PaddingOf(s));
    } else {
      FirstGroupDecodes(t);
    }
    Chunk(Decode(s), 3 * k, GroupLength(s, k), Decode(t));
  }

  lemma {:induction false} LastGroupDecodes(t: string, padding: nat)
    requires ValidText(t) && |t| == 4 && padding == PaddingOf(t)
    ensures Decode(t) == GroupBytes(t)[..3 - padding]
  {
  }

  lemma {:induction false} FirstGroupDecodes(t: string)
    requires ValidText(t) && |t| > 4
    ensures |Decode(t)| >= 3 && Decode(t)[..3] == GroupBytes(t[..4])
  {
    TailIsValid(t);
  }

  lemma {:induction false} Chunk(d: seq<Byte>, p: nat, n: nat, tail: seq<Byte>)
    requires p <= |d| && d[p..] == tail && n <= |tail|
    ensures p + n <= |d| && d[p..p + n] == tail[..n] && (n == |tail| ==> p + n == |d|)
  {
    assert d[p..][..n] == d[p..p + n];
  }

  /** base64Decode without atob or Buffer: an error for texts the pattern refuses, otherwise their bytes. */
  method DecodeManually(str: string) returns (r: Result<seq<Byte>>)
    ensures r == if ValidText(str) then Ok(Decode(str)) else Err
  {
    if !ValidText(str) { return Err; }
    var lookup := BuildLookup();
    var bufferLength := |str| * 3 / 4;
    if str[|str| - 1] == '=' {
      bufferLength := bufferLength - 1;
      if str[|str| - 2] == '=' { bufferLength := bufferLength - 1; }
    }
    var bytes := new Byte[bufferLength](_ => 0);
    var p := 0;
    var i := 0;
    ghost var k := 0;
    while i < |str|
      invariant i == 4 * k && i <= |str| && p <= bufferLength
      invariant IsTable(lookup) && lookup as object != bytes as object
      invariant p == if i < |str| then 3 * k else bufferLength
      invariant bytes[..p] == Decode(str)[..p]
    {
      p := DecodeGroupAt(str, i, lookup, bytes, p, k, Decode(str));
      i, k := i + 4, k + 1;
    }
    assert bytes[..p] == bytes[..] && Decode(str)[..p] == Decode(str);
    r := Ok(bytes[..]);
  }

  /** One turn of the decoding loop.  The table has no -1 for a character of a valid text. */
  method DecodeGroupAt(str: string, i: nat, lookup: array<int>, bytes: array<Byte>, p: nat, ghost k: nat,
                       ghost decoded: seq<Byte>) returns (q: nat)
    requires ValidText(str) && i == 4 * k && i < |str| && p == 3 * k && decoded == Decode(str)
    requires IsTable(lookup) && bytes.Length == |decoded| && p <= bytes.Length
    requires bytes[..p] == decoded[..p]
    modifies bytes
    ensures i + 4 <= |str| && q <= bytes.Length && bytes[..q] == decoded[..q]
    ensures q == if i + 4 < |str| then p + 3 else bytes.Length
  {
    GroupStored(str, k);
    var encoded1, encoded2, encoded3, encoded4 := Entries(str, i, lookup, k);
    GroupBytesAt(str, i);
    q := StoreGroup(bytes, p, encoded1, encoded2, encoded3, encoded4, GroupBytes(str[i..i + 4]));
  }

  /** What the stores of group k leave in the buffer. */
  lemma {:induction false} GroupStored(str: string, k: nat)
    requires ValidText(str) && 4 * k < |str|
    ensures var i, p, decoded := 4 * k, 3 * k, Decode(str);
            var n := |decoded|;
            i + 4 <= |str| && p < n &&
            var q := if p + 3 <= n then p + 3 else n;
            && q == (if i + 4 < |str| then p + 3 else n)
            && decoded[..p] + GroupBytes(str[i..i + 4])[..q - p] == decoded[..q]
  {
    GroupEnds(str, k);
    Joined(str, k, 3 * k + GroupLength(str, k));
  }

  method Entries(str: string, i: nat, lookup: array<int>, ghost k: nat)
      returns (entry1: Sextet, entry2: Sextet, entry3: Sextet, entry4: Sextet)
    requires ValidText(str) && i == 4 * k && i < |str| && IsTable(lookup)
    ensures i + 4 <= |str| && entry1 == Lookup(str[i]) && entry2 == Lookup(str[i + 1])
    ensures entry3 == Lookup(str[i + 2]) && entry4 == Lookup(str[i + 3])
  {
    GroupsOfText(str, k);
    entry1 := Entry(lookup, str[i]);
    entry2 := Entry(lookup, str[i + 1]);
    entry3 := Entry(lookup, str[i + 2]);
    entry4 := Entry(lookup, str[i + 3]);
  }

  lemma {:induction false} GroupBytesAt(str: string, i: nat)
    requires i + 4 <= |str|
    ensures var e1, e2, e3, e4 := Lookup(str[i]), Lookup(str[i + 1]), Lookup(str[i + 2]), Lookup(str[i + 3]);
            GroupBytes(str[i..i + 4]) == [e1 * 4 + e2 / 16, e2 % 16 * 16 + e3 / 4, e3 % 4 * 64 + e4]
  {
  }

  lemma {:induction false} GroupEnds(str: string, k: nat)
    requires ValidText(str) && 4 * k < |str|
    ensures var p, n, q := 3 * k, |Decode(str)|, 3 * k + GroupLength(str, k);
      && p < n && 4 * k + 4 <= |str|
      && q == (if p + 3 <= n then p + 3 else n) == (if 4 * k + 4 < |str| then p + 3 else n)
  {
    NextGroup(str, k);
    if 4 * k + 4 < |str| { NextGroup(str, k + 1); }
  }

  lemma {:induction false} Joined(str: string, k: nat, q: nat)
    requires ValidText(str) && 4 * k + 4 <= |str| && q == 3 * k + GroupLength(str, k)
    ensures var p, decoded := 3 * k, Decode(str);
            q <= |decoded| && decoded[..p] + GroupBytes(str[4 * k..4 * k + 4])[..q - p] == decoded[..q]
  {
    NextGroup(str, k);
    var decoded := Decode(str);
    assert decoded[..q] == decoded[..3 * k] + decoded[3 * k..q];
  }

  method Entry(lookup: array<int>, c: char) returns (entry: int)
    requires IsTable(lookup) && (IsDigit(c) || c == '=')
    ensures entry == Lookup(c)
  {
    DigitCode(c);
    assert (c as int) as char == c;
    entry := lookup[c as int];
  }

  lemma {:induction false} SextetsFillBytes(e1: Sextet, e2: Sextet, e3: Sextet, e4: Sextet)
    ensures (e1 * 4 + e2 / 16) % 256 == e1 * 4 + e2 / 16
    ensures (e2 % 16 * 16 + e3 / 4) % 256 == e2 % 16 * 16 + e3 / 4
    ensures (e3 % 4 * 64 + e4 % 64) % 256 == e3 % 4 * 64 + e4
  {
  }

  /** The stores of one group; bytes beyond the buffer are skipped. */
  method StoreGroup(bytes: array<Byte>, p: nat, e1: Sextet, e2: Sextet, e3: Sextet, e4: Sextet, ghost group: seq<Byte>)
      returns (q: nat)
    requires p < bytes.Length && group == [e1 * 4 + e2 / 16, e2 % 16 * 16 + e3 / 4, e3 % 4 * 64 + e4]
    modifies bytes
    ensures q == if p + 3 <= bytes.Length then p + 3 else bytes.Length
    ensures bytes[..q] == old(bytes[..p]) + group[..q - p]
  {
    SextetsFillBytes(e1, e2, e3, e4);
    q := p;
    bytes[q] := (e1 * 4 + e2 / 16) % 256;
    q := q + 1;
    if q < bytes.Length {
      bytes[q] := (e2 % 16 * 16 + e3 / 4) % 256;
      q := q + 1;
    }
    if q < bytes.Length {
      bytes[q] := (e3 % 4 * 64 + e4 % 64) % 256;
      q := q + 1;
    }
  }
}
