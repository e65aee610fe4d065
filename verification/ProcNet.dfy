/** The owner of a local socket, looked up in the kernel's /proc/net tables: writing the
    endpoint the way the kernel does, and scanning the rows. */
module ProcNet {

  import opened Options
  import opened ProcHeader

  // ----- Addresses in the machine's byte order

  /** Four bytes read as one word, the first byte the most significant. */
  function BigWord(b: seq<bv8>): bv32
    requires |b| == 4
  {
    (b[0] as bv32 << 24) | (b[1] as bv32 << 16) | (b[2] as bv32 << 8) | b[3] as bv32
  }

  function LittleWord(b: seq<bv8>): bv32
    requires |b| == 4
  {
    b[0] as bv32 | (b[1] as bv32 << 8) | (b[2] as bv32 << 16) | (b[3] as bv32 << 24)
  }

  function Low(v: bv32): bv8 {
    (v & 0xFF) as bv8
  }

  function PutBig(v: bv32): seq<bv8> {
    [Low(v >> 24), Low(v >> 16), Low(v >> 8), Low(v)]
  }

  function PutLittle(v: bv32): seq<bv8> {
    [Low(v), Low(v >> 8), Low(v >> 16), Low(v >> 24)]
  }

  /** Where byte i of the output comes from. */
  function From(i: nat, little: bool): nat {
    if little then i / 4 * 4 + (3 - i % 4) else i
  }

  lemma FromLaw(i: nat, n: nat, little: bool)
    requires i < n && n % 4 == 0
    ensures From(i, little) < n && From(From(i, little), little) == i
  {
    var w, k := i / 4, 3 - i % 4;
    assert (4 * w + k) / 4 == w && (4 * w + k) % 4 == k;
  }

  lemma WordSources(i: nat, little: bool)
    requires i % 4 == 0
    ensures forall k :: i <= k < i + 4 ==> From(k, little) == if little then 2 * i + 3 - k else k
  {
    forall k | i <= k < i + 4 ensures From(k, little) == if little then 2 * i + 3 - k else k {
      assert k / 4 == i / 4 && k % 4 == k - i;
    }
  }

  ghost predicate IsSwap(ip: seq<bv8>, out: seq<bv8>, little: bool) {
    |out| == |ip| && |ip| % 4 == 0
    && forall i :: 0 <= i < |ip| ==> From(i, little) < |ip| && out[i] == ip[From(i, little)]
  }

  lemma PutBytes(b: seq<bv8>)
    requires |b| == 4
    ensures PutBig(BigWord(b)) == b
    ensures PutLittle(BigWord(b)) == [b[3], b[2], b[1], b[0]]
    ensures PutBig(LittleWord(b)) == [b[3], b[2], b[1], b[0]]
  {
    var b0, b1, b2, b3 := b[0], b[1], b[2], b[3];
    assert Low(BigWord(b) >> 24) == b0 && Low(BigWord(b) >> 16) == b1
           && Low(BigWord(b) >> 8) == b2 && Low(BigWord(b)) == b3;
    assert Low(LittleWord(b) >> 24) == b3 && Low(LittleWord(b) >> 16) == b2
           && Low(LittleWord(b) >> 8) == b1 && Low(LittleWord(b)) == b0;
  }

  /** One word, read most significant byte first and written in the machine's order. */
  method Convert(word: seq<bv8>, little: bool) returns (put: seq<bv8>)
    requires |word| == 4
    ensures put == if little then [word[3], word[2], word[1], word[0]] else word
  {
    PutBytes(word);
    var value := BigWord(word);
    put := if little then PutLittle(value) else PutBig(value);
  }

  /** The loop over the words of an address. */
  method NativeEndianIP(ip: seq<bv8>, little: bool) returns (result: array<bv8>)
    requires |ip| % 4 == 0
    ensures fresh(result) && IsSwap(ip, result[..], little)
  {
    result := new bv8[|ip|];
    var i := 0;
    while i < |ip|
      invariant i <= |ip| && i % 4 == 0
      invariant forall k :: 0 <= k < i ==> From(k, little) < |ip| && result[k] == ip[From(k, little)]
    {
      var put := Convert(ip[i..i + 4], little);
      WordSources(i, little);
      forall k | i <= k < i + 4 {
        result[k] := put[k - i];
      }
      i := i + 4;
    }
  }

  /** The conversion undoes itself, so no two addresses share one. */
  lemma SwapTwice(ip: seq<bv8>, out: seq<bv8>, again: seq<bv8>, little: bool)
    requires IsSwap(ip, out, little) && IsSwap(out, again, little)
    ensures again == ip
  {
    forall i | 0 <= i < |ip| ensures again[i] == ip[i] {
      FromLaw(i, |ip|, little);
    }
  }

  lemma SwapInjective(a: seq<bv8>, b: seq<bv8>, out: seq<bv8>, little: bool)
    requires IsSwap(a, out, little) && IsSwap(b, out, little)
    ensures a == b
  {
    var again := Swapped(out, little);
    SwapTwice(a, out, again, little);
    SwapTwice(b, out, again, little);
  }

  // ----- The endpoint as text

  function Digit(n: bv4): char {
    match n
    case 0 => '0' case 1 => '1' case 2 => '2' case 3 => '3'
    case 4 => '4' case 5 => '5' case 6 => '6' case 7 => '7'
    case 8 => '8' case 9 => '9' case 10 => 'a' case 11 => 'b'
    case 12 => 'c' case 13 => 'd' case 14 => 'e' case _ => 'f'
  }

  /** The digits the kernel prints with. */
  function UpperDigit(n: bv4): char {
    match n
    case 0 => '0' case 1 => '1' case 2 => '2' case 3 => '3'
    case 4 => '4' case 5 => '5' case 6 => '6' case 7 => '7'
    case 8 => '8' case 9 => '9' case 10 => 'A' case 11 => 'B'
    case 12 => 'C' case 13 => 'D' case 14 => 'E' case _ => 'F'
  }

  function Hex(bytes: seq<bv8>): string {
    if bytes == [] then "" else HexByte(bytes[0]) + Hex(bytes[1..])
  }

  function HexByte(b: bv8): string {
    [Digit(High4(b)), Digit(Low4(b))]
  }

  function High4(b: bv8): bv4 {
    (b >> 4) as bv4
  }

  function Low4(b: bv8): bv4 {
    (b & 15) as bv4
  }

  /** Case folding as far as a key can meet it: keys hold only hexadecimal digits and a
      colon, and nothing outside ASCII folds to one of those. */
  function Fold(c: char): char {
    if 'A' <= c <= 'Z' then c - 'A' + 'a' else c
  }

  predicate EqualFold(s: string, t: string) {
    |s| == |t| && forall i :: 0 <= i < |s| ==> Fold(s[i]) == Fold(t[i])
  }

  function PortBytes(port: bv16): seq<bv8> {
    [(port >> 8) as bv8, (port & 0xFF) as bv8]
  }

  /** The text searched for, from an address already in the machine's order. */
  function Key(native: seq<bv8>, port: bv16): string {
    Hex(native) + ":" + Hex(PortBytes(port))
  }

  // ----- The endpoint as the kernel prints it

  function Nibble(v: bv32): bv4 {
    (v & 15) as bv4
  }

  function Printed(v: bv32): string {
    [UpperDigit(Nibble(v >> 28)), UpperDigit(Nibble(v >> 24)), UpperDigit(Nibble(v >> 20)), UpperDigit(Nibble(v >> 16)),
     UpperDigit(Nibble(v >> 12)), UpperDigit(Nibble(v >> 8)), UpperDigit(Nibble(v >> 4)), UpperDigit(Nibble(v))]
  }

  /** The words of an address, each read as the machine reads its memory, as %08X. */
  function PrintedWords(ip: seq<bv8>, little: bool): string
    requires |ip| % 4 == 0
  {
    if ip == [] then "" else
    Printed(if little then LittleWord(ip[..4]) else BigWord(ip[..4])) + PrintedWords(ip[4..], little)
  }

  function PrintedEndpoint(ip: seq<bv8>, port: bv16, little: bool): string
    requires |ip| % 4 == 0
  {
    PrintedWords(ip, little) + ":" + Printed(port as bv32)[4..]
  }

  // ----- A key names one endpoint

  function DigitValue(c: char): bv4 {
    match c
    case '0' => 0 case '1' => 1 case '2' => 2 case '3' => 3
    case '4' => 4 case '5' => 5 case '6' => 6 case '7' => 7
    case '8' => 8 case '9' => 9 case 'a' => 10 case 'b' => 11
    case 'c' => 12 case 'd' => 13 case 'e' => 14 case _ => 15
  }

  lemma DigitLaw(n: bv4)
    ensures DigitValue(Digit(n)) == n
    ensures Fold(UpperDigit(n)) == Digit(n) == Fold(Digit(n)) && Digit(n) != ':'
  {
  }

  lemma Nibbles(b: bv8, c: bv8)
    requires High4(b) == High4(c) && Low4(b) == Low4(c)
    ensures b == c
  {
  }

  lemma {:induction false} HexInjective(a: seq<bv8>, b: seq<bv8>)
    requires |a| == |b| && Hex(a) == Hex(b)
    ensures a == b
  {
    if a != [] {
      var s := Hex(a);
      assert s == Hex(b);
      assert s[2..] == Hex(a[1..]) == Hex(b[1..]);
      assert s[0] == Digit(High4(a[0])) == Digit(High4(b[0]));
      assert s[1] == Digit(Low4(a[0])) == Digit(Low4(b[0]));
      DigitLaw(High4(a[0]));
      DigitLaw(High4(b[0]));
      DigitLaw(Low4(a[0]));
      DigitLaw(Low4(b[0]));
      Nibbles(a[0], b[0]);
      HexInjective(a[1..], b[1..]);
    }
  }

  lemma {:induction false} HexLength(a: seq<bv8>)
    ensures |Hex(a)| == 2 * |a|
  {
    if a != [] {
      HexLength(a[1..]);
    }
  }

  lemma {:induction false} HexJoin(a: seq<bv8>, b: seq<bv8>)
    ensures Hex(a + b) == Hex(a) + Hex(b)
  {
    if a == [] {
      assert a + b == b;
    } else {
      assert (a + b)[0] == a[0] && (a + b)[1..] == a[1..] + b;
      HexJoin(a[1..], b);
    }
  }

  ghost predicate Folds(printed: string, hex: string) {
    |printed| == |hex| && forall i :: 0 <= i < |hex| ==> Fold(printed[i]) == hex[i] == Fold(hex[i])
  }

  lemma PrintedNibbles(v: bv32)
    ensures var b := PutBig(v);
            Nibble(v >> 28) == High4(b[0]) && Nibble(v >> 24) == Low4(b[0])
            && Nibble(v >> 20) == High4(b[1]) && Nibble(v >> 16) == Low4(b[1])
            && Nibble(v >> 12) == High4(b[2]) && Nibble(v >> 8) == Low4(b[2])
            && Nibble(v >> 4) == High4(b[3]) && Nibble(v) == Low4(b[3])
  {
  }

  lemma HexOfFour(b0: bv8, b1: bv8, b2: bv8, b3: bv8)
    ensures Hex([b0, b1, b2, b3]) == HexByte(b0) + HexByte(b1) + HexByte(b2) + HexByte(b3)
  {
    assert [b3][1..] == [] && Hex([b3]) == HexByte(b3);
    assert [b2, b3][1..] == [b3] && Hex([b2, b3]) == HexByte(b2) + HexByte(b3);
    assert [b1, b2, b3][1..] == [b2, b3];
    assert [b0, b1, b2, b3][1..] == [b1, b2, b3];
  }

  lemma ByteFolds(b: bv8)
    ensures Folds([UpperDigit(High4(b)), UpperDigit(Low4(b))], HexByte(b))
  {
    DigitLaw(High4(b));
    DigitLaw(Low4(b));
  }

  lemma WordFolds(v: bv32)
    ensures Folds(Printed(v), Hex(PutBig(v)))
  {
    PrintedNibbles(v);
    var b := PutBig(v);
    HexOfFour(b[0], b[1], b[2], b[3]);
    ByteFolds(b[0]);
    ByteFolds(b[1]);
    ByteFolds(b[2]);
    ByteFolds(b[3]);
  }

  lemma PortFolds(port: bv16)
    ensures Folds(Printed(port as bv32)[4..], Hex(PortBytes(port)))
  {
    var v := port as bv32;
    var b := PutBig(v);
    WordFolds(v);
    assert PortBytes(port) == b[2..] by {
      assert Low(v >> 8) == (port >> 8) as bv8 && Low(v) == (port & 0xFF) as bv8;
    }
    HexJoin(b[..2], b[2..]);
    HexLength(b[..2]);
    assert b == b[..2] + b[2..];
    assert Hex(b)[4..] == Hex(b[2..]);
  }

  lemma FoldsJoin(p: string, h: string, q: string, k: string)
    requires Folds(p, h) && Folds(q, k)
    ensures Folds(p + q, h + k)
  {
  }

  lemma {:induction false} AddressFolds(ip: seq<bv8>, native: seq<bv8>, little: bool)
    requires IsSwap(ip, native, little)
    ensures Folds(PrintedWords(ip, little), Hex(native))
  {
    if ip != [] {
      WordSources(0, little);
      var word := ip[..4];
      PutBytes(word);
      var v := if little then LittleWord(word) else BigWord(word);
      assert native[..4] == PutBig(v);
      WordFolds(v);
      SwapRest(ip, native, little);
      AddressFolds(ip[4..], native[4..], little);
      HexJoin(native[..4], native[4..]);
      assert native == native[..4] + native[4..];
      FoldsJoin(Printed(v), Hex(native[..4]), PrintedWords(ip[4..], little), Hex(native[4..]));
    }
  }

  lemma SwapRest(ip: seq<bv8>, native: seq<bv8>, little: bool)
    requires IsSwap(ip, native, little) && ip != []
    ensures IsSwap(ip[4..], native[4..], little)
  {
    forall i | 0 <= i < |ip| - 4 ensures From(i, little) < |ip| - 4 && native[4..][i] == ip[4..][From(i, little)] {
      FromLaw(i, |ip| - 4, little);
      assert From(i + 4, little) == From(i, little) + 4;
    }
  }

  lemma PrintedFolds(ip: seq<bv8>, port: bv16, native: seq<bv8>, little: bool)
    requires IsSwap(ip, native, little)
    ensures Folds(PrintedEndpoint(ip, port, little), Key(native, port))
  {
    AddressFolds(ip, native, little);
    PortFolds(port);
    FoldsJoin(PrintedWords(ip, little), Hex(native), ":", ":");
    FoldsJoin(PrintedWords(ip, little) + ":", Hex(native) + ":", Printed(port as bv32)[4..], Hex(PortBytes(port)));
  }

  /** Keys are equal only for the same address and port, of one family or two. */
  lemma KeyInjective(a: seq<bv8>, port: bv16, b: seq<bv8>, other: bv16)
    requires Key(a, port) == Key(b, other)
    ensures a == b && port == other
  {
    var key := Key(a, port);
    assert key == Key(b, other);
    HexLength(a);
    HexLength(b);
    HexLength(PortBytes(port));
    HexLength(PortBytes(other));
    assert key[..2 * |a|] == Hex(a) && key[..2 * |b|] == Hex(b);
    assert key[2 * |a| + 1..] == Hex(PortBytes(port)) && key[2 * |b| + 1..] == Hex(PortBytes(other));
    HexInjective(a, b);
    HexInjective(PortBytes(port), PortBytes(other));
    PortIsItsBytes(port, other);
  }

  ghost function Swapped(ip: seq<bv8>, little: bool): (native: seq<bv8>)
    requires |ip| % 4 == 0
    ensures IsSwap(ip, native, little)
  {
    assert forall i :: 0 <= i < |ip| ==> From(i, little) < |ip| by {
      forall i | 0 <= i < |ip| ensures From(i, little) < |ip| {
        FromLaw(i, |ip|, little);
      }
    }
    seq(|ip|, i requires 0 <= i < |ip| => ip[From(i, little)])
  }

  /** A key meets the printed form of an endpoint exactly when it is that endpoint. */
  lemma KeyNamesOneEndpoint(ip: seq<bv8>, port: bv16, native: seq<bv8>, owner: seq<bv8>, ownerPort: bv16, little: bool)
    requires IsSwap(ip, native, little) && |owner| % 4 == 0
    ensures EqualFold(Key(native, port), PrintedEndpoint(owner, ownerPort, little))
            <==> ip == owner && port == ownerPort
  {
    var swapped := Swapped(owner, little);
    var key, other, printed := Key(native, port), Key(swapped, ownerPort), PrintedEndpoint(owner, ownerPort, little);
    PrintedFolds(owner, ownerPort, swapped, little);
    PrintedFolds(ip, port, native, little);
    assert EqualFold(key, printed) <==> key == other;
    if key == other {
      KeyInjective(native, port, swapped, ownerPort);
      SwapInjective(ip, owner, native, little);
    }
    if ip == owner && port == ownerPort {
      assert native == swapped;
    }
  }

  lemma PortIsItsBytes(a: bv16, b: bv16)
    requires PortBytes(a) == PortBytes(b)
    ensures a == b
  {
    assert PortBytes(a)[0] == PortBytes(b)[0] && PortBytes(a)[1] == PortBytes(b)[1];
    assert (a >> 8) as bv8 == (b >> 8) as bv8 && (a & 0xFF) as bv8 == (b & 0xFF) as bv8;
  }

  // ----- The lookup

  /** The rows of a table, split into fields. */
  type Rows = seq<seq<string>>
  type Atoi = string -> Option<int>

  predicate Meets(fields: seq<string>, key: string, local: nat, uid: nat) {
    |fields| > local && |fields| > uid && EqualFold(key, fields[local])
  }

  /** The number in the field, or -1 if it is none. */
  ghost predicate IsNumber(text: string, atoi: Atoi, answer: int) {
    match atoi(text)
    case Some(number) => answer == number
    case None => answer == -1
  }

  /** The owner in the first row that meets the key; -1 without such a row or table. */
  ghost predicate IsAnswer(table: Option<Rows>, key: string, local: nat, uid: nat, atoi: Atoi, answer: int) {
    match table
    case None => answer == -1
    case Some(rows) =>
      ((forall i :: 0 <= i < |rows| ==> !Meets(rows[i], key, local, uid)) ==> answer == -1)
      && forall i :: 0 <= i < |rows| && Meets(rows[i], key, local, uid)
                     && (forall j :: 0 <= j < i ==> !Meets(rows[j], key, local, uid))
           ==> IsNumber(rows[i][uid], atoi, answer)
  }

  /** One table, read row by row; None is a table that cannot be opened. */
  method DoQuery(
    table: Option<Rows>, ip: seq<bv8>, port: bv16, local: nat, uid: nat, little: bool, atoi: Atoi)
    returns (answer: int)
    requires |ip| % 4 == 0
    ensures IsAnswer(table, Key(Swapped(ip, little), port), local, uid, atoi, answer)
  {
    if table.None? {
      return -1;
    }
    var native := NativeEndianIP(ip, little);
    assert native[..] == Swapped(ip, little);
    var key := Key(native[..], port);
    var rows := table.value;
    for i := 0 to |rows|
      invariant forall j :: 0 <= j < i ==> !Meets(rows[j], key, local, uid)
    {
      var fields := rows[i];
      if |fields| <= local || |fields| <= uid {
        continue;
      }
      if EqualFold(key, fields[local]) {
        var number := atoi(fields[uid]);
        return if number.Some? then number.value else -1;
      }
    }
    return -1;
  }

  /** Who owns each row of a table the kernel wrote; None for a row that is too short or
      whose field is no endpoint, such as the header. */
  type Owners = seq<Option<(seq<bv8>, bv16)>>

  ghost predicate Written(rows: Rows, owners: Owners, local: nat, uid: nat, little: bool) {
    |rows| == |owners|
    && forall i :: 0 <= i < |rows| ==>
         match owners[i]
         case None => |rows[i]| <= local || |rows[i]| <= uid || ':' !in rows[i][local]
         case Some(owner) => |rows[i]| > local && |rows[i]| > uid && |owner.0| % 4 == 0
                             && rows[i][local] == PrintedEndpoint(owner.0, owner.1, little)
  }

  /** The first row for an endpoint, if the table has one. */
  ghost predicate FirstRow(owners: Owners, i: nat, ip: seq<bv8>, port: bv16) {
    i < |owners| && owners[i] == Some((ip, port)) && Some((ip, port)) !in owners[..i]
  }

  /** The owner in the first row for this endpoint; -1 without such a row. */
  ghost predicate IsFirstOwner(
    rows: Rows, owners: Owners, ip: seq<bv8>, port: bv16, uid: nat, atoi: Atoi, answer: int)
  {
    && (Some((ip, port)) !in owners ==> answer == -1)
    && forall i: nat :: i < |rows| && FirstRow(owners, i, ip, port) ==>
         uid < |rows[i]| && IsNumber(rows[i][uid], atoi, answer)
  }

  lemma ColonKept(key: string, field: string, k: nat)
    requires k < |key| && key[k] == ':'
    ensures EqualFold(key, field) ==> ':' in field
  {
    if EqualFold(key, field) {
      assert Fold(field[k]) == ':';
    }
  }

  lemma MeetsItsOwner(
    rows: Rows, owners: Owners, i: nat, ip: seq<bv8>, port: bv16, local: nat, uid: nat, little: bool)
    requires Written(rows, owners, local, uid, little) && i < |rows| && |ip| % 4 == 0
    ensures Meets(rows[i], Key(Swapped(ip, little), port), local, uid) <==> owners[i] == Some((ip, port))
  {
    var native := Swapped(ip, little);
    match owners[i]
    case Some(owner) => KeyNamesOneEndpoint(ip, port, native, owner.0, owner.1, little);
    case None =>
      assert Key(native, port)[|Hex(native)|] == ':';
      if |rows[i]| > local && |rows[i]| > uid {
        ColonKept(Key(native, port), rows[i][local], |Hex(native)|);
      }
  }

  /** In a table the kernel wrote, the answer is the owner of the first row for exactly
      this address and port, or -1. */
  lemma AnswerIsTheOwner(
    rows: Rows, owners: Owners, ip: seq<bv8>, port: bv16, local: nat, uid: nat, little: bool, atoi: Atoi, answer: int)
    requires Written(rows, owners, local, uid, little) && |ip| % 4 == 0
    requires IsAnswer(Some(rows), Key(Swapped(ip, little), port), local, uid, atoi, answer)
    ensures IsFirstOwner(rows, owners, ip, port, uid, atoi, answer)
  {
    forall i | 0 <= i < |rows|
      ensures Meets(rows[i], Key(Swapped(ip, little), port), local, uid) <==> owners[i] == Some((ip, port))
    {
      MeetsItsOwner(rows, owners, i, ip, port, local, uid, little);
    }
    forall i: nat | FirstRow(owners, i, ip, port)
      ensures uid < |rows[i]| && IsNumber(rows[i][uid], atoi, answer)
    {
      forall j | 0 <= j < i ensures !Meets(rows[j], Key(Swapped(ip, little), port), local, uid) {
        assert owners[..i][j] == owners[j];
      }
    }
  }

  // ----- Both tables

  datatype Source = Tcp(ip: seq<bv8>, port: bv16) | Udp(ip: seq<bv8>, port: bv16) | Other

  const MAPPED: seq<bv8> := [0, 0, 0, 0, 0, 0, 0, 0, 0, 0, 0xFF, 0xFF]

  function To16(ip: seq<bv8>): (r: Option<seq<bv8>>)
    ensures r.Some? ==> |r.value| == 16
  {
    if |ip| == 4 then Some(MAPPED + ip) else if |ip| == 16 then Some(ip) else None
  }

  function To4(ip: seq<bv8>): (r: Option<seq<bv8>>)
    ensures r.Some? ==> |r.value| == 4
  {
    if |ip| == 4 then Some(ip) else if |ip| == 16 && ip[..12] == MAPPED then Some(ip[12..]) else None
  }

  /** The first answer comes from the table of long addresses; when that is -1, and only
      then, the answer is that of the short address, if there is one. */
  ghost predicate IsOwner(
    source: Source, table6: Option<Rows>, table4: Option<Rows>, local: int, uid: int,
    little: bool, atoi: Atoi, answer: int)
  {
    if local < 0 || uid < 0 || source.Other? || To16(source.ip).None? then answer == -1 else
    var long := To16(source.ip).value;
    var key6 := Key(Swapped(long, little), source.port);
    (answer != -1 && IsAnswer(table6, key6, local, uid, atoi, answer))
    || (IsAnswer(table6, key6, local, uid, atoi, -1)
        && match To4(long)
           case None => answer == -1
           case Some(short) => IsAnswer(table4, Key(Swapped(short, little), source.port), local, uid, atoi, answer))
  }

  method QuerySocketUid(
    source: Source, table6: Option<Rows>, table4: Option<Rows>, local: int, uid: int, little: bool, atoi: Atoi)
    returns (answer: int)
    ensures IsOwner(source, table6, table4, local, uid, little, atoi, answer)
  {
    if local < 0 || uid < 0 || source.Other? {
      return -1;
    }
    var long := To16(source.ip);
    if long.None? {
      return -1;
    }
    answer := DoQuery(table6, long.value, source.port, local, uid, little, atoi);
    if answer == -1 {
      var short := To4(long.value);
      if short.None? {
        return -1;
      }
      answer := DoQuery(table4, short.value, source.port, local, uid, little, atoi);
    }
  }

  /** By who owns the rows of both tables: the owner in the first row for the long
      address; if that row is missing or its owner is no number, the one in the first
      row for the short address, if the address has a short form; or else -1. */
  ghost predicate IsRowOwner(
    source: Source, rows6: Rows, owners6: Owners, rows4: Rows, owners4: Owners, uid: nat, atoi: Atoi, answer: int)
    requires !source.Other?
  {
    match To16(source.ip)
    case None => answer == -1
    case Some(long) =>
      if !IsFirstOwner(rows6, owners6, long, source.port, uid, atoi, -1)
      then IsFirstOwner(rows6, owners6, long, source.port, uid, atoi, answer)
      else
        match To4(long)
        case None => answer == -1
        case Some(short) => IsFirstOwner(rows4, owners4, short, source.port, uid, atoi, answer)
  }

  /** Over two tables the kernel wrote, for any address. */
  lemma OwnerOfAddress(
    source: Source, rows6: Rows, owners6: Owners, rows4: Rows, owners4: Owners,
    local: nat, uid: nat, little: bool, atoi: Atoi, answer: int)
    requires !source.Other?
    requires Written(rows6, owners6, local, uid, little) && Written(rows4, owners4, local, uid, little)
    requires IsOwner(source, Some(rows6), Some(rows4), local, uid, little, atoi, answer)
    ensures IsRowOwner(source, rows6, owners6, rows4, owners4, uid, atoi, answer)
  {
    if To16(source.ip).Some? {
      var long := To16(source.ip).value;
      var key6 := Key(Swapped(long, little), source.port);
      if answer != -1 && IsAnswer(Some(rows6), key6, local, uid, atoi, answer) {
        AnswerIsTheOwner(rows6, owners6, long, source.port, local, uid, little, atoi, answer);
        OneFirstOwner(rows6, owners6, long, source.port, uid, atoi, answer, -1);
      } else {
        AnswerIsTheOwner(rows6, owners6, long, source.port, local, uid, little, atoi, -1);
        if To4(long).Some? {
          AnswerIsTheOwner(rows4, owners4, To4(long).value, source.port, local, uid, little, atoi, answer);
        }
      }
    }
  }

  /** The rows leave no choice of the answer. */
  lemma OneFirstOwner(
    rows: Rows, owners: Owners, ip: seq<bv8>, port: bv16, uid: nat, atoi: Atoi, a: int, b: int)
    requires |rows| == |owners|
    requires IsFirstOwner(rows, owners, ip, port, uid, atoi, a)
    ensures IsFirstOwner(rows, owners, ip, port, uid, atoi, b) ==> a == b
  {
    if Some((ip, port)) in owners {
      var i := SomeFirstRow(owners, ip, port);
      assert FirstRow(owners, i, ip, port);
    }
  }

  lemma SomeFirstRow(owners: Owners, ip: seq<bv8>, port: bv16) returns (i: nat)
    requires Some((ip, port)) in owners
    ensures FirstRow(owners, i, ip, port)
  {
    i := 0;
    while owners[i] != Some((ip, port))
      invariant i < |owners| && Some((ip, port)) !in owners[..i] && Some((ip, port)) in owners[i..]
      decreases |owners| - i
    {
      assert owners[i..] == [owners[i]] + owners[i + 1..];
      assert owners[..i + 1] == owners[..i] + [owners[i]];
      i := i + 1;
    }
  }

  // ----- The two forms of an address

  /** The long form of a short address: ten zeros, two bytes of ones, and the address. */
  ghost predicate IsMapped(ip: seq<bv8>, short: seq<bv8>) {
    && |ip| == 16 && |short| == 4 && ip[10] == ip[11] == 0xFF && ip[12..] == short
    && forall i :: 0 <= i < 10 ==> ip[i] == 0
  }

  lemma FormsOfAnAddress(ip: seq<bv8>, short: seq<bv8>)
    ensures |ip| == 16 ==> To16(ip) == Some(ip) && (To4(ip) == Some(short) <==> IsMapped(ip, short))
    ensures |ip| == 4 ==> To4(ip) == Some(ip) && To16(ip).Some? && IsMapped(To16(ip).value, ip)
    ensures |ip| != 4 && |ip| != 16 ==> To16(ip) == None
  {
    if |ip| == 16 && IsMapped(ip, short) {
      assert ip[..12] == MAPPED;
    }
    if |ip| == 16 && ip[..12] == MAPPED {
      assert forall i :: 0 <= i < 12 ==> ip[i] == ip[..12][i];
    }
  }

  /** A short address and its long form have the same owner. */
  lemma MappedFormAnswersAlike(
    source: Source, mapped: seq<bv8>, table6: Option<Rows>, table4: Option<Rows>,
    local: int, uid: int, little: bool, atoi: Atoi, answer: int)
    requires !source.Other? && IsMapped(mapped, source.ip)
    ensures IsOwner(source, table6, table4, local, uid, little, atoi, answer)
            <==> IsOwner(source.(ip := mapped), table6, table4, local, uid, little, atoi, answer)
  {
    FormsOfAnAddress(mapped, source.ip);
    FormsOfAnAddress(source.ip, source.ip);
    var long := To16(source.ip).value;
    assert long[..10] == mapped[..10] && long[10..12] == mapped[10..12] && long[12..] == mapped[12..];
    assert long == long[..10] + long[10..12] + long[12..];
    assert mapped == mapped[..10] + mapped[10..12] + mapped[12..];
  }

  // ----- With the columns that were discovered

  /** A column is in the header, and the pairs wholly before it are adjacent. */
  ghost predicate Discoverable(columns: seq<string>, name: string) {
    exists n :: 0 <= n < |columns| && columns[n] == name && PairsMerged(columns, n)
  }

  /** The columns that the discovery records are the ones that the lookup has to read:
      if the tables are laid out as the header says, with pairs that are adjacent where
      they matter, the answer is the owner that the rows tell. */
  lemma DiscoveredColumnsAreRead(
    columns: seq<string>, local: int, uid: int, atLocal: nat, atUid: nat,
    source: Source, rows6: Rows, owners6: Owners, rows4: Rows, owners4: Owners, little: bool, atoi: Atoi, answer: int)
    requires Distinct(columns) && Discoverable(columns, LOCAL) && Discoverable(columns, UID)
    requires Recorded(columns, |columns|, LOCAL, local) && Recorded(columns, |columns|, UID, uid)
    requires IsField(columns, LOCAL, atLocal) && IsField(columns, UID, atUid)
    requires !source.Other?
    requires Written(rows6, owners6, atLocal, atUid, little) && Written(rows4, owners4, atLocal, atUid, little)
    requires IsOwner(source, Some(rows6), Some(rows4), local, uid, little, atoi, answer)
    ensures local == atLocal && uid == atUid
    ensures IsRowOwner(source, rows6, owners6, rows4, owners4, atUid, atoi, answer)
  {
    DiscoveredExactly(columns, LOCAL, local);
    DiscoveredExactly(columns, UID, uid);
    FieldIsUnique(columns, LOCAL, local, atLocal);
    FieldIsUnique(columns, UID, uid, atUid);
    OwnerOfAddress(source, rows6, owners6, rows4, owners4, atLocal, atUid, little, atoi, answer);
  }
}
