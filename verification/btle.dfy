/**
 * service/adapters/btle/packet.go: advertising data (Bluetooth Core, Vol 3 Part C section 11) and LE advertising
 * reports (Vol 4 Part E section 7.7.65.2).
 */
module Btle {
  import opened Wrappers
  import opened Int32

  type Bytes = seq<Byte>

  // ----- advertising data elements

  datatype AD = AD(kind: Byte, data: Bytes)

  /** A payload is a list of elements with zero bytes anywhere between them. */
  datatype Item = Padding | Element(ad: AD)

  predicate Printable(items: seq<Item>) {
    forall i :: 0 <= i < |items| && items[i].Element? ==> |items[i].ad.data| <= 254
  }

  function PrintItem(item: Item): Bytes
    requires item.Element? ==> |item.ad.data| <= 254
  {
    match item
    case Padding => [0]
    case Element(ad) => [|ad.data| + 1, ad.kind] + ad.data
  }

  function Print(items: seq<Item>): Bytes
    requires Printable(items)
  {
    if items == [] then [] else PrintItem(items[0]) + Print(items[1..])
  }

  /** The payload cut into items from the front, with what is left when a length byte reaches past the end. */
  datatype Parsed = Parsed(items: seq<Item>, rest: Bytes)

  function Parse(data: Bytes): Parsed
    decreases |data|
  {
    if data == [] then Parsed([], [])
    else if data[0] == 0 then Before(Padding, Parse(data[1..]))
    else if 1 + data[0] > |data| then Parsed([], data)
    else Before(Element(AD(data[1], data[2..1 + data[0]])), Parse(data[1 + data[0]..]))
  }

  function Before(item: Item, p: Parsed): Parsed { Parsed([item] + p.items, p.rest) }

  function Elements(items: seq<Item>): seq<AD> {
    if items == [] then []
    else (if items[0].Element? then [items[0].ad] else []) + Elements(items[1..])
  }

  function Remaining(data: Bytes, i: nat): seq<AD>
    requires i <= |data|
  {
    Elements(Parse(data[i..]).items)
  }

  predicate Clean(data: Bytes, i: nat)
    requires i <= |data|
  {
    Parse(data[i..]).rest == []
  }

  method ParseADElements(data: Bytes) returns (elements: seq<AD>, ok: bool)
    ensures ok <==> Parse(data).rest == []
    ensures elements == Elements(Parse(data).items)
  {
    elements := [];
    var i := 0;
    assert data[0..] == data;
    while i < |data|
      invariant i <= |data|
      invariant elements + Remaining(data, i) == Remaining(data, 0)
      invariant Clean(data, i) == Clean(data, 0)
    {
      var length := data[i];
      NextItem(data, i);
      if length == 0 {
        i := i + 1;
        continue;
      }
      var end := i + 1 + length;
      if end > |data| {
        assert elements + [] == elements;
        return elements, false;
      }
      var ad := AD(data[i + 1], data[i + 2..end]);
      MoveFirst(elements, ad, Remaining(data, end));
      elements := elements + [ad];
      i := end;
    }
    assert elements + [] == elements;
    ok := true;
  }

  lemma MoveFirst(done: seq<AD>, ad: AD, rest: seq<AD>)
    ensures (done + [ad]) + rest == done + ([ad] + rest)
  {
  }

  lemma NextItem(data: Bytes, i: nat)
    requires i < |data|
    ensures data[i] == 0 ==> Remaining(data, i) == Remaining(data, i + 1) && Clean(data, i) == Clean(data, i + 1)
    ensures data[i] > 0 && i + 1 + data[i] > |data| ==> Remaining(data, i) == [] && !Clean(data, i)
    ensures data[i] > 0 && i + 1 + data[i] <= |data| ==>
      && Remaining(data, i) == [AD(data[i + 1], data[i + 2..i + 1 + data[i]])] + Remaining(data, i + 1 + data[i])
      && Clean(data, i) == Clean(data, i + 1 + data[i])
  {
    ParseAt(data, i);
    if data[i] == 0 {
      ElementsOfFirst(Padding, Parse(data[i + 1..]).items);
    } else if i + 1 + data[i] <= |data| {
      ElementsOfFirst(Element(AD(data[i + 1], data[i + 2..i + 1 + data[i]])), Parse(data[i + 1 + data[i]..]).items);
    }
  }

  lemma ParseAt(data: Bytes, i: nat)
    requires i < |data|
    ensures data[i] == 0 ==> Parse(data[i..]) == Before(Padding, Parse(data[i + 1..]))
    ensures data[i] > 0 && i + 1 + data[i] > |data| ==> Parse(data[i..]) == Parsed([], data[i..])
    ensures data[i] > 0 && i + 1 + data[i] <= |data| ==>
      Parse(data[i..]) == Before(Element(AD(data[i + 1], data[i + 2..i + 1 + data[i]])), Parse(data[i + 1 + data[i]..]))
  {
    var here := data[i..];
    assert here[1..] == data[i + 1..];
    if data[i] > 0 && i + 1 + data[i] <= |data| {
      assert here[1 + here[0]..] == data[i + 1 + data[i]..] && here[2..1 + here[0]] == data[i + 2..i + 1 + data[i]];
    }
  }

  lemma ElementsOfFirst(item: Item, items: seq<Item>)
    ensures Elements([item] + items) == (if item.Element? then [item.ad] else []) + Elements(items)
  {
    assert ([item] + items)[1..] == items;
  }

  /** Parsing a printed payload returns exactly its items, wherever the padding is. */
  lemma {:induction false} ParsePrint(items: seq<Item>)
    requires Printable(items)
    ensures Parse(Print(items)) == Parsed(items, [])
  {
    if items != [] {
      var first, rest := PrintItem(items[0]), Print(items[1..]);
      var data := first + rest;
      ParsePrint(items[1..]);
      assert data[|first|..] == rest;
      if items[0].Element? { assert data[2..|first|] == items[0].ad.data; }
      assert items == [items[0]] + items[1..];
    }
  }

  lemma PrintBefore(item: Item, items: seq<Item>)
    requires Printable(items) && (item.Element? ==> |item.ad.data| <= 254)
    ensures Printable([item] + items) && Print([item] + items) == PrintItem(item) + Print(items)
  {
    assert ([item] + items)[1..] == items;
  }

  lemma ThreeParts(a: Bytes, b: Bytes, c: Bytes)
    ensures (a + b) + c == a + (b + c)
  {
  }

  /** The front of a payload is the print of its first item. */
  lemma FirstItem(data: Bytes) returns (item: Item, end: nat)
    requires data != [] && (data[0] == 0 || 1 + data[0] <= |data|)
    ensures 0 < end <= |data| && (item.Element? ==> |item.ad.data| <= 254)
    ensures Parse(data) == Before(item, Parse(data[end..])) && PrintItem(item) == data[..end]
  {
    if data[0] == 0 {
      item, end := Padding, 1;
    } else {
      end := 1 + (data[0] as int);
      item := Element(AD(data[1], data[2..end]));
    }
  }

  /** Every byte belongs to exactly one item, or to a rest whose length byte reaches past the end. */
  lemma {:induction false} PrintParse(data: Bytes)
    ensures Printable(Parse(data).items) && Print(Parse(data).items) + Parse(data).rest == data
    ensures Parse(data).rest == [] || (Parse(data).rest[0] > 0 && 1 + Parse(data).rest[0] > |Parse(data).rest|)
    decreases |data|
  {
    if data != [] && (data[0] == 0 || 1 + data[0] <= |data|) {
      var item, end := FirstItem(data);
      var tail := Parse(data[end..]);
      PrintParse(data[end..]);
      PrintBefore(item, tail.items);
      ThreeParts(PrintItem(item), Print(tail.items), tail.rest);
      assert data == data[..end] + data[end..];
    }
  }

  // ----- advertising reports

  /** A report as the controller sends it. */
  datatype Report = Report(eventType: Byte, addressType: Byte, address: Bytes, data: Bytes, rssi: int)

  predicate Sendable(r: Report) { |r.address| == 6 && |r.data| <= 255 && -128 <= r.rssi < 128 }

  /** A report as the parser returns it. */
  datatype Advertising = Advertising(mac: string, rssi: int, data: Bytes)

  /** A byte read as int8. */
  function Int8(b: Byte): int { if b >= 128 then b - 256 else b }

  function PrintReport(r: Report): Bytes
    requires Sendable(r)
  {
    [r.eventType, r.addressType] + r.address + [|r.data|] + r.data + [if r.rssi < 0 then r.rssi + 256 else r.rssi]
  }

  predicate AllSendable(rs: seq<Report>) { forall i :: 0 <= i < |rs| ==> Sendable(rs[i]) }

  function PrintReports(rs: seq<Report>): Bytes
    requires AllSendable(rs)
  {
    if rs == [] then [] else PrintReport(rs[0]) + PrintReports(rs[1..])
  }

  /**
   * The event: code, parameter length, subevent, report count, reports; anything may follow inside and after the
   * parameters.
   */
  function PrintEvent(rs: seq<Report>, inside: Bytes, after: Bytes): Bytes
    requires AllSendable(rs) && |rs| <= 255 && 2 + |PrintReports(rs)| + |inside| <= 255
  {
    [0x3e, 2 + |PrintReports(rs)| + |inside|, 0x02, |rs|] + (PrintReports(rs) + inside) + after
  }

  function HexDigit(n: int): char
    requires 0 <= n < 16
  {
    "0123456789abcdef"[n]
  }

  function Hex(b: Byte): string { [HexDigit(b / 16), HexDigit(b % 16)] }

  /** macString: the bytes from last to first, in hex, joined by colons. */
  function MacString(address: Bytes): string {
    if address == [] then ""
    else if |address| == 1 then Hex(address[0])
    else MacString(address[1..]) + ":" + Hex(address[0])
  }

  method PrintMac(address: Bytes) returns (mac: string)
    ensures mac == MacString(address)
  {
    mac := "";
    var i: int := |address|;
    while i > 0
      invariant 0 <= i <= |address| && mac == MacString(address[i..])
    {
      i := i - 1;
      var tail := address[i..];
      assert tail[1..] == address[i + 1..] && tail[0] == address[i];
      mac := if i == |address| - 1 then Hex(address[i]) else mac + ":" + Hex(address[i]);
    }
    assert address[0..] == address;
  }

  /** The string reads the bytes from the last to the first, two lower-case digits each, with colons between. */
  lemma {:induction false} MacReads(address: Bytes, i: nat)
    requires i < |address|
    ensures |MacString(address)| == 3 * |address| - 1
    ensures var at := 3 * (|address| - 1 - i);
      && MacString(address)[at] == "0123456789abcdef"[address[i] / 16]
      && MacString(address)[at + 1] == "0123456789abcdef"[address[i] % 16]
      && (i > 0 ==> MacString(address)[at + 2] == ':')
  {
    if |address| > 1 {
      MacReads(address[1..], if i > 0 then i - 1 else 0);
      var tail := MacString(address[1..]);
      assert MacString(address) == tail + ":" + Hex(address[0]);
      if i > 1 { assert address[1..][i - 1] == address[i]; }
    }
  }

  lemma HexInjective(a: Byte, b: Byte)
    requires Hex(a) == Hex(b)
    ensures a == b
  {
    assert Hex(a)[0] == Hex(b)[0] && Hex(a)[1] == Hex(b)[1];
    assert a == a / 16 * 16 + a % 16 && b == b / 16 * 16 + b % 16;
    DigitInjective(a / 16, b / 16);
    DigitInjective(a % 16, b % 16);
  }

  lemma DigitInjective(m: int, n: int)
    requires 0 <= m < 16 && 0 <= n < 16 && HexDigit(m) == HexDigit(n)
    ensures m == n
  {
  }

  /** The string determines the address: three characters for every byte but the last. */
  lemma {:induction false} MacInjective(a: Bytes, b: Bytes)
    requires MacString(a) == MacString(b) && |a| == |b|
    ensures a == b
  {
    if |a| == 1 {
      HexInjective(a[0], b[0]);
    } else if |a| > 1 {
      var s, t := MacString(a[1..]), MacString(b[1..]);
      var whole := MacString(a);
      assert |Hex(a[0])| == 2 && |Hex(b[0])| == 2;
      assert Hex(a[0]) == whole[|whole| - 2..] == Hex(b[0]);
      assert s == whole[..|whole| - 3] == t;
      HexInjective(a[0], b[0]);
      MacInjective(a[1..], b[1..]);
      assert a == [a[0]] + a[1..] && b == [b[0]] + b[1..];
    }
  }

  /** SliceOutOfRange stands for the runtime's panic when the declared length exceeds the buffer behind the event. */
  datatype ParseError =
      | TruncatedEvent | NotLEMeta | SliceOutOfRange | NotAdvertising | MissingCount | TruncatedReport | TruncatedData

  function Heard(r: Report): Advertising
    requires Sendable(r)
  {
    Advertising(MacString(r.address), r.rssi, r.data)
  }

  function HeardAll(rs: seq<Report>): seq<Advertising>
    requires AllSendable(rs)
  {
    if rs == [] then [] else [Heard(rs[0])] + HeardAll(rs[1..])
  }

  /** The next report at the front of a body, and what follows it. */
  function ReadReport(body: Bytes): (r: Result<(Report, Bytes), ParseError>)
    ensures r.Ok? ==> Sendable(r.value.0) && |r.value.1| < |body|
    ensures r.Err? ==> r.error.TruncatedReport? || r.error.TruncatedData?
  {
    if |body| < 10 then Err(TruncatedReport)
    else
      var n := body[8] as int;
      if |body| < 10 + n then Err(TruncatedData)
      else Ok((Report(body[0], body[1], body[2..8], body[9..9 + n], Int8(body[9 + n])), body[10 + n..]))
  }

  function ReadReports(body: Bytes, n: nat): (r: Result<(seq<Report>, Bytes), ParseError>)
    ensures r.Ok? ==> AllSendable(r.value.0) && |r.value.0| == n
    ensures r.Err? ==> r.error.TruncatedReport? || r.error.TruncatedData?
    decreases n
  {
    if n == 0 then Ok(([], body))
    else match ReadReport(body)
      case Err(e) => Err(e)
      case Ok((first, rest)) =>
        match ReadReports(rest, n - 1)
        case Err(e) => Err(e)
        case Ok((more, left)) => Ok(([first] + more, left))
  }

  lemma ReadPrinted(r: Report, rest: Bytes)
    requires Sendable(r)
    ensures ReadReport(PrintReport(r) + rest) == Ok((r, rest))
  {
    var body := PrintReport(r) + rest;
    var n := |r.data|;
    assert body[8] == n && body[0] == r.eventType && body[1] == r.addressType;
    assert body[2..8] == r.address;
    assert body[9..9 + n] == r.data;
    assert body[10 + n..] == rest;
  }

  /** What is read prints back as the bytes it was read from. */
  lemma PrintRead(body: Bytes)
    requires ReadReport(body).Ok?
    ensures PrintReport(ReadReport(body).value.0) + ReadReport(body).value.1 == body
  {
    var n := body[8] as int;
    var r := ReadReport(body).value.0;
    assert (if r.rssi < 0 then r.rssi + 256 else r.rssi) == body[9 + n];
    assert body == [body[0], body[1]] + body[2..8] + [body[8]] + body[9..9 + n] + [body[9 + n]] + body[10 + n..];
  }

  lemma {:induction false} ReadAllPrinted(rs: seq<Report>, rest: Bytes)
    requires AllSendable(rs)
    ensures ReadReports(PrintReports(rs) + rest, |rs|) == Ok((rs, rest))
  {
    if rs == [] {
      assert PrintReports(rs) + rest == rest;
    } else {
      ThreeParts(PrintReport(rs[0]), PrintReports(rs[1..]), rest);
      ReadPrinted(rs[0], PrintReports(rs[1..]) + rest);
      ReadAllPrinted(rs[1..], rest);
      assert rs == [rs[0]] + rs[1..];
    }
  }

  lemma {:induction false} PrintAllRead(body: Bytes, n: nat)
    requires ReadReports(body, n).Ok?
    ensures PrintReports(ReadReports(body, n).value.0) + ReadReports(body, n).value.1 == body
    decreases n
  {
    if n > 0 {
      var (first, rest) := ReadReport(body).value;
      PrintRead(body);
      PrintAllRead(rest, n - 1);
      var (more, left) := ReadReports(rest, n - 1).value;
      assert ([first] + more)[1..] == more;
      ThreeParts(PrintReport(first), PrintReports(more), left);
    }
  }

  /**
   * The parser is given the first `n` bytes of a buffer. Slicing by the declared length may reach past those bytes into
   * whatever an earlier packet left in the buffer, and panics only past the end of the buffer itself.
   */
  function ReadEvent(buffer: Bytes, n: nat): (r: Result<seq<Report>, ParseError>)
    requires n <= |buffer|
    ensures r.Ok? ==> AllSendable(r.value)
  {
    if n < 3 then Err(TruncatedEvent)
    else if buffer[0] != 0x3e then Err(NotLEMeta)
    else if Declared(buffer) > |buffer| then Err(SliceOutOfRange)
    else
      var params := buffer[2..Declared(buffer)];
      if |params| < 1 || params[0] != 0x02 then Err(NotAdvertising)
      else if |params| < 2 then Err(MissingCount)
      else
        match ReadReports(params[2..], params[1])
        case Err(e) => Err(e)
        case Ok((rs, _)) => Ok(rs)
  }

  /** Where the event ends by its own length byte. */
  function Declared(buffer: Bytes): nat
    requires |buffer| >= 3
  {
    2 + (buffer[1] as int)
  }

  function Reported(buffer: Bytes, n: nat): Result<seq<Advertising>, ParseError>
    requires n <= |buffer|
  {
    match ReadEvent(buffer, n)
    case Err(e) => Err(e)
    case Ok(rs) => Ok(HeardAll(rs))
  }

  method ParseAdvertisingReports(buffer: Bytes, n: nat) returns (r: Result<seq<Advertising>, ParseError>)
    requires n <= |buffer|
    ensures r == Reported(buffer, n)
    ensures |buffer| >= 257 ==> r != Err(SliceOutOfRange)
  {
    if n < 3 { return Err(TruncatedEvent); }
    if buffer[0] != 0x3e { return Err(NotLEMeta); }
    var end := 2 + (buffer[1] as int);
    if end > |buffer| { return Err(SliceOutOfRange); }
    var params := buffer[2..end];
    if |params| < 1 || params[0] != 0x02 { return Err(NotAdvertising); }
    if |params| < 2 { return Err(MissingCount); }
    var num: int := params[1];
    assert Reported(buffer, n) == Outcome(params[2..], num);
    var reports, error := ReadBody(params[2..], num);
    return if error.Some? then Err(error.value) else Ok(reports);
  }

  const HCI_EVENT_PACKET := 4

  /** Whether the packet starts with the type byte that the scanner strips. */
  function Prefix(packet: Bytes): nat {
    if packet != [] && packet[0] == HCI_EVENT_PACKET then 1 else 0
  }

  function Received(buffer: Bytes, packet: Bytes): Bytes
    requires |packet| <= |buffer|
  {
    packet + buffer[|packet|..]
  }

  /** One round of the scan loop: the packet overwrites the front of the one buffer, and is parsed there. */
  method Receive(buffer: array<Byte>, packet: Bytes) returns (r: Result<seq<Advertising>, ParseError>)
    requires 0 < |packet| <= buffer.Length
    modifies buffer
    ensures buffer[..] == Received(old(buffer[..]), packet)
    ensures r == Reported(buffer[Prefix(packet)..], |packet| - Prefix(packet))
    ensures buffer.Length >= 4096 ==> r != Err(SliceOutOfRange)
  {
    for i := 0 to |packet|
      invariant forall j :: 0 <= j < i ==> buffer[j] == packet[j]
      invariant forall j :: i <= j < buffer.Length ==> buffer[j] == old(buffer[j])
    {
      buffer[i] := packet[i];
    }
    assert buffer[..] == Received(old(buffer[..]), packet);
    var start := if buffer[0] == HCI_EVENT_PACKET then 1 else 0;
    r := ParseAdvertisingReports(buffer[start..], |packet| - start);
  }

  /** What the parser makes of a body that should hold `n` reports. */
  function Outcome(body: Bytes, n: nat): Result<seq<Advertising>, ParseError> {
    match ReadReports(body, n)
    case Err(e) => Err(e)
    case Ok((rs, _)) => Ok(HeardAll(rs))
  }

  function Prepend(reports: seq<Advertising>, r: Result<seq<Advertising>, ParseError>): Result<seq<Advertising>,
          ParseError>
  {
    if r.Ok? then Ok(reports + r.value) else r
  }

  lemma NextReport(reports: seq<Advertising>, body: Bytes, n: nat)
    requires n > 0
    ensures match ReadReport(body)
      case Err(e) => Prepend(reports, Outcome(body, n)) == Err(e)
      case Ok((first, rest)) =>
        Prepend(reports, Outcome(body, n)) == Prepend(reports + [Heard(first)], Outcome(rest, n - 1))
  {
    if ReadReport(body).Ok? {
      var (first, rest) := ReadReport(body).value;
      if ReadReports(rest, n - 1).Ok? {
        var more := ReadReports(rest, n - 1).value.0;
        assert ([first] + more)[1..] == more;
        assert reports + ([Heard(first)] + HeardAll(more)) == (reports + [Heard(first)]) + HeardAll(more);
      }
    }
  }

  method ReadBody(all: Bytes, num: nat) returns (reports: seq<Advertising>, error: Option<ParseError>)
    ensures Outcome(all, num) == if error.Some? then Err(error.value) else Ok(reports)
  {
    var body := all;
    reports := [];
    assert Outcome(all, num).Ok? ==> [] + Outcome(all, num).value == Outcome(all, num).value;
    for i := 0 to num
      invariant Outcome(all, num) == Prepend(reports, Outcome(body, num - i))
    {
      NextReport(reports, body, num - i);
      if |body| < 10 { return [], Some(TruncatedReport); }
      var dataLen: int := body[8];
      if |body| < 10 + dataLen { return [], Some(TruncatedData); }
      var mac := PrintMac(body[2..8]);
      reports := reports + [Advertising(mac, Int8(body[9 + dataLen]), body[9..9 + dataLen])];
      body := body[10 + dataLen..];
    }
    assert reports + [] == reports;
    error := None;
  }

  /** A printed event parses to its reports as soon as three of its bytes have arrived: the rest may be leftovers. */
  lemma ReportsRoundTrip(rs: seq<Report>, inside: Bytes, after: Bytes, n: nat)
    requires AllSendable(rs) && |rs| <= 255 && 2 + |PrintReports(rs)| + |inside| <= 255
    requires 3 <= n <= |PrintEvent(rs, inside, after)|
    ensures ReadEvent(PrintEvent(rs, inside, after), n) == Ok(rs)
  {
    var event := PrintEvent(rs, inside, after);
    var body := PrintReports(rs) + inside;
    var params := event[2..4 + |body|];
    assert params[2..] == body;
    assert params[0] == 2 && params[1] == |rs|;
    assert event[0] == 0x3e && event[1] == 2 + |body|;
    ReadAllPrinted(rs, inside);
  }

  /** The buffer of an accepted event is the print of the reports read from it. */
  lemma AcceptedIsPrinted(buffer: Bytes, n: nat)
    requires n <= |buffer| && ReadEvent(buffer, n).Ok?
    ensures exists inside: Bytes, after: Bytes ::
      && IsPrint(buffer, ReadEvent(buffer, n).value, inside, after)
      && 4 + |PrintReports(ReadEvent(buffer, n).value)| + |inside| == Declared(buffer)
  {
    var rs := ReadEvent(buffer, n).value;
    var inside := BehindReports(buffer, n);
    assert IsPrint(buffer, rs, inside, buffer[Declared(buffer)..]);
  }

  lemma BehindReports(buffer: Bytes, n: nat) returns (inside: Bytes)
    requires n <= |buffer| && ReadEvent(buffer, n).Ok?
    ensures var rs := ReadEvent(buffer, n).value;
      && |rs| <= 255 && 4 + |PrintReports(rs)| + |inside| == Declared(buffer) <= |buffer|
      && buffer == PrintEvent(rs, inside, buffer[Declared(buffer)..])
  {
    var end := Declared(buffer);
    var body := buffer[2..end][2..];
    assert buffer[2..end][0] == buffer[2] && buffer[2..end][1] == buffer[3];
    PrintAllRead(body, buffer[3]);
    var (rs, rest) := ReadReports(body, buffer[3]).value;
    inside := rest;
    PrintsBack(buffer, end, rs, inside);
  }

  lemma PrintsBack(buffer: Bytes, end: nat, rs: seq<Report>, inside: Bytes)
    requires 4 <= end <= |buffer| && buffer[0] == 0x3e && buffer[1] == end - 2 && buffer[2] == 0x02 && buffer[3] == |rs|
    requires AllSendable(rs) && buffer[2..end][2..] == PrintReports(rs) + inside
    ensures 4 + |PrintReports(rs)| + |inside| == end && buffer == PrintEvent(rs, inside, buffer[end..])
  {
    FourBytes(buffer, end);
  }

  lemma FourBytes(event: Bytes, end: nat)
    requires 4 <= end <= |event|
    ensures event == [event[0], event[1], event[2], event[3]] + event[2..end][2..] + event[end..]
  {
  }

  ghost predicate IsPrint(event: Bytes, rs: seq<Report>, inside: Bytes, after: Bytes) {
    && AllSendable(rs) && |rs| <= 255 && 2 + |PrintReports(rs)| + |inside| <= 255
    && event == PrintEvent(rs, inside, after)
  }

  // ----- which bytes of the buffer the reports come from

  /**
   * The bytes that arrived are themselves a print of the reports exactly when the declared length does not overrun
   * them.
   */
  lemma ArrivedIsPrinted(buffer: Bytes, n: nat)
    requires n <= |buffer| && ReadEvent(buffer, n).Ok?
    ensures (exists inside: Bytes, after: Bytes :: IsPrint(buffer[..n], ReadEvent(buffer, n).value, inside, after))
      <==> Declared(buffer) <= n
  {
    var rs := ReadEvent(buffer, n).value;
    AcceptedIsPrinted(buffer, n);
    var inside: Bytes, after: Bytes :|
      IsPrint(buffer, rs, inside, after) && 4 + |PrintReports(rs)| + |inside| == Declared(buffer);
    if Declared(buffer) <= n {
      var end := Declared(buffer);
      assert buffer[..n] == PrintEvent(rs, inside, buffer[end..n]);
      assert IsPrint(buffer[..n], rs, inside, buffer[end..n]);
    }
    if more: Bytes, rest: Bytes :| IsPrint(buffer[..n], rs, more, rest) {
      assert buffer[..n][1] == buffer[1];
    }
  }

  /** Whatever else the buffer holds behind the bytes that arrived, the parser answers the same. */
  ghost predicate IgnoresLeftovers(buffer: Bytes, n: nat)
    requires n <= |buffer|
  {
    forall other: Bytes :: |other| == |buffer| && other[..n] == buffer[..n] ==>
      Reported(other, n) == Reported(buffer, n)
  }

  /** An event whose length byte tells the truth is never read beyond the bytes that arrived, accepted or not. */
  lemma TruthfulLength(buffer: Bytes, n: nat)
    requires n <= |buffer| && (n >= 3 ==> Declared(buffer) <= n)
    ensures IgnoresLeftovers(buffer, n) && ReadEvent(buffer, n) == ReadEvent(buffer[..n], n)
  {
    forall other: Bytes | |other| >= n && other[..n] == buffer[..n]
      ensures ReadEvent(other, n) == ReadEvent(buffer, n)
    {
      if n >= 3 {
        var end := Declared(buffer);
        assert buffer[..n][0] == other[..n][0] && buffer[..n][1] == other[..n][1];
        SliceOfFront(buffer, other, n, end);
        SliceOfFront(buffer[..n], other, n, end);
      }
    }
    assert buffer[..n][..n] == buffer[..n];
  }

  lemma SliceOfFront(a: Bytes, b: Bytes, n: nat, end: nat)
    requires 2 <= end <= n <= |a| && n <= |b| && a[..n] == b[..n]
    ensures a[2..end] == b[2..end]
  {
    assert a[2..end] == a[..n][2..end] && b[2..end] == b[..n][2..end];
  }

  /**
   * An accepted event ignores the leftovers exactly when count and reports, as read, end within the bytes that arrived.
   */
  lemma LeftoversIgnored(buffer: Bytes, n: nat)
    requires n <= |buffer| && ReadEvent(buffer, n).Ok?
    ensures IgnoresLeftovers(buffer, n) <==> 4 + |PrintReports(ReadEvent(buffer, n).value)| <= n
  {
    var rs := ReadEvent(buffer, n).value;
    AcceptedIsPrinted(buffer, n);
    var inside: Bytes, after: Bytes :| IsPrint(buffer, rs, inside, after);
    var used := 4 + |PrintReports(rs)|;
    if used <= n {
      forall other: Bytes | |other| == |buffer| && other[..n] == buffer[..n]
        ensures Reported(other, n) == Reported(buffer, n)
      {
        SameHead(other, rs, inside, after, n);
      }
    } else {
      var other := Disturbed(rs, inside, after, n);
      assert Reported(other, n) != Reported(buffer, n);
    }
  }

  lemma Rebuilt(other: Bytes, head: Bytes, reports: Bytes, end: nat)
    requires |head| + |reports| <= end <= |other| && other[..|head| + |reports|] == head + reports
    ensures other == head + (reports + other[|head| + |reports|..end]) + other[end..]
  {
  }

  /** A buffer that agrees with a print on the reports is a print of them too. */
  lemma SameHead(other: Bytes, rs: seq<Report>, inside: Bytes, after: Bytes, n: nat)
    requires AllSendable(rs) && |rs| <= 255 && 2 + |PrintReports(rs)| + |inside| <= 255
    requires 4 + |PrintReports(rs)| <= n <= |other| == |PrintEvent(rs, inside, after)|
    requires other[..n] == PrintEvent(rs, inside, after)[..n]
    ensures ReadEvent(other, n) == Ok(rs)
  {
    var event, used := PrintEvent(rs, inside, after), 4 + |PrintReports(rs)|;
    var end := used + |inside|;
    FrontOfFront(event, used, n);
    FrontOfFront(other, used, n);
    EventFront([0x3e, end - 2, 0x02, |rs|], PrintReports(rs), inside, after, |PrintReports(rs)|);
    Rebuilt(other, [0x3e, end - 2, 0x02, |rs|], PrintReports(rs), end);
    ReportsRoundTrip(rs, other[used..end], other[end..], n);
  }

  /** Another buffer with the same first `n` bytes for which the parser answers otherwise. */
  lemma Disturbed(rs: seq<Report>, inside: Bytes, after: Bytes, n: nat) returns (other: Bytes)
    requires AllSendable(rs) && |rs| <= 255 && 2 + |PrintReports(rs)| + |inside| <= 255
    requires 3 <= n < 4 + |PrintReports(rs)|
    ensures |other| == |PrintEvent(rs, inside, after)| && other[..n] == PrintEvent(rs, inside, after)[..n]
    ensures Reported(other, n) != Reported(PrintEvent(rs, inside, after), n)
  {
    ReportsRoundTrip(rs, inside, after, n);
    if rs == [] {
      other := PrintEvent(rs, inside, after)[3 := 1];
      assert other[2..Declared(other)][1] == 1;
    } else {
      var changed := Louder(rs);
      other := PrintEvent(changed, inside, after);
      ReportsRoundTrip(changed, inside, after, n);
      HeardAt(rs, |rs| - 1);
      HeardAt(changed, |rs| - 1);
      SameFront(rs, changed, inside, after, n);
    }
  }

  lemma SameFront(rs: seq<Report>, changed: seq<Report>, inside: Bytes, after: Bytes, n: nat)
    requires AllSendable(rs) && AllSendable(changed) && |changed| == |rs| <= 255
    requires |PrintReports(changed)| == |PrintReports(rs)| > 0 && 2 + |PrintReports(rs)| + |inside| <= 255
    requires PrintReports(changed)[..|PrintReports(rs)| - 1] == PrintReports(rs)[..|PrintReports(rs)| - 1]
    requires n < 4 + |PrintReports(rs)|
    ensures PrintEvent(changed, inside, after)[..n] == PrintEvent(rs, inside, after)[..n]
  {
    var length, front := 2 + |PrintReports(rs)| + |inside|, PrintReports(rs)[..|PrintReports(rs)| - 1];
    PrintFront(rs, inside, after, n, length, front);
    PrintFront(changed, inside, after, n, length, front);
  }

  function EventHead(length: Byte, count: Byte, front: Bytes): (head: Bytes)
    ensures |head| == 4 + |front|
  {
    [0x3e, length, 0x02, count] + front
  }

  /** The front of a printed event, without the last byte of its reports. */
  lemma PrintFront(rs: seq<Report>, inside: Bytes, after: Bytes, n: nat, length: Byte, front: Bytes)
    requires AllSendable(rs) && |rs| <= 255 && |PrintReports(rs)| > 0 && 2 + |PrintReports(rs)| + |inside| == length
    requires PrintReports(rs)[..|PrintReports(rs)| - 1] == front && n <= 4 + |front|
    ensures PrintEvent(rs, inside, after)[..n] == EventHead(length, |rs|, front)[..n]
  {
    EventFront([0x3e, length, 0x02, |rs|], PrintReports(rs), inside, after, |front|);
    FrontOfFront(PrintEvent(rs, inside, after), n, 4 + |front|);
  }

  lemma FrontOfFront(s: Bytes, n: nat, k: nat)
    requires n <= k <= |s|
    ensures s[..k][..n] == s[..n]
  {
  }

  lemma EventFront(head: Bytes, reports: Bytes, inside: Bytes, after: Bytes, k: nat)
    requires k <= |reports|
    ensures (head + (reports + inside) + after)[..|head| + k] == head + reports[..k]
  {
  }

  lemma PrintOne(r: Report)
    requires Sendable(r)
    ensures PrintReports([r]) == PrintReport(r)
  {
    assert [r][1..] == [];
  }

  /** The reports with another strength in the last, which is the last byte printed. */
  lemma {:induction false} Louder(rs: seq<Report>) returns (changed: seq<Report>)
    requires AllSendable(rs) && rs != []
    ensures AllSendable(changed) && |changed| == |rs| && |PrintReports(changed)| == |PrintReports(rs)| > 0
    ensures changed[|rs| - 1].rssi != rs[|rs| - 1].rssi
    ensures PrintReports(changed)[..|PrintReports(rs)| - 1] == PrintReports(rs)[..|PrintReports(rs)| - 1]
  {
    var first := PrintReport(rs[0]);
    if |rs| == 1 {
      var r := rs[0].(rssi := if rs[0].rssi == 0 then 1 else 0);
      changed := [r];
      assert rs == [rs[0]];
      PrintOne(rs[0]);
      PrintOne(r);
    } else {
      var more := Louder(rs[1..]);
      changed := [rs[0]] + more;
      assert changed[1..] == more;
      var k := |PrintReports(more)| - 1;
      assert (first + PrintReports(more))[..|first| + k] == first + PrintReports(more)[..k];
      assert (first + PrintReports(rs[1..]))[..|first| + k] == first + PrintReports(rs[1..])[..k];
    }
  }

  lemma {:induction false} HeardAt(rs: seq<Report>, k: nat)
    requires AllSendable(rs) && k < |rs|
    ensures |HeardAll(rs)| == |rs| && HeardAll(rs)[k] == Heard(rs[k])
  {
    if |rs| > 1 { HeardAt(rs[1..], if k > 0 then k - 1 else 0); }
  }

  lemma ArrivesAgain(buffer: Bytes, n: nat)
    requires n <= |buffer|
    ensures Received(buffer, buffer[..n]) == buffer
  {
  }

  /** After any packet, its first five bytes alone make the scanner hear the same reports again. */
  lemma EarlierPacketHeardAgain(buffer: Bytes, rs: seq<Report>, inside: Bytes)
    requires AllSendable(rs) && |rs| <= 255 && 2 + |PrintReports(rs)| + |inside| <= 255
    requires 5 + |PrintReports(rs)| + |inside| <= |buffer|
    ensures var packet := [HCI_EVENT_PACKET] + PrintEvent(rs, inside, []);
      Reported(Received(Received(buffer, packet), packet[..5])[1..], 4) == Ok(HeardAll(rs))
  {
    var packet := [HCI_EVENT_PACKET] + PrintEvent(rs, inside, []);
    var after := buffer[|packet|..];
    ArrivesAgain(packet + after, 5);
    assert (packet + after)[..5] == packet[..5];
    Stripped(PrintEvent(rs, inside, []), after);
    PrintThen(rs, inside, after);
    ReportsRoundTrip(rs, inside, after, 4);
  }

  lemma PrintThen(rs: seq<Report>, inside: Bytes, after: Bytes)
    requires AllSendable(rs) && |rs| <= 255 && 2 + |PrintReports(rs)| + |inside| <= 255
    ensures PrintEvent(rs, inside, []) + after == PrintEvent(rs, inside, after)
  {
  }

  lemma Stripped(event: Bytes, after: Bytes)
    ensures ([HCI_EVENT_PACKET] + event + after)[1..] == event + after
  {
  }

  /** Four bytes arrive and declare fourteen: the report heard is made of leftover bytes only. */
  lemma StaleBytesHeard()
    ensures var arrived: Bytes := [0x3e, 12, 0x02, 1]; var stale: Bytes := [0, 0, 1, 2, 3, 4, 5, 6, 0, 200];
      && ReadEvent(arrived + stale, 4) == Ok([Report(0, 0, [1, 2, 3, 4, 5, 6], [], -56)])
      && ReadEvent(arrived + stale[9 := 10], 4) == Ok([Report(0, 0, [1, 2, 3, 4, 5, 6], [], 10)])
  {
    var loud, faint := Report(0, 0, [1, 2, 3, 4, 5, 6], [], 10), Report(0, 0, [1, 2, 3, 4, 5, 6], [], -56);
    var arrived: Bytes, stale: Bytes := [0x3e, 12, 0x02, 1], [0, 0, 1, 2, 3, 4, 5, 6, 0, 200];
    PrintOne(faint);
    PrintOne(loud);
    assert PrintReport(faint) == stale;
    assert PrintReport(loud) == stale[9 := 10];
    assert PrintEvent([faint], [], []) == arrived + stale && PrintEvent([loud], [], []) == arrived + stale[9 := 10];
    ReportsRoundTrip([faint], [], [], 4);
    ReportsRoundTrip([loud], [], [], 4);
  }
}
