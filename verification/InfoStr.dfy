/** include/utils/infostr.h: the text `filename:name@ip:port` carried by CAST and SEND messages. */
module InfoStr {
  import opened Types
  import opened Text

  const COLON: byte := 58
  const AT: byte := 64
  const ZERO: byte := 48
  const INFOSTRSIZE: nat := 320

  /** What the text carries; the address is the sender's local one, and becomes the receiver's remote one. */
  datatype Info = Info(filename: seq<byte>, name: seq<byte>, ip: seq<byte>, port: u16)

  // ---------- the printer ----------

  function Digits(n: nat): (s: seq<byte>)
    ensures |s| > 0 && NUL !in s
  {
    if n < 10 then [ZERO + n] else Digits(n / 10) + [ZERO + n % 10]
  }

  /** The format "%.255s:%.31s@%.15s:%hu". */
  function PackText(i: Info): seq<byte> {
    Trunc(i.filename, 255) + [COLON] + Trunc(i.name, 31) + [AT] + Trunc(i.ip, 15) + [COLON] + Digits(i.port)
  }

  /** Strings without NUL, as C strings are. */
  predicate IsText(i: Info) { NUL !in i.filename && NUL !in i.name && NUL !in i.ip }

  lemma DigitsOfPort(p: u16)
    ensures |Digits(p)| <= 5
  {
    var a := p / 10;
    var b := a / 10;
    var c := b / 10;
    var d := c / 10;
    assert |Digits(d)| == 1;
    assert |Digits(c)| <= 2;
    assert |Digits(b)| <= 3;
    assert |Digits(a)| <= 4;
  }

  /** The text and its NUL always fit the 320-byte buffer, so `snprintf` never cuts it. */
  lemma PackTextFits(i: Info)
    ensures |PackText(i)| < INFOSTRSIZE
    ensures IsText(i) ==> NUL !in PackText(i)
  {
    DigitsOfPort(i.port);
  }

  /** A port in decimal, digit by digit. */
  function Decimal(p: u16): seq<byte> {
    if p < 10 then [48 + p]
    else if p < 100 then [48 + p / 10, 48 + p % 10]
    else if p < 1000 then [48 + p / 100, 48 + p / 10 % 10, 48 + p % 10]
    else if p < 10000 then [48 + p / 1000, 48 + p / 100 % 10, 48 + p / 10 % 10, 48 + p % 10]
    else [48 + p / 10000, 48 + p / 1000 % 10, 48 + p / 100 % 10, 48 + p / 10 % 10, 48 + p % 10]
  }

  lemma DigitsAreDecimal(p: u16)
    ensures Digits(p) == Decimal(p)
  {
    var a := p / 10;
    var b := a / 10;
    var c := b / 10;
    assert b == p / 100 && c == p / 1000 && c / 10 == p / 10000;
    assert Digits(c / 10) == [48 + c / 10];
    assert c >= 10 ==> Digits(c) == [48 + c / 10, 48 + c % 10];
    assert c < 10 ==> Digits(c) == [48 + c];
    assert b >= 10 ==> Digits(b) == Digits(c) + [48 + b % 10];
    assert b < 10 ==> Digits(b) == [48 + b];
    assert a >= 10 ==> Digits(a) == Digits(b) + [48 + a % 10];
    assert a < 10 ==> Digits(a) == [48 + a];
  }

  /** The characters of the text: the cut strings, a colon, an at sign, a colon, and the port in decimal. */
  lemma PackTextSpelled(i: Info)
    ensures PackText(i) == Trunc(i.filename, 255) + [':' as int] + Trunc(i.name, 31) + ['@' as int]
                           + Trunc(i.ip, 15) + [':' as int] + Decimal(i.port)
    ensures |PackText(i)| < 320
  {
    DigitsAreDecimal(i.port);
    PackTextFits(i);
  }

  /** The address record. Each string is the one its char array holds up to the NUL. */
  class CntlAddrs {
    var filename: seq<byte>
    var name: seq<byte>
    var localIp: seq<byte>
    var remoteIp: seq<byte>
    var localPort: u16
    var remotePort: u16

    constructor ()
      ensures filename == name == localIp == remoteIp == [] && localPort == remotePort == 0
    {
      filename, name, localIp, remoteIp, localPort, remotePort := [], [], [], [], 0, 0;
    }

    /** The fields the text is printed from. */
    function Printed(): Info
      reads this
    {
      Info(filename, name, localIp, localPort)
    }

    /** The fields the text is scanned into. */
    function Scanned(): Info
      reads this
    {
      Info(filename, name, remoteIp, remotePort)
    }
  }

  method PackIntoInfostring(infostr: array<byte>, info: CntlAddrs)
    requires infostr.Length == INFOSTRSIZE && IsText(info.Printed())
    modifies infostr
    ensures CStr(infostr[..]) == PackText(info.Printed()) && |PackText(info.Printed())| < INFOSTRSIZE
    ensures infostr[..] == PackText(info.Printed()) + [NUL] + old(infostr[..])[|PackText(info.Printed())| + 1..]
  {
    var text := PackText(info.Printed());
    PackTextFits(info.Printed());
    forall k | 0 <= k < |text| {
      infostr[k] := text[k];
    }
    infostr[|text|] := NUL;
    assert infostr[..|text|] == text;
    CStrIs(infostr[..], |text|);
  }

  // ---------- the scanner ----------

  /** Length of the longest prefix of at most `max` bytes, none of them `stop`: the conversion "%max[^stop]". */
  function Span(t: seq<byte>, stop: byte, max: nat): (n: nat)
    ensures n <= |t| && n <= max
    ensures stop !in t[..n]
    ensures n < |t| && n < max ==> t[n] == stop
  {
    if t == [] || max == 0 || t[0] == stop then 0
    else
      var n := 1 + Span(t[1..], stop, max - 1);
      assert t[..n] == [t[0]] + t[1..][..n - 1];
      n
  }

  predicate IsSpace(c: byte) { c == 32 || 9 <= c <= 13 }

  predicate IsDigit(c: byte) { ZERO <= c < ZERO + 10 }

  function SkipSpaces(t: seq<byte>): seq<byte> {
    if t != [] && IsSpace(t[0]) then SkipSpaces(t[1..]) else t
  }

  function LeadingDigits(t: seq<byte>): (n: nat)
    ensures n <= |t|
  {
    if t == [] || !IsDigit(t[0]) then 0 else 1 + LeadingDigits(t[1..])
  }

  function Value(t: seq<byte>): nat
    requires forall k | 0 <= k < |t| :: IsDigit(t[k])
  {
    if t == [] then 0
    else
      var last: int := t[|t| - 1];
      assert IsDigit(last);
      var front: nat := Value(t[..|t| - 1]);
      front * 10 + (last - ZERO)
  }

  lemma LeadingDigitsAreDigits(t: seq<byte>)
    ensures forall k | 0 <= k < LeadingDigits(t) :: IsDigit(t[k])
  {
  }

  /** The conversion "%hu": spaces, a sign, digits; the value saturates at 64 bits and is cut to 16. */
  function ScanPort(t: seq<byte>): Option<u16> {
    var u := SkipSpaces(t);
    var negative := u != [] && u[0] == 45;
    var v := if u != [] && (u[0] == 43 || u[0] == 45) then u[1..] else u;
    var n := LeadingDigits(v);
    LeadingDigitsAreDigits(v);
    if n == 0 then None
    else
      var x := Value(v[..n]);
      var y := if x >= POW64 then POW64 - 1 else if negative then (POW64 - x) % POW64 else x;
      Some(y % POW16)
  }

  /** A literal character of the format. */
  function Literal(t: seq<byte>, c: byte): Option<seq<byte>> {
    if t != [] && t[0] == c then Some(t[1..]) else None
  }

  /** What a conversion "%max[^stop]" can store: at least one byte, no delimiter, at most `max`. */
  predicate Field(s: seq<byte>, stop: byte, max: nat) { 0 < |s| <= max && stop !in s }

  /** The format "%255[^:]:%31[^@]@%15[^:]:%hu": stops at the first mismatch and keeps what it has stored. */
  function UnpackText(t: seq<byte>, prev: Info): (r: Info)
    ensures r.filename == prev.filename || Field(r.filename, COLON, 255)
    ensures r.name == prev.name || Field(r.name, AT, 31)
    ensures r.ip == prev.ip || Field(r.ip, COLON, 15)
  {
    var n := Span(t, COLON, 255);
    if n == 0 then prev
    else
      var i := prev.(filename := t[..n]);
      match Literal(t[n..], COLON)
      case None => i
      case Some(rest) => UnpackName(rest, i)
  }

  function UnpackName(t: seq<byte>, prev: Info): (r: Info)
    ensures r.filename == prev.filename
    ensures r.name == prev.name || Field(r.name, AT, 31)
    ensures r.ip == prev.ip || Field(r.ip, COLON, 15)
  {
    var n := Span(t, AT, 31);
    if n == 0 then prev
    else
      var i := prev.(name := t[..n]);
      match Literal(t[n..], AT)
      case None => i
      case Some(rest) => UnpackAddress(rest, i)
  }

  function UnpackAddress(t: seq<byte>, prev: Info): (r: Info)
    ensures r.filename == prev.filename && r.name == prev.name
    ensures r.ip == prev.ip || Field(r.ip, COLON, 15)
  {
    var n := Span(t, COLON, 15);
    if n == 0 then prev
    else
      var i := prev.(ip := t[..n]);
      match Literal(t[n..], COLON)
      case None => i
      case Some(rest) =>
        match ScanPort(rest)
        case None => i
        case Some(p) => i.(port := p)
  }

  method UnpackFromInfostring(infostr: array<byte>, info: CntlAddrs)
    modifies info`filename, info`name, info`remoteIp, info`remotePort
    ensures info.Scanned() == UnpackText(CStr(infostr[..]), old(info.Scanned()))
  {
    var i := UnpackText(CStr(infostr[..]), info.Scanned());
    info.filename, info.name, info.remoteIp, info.remotePort := i.filename, i.name, i.ip, i.port;
  }

  // ---------- the round trip ----------

  /** The fields that survive the text: non-empty, no delimiter that ends them early, within the widths. */
  predicate Transportable(i: Info) {
    Field(i.filename, COLON, 255) && Field(i.name, AT, 31) && Field(i.ip, COLON, 15)
  }

  lemma {:induction false} SpanStopsAt(s: seq<byte>, rest: seq<byte>, stop: byte, max: nat)
    requires stop !in s && |s| <= max
    ensures Span(s + [stop] + rest, stop, max) == |s|
    ensures (s + [stop] + rest)[..|s|] == s
    ensures Literal((s + [stop] + rest)[|s|..], stop) == Some(rest)
  {
    var t := s + [stop] + rest;
    assert t[|s|..] == [stop] + rest;
    if s != [] {
      assert s[0] in s;
      assert t[1..] == s[1..] + [stop] + rest;
      SpanStopsAt(s[1..], rest, stop, max - 1);
    }
  }

  lemma {:induction false} DigitsScan(n: nat)
    ensures LeadingDigits(Digits(n)) == |Digits(n)|
    ensures forall k | 0 <= k < |Digits(n)| :: IsDigit(Digits(n)[k])
    ensures Value(Digits(n)) == n
  {
    if n >= 10 {
      DigitsScan(n / 10);
      var d := Digits(n);
      assert d[..|d| - 1] == Digits(n / 10);
    }
    AllDigits(Digits(n));
  }

  lemma AllDigits(t: seq<byte>)
    requires forall k | 0 <= k < |t| :: IsDigit(t[k])
    ensures LeadingDigits(t) == |t|
  {
  }

  lemma PortScans(p: u16)
    ensures ScanPort(Digits(p)) == Some(p)
  {
    hide Digits, Value, LeadingDigits;
    var d := Digits(p);
    DigitsScan(p);
    assert IsDigit(d[0]);
    assert SkipSpaces(d) == d;
    assert d[..|d|] == d;
  }

  lemma RoundTrip(i: Info, prev: Info)
    requires Transportable(i)
    ensures UnpackText(PackText(i), prev) == i
  {
    var port := Digits(i.port);
    var address := i.ip + [COLON] + port;
    var person := i.name + [AT] + address;
    assert PackText(i) == i.filename + [COLON] + person;
    SpanStopsAt(i.filename, person, COLON, 255);
    SpanStopsAt(i.name, address, AT, 31);
    SpanStopsAt(i.ip, port, COLON, 15);
    PortScans(i.port);
    var i1 := prev.(filename := i.filename);
    assert UnpackText(PackText(i), prev) == UnpackName(person, i1);
    assert UnpackName(person, i1) == UnpackAddress(address, i1.(name := i.name));
  }

  /** Whatever was there before, unpacking the packed text yields the fields exactly when they are transportable. */
  lemma RoundTripExactly(i: Info)
    ensures (forall prev :: UnpackText(PackText(i), prev) == i) <==> Transportable(i)
  {
    if Transportable(i) {
      forall prev
        ensures UnpackText(PackText(i), prev) == i
      {
        RoundTrip(i, prev);
      }
    } else {
      var other := Info(i.filename + [COLON], i.name + [AT], i.ip + [COLON], (i.port + 1) % POW16);
      assert UnpackText(PackText(i), other) != i;
    }
  }

  // ---------- what other texts are scanned to ----------

  lemma {:induction false} SpanOfAll(t: seq<byte>, stop: byte, max: nat)
    requires stop !in t
    ensures Span(t, stop, max) == Min(|t|, max)
  {
    if |t| > 0 && max > 0 {
      assert t[0] in t;
      SpanOfAll(t[1..], stop, max - 1);
    }
  }

  /** A text without a colon is a filename, cut to its width, and nothing more. */
  lemma ScanFilenameOnly(t: seq<byte>, prev: Info)
    requires ':' as int !in t
    ensures UnpackText(t, prev) == if |t| == 0 then prev else prev.(filename := Trunc(t, 255))
  {
    SpanOfAll(t, COLON, 255);
  }

  /** After the filename, a text without an at sign is a name, cut to its width, and nothing more. */
  lemma ScanNameOnly(f: seq<byte>, t: seq<byte>, prev: Info)
    requires Field(f, ':' as int, 255) && '@' as int !in t
    ensures UnpackText(f + [':' as int] + t, prev)
         == prev.(filename := f, name := if |t| == 0 then prev.name else Trunc(t, 31))
  {
    SpanStopsAt(f, t, COLON, 255);
    SpanOfAll(t, AT, 31);
  }

  /** After the name, a text without a colon is an address, cut to its width, and the port stays as it was. */
  lemma ScanAddressOnly(f: seq<byte>, n: seq<byte>, t: seq<byte>, prev: Info)
    requires Field(f, ':' as int, 255) && Field(n, '@' as int, 31) && ':' as int !in t
    ensures UnpackText(f + [':' as int] + (n + ['@' as int] + t), prev)
         == prev.(filename := f, name := n, ip := if |t| == 0 then prev.ip else Trunc(t, 15))
  {
    SpanStopsAt(f, n + ['@' as int] + t, COLON, 255);
    SpanStopsAt(n, t, AT, 31);
    SpanOfAll(t, COLON, 15);
  }

  lemma {:induction false} DigitsThenOther(d: seq<byte>, rest: seq<byte>)
    requires forall k | 0 <= k < |d| :: IsDigit(d[k])
    requires |rest| == 0 || !IsDigit(rest[0])
    ensures LeadingDigits(d + rest) == |d|
  {
    if |d| > 0 {
      assert (d + rest)[1..] == d[1..] + rest;
      DigitsThenOther(d[1..], rest);
    } else {
      assert d + rest == rest;
    }
  }

  lemma NoSpaces(t: seq<byte>)
    requires |t| == 0 || !IsSpace(t[0])
    ensures SkipSpaces(t) == t
  {
  }

  predicate Number(d: seq<byte>) { |d| > 0 && forall k | 0 <= k < |d| :: '0' as int <= d[k] <= '9' as int }

  predicate NoDigit(rest: seq<byte>) { |rest| == 0 || rest[0] < '0' as int || rest[0] > '9' as int }

  lemma NumberThenOther(d: seq<byte>, rest: seq<byte>)
    requires Number(d) && NoDigit(rest)
    ensures LeadingDigits(d + rest) == |d| && (d + rest)[..|d|] == d && (d + rest)[0] == d[0]
    ensures forall k | 0 <= k < |d| :: IsDigit(d[k])
  {
    DigitsThenOther(d, rest);
  }

  /** A port is the number at the front, cut to 16 bits; one past 64 bits counts as 2^64 - 1. */
  lemma ScannedNumber(d: seq<byte>, rest: seq<byte>)
    requires Number(d) && NoDigit(rest)
    ensures forall k | 0 <= k < |d| :: IsDigit(d[k])
    ensures ScanPort(d + rest) == Some(Min(Value(d), POW64 - 1) % POW16)
  {
    hide LeadingDigits, Value, SkipSpaces;
    NumberThenOther(d, rest);
    NoSpaces(d + rest);
  }

  /** A plus sign changes nothing and a minus sign negates the number. */
  lemma ScannedSign(d: seq<byte>, rest: seq<byte>)
    requires Number(d) && NoDigit(rest)
    ensures forall k | 0 <= k < |d| :: IsDigit(d[k])
    ensures ScanPort(['+' as int] + (d + rest)) == Some(Min(Value(d), POW64 - 1) % POW16)
    ensures ScanPort(['-' as int] + (d + rest))
         == Some(if Value(d) < POW64 then (POW64 - Value(d)) % POW16 else POW16 - 1)
  {
    hide LeadingDigits, Value, SkipSpaces;
    NumberThenOther(d, rest);
    NoSpaces(['+' as int] + (d + rest));
    NoSpaces(['-' as int] + (d + rest));
    assert (['+' as int] + (d + rest))[1..] == d + rest;
    assert (['-' as int] + (d + rest))[1..] == d + rest;
  }

  /** White space in front is skipped, and without a digit there is no port. */
  lemma ScannedNothing(c: byte, t: seq<byte>)
    ensures c == ' ' as int || '\t' as int <= c <= '\r' as int ==> ScanPort([c] + t) == ScanPort(t)
    ensures (|t| == 0 || t[0] > '9' as int) ==> ScanPort(t) == None
  {
    assert ([c] + t)[1..] == t;
  }
}
