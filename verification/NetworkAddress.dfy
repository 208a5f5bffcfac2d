/**
 Printing and parsing host:port addresses (TransportInfra/Devices/Sockets/InetSocketAddress.hpp,
 TransportInfra/Devices/Sockets/HostAddress.hpp).
 */
module NetworkAddress {
  import opened Options
  import opened Texts

  const SEPARATOR: char := ':'
  const MAX_PORT: nat := 0xffff

  // ---------- decimal numbers: std::from_chars and std::to_chars for an unsigned 16-bit number ----------

  predicate IsDigit(c: char) {
    '0' <= c <= '9'
  }

  function DigitOf(c: char): (d: nat)
    requires IsDigit(c)
    ensures d < 10
  {
    c as int - '0' as int
  }

  function CharOf(d: nat): (c: char)
    requires d < 10
    ensures IsDigit(c) && DigitOf(c) == d
  {
    ('0' as int + d) as char
  }

  predicate AllDigits(text: string) {
    forall i :: 0 <= i < |text| ==> IsDigit(text[i])
  }

  function Value(text: string): nat
    requires AllDigits(text)
  {
    if text == "" then 0 else 10 * Value(text[..|text| - 1]) + DigitOf(text[|text| - 1])
  }

  function Decimal(n: nat): (text: string)
    ensures AllDigits(text) && text != ""
  {
    if n < 10 then [CharOf(n)] else Decimal(n / 10) + [CharOf(n % 10)]
  }

  /** The digits a text begins with. */
  function Digits(text: string): (digits: string)
    ensures AllDigits(digits) && digits <= text
    ensures |digits| < |text| ==> !IsDigit(text[|digits|])
  {
    if text == "" || !IsDigit(text[0]) then "" else [text[0]] + Digits(text[1..])
  }

  /** from_chars: the number at the front of the text, unless there is none or it does not fit. */
  function FromChars(text: string): Option<nat> {
    var digits := Digits(text);
    if digits == "" || Value(digits) > MAX_PORT then None else Some(Value(digits))
  }

  /** The one way of writing a number that to_chars uses. */
  predicate Canonical(text: string) {
    text != "" && AllDigits(text) && (|text| == 1 || text[0] != '0')
  }

  lemma {:induction false} DecimalIsCanonical(n: nat)
    ensures Value(Decimal(n)) == n && Canonical(Decimal(n)) && (n > 0 ==> Decimal(n)[0] != '0')
    decreases n
  {
    if n >= 10 {
      DecimalIsCanonical(n / 10);
      assert Decimal(n)[..|Decimal(n)| - 1] == Decimal(n / 10);
    } else {
      assert Decimal(n)[..0] == "";
      assert Value(Decimal(n)) == 10 * Value("") + DigitOf(CharOf(n));
    }
  }

  lemma {:induction false} CanonicalIsDecimal(text: string)
    requires Canonical(text)
    ensures Decimal(Value(text)) == text && (text[0] != '0' ==> Value(text) > 0)
    decreases |text|
  {
    var front, last := text[..|text| - 1], DigitOf(text[|text| - 1]);
    assert CharOf(last) == text[|text| - 1];
    if |text| == 1 {
      assert Value(text) == 10 * Value("") + last;
    } else {
      CanonicalIsDecimal(front);
      assert Value(text) == 10 * Value(front) + last && Value(front) > 0;
      assert Value(text) / 10 == Value(front) && Value(text) % 10 == last;
      assert text == front + [CharOf(last)];
    }
  }

  lemma {:induction false} DigitsOfAll(text: string)
    requires AllDigits(text)
    ensures Digits(text) == text
  {
    if text != "" {
      DigitsOfAll(text[1..]);
    }
  }

  /** Five characters are enough for a port, so to_chars never fails. */
  lemma PortIsShort(port: nat)
    requires port <= MAX_PORT
    ensures |Decimal(port)| <= 5
  {
    var tens := port / 10;
    var hundreds := tens / 10;
    var thousands := hundreds / 10;
    var tenThousands := thousands / 10;
    assert tenThousands <= 6 && |Decimal(tenThousands)| == 1;
    assert |Decimal(thousands)| <= 2;
    assert |Decimal(hundreds)| <= 3;
    assert |Decimal(tens)| <= 4;
  }

  // ---------- the address ----------

  /** The host text and the port; a host that is not valid shows no text. */
  datatype Address = Address(port: nat, host: Option<string>)

  const CLEARED := Address(0, None)

  /** Everything before the last separator, and everything behind it. */
  function HostText(text: string): string
    requires LastOf(text, SEPARATOR) > 0
  {
    text[..LastOf(text, SEPARATOR) - 1]
  }

  function PortText(text: string): string {
    text[LastOf(text, SEPARATOR)..]
  }

  /** What an accepted text means; `known` says that inet_pton knows the address family. */
  function Parsed(text: string, known: bool): Option<Address> {
    if LastOf(text, SEPARATOR) == 0 then None
    else match FromChars(PortText(text))
      case None => None
      case Some(port) => if known then Some(Address(port, Some(HostText(text)))) else None
  }

  function Printed(a: Address): string {
    (if a.host.Some? then a.host.value else "") + [SEPARATOR] + Decimal(a.port)
  }

  class NetworkAddress {
    var port: nat
    var host: Option<string>

    function State(): Address
      reads this
    {
      Address(port, host)
    }

    constructor ()
      ensures State() == CLEARED
    {
      port, host := 0, None;
    }

    /** HostAddress::setAddress: inet_pton refuses no text, it only fails for a family it does not know. */
    method SetHost(text: string, known: bool)
      modifies this`host
      ensures host == if known then Some(text) else None
    {
      host := None;
      if known {
        host := Some(text);
      }
    }

    /** On every refusal the port is 0 and the host cleared. */
    method FromString(text: string, known: bool) returns (ok: bool)
      modifies this
      ensures ok <==> Parsed(text, known).Some?
      ensures State() == if ok then Parsed(text, known).value else CLEARED
      ensures !ok ==> port == 0 && host == None
    {
      host := None;
      port := 0;
      var sep := FindLast(text, SEPARATOR);
      if sep.None? {
        return false;
      }
      var number := FromChars(text[sep.value + 1..]);
      if number.None? {
        port := 0;
        return false;
      }
      port := number.value;
      SetHost(text[..sep.value], known);
      if host.None? {
        port := 0;
        return false;
      }
      return true;
    }

    method ToString() returns (text: string)
      ensures text == Printed(State())
    {
      text := if host.Some? then host.value else "";
      text := text + [SEPARATOR];
      text := text + Decimal(port);
    }
  }

  /** string_view::find_last_of for one character. */
  method FindLast(text: string, c: char) returns (pos: Option<nat>)
    ensures pos == if LastOf(text, c) == 0 then None else Some(LastOf(text, c) - 1)
  {
    var n: nat := |text|;
    while n > 0 && text[n - 1] != c
      invariant 0 <= n <= |text| && c !in text[n..]
    {
      assert text[n - 1..] == [text[n - 1]] + text[n..];
      n := n - 1;
    }
    LastOfIs(text, c, n);
    pos := if n == 0 then None else Some(n - 1);
  }

  /**
   Parsing undoes printing: every host text - colons in it or not - and every port of 16 bits are accepted as host:port,
   and come back unchanged.
   */
  lemma ParsingUndoesPrinting(host: string, port: nat)
    requires port <= MAX_PORT
    ensures Parsed(host + [SEPARATOR] + Decimal(port), true) == Some(Address(port, Some(host)))
    ensures Printed(Address(port, Some(host))) == host + [SEPARATOR] + Decimal(port)
  {
    var text, digits := host + [SEPARATOR] + Decimal(port), Decimal(port);
    LastOfJoin(host, SEPARATOR, digits);
    assert text[|host| + 1..] == digits;
    assert text[..|host|] == host;
    DecimalIsCanonical(port);
    DigitsOfAll(digits);
  }

  /**
   Printing undoes parsing exactly when the port was written as to_chars writes it: no zero in front, nothing behind.
   */
  lemma PrintingUndoesParsing(text: string)
    requires Parsed(text, true).Some?
    ensures Printed(Parsed(text, true).value) == text <==> Canonical(PortText(text))
  {
    var a, host, port := Parsed(text, true).value, HostText(text), PortText(text);
    assert text == host + [SEPARATOR] + port;
    assert Printed(a) == host + [SEPARATOR] + Decimal(a.port);
    DecimalIsCanonical(a.port);
    if Canonical(port) {
      DigitsOfAll(port);
      CanonicalIsDecimal(port);
    }
    if Printed(a) == text {
      assert Printed(a)[|host| + 1..] == Decimal(a.port);
      assert text[|host| + 1..] == port;
    }
  }

  /** What every text means: the digits behind the last colon are the port and all before it is the host. */
  lemma MeaningOfText(host: string, rest: string, known: bool)
    requires ':' !in rest
    ensures Parsed(rest, known) == None
    ensures var digits := Digits(rest);
      Parsed(host + ":" + rest, known) ==
        if known && digits != "" && Value(digits) <= 65535 then Some(Address(Value(digits), Some(host))) else None
  {
    var text := host + ":" + rest;
    LastOfJoin(host, SEPARATOR, rest);
    assert text[..|host|] == host && text[|host| + 1..] == rest;
    assert rest[0..] == rest;
    LastOfIs(rest, SEPARATOR, 0);
  }

  /** A zero in front counts for nothing. */
  lemma {:induction false} ZeroInFront(text: string)
    requires text != "" && AllDigits(text) && text[0] == '0'
    ensures AllDigits(text[1..]) && Value(text) == Value(text[1..])
    decreases |text|
  {
    var front := text[..|text| - 1];
    if |text| == 1 {
      assert Value(text) == 10 * Value("") + 0;
    } else {
      ZeroInFront(front);
      assert text[1..][..|text| - 2] == front[1..];
    }
  }

  /** What is accepted: something behind the last colon that begins with digits, worth at most 65535. */
  lemma AcceptedExactlyWhen(text: string)
    ensures Parsed(text, true).Some? <==>
      && SEPARATOR in text && PortText(text) != "" && IsDigit(PortText(text)[0])
      && Value(Digits(PortText(text))) <= MAX_PORT
  {
    var n := LastOf(text, SEPARATOR);
    if n > 0 {
      assert text[n - 1] in text;
    } else {
      assert text[0..] == text;
    }
  }
}
