/** The errors the extension functions return, and the result wrappers. */
module Failures {
  import Sentinel

  datatype Option<+T> = None | Some(value: T)

  /** Why `strconv.Atoi` rejected its input. */
  datatype NumErrorKind = InvalidSyntax | OutOfRange

  /** Failures reported by the key-value store itself. */
  datatype StoreFailure =
    | KeyAbsent      // GET on a missing key (go-redis reports `redis.Nil`)
    | NotAnInteger   // INCR on a value that is not an integer
    | IncrOverflow   // INCR past the largest 64-bit integer

  datatype Failure =
    | Arity(sentinel: Sentinel.Error)                  // too few / too many arguments
    | TypeMismatch(expected: string, found: string)    // "expected T but found U"
    | IndexOutOfRange(index: int, length: nat)         // a Go runtime panic, not a returned error
    | MissingPosition                                  // optional field without a position tag
    | BadPosition(input: string, kind: NumErrorKind)   // strconv.Atoi error on a position tag
    | Unregistered(connection: string)
    | UnknownCommand(command: string)
    | Store(reason: StoreFailure)
    | Decode(jsonKind: string)                         // json.Unmarshal of a stored value failed
    | External(message: string)                        // template engine, driver or client factory

  datatype Result<+T> = Ok(value: T) | Err(error: Failure)

  /** Decimal text of an integer, as Go's fmt and strconv print it. */
  function Decimal(n: int): string
  {
    if n < 0 then "-" + NatDecimal(-n) else NatDecimal(n)
  }

  function NatDecimal(n: nat): string
    decreases n
  {
    var digit := [(('0' as int) + n % 10) as char];
    if n < 10 then digit else NatDecimal(n / 10) + digit
  }

  /** The text of the error each failure stands for (a panic's runtime message
      for IndexOutOfRange). */
  function Message(f: Failure): string
  {
    match f
    case Arity(e) => e.Message()
    case TypeMismatch(expected, found) => "expected " + expected + " but found " + found
    case IndexOutOfRange(i, n) =>
      "runtime error: index out of range [" + Decimal(i) + "] with length " + Decimal(n)
    case MissingPosition => "position is required for optional fields"
    case BadPosition(input, kind) =>
      "strconv.Atoi: parsing " + Quote(input) + ": "
      + (if kind == InvalidSyntax then "invalid syntax" else "value out of range")
    case Unregistered(name) => "the given connection `" + name + "` has not been registered"
    case UnknownCommand(command) => "the given command `" + command + "` is not a valid command"
    case Store(KeyAbsent) => "redis: nil"
    case Store(NotAnInteger) => "ERR value is not an integer or out of range"
    case Store(IncrOverflow) => "ERR increment or decrement would overflow"
    case Decode(kind) =>
      "json: cannot unmarshal " + kind + " into Go value of type map[string]interface {}"
    case External(message) => message
  }

  /** The two arity failures print differently, each as its sentinel's
      text, so a caller can tell them apart by message. */
  lemma ArityMessage(e1: Sentinel.Error, e2: Sentinel.Error)
    ensures Message(Arity(e1)) == e1.text
    ensures Message(Arity(e1)) == Message(Arity(e2)) <==> e1 == e2
  {
  }

  /** The unregistered-connection message embeds the connection name
      verbatim between backquotes, so it determines the name. */
  lemma UnregisteredMessage(a: string, b: string)
    ensures Message(Unregistered(a)) == "the given connection `" + a + "` has not been registered"
    ensures Message(Unregistered(a)) == Message(Unregistered(b)) <==> a == b
  {
    var p := "the given connection `";
    var s := "` has not been registered";
    if p + a + s == p + b + s {
      assert |a| == |b|;
      assert a == (p + a + s)[|p|..|p| + |a|];
      assert b == (p + b + s)[|p|..|p| + |b|];
    }
  }

  /** The unknown-command message embeds the command as given, before any
      lowercasing, so it determines the command. */
  lemma UnknownCommandMessage(a: string, b: string)
    ensures Message(UnknownCommand(a)) == "the given command `" + a + "` is not a valid command"
    ensures Message(UnknownCommand(a)) == Message(UnknownCommand(b)) <==> a == b
  {
    var p := "the given command `";
    var s := "` is not a valid command";
    if p + a + s == p + b + s {
      assert |a| == |b|;
      assert a == (p + a + s)[|p|..|p| + |a|];
      assert b == (p + b + s)[|p|..|p| + |b|];
    }
  }

  /** The missing-position text of the analyzer. */
  lemma MissingPositionMessage()
    ensures Message(MissingPosition) == "position is required for optional fields"
  {
  }

  /** A type-mismatch message names the expected type, and the found type
      can be read back from it: equal messages mean equal found types. */
  lemma TypeMismatchMessage(expected: string, found1: string, found2: string)
    ensures var m := Message(TypeMismatch(expected, found1));
      m[..|"expected " + expected|] == "expected " + expected
      && m[|"expected " + expected + " but found "|..] == found1
    ensures Message(TypeMismatch(expected, found1)) == Message(TypeMismatch(expected, found2))
      <==> found1 == found2
  {
    var p := "expected " + expected + " but found ";
    assert Message(TypeMismatch(expected, found1)) == p + found1;
    assert Message(TypeMismatch(expected, found2)) == p + found2;
    assert (p + found1)[|p|..] == found1;
    assert (p + found2)[|p|..] == found2;
  }

  /** A bad position tag's message determines the tag: distinct tags give
      distinct messages, whatever characters they hold. */
  lemma BadPositionNamesInput(a: string, b: string, kind: NumErrorKind)
    ensures Message(BadPosition(a, kind)) == Message(BadPosition(b, kind)) <==> a == b
  {
    var p := "strconv.Atoi: parsing ";
    var k := ": " + (if kind == InvalidSyntax then "invalid syntax" else "value out of range");
    assert Message(BadPosition(a, kind)) == p + Quote(a) + k;
    assert Message(BadPosition(b, kind)) == p + Quote(b) + k;
    if p + Quote(a) + k == p + Quote(b) + k {
      assert Quote(a) == (p + Quote(a) + k)[|p|..|p| + |Quote(a)|];
      assert Quote(b) == (p + Quote(b) + k)[|p|..|p| + |Quote(b)|];
      QuoteInjective(a, b);
    }
  }

  /** A tag holding a quote is printed with the quote escaped. */
  lemma BadPositionExample()
    ensures Message(BadPosition("a\"b", InvalidSyntax))
      == "strconv.Atoi: parsing \"a\\\"b\": invalid syntax"
  {
    assert QuoteBody("a\"b") == "a\\\"b" by {
      assert QuoteBody("b") == "b" by { assert QuoteBody("b"[1..]) == []; }
      assert QuoteBody("\"b") == "\\\"" + QuoteBody("b") by { assert "\"b"[1..] == "b"; }
      assert QuoteBody("a\"b") == "a" + QuoteBody("\"b") by { assert "a\"b"[1..] == "\"b"; }
    }
  }

  /** The hexadecimal digit of a value below 16, in lower case. */
  function HexDigit(n: nat): char
    requires n < 16
  {
    if n < 10 then ('0' as int + n) as char else ('a' as int + n - 10) as char
  }

  /** The value of a lower-case hexadecimal digit. */
  function HexValue(c: char): (r: Option<nat>)
    ensures r.Some? ==> r.value < 16
  {
    if '0' <= c <= '9' then Some(c as int - '0' as int)
    else if 'a' <= c <= 'f' then Some(c as int - 'a' as int + 10)
    else None
  }

  lemma HexDigitValue(n: nat)
    requires n < 16
    ensures HexValue(HexDigit(n)) == Some(n)
  {
  }

  /** Characters strconv.Quote copies unescaped: printable ASCII other than
      the quote and the backslash, and every character beyond ASCII. */
  predicate PrintsAsIs(c: char)
  {
    (' ' <= c <= '~' && c != '"' && c != '\\') || c as int > 0x7f
  }

  /** How strconv.Quote writes one character: a backslash before the quote
      and the backslash, the seven named control escapes, and \xNN for any
      other control character. */
  function QuoteChar(c: char): string
  {
    var k := c as int;
    if c == '"' || c == '\\' then ['\\', c]
    else if PrintsAsIs(c) then [c]
    else if k == 7 then "\\a"
    else if k == 8 then "\\b"
    else if k == 12 then "\\f"
    else if k == 10 then "\\n"
    else if k == 13 then "\\r"
    else if k == 9 then "\\t"
    else if k == 11 then "\\v"
    else ['\\', 'x', HexDigit(k / 16), HexDigit(k % 16)]
  }

  function QuoteBody(s: string): string
    decreases |s|
  {
    if s == [] then [] else QuoteChar(s[0]) + QuoteBody(s[1..])
  }

  /** strconv.Quote, with which a NumError prints its input. */
  function Quote(s: string): string
  {
    "\"" + QuoteBody(s) + "\""
  }

  /** The character a one-letter backslash escape stands for. */
  function Unescape(e: char): Option<char>
  {
    if e == '"' || e == '\\' then Some(e)
    else if e == 'a' then Some(7 as char)
    else if e == 'b' then Some(8 as char)
    else if e == 'f' then Some(12 as char)
    else if e == 'n' then Some(10 as char)
    else if e == 'r' then Some(13 as char)
    else if e == 't' then Some(9 as char)
    else if e == 'v' then Some(11 as char)
    else None
  }

  function Prepend(c: char, rest: Option<string>): Option<string>
  {
    match rest
    case None => None
    case Some(t) => Some([c] + t)
  }

  /** Reads the inside of a quoted string back, as strconv.Unquote does for
      the escapes above. */
  function UnquoteBody(q: string): Option<string>
    decreases |q|
  {
    if q == [] then Some([])
    else if q[0] != '\\' then Prepend(q[0], UnquoteBody(q[1..]))
    else if |q| >= 4 && q[1] == 'x' && HexValue(q[2]).Some? && HexValue(q[3]).Some? then
      Prepend((HexValue(q[2]).value * 16 + HexValue(q[3]).value) as char, UnquoteBody(q[4..]))
    else if |q| >= 2 && Unescape(q[1]).Some? then
      Prepend(Unescape(q[1]).value, UnquoteBody(q[2..]))
    else None
  }

  /** Reading back one escaped character. */
  lemma UnquoteQuoteChar(c: char, rest: string)
    ensures UnquoteBody(QuoteChar(c) + rest) == Prepend(c, UnquoteBody(rest))
  {
    var q := QuoteChar(c) + rest;
    var k := c as int;
    if c == '"' || c == '\\' {
      assert q[0] == '\\' && q[1] == c && q[2..] == rest;
    } else if PrintsAsIs(c) {
      assert q[0] == c && q[1..] == rest;
    } else if k == 7 || k == 8 || k == 12 || k == 10 || k == 13 || k == 9 || k == 11 {
      assert q[0] == '\\' && q[1] != 'x' && q[2..] == rest;
      assert Unescape(q[1]) == Some(c);
    } else {
      HexDigitValue(k / 16);
      HexDigitValue(k % 16);
      assert q[0] == '\\' && q[1] == 'x' && q[4..] == rest;
      assert q[2] == HexDigit(k / 16) && q[3] == HexDigit(k % 16);
      assert (k / 16) * 16 + k % 16 == k;
    }
  }

  /** Quoting loses nothing: the quoted body reads back as the input. */
  lemma {:induction false} QuoteRoundTrip(s: string)
    ensures UnquoteBody(QuoteBody(s)) == Some(s)
    decreases |s|
  {
    if s != [] {
      UnquoteQuoteChar(s[0], QuoteBody(s[1..]));
      QuoteRoundTrip(s[1..]);
      assert [s[0]] + s[1..] == s;
    }
  }

  /** Distinct strings are quoted differently. */
  lemma QuoteInjective(a: string, b: string)
    ensures Quote(a) == Quote(b) <==> a == b
  {
    if Quote(a) == Quote(b) {
      assert QuoteBody(a) == Quote(a)[1..|Quote(a)| - 1];
      assert QuoteBody(b) == Quote(b)[1..|Quote(b)| - 1];
      QuoteRoundTrip(a);
      QuoteRoundTrip(b);
    }
  }

  /** A string of characters that need no escape is quoted as it is. */
  lemma {:induction false} QuotePlain(s: string)
    requires forall i | 0 <= i < |s| :: PrintsAsIs(s[i])
    ensures Quote(s) == "\"" + s + "\""
    decreases |s|
  {
    PlainBody(s);
  }

  lemma {:induction false} PlainBody(s: string)
    requires forall i | 0 <= i < |s| :: PrintsAsIs(s[i])
    ensures QuoteBody(s) == s
    decreases |s|
  {
    if s != [] {
      PlainBody(s[1..]);
      assert [s[0]] + s[1..] == s;
    }
  }
}
