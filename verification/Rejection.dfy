/** The error frame sent back for a frame that did not decode, as bytes: it fits
    a fixed bound whatever the peer sent. */
module Rejection {
  import opened Utf8
  import opened Decimal
  import opened Bounded
  import opened Framing

  // ---- how Rust and JSON quote ----

  function HexDigit(n: nat): char
    requires n < 16
  {
    "0123456789abcdef"[n]
  }

  function Hex(n: nat): string { (if n < 16 then "" else Hex(n / 16)) + [HexDigit(n % 16)] }

  /** The `Debug` form of a character of a string; `plain` are the characters
      it prints as they are. */
  function DebugChar(c: char, plain: char -> bool): string {
    if c == '\0' then "\\0"
    else if c == '\t' then "\\t"
    else if c == '\r' then "\\r"
    else if c == '\n' then "\\n"
    else if c == '"' then "\\\""
    else if c == '\\' then "\\\\"
    else if plain(c) then [c]
    else "\\u{" + Hex(c as int) + "}"
  }

  function DebugChars(s: string, plain: char -> bool): string {
    if s == "" then "" else DebugChar(s[0], plain) + DebugChars(s[1..], plain)
  }

  function Debug(s: string, plain: char -> bool): string { "\"" + (DebugChars(s, plain) + "\"") }

  function JsonChar(c: char): (r: string)
    ensures r != ""
  {
    if c == '"' then "\\\""
    else if c == '\\' then "\\\\"
    else if c == '\n' then "\\n"
    else if c == '\r' then "\\r"
    else if c == '\t' then "\\t"
    else if c as int == 8 then "\\b"
    else if c as int == 12 then "\\f"
    else if (c as int) < 0x20 then "\\u00" + [HexDigit(c as int / 16), HexDigit(c as int % 16)]
    else [c]
  }

  function JsonChars(s: string): string {
    if s == "" then "" else JsonChar(s[0]) + JsonChars(s[1..])
  }

  function JsonText(s: string): string { "\"" + (JsonChars(s) + "\"") }

  // ---- the frame ----

  datatype ErrorFrame = ErrorFrame(code: string, message: string, rid: Option<nat>)

  function Message(error: ReadError, plain: char -> bool): string {
    match error
    case Transport => ""
    case MalformedFrame(detail) => "malformed frame: " + Shortened(detail)
    case UnknownOp(op, _) => "unknown operation " + Debug(Shortened(op), plain)
    case MalformedBody(op, _, detail) =>
      "malformed body for operation " + (Debug(Shortened(op), plain) + (": " + Shortened(detail)))
  }

  function RejectionFrame(error: ReadError, plain: char -> bool): Option<ErrorFrame> {
    match error
    case Transport => None
    case MalformedFrame(_) => Some(ErrorFrame("malformed_frame", Message(error, plain), None))
    case UnknownOp(_, rid) => if rid.Some? then Some(ErrorFrame("unknown_op", Message(error, plain), rid)) else None
    case MalformedBody(_, rid, _) =>
      if rid.Some? then Some(ErrorFrame("malformed_body", Message(error, plain), rid)) else None
  }

  function NumberText(n: nat): string { Chars(Digits(n)) }

  /** The envelope an error frame becomes: the session and the workspace are
      absent, so only the code and the message are in the body. */
  function ErrorText(frame: ErrorFrame): string {
    "{\"op\":\"error\"" + ((if frame.rid.Some? then ",\"rid\":" + NumberText(frame.rid.value) else "")
      + (",\"body\":{\"code\":" + (JsonText(frame.code) + (",\"message\":" + (JsonText(frame.message) + "}}")))))
  }

  // ---- that the text reads back ----

  function HexValue(c: char): Option<nat> {
    if '0' <= c <= '9' then Some(c as int - '0' as int)
    else if 'a' <= c <= 'f' then Some(c as int - 'a' as int + 10)
    else if 'A' <= c <= 'F' then Some(c as int - 'A' as int + 10)
    else None
  }

  /** The character that an escape names (section 7 of RFC 8259), and how many
      characters the escape has. Of `\u` only what one escape can say is read. */
  function Unescaped(t: string): (r: Option<(char, nat)>)
    requires t != "" && t[0] == '\\'
    ensures r.Some? ==> 2 <= r.value.1 <= |t|
  {
    if |t| < 2 then None
    else if t[1] == '"' || t[1] == '\\' || t[1] == '/' then Some((t[1], 2))
    else if t[1] == 'b' then Some((0x08 as char, 2))
    else if t[1] == 'f' then Some((0x0C as char, 2))
    else if t[1] == 'n' then Some((0x0A as char, 2))
    else if t[1] == 'r' then Some((0x0D as char, 2))
    else if t[1] == 't' then Some((0x09 as char, 2))
    else if t[1] == 'u' && |t| >= 6 then
      var a, b, c, d := HexValue(t[2]), HexValue(t[3]), HexValue(t[4]), HexValue(t[5]);
      if a.Some? && b.Some? && c.Some? && d.Some? then
        var n := 0x1000 * a.value + 0x100 * b.value + 0x10 * c.value + d.value;
        if n < 0xD800 || 0xE000 <= n < 0x1_0000 then Some((n as char, 6)) else None
      else None
    else None
  }

  /** A JSON string past its opening quote: what it says, and what follows it. */
  function ReadJson(t: string): Option<(string, string)>
    decreases |t|
  {
    if t == "" || (t[0] as int) < 0x20 then None
    else if t[0] == '"' then Some(("", t[1..]))
    else
      var read := if t[0] == '\\' then Unescaped(t) else Some((t[0], 1));
      if read.None? then None
      else
        var rest := ReadJson(t[read.value.1..]);
        if rest.None? then None else Some(([read.value.0] + rest.value.0, rest.value.1))
  }

  lemma JsonCharReads(c: char, rest: string)
    ensures var t, n := JsonChar(c) + rest, |JsonChar(c)|;
      && t[0] as int >= 0x20 && t[0] != '"' && t[n..] == rest
      && (if t[0] == '\\' then Unescaped(t) == Some((c, n)) else JsonChar(c) == [c])
  {
    var t := JsonChar(c) + rest;
    if |JsonChar(c)| == 6 {
      HexDigitReads(c as int / 16);
      HexDigitReads(c as int % 16);
    }
  }

  lemma HexDigitReads(n: nat)
    requires n < 16
    ensures HexValue(HexDigit(n)) == Some(n)
  {
  }

  /** Any text at all, written as a JSON string, reads back as itself, and the
      string ends where it was ended. */
  lemma {:induction false} JsonTextReads(s: string, rest: string)
    ensures JsonText(s)[0] == '"' && ReadJson(JsonText(s)[1..] + rest) == Some((s, rest))
  {
    JsonCharsRead(s, rest);
    assert JsonText(s)[1..] + rest == JsonChars(s) + ("\"" + rest);
  }

  lemma ReadsOne(c: char, more: string)
    ensures var read := ReadJson(more);
      ReadJson(JsonChar(c) + more) == if read.None? then None else Some(([c] + read.value.0, read.value.1))
  {
    JsonCharReads(c, more);
    hide JsonChar, Unescaped;
    var t := JsonChar(c) + more;
    assert t[|JsonChar(c)|..] == more;
  }

  lemma {:induction false} JsonCharsRead(s: string, rest: string)
    ensures ReadJson(JsonChars(s) + ("\"" + rest)) == Some((s, rest))
  {
    hide JsonChar, Unescaped;
    var quoted := "\"" + rest;
    if s == "" {
      assert JsonChars(s) + quoted == quoted && quoted[1..] == rest;
    } else {
      hide ReadJson;
      var more := JsonChars(s[1..]) + quoted;
      JsonCharsRead(s[1..], rest);
      ReadsOne(s[0], more);
      assert JsonChars(s) + quoted == JsonChar(s[0]) + more;
      assert [s[0]] + s[1..] == s;
    }
  }

  // ---- that the message reads back ----

  function HexOf(s: string): Option<nat> {
    if s == "" then Some(0)
    else
      var high, low := HexOf(s[..|s| - 1]), HexValue(s[|s| - 1]);
      if high.Some? && low.Some? then Some(0x10 * high.value + low.value) else None
  }

  lemma {:induction false} HexOfMore(s: string, d: char)
    requires HexOf(s).Some? && HexValue(d).Some?
    ensures HexOf(s + [d]) == Some(0x10 * HexOf(s).value + HexValue(d).value)
  {
    hide HexValue;
    var more := s + [d];
    assert more[..|more| - 1] == s;
    assert more[|more| - 1] == d && more != "";
  }

  lemma DigitIsNoBrace(n: nat)
    requires n < 16
    ensures HexDigit(n) != '}'
  {
  }

  lemma {:induction false} HexReads(n: nat)
    ensures Hex(n) != "" && HexOf(Hex(n)) == Some(n) && '}' !in Hex(n)
  {
    HexDigitReads(n % 16);
    DigitIsNoBrace(n % 16);
    hide HexDigit, HexValue;
    var high := if n < 16 then "" else Hex(n / 16);
    if n >= 16 {
      HexReads(n / 16);
    }
    HexOfMore(high, HexDigit(n % 16));
    hide HexOf;
    assert Hex(n) == high + [HexDigit(n % 16)];
  }

  function Brace(t: string): (k: nat)
    ensures k <= |t|
  {
    if t == "" || t[0] == '}' then 0 else 1 + Brace(t[1..])
  }

  lemma {:induction false} BraceIs(s: string, rest: string)
    requires '}' !in s
    ensures Brace(s + ("}" + rest)) == |s|
  {
    var t := s + ("}" + rest);
    if s != "" {
      assert t[1..] == s[1..] + ("}" + rest);
      BraceIs(s[1..], rest);
    }
  }

  /** The character that an escape of a Rust string literal names, and how many
      characters the escape has. */
  function UnescapedDebug(t: string): (r: Option<(char, nat)>)
    requires t != "" && t[0] == '\\'
    ensures r.Some? ==> 2 <= r.value.1 <= |t|
  {
    if |t| < 2 then None
    else if t[1] == '"' || t[1] == '\\' || t[1] == '\'' then Some((t[1], 2))
    else if t[1] == '0' then Some((0x00 as char, 2))
    else if t[1] == 't' then Some((0x09 as char, 2))
    else if t[1] == 'n' then Some((0x0A as char, 2))
    else if t[1] == 'r' then Some((0x0D as char, 2))
    else if |t| >= 3 && t[1] == 'u' && t[2] == '{' then
      var k := Brace(t[3..]);
      var n := HexOf(t[3..3 + k]);
      if 3 + k < |t| && k > 0 && n.Some? && (n.value < 0xD800 || 0xE000 <= n.value < 0x11_0000) then
        Some((n.value as char, 4 + k))
      else None
    else None
  }

  /** A Rust string literal past its opening quote, and what follows it. */
  function ReadDebug(t: string): Option<(string, string)>
    decreases |t|
  {
    if t == "" then None
    else if t[0] == '"' then Some(("", t[1..]))
    else
      var read := if t[0] == '\\' then UnescapedDebug(t) else Some((t[0], 1));
      if read.None? then None
      else
        var rest := ReadDebug(t[read.value.1..]);
        if rest.None? then None else Some(([read.value.0] + rest.value.0, rest.value.1))
  }

  lemma HexEscapeReads(c: char, rest: string)
    ensures var escape := "\\u{" + Hex(c as int) + "}";
      UnescapedDebug(escape + rest) == Some((c, |escape|))
  {
    HexReads(c as int);
    BraceIs(Hex(c as int), rest);
    EscapeOfHex(Hex(c as int), rest);
    hide *;
    assert c as int < 0xD800 || 0xE000 <= c as int < 0x11_0000;
  }

  lemma EscapeOfHex(hex: string, rest: string)
    requires hex != "" && HexOf(hex).Some? && Brace(hex + ("}" + rest)) == |hex|
    requires HexOf(hex).value < 0xD800 || 0xE000 <= HexOf(hex).value < 0x11_0000
    ensures var escape := "\\u{" + hex + "}";
      UnescapedDebug(escape + rest) == Some((HexOf(hex).value as char, |escape|))
  {
    hide HexOf, Brace;
    var t := "\\u{" + hex + "}" + rest;
    assert t[3..] == hex + ("}" + rest);
    assert t[3..3 + |hex|] == hex;
    assert t[0] == '\\' && t[1] == 'u' && t[2] == '{';
  }

  lemma DebugCharReads(c: char, plain: char -> bool, rest: string)
    ensures var t, n := DebugChar(c, plain) + rest, |DebugChar(c, plain)|;
      && n > 0 && t[0] != '"' && t[n..] == rest
      && (if t[0] == '\\' then UnescapedDebug(t) == Some((c, n)) else DebugChar(c, plain) == [c])
  {
    HexEscapeReads(c, rest);
    hide Hex, HexOf, Brace;
  }

  lemma ReadsOneMore(c: char, plain: char -> bool, more: string)
    ensures var read := ReadDebug(more);
      ReadDebug(DebugChar(c, plain) + more) == if read.None? then None else Some(([c] + read.value.0, read.value.1))
  {
    DebugCharReads(c, plain, more);
    hide DebugChar, UnescapedDebug;
    var t := DebugChar(c, plain) + more;
    assert t[|DebugChar(c, plain)|..] == more;
  }

  lemma {:induction false} DebugCharsRead(s: string, plain: char -> bool, rest: string)
    ensures ReadDebug(DebugChars(s, plain) + ("\"" + rest)) == Some((s, rest))
  {
    hide DebugChar, UnescapedDebug;
    var quoted := "\"" + rest;
    if s == "" {
      assert DebugChars(s, plain) + quoted == quoted && quoted[1..] == rest;
    } else {
      hide ReadDebug;
      var more := DebugChars(s[1..], plain) + quoted;
      DebugCharsRead(s[1..], plain, rest);
      ReadsOneMore(s[0], plain, more);
      assert DebugChars(s, plain) + quoted == DebugChar(s[0], plain) + more;
      assert [s[0]] + s[1..] == s;
    }
  }

  /** `Debug` and then anything: a literal that reads back as the text, and then that. */
  lemma DebugReads(s: string, plain: char -> bool, rest: string)
    ensures Debug(s, plain)[0] == '"' && ReadDebug(Debug(s, plain)[1..] + rest) == Some((s, rest))
  {
    DebugCharsRead(s, plain, rest);
    assert Debug(s, plain)[1..] + rest == DebugChars(s, plain) + ("\"" + rest);
  }

  /** What a message says: after fixed words, the operation as a literal that
      reads back, and after that the detail, both cut short as quotations are. */
  lemma MessageReadsBack(error: ReadError, plain: char -> bool) returns (quoted: string)
    ensures match error
      case Transport => true
      case MalformedFrame(detail) => Message(error, plain) == "malformed frame: " + Shortened(detail)
      case UnknownOp(op, _) =>
        Message(error, plain) == "unknown operation \"" + quoted && ReadDebug(quoted) == Some((Shortened(op), ""))
      case MalformedBody(op, _, detail) =>
        && Message(error, plain) == "malformed body for operation \"" + quoted
        && ReadDebug(quoted) == Some((Shortened(op), ": " + Shortened(detail)))
  {
    hide Shortened, ReadDebug;
    quoted := "";
    match error {
      case Transport =>
      case MalformedFrame(_) =>
      case UnknownOp(op, _) =>
        DebugReads(Shortened(op), plain, "");
        quoted := Debug(Shortened(op), plain)[1..] + "";
        assert Debug(Shortened(op), plain) == "\"" + quoted;
        assert "unknown operation " + ("\"" + quoted) == "unknown operation \"" + quoted;
      case MalformedBody(op, _, detail) =>
        var after := ": " + Shortened(detail);
        DebugReads(Shortened(op), plain, after);
        quoted := Debug(Shortened(op), plain)[1..] + after;
        assert Debug(Shortened(op), plain) + after == "\"" + quoted;
        assert "malformed body for operation " + ("\"" + quoted) == "malformed body for operation \"" + quoted;
    }
  }

  // ---- how long it can be ----

  function Size(s: string): nat { |EncodeAll(s)| }

  lemma SizeOf(a: string, b: string)
    ensures Size(a + b) == Size(a) + Size(b)
  {
    EncodeAllConcat(a, b);
  }

  lemma {:induction false} AsciiSize(s: string)
    requires forall i :: 0 <= i < |s| ==> (s[i] as int) < 0x80
    ensures Size(s) == |s|
  {
    if s != "" {
      AsciiSize(s[1..]);
    }
  }

  lemma {:induction false} HexIsShort(n: nat, digits: nat, limit: nat)
    requires digits >= 1 && n < limit && limit == Power16(digits)
    ensures |Hex(n)| <= digits && forall i :: 0 <= i < |Hex(n)| ==> (Hex(n)[i] as int) < 0x80
    decreases n
  {
    if n >= 16 {
      assert limit == 16 * Power16(digits - 1);
      HexIsShort(n / 16, digits - 1, Power16(digits - 1));
    }
  }

  function Power16(n: nat): nat { if n == 0 then 1 else 16 * Power16(n - 1) }

  lemma DebugCharSize(c: char, plain: char -> bool)
    ensures Size(DebugChar(c, plain)) <= 10
  {
    var n := c as int;
    assert Power16(6) == 0x100_0000 by {
      assert Power16(3) == 0x1000;
    }
    HexIsShort(n, 6, 0x100_0000);
    var shown := DebugChar(c, plain);
    if forall i :: 0 <= i < |shown| ==> (shown[i] as int) < 0x80 {
      AsciiSize(shown);
    } else {
      EncodedOne(c);
    }
  }

  lemma {:induction false} DebugSize(s: string, plain: char -> bool)
    ensures Size(DebugChars(s, plain)) <= 10 * Size(s)
  {
    hide Encode, DebugChar, Size;
    if s == "" {
      assert Size("") == 0 by { AsciiSize(""); }
    } else {
      DebugSize(s[1..], plain);
      DebugCharSize(s[0], plain);
      SizeOf(DebugChar(s[0], plain), DebugChars(s[1..], plain));
      SizeOf([s[0]], s[1..]);
      assert [s[0]] + s[1..] == s;
      OneIsSome(s[0]);
    }
  }

  lemma OneIsSome(c: char)
    ensures 1 <= Size([c])
  {
    EncodedOne(c);
  }

  lemma JsonCharSize(c: char)
    ensures Size(JsonChar(c)) <= 6 * Size([c])
  {
    OneIsSome(c);
    if JsonChar(c) != [c] {
      AsciiSize(JsonChar(c));
    }
  }

  lemma {:induction false} JsonSize(s: string)
    ensures Size(JsonChars(s)) <= 6 * Size(s)
  {
    hide Encode, JsonChar, Size;
    if s == "" {
      assert Size("") == 0 by { AsciiSize(""); }
    } else {
      JsonSize(s[1..]);
      JsonCharSize(s[0]);
      SizeOf(JsonChar(s[0]), JsonChars(s[1..]));
      SizeOf([s[0]], s[1..]);
      assert [s[0]] + s[1..] == s;
    }
  }

  lemma JsonTextSize(s: string)
    ensures Size(JsonText(s)) <= 2 + 6 * Size(s)
  {
    hide Size, JsonChars;
    JsonSize(s);
    SizeOf("\"", JsonChars(s) + "\"");
    SizeOf(JsonChars(s), "\"");
    AsciiSize("\"");
  }

  lemma QuotedSize(s: string, plain: char -> bool)
    ensures Size(Debug(Shortened(s), plain)) <= 1312
  {
    hide Size, DebugChars, Shortened;
    var t := Shortened(s);
    ShortSize(s);
    DebugSize(t, plain);
    SizeOf("\"", DebugChars(t, plain) + "\"");
    SizeOf(DebugChars(t, plain), "\"");
    AsciiSize("\"");
  }

  lemma ShortSize(s: string)
    ensures Size(Shortened(s)) <= 131
  {
    var _ := ShortenedIsBounded(s);
  }

  lemma MessageSize(error: ReadError, plain: char -> bool)
    ensures Size(Message(error, plain)) <= 1474
  {
    hide Size, Debug, Shortened;
    match error {
      case Transport => AsciiSize("");
      case MalformedFrame(detail) =>
        SizeOf("malformed frame: ", Shortened(detail));
        AsciiSize("malformed frame: ");
        ShortSize(detail);
      case UnknownOp(op, _) =>
        SizeOf("unknown operation ", Debug(Shortened(op), plain));
        AsciiSize("unknown operation ");
        QuotedSize(op, plain);
      case MalformedBody(op, _, detail) =>
        var quoted := Debug(Shortened(op), plain);
        SizeOf("malformed body for operation ", quoted + (": " + Shortened(detail)));
        SizeOf(quoted, ": " + Shortened(detail));
        SizeOf(": ", Shortened(detail));
        AsciiSize("malformed body for operation ");
        AsciiSize(": ");
        QuotedSize(op, plain);
        ShortSize(detail);
    }
  }

  lemma {:induction false} DigitsAreFew(n: nat, digits: nat)
    requires digits >= 1 && n < Power10(digits)
    ensures |Digits(n)| <= digits
    decreases n
  {
    if n >= 10 {
      assert Power10(digits) == 10 * Power10(digits - 1);
      DigitsAreFew(n / 10, digits - 1);
    }
  }

  function Power10(n: nat): nat { if n == 0 then 1 else 10 * Power10(n - 1) }

  lemma NumberSize(n: nat)
    requires n < U64
    ensures Size(NumberText(n)) <= 20
  {
    TenToTheTwenty();
    DigitsAreFew(n, 20);
    AsciiSize(NumberText(n));
  }

  lemma TenToTheTwenty()
    ensures Power10(20) == 100_000_000_000_000_000_000
  {
    assert Power10(5) == 100_000;
    assert Power10(10) == 10_000_000_000;
    assert Power10(15) == 1_000_000_000_000_000;
  }

  lemma RidSize(rid: Option<nat>)
    requires rid.Some? ==> rid.value < U64
    ensures Size(if rid.Some? then ",\"rid\":" + NumberText(rid.value) else "") <= 27
  {
    hide Size, NumberText;
    AsciiSize("");
    AsciiSize(",\"rid\":");
    if rid.Some? {
      SizeOf(",\"rid\":", NumberText(rid.value));
      NumberSize(rid.value);
    }
  }

  lemma ErrorTextSize(frame: ErrorFrame)
    requires frame.rid.Some? ==> frame.rid.value < U64
    ensures Size(ErrorText(frame)) <= 80 + 6 * Size(frame.code) + 6 * Size(frame.message)
  {
    hide Size, NumberText, JsonText;
    var rid := if frame.rid.Some? then ",\"rid\":" + NumberText(frame.rid.value) else "";
    var code, message := JsonText(frame.code), JsonText(frame.message);
    RidSize(frame.rid);
    JsonTextSize(frame.code);
    JsonTextSize(frame.message);
    AsciiSize("{\"op\":\"error\"");
    AsciiSize(",\"body\":{\"code\":");
    AsciiSize(",\"message\":");
    AsciiSize("}}");
    SizeOf(message, "}}");
    SizeOf(",\"message\":", message + "}}");
    SizeOf(code, ",\"message\":" + (message + "}}"));
    SizeOf(",\"body\":{\"code\":", code + (",\"message\":" + (message + "}}")));
    SizeOf(rid, ",\"body\":{\"code\":" + (code + (",\"message\":" + (message + "}}"))));
    SizeOf("{\"op\":\"error\"", rid + (",\"body\":{\"code\":" + (code + (",\"message\":" + (message + "}}")))));
  }

  /** Whatever the peer sent, its rejection fits, and so it can be written; and
      it is answered exactly when there is someone to answer. */
  lemma {:induction false} RejectionFits(error: ReadError, plain: char -> bool)
    requires (error.UnknownOp? || error.MalformedBody?) && error.rid.Some? ==> error.rid.value < U64
    ensures var frame := RejectionFrame(error, plain);
      && (frame.Some? <==> error.MalformedFrame? || ((error.UnknownOp? || error.MalformedBody?) && error.rid.Some?))
      && (frame.Some? ==>
           && frame.value.rid == (if error.MalformedFrame? then None else error.rid)
           && frame.value.code == (if error.MalformedFrame? then "malformed_frame" else if error.UnknownOp? then "unknown_op" else "malformed_body")
           && Size(ErrorText(frame.value)) <= 10_000 < MAX_FRAME_BYTES)
  {
    hide Size, Message, ErrorText;
    var frame := RejectionFrame(error, plain);
    if frame.Some? {
      MessageSize(error, plain);
      ErrorTextSize(frame.value);
      AsciiSize(frame.value.code);
    }
  }
}
