/** The destination string a connection is recorded by, and reading it back. */
module Destination {
  import opened Utf8
  import opened Decimal

  const DEFAULT_SSH_PORT: nat := 22

  /** An address is the text the standard library prints for it. */
  datatype Host = V4(text: string) | V6(text: string) | Hostname(text: string)

  datatype Options = Options(host: Host, username: Option<string>, port: Option<nat>)

  datatype Parts = Parts(username: Option<string>, host: string, port: Option<nat>)

  // ---- the string operations the two sides are made of ----

  function SplitOnce(s: string, c: char): Option<(string, string)> {
    if s == "" then None
    else if s[0] == c then Some(("", s[1..]))
    else
      match SplitOnce(s[1..], c)
      case None => None
      case Some((before, after)) => Some(([s[0]] + before, after))
  }

  function RSplitOnce(s: string, c: char): Option<(string, string)> {
    if s == "" then None
    else
      match RSplitOnce(s[1..], c)
      case Some((before, after)) => Some(([s[0]] + before, after))
      case None => if s[0] == c then Some(("", s[1..])) else None
  }

  function Trim(s: string): string
    decreases |s|
  {
    if s == "" then ""
    else if IsWhite(s[0]) then Trim(s[1..])
    else if IsWhite(s[|s| - 1]) then Trim(s[..|s| - 1])
    else s
  }

  function StripPrefix(s: string, prefix: string): Option<string> {
    if prefix <= s then Some(s[|prefix|..]) else None
  }

  /** `str::parse::<u16>`, which takes a plus sign. */
  function ParsePort(s: string): Option<nat> {
    var digits := if s != "" && s[0] == '+' then s[1..] else s;
    if AllDecimal(digits) then ParseU16(DigitsOf(digits)) else None
  }

  function ShowPort(n: nat): (s: string)
    ensures s != "" && AllDecimal(s)
  {
    Chars(Digits(n))
  }

  // ---- the two sides ----

  function Bracketed(host: Host): string { if host.V6? then "[" + (host.text + "]") else host.text }

  function AtHost(username: Option<string>, rest: string): string {
    if username.Some? then username.value + ("@" + rest) else rest
  }

  function SshDestination(options: Options): string {
    if options.port.Some? && options.port.value != DEFAULT_SSH_PORT
    then "ssh://" + AtHost(options.username, Bracketed(options.host) + (":" + ShowPort(options.port.value)))
    else AtHost(options.username, options.host.text)
  }

  function HostAndPort(rest: string): (string, Option<string>) {
    var bracketed := if rest != "" && rest[0] == '[' then SplitOnce(rest[1..], ']') else None;
    match bracketed
    case Some((host, after)) => (host, StripPrefix(after, ":"))
    case None =>
      match SplitOnce(rest, ':')
      case Some((host, port)) => if ':' !in port then (host, Some(port)) else (rest, None)
      case None => (rest, None)
  }

  function ParseSshDestination(destination: string): Parts {
    var stripped := StripPrefix(destination, "ssh://");
    ParseParts(Trim(if stripped.Some? then stripped.value else destination))
  }

  function ParseParts(text: string): Parts {
    var split := RSplitOnce(text, '@');
    var username := if split.Some? then Some(split.value.0) else None;
    var rest := if split.Some? then split.value.1 else text;
    var (host, port) := HostAndPort(rest);
    if port.None? then Parts(username, host, None)
    else if ParsePort(port.value).Some? then Parts(username, host, ParsePort(port.value))
    else Parts(username, rest, None)
  }

  predicate EqIgnoreCase(a: string, b: string) { |a| == |b| && forall i :: 0 <= i < |a| ==> Lower(a[i]) == Lower(b[i]) }

  function EffectivePort(port: Option<nat>): nat { if port.Some? then port.value else DEFAULT_SSH_PORT }

  predicate HostMatches(options: Options, destination: Option<string>) {
    destination.Some? &&
    var parts := ParseSshDestination(destination.value);
    && EqIgnoreCase(parts.host, options.host.text)
    && (parts.username.None? || options.username == parts.username)
    && (parts.port.None? || EffectivePort(options.port) == parts.port.value)
  }

  // ---- what can be printed and read back ----

  predicate NoBlank(s: string) { forall i :: 0 <= i < |s| ==> !IsWhite(s[i]) }

  predicate PlainHost(host: Host) {
    if host.V6? then AddressText(host.text) && TwoColons(host.text)
    else NoBlank(host.text) && '@' !in host.text && ':' !in host.text && (host.text != "" ==> host.text[0] != '[')
  }

  /** A printed IPv6 address holds nothing else, and at least two colons. */
  predicate AddressText(text: string) {
    forall i :: 0 <= i < |text| ==> '0' <= text[i] <= '9' || 'a' <= text[i] <= 'f' || text[i] == ':' || text[i] == '.'
  }

  predicate TwoColons(text: string) { exists i, j :: 0 <= i < j < |text| && text[i] == ':' && text[j] == ':' }

  predicate Plain(options: Options) {
    && PlainHost(options.host)
    && (options.username.Some? ==>
         NoBlank(options.username.value) && '@' !in options.username.value && !("ssh://" <= options.username.value))
    && (options.port.Some? ==> options.port.value < 0x1_0000)
  }

  lemma {:induction false} SplitOnceAt(a: string, c: char, b: string)
    requires c !in a
    ensures SplitOnce(a + ([c] + b), c) == Some((a, b))
  {
    var s := a + ([c] + b);
    if a == "" {
      assert s == [c] + b && s[1..] == b;
    } else {
      assert s[1..] == a[1..] + ([c] + b);
      SplitOnceAt(a[1..], c, b);
      assert [a[0]] + a[1..] == a;
    }
  }

  lemma {:induction false} SplitOnceNone(s: string, c: char)
    requires c !in s
    ensures SplitOnce(s, c) == None && RSplitOnce(s, c) == None
  {
    if s != "" {
      SplitOnceNone(s[1..], c);
    }
  }

  lemma {:induction false} RSplitOnceAt(a: string, c: char, b: string)
    requires c !in b
    ensures RSplitOnce(a + ([c] + b), c) == Some((a, b))
  {
    var s := a + ([c] + b);
    if a == "" {
      assert s == [c] + b && s[1..] == b;
      SplitOnceNone(b, c);
    } else {
      assert s[1..] == a[1..] + ([c] + b);
      RSplitOnceAt(a[1..], c, b);
      assert [a[0]] + a[1..] == a;
    }
  }

  lemma TrimPlain(s: string)
    requires NoBlank(s)
    ensures Trim(s) == s
  {
  }

  lemma PortReads(n: nat)
    ensures Value(DigitsOf(ShowPort(n))) == n
    ensures ShowPort(n)[0] != '+' && ':' !in ShowPort(n) && '@' !in ShowPort(n) && NoBlank(ShowPort(n))
  {
    ValueOfDigits(n);
    DigitsOfChars(Digits(n));
    hide Digits, Value, DigitsOf, Chars;
  }

  lemma AtHostReads(username: Option<string>, rest: string)
    requires '@' !in rest && (username.Some? ==> '@' !in username.value)
    ensures RSplitOnce(AtHost(username, rest), '@') == if username.Some? then Some((username.value, rest)) else None
  {
    if username.Some? {
      RSplitOnceAt(username.value, '@', rest);
    } else {
      SplitOnceNone(rest, '@');
    }
  }

  lemma BareHostReads(host: Host)
    requires PlainHost(host)
    ensures HostAndPort(host.text) == (host.text, None)
  {
    if host.V6? {
      var i, j :| 0 <= i < j < |host.text| && host.text[i] == ':' && host.text[j] == ':';
      SplitTwoColons(host.text, i, j);
    } else {
      SplitOnceNone(host.text, ':');
    }
  }

  lemma {:induction false} SplitTwoColons(s: string, i: nat, j: nat)
    requires i < j < |s| && s[i] == ':' && s[j] == ':'
    ensures SplitOnce(s, ':').Some? && ':' in SplitOnce(s, ':').value.1
  {
    if s[0] == ':' {
      assert s[1..][j - 1] == ':';
    } else {
      SplitTwoColons(s[1..], i - 1, j - 1);
    }
  }

  lemma PortedHostReads(host: Host, port: string)
    requires PlainHost(host) && ':' !in port
    ensures HostAndPort(Bracketed(host) + (":" + port)) == (host.text, Some(port))
  {
    AddressIsPlain(host);
    if host.V6? {
      BracketedReads(host.text, port);
    } else {
      SplitOnceAt(host.text, ':', port);
      assert (host.text + (":" + port))[0] != '[';
      hide SplitOnce, PlainHost;
    }
  }

  lemma BracketedReads(text: string, port: string)
    requires ']' !in text
    ensures HostAndPort("[" + (text + "]") + (":" + port)) == (text, Some(port))
  {
    var rest := "[" + (text + "]") + (":" + port);
    SplitOnceAt(text, ']', ":" + port);
    assert rest[1..] == text + ("]" + (":" + port));
    assert rest[0] == '[' && (":" + port)[1..] == port;
    hide SplitOnce;
  }

  lemma AddressIsPlain(host: Host)
    requires PlainHost(host)
    ensures NoBlank(host.text) && '@' !in host.text
    ensures host.V6? ==> ']' !in host.text && host.text != "" && host.text[0] != '[' && host.text[0] != 's'
  {
  }

  lemma AtHostPlain(username: Option<string>, rest: string)
    requires NoBlank(rest) && (username.Some? ==> NoBlank(username.value))
    ensures NoBlank(AtHost(username, rest))
  {
  }

  /** A destination printed without a scheme does not read as one. */
  lemma NoScheme(options: Options)
    requires Plain(options)
    ensures !("ssh://" <= AtHost(options.username, options.host.text))
  {
    var text := AtHost(options.username, options.host.text);
    var scheme := "ssh://";
    assert scheme[0] == 's' && scheme[3] == ':' && '@' !in scheme;
    AddressIsPlain(options.host);
    if options.username.Some? {
      var user := options.username.value;
      if |user| < 6 {
        assert text[|user|] == '@' && scheme[|user|] != '@';
      } else {
        assert user[..6] == text[..6];
      }
    }
  }

  lemma PortParses(n: nat)
    requires n < 0x1_0000
    ensures ParsePort(ShowPort(n)) == Some(n)
  {
    PortReads(n);
  }

  lemma PortedHasNoAt(host: Host, n: nat)
    requires PlainHost(host)
    ensures '@' !in Bracketed(host) + (":" + ShowPort(n))
  {
    PortReads(n);
    AddressIsPlain(host);
    hide ShowPort, PlainHost;
  }

  lemma PartsReadWithPort(username: Option<string>, host: Host, n: nat)
    requires PlainHost(host) && (username.Some? ==> '@' !in username.value) && n < 0x1_0000
    ensures ParseParts(AtHost(username, Bracketed(host) + (":" + ShowPort(n)))) == Parts(username, host.text, Some(n))
  {
    var port := ShowPort(n);
    PortReads(n);
    PortedHasNoAt(host, n);
    AtHostReads(username, Bracketed(host) + (":" + port));
    PortedHostReads(host, port);
    PortParses(n);
    hide PlainHost, Bracketed, Value, DigitsOf, HostAndPort, AtHost, RSplitOnce, ParsePort, ShowPort;
  }

  lemma PartsReadWithoutPort(username: Option<string>, host: Host)
    requires PlainHost(host) && (username.Some? ==> '@' !in username.value)
    ensures ParseParts(AtHost(username, host.text)) == Parts(username, host.text, None)
  {
    AddressIsPlain(host);
    AtHostReads(username, host.text);
    BareHostReads(host);
    hide HostAndPort, AtHost, RSplitOnce;
  }

  lemma PortedIsPlain(host: Host, n: nat)
    requires PlainHost(host)
    ensures NoBlank(Bracketed(host) + (":" + ShowPort(n)))
  {
    PortReads(n);
    AddressIsPlain(host);
    hide ShowPort, IsWhite, PlainHost;
    BracketIsPlain(host);
  }

  lemma BracketIsPlain(host: Host)
    requires NoBlank(host.text)
    ensures NoBlank(Bracketed(host))
    ensures !IsWhite(':')
  {
  }

  /** Printing a plain connection and reading it back gives its parts, the port
      where it is not the default. */
  lemma ParseUndoesPrint(options: Options)
    requires Plain(options)
    ensures ParseSshDestination(SshDestination(options))
         == Parts(options.username, options.host.text, if options.port == Some(22) then None else options.port)
  {
    hide ParseParts, AtHost, Trim, ShowPort;
    AddressIsPlain(options.host);
    if options.port.Some? && options.port.value != DEFAULT_SSH_PORT {
      var n := options.port.value;
      var text := AtHost(options.username, Bracketed(options.host) + (":" + ShowPort(n)));
      PortedIsPlain(options.host, n);
      AtHostPlain(options.username, Bracketed(options.host) + (":" + ShowPort(n)));
      TrimPlain(text);
      PartsReadWithPort(options.username, options.host, n);
      assert ("ssh://" + text)[6..] == text;
    } else {
      NoScheme(options);
      AtHostPlain(options.username, options.host.text);
      TrimPlain(AtHost(options.username, options.host.text));
      PartsReadWithoutPort(options.username, options.host);
    }
  }

  /** So a connection matches another's recorded destination exactly when the
      hosts agree but for case and each part the record states agrees; and its
      own always. */
  lemma MatchesExactly(options: Options, recorded: Options)
    requires Plain(recorded)
    ensures HostMatches(options, Some(SshDestination(recorded))) <==>
      && Lowered(recorded.host.text) == Lowered(options.host.text)
      && (recorded.username.None? || options.username == recorded.username)
      && (recorded.port.None? || recorded.port.value == 22
          || (if options.port.Some? then options.port.value else 22) == recorded.port.value)
    ensures HostMatches(recorded, Some(SshDestination(recorded)))
  {
    ParseUndoesPrint(recorded);
    IgnoresCase(recorded.host.text, options.host.text);
    IgnoresCase(recorded.host.text, recorded.host.text);
  }

  function Lowered(s: string): string { if s == "" then "" else [Lower(s[0])] + Lowered(s[1..]) }

  lemma {:induction false} IgnoresCase(a: string, b: string)
    ensures EqIgnoreCase(a, b) <==> Lowered(a) == Lowered(b)
    decreases |a|
  {
    if a != "" && b != "" {
      IgnoresCase(a[1..], b[1..]);
      assert Lowered(a)[1..] == Lowered(a[1..]) && Lowered(b)[1..] == Lowered(b[1..]);
      if EqIgnoreCase(a[1..], b[1..]) && Lower(a[0]) == Lower(b[0]) {
        assert forall i :: 0 < i < |a| ==> a[i] == a[1..][i - 1] && b[i] == b[1..][i - 1];
      }
    }
  }

  // ---- what is read leniently ----

  lemma {:induction false} TrimIs(left: string, text: string, right: string)
    requires (forall i :: 0 <= i < |left| ==> IsWhite(left[i])) && forall i :: 0 <= i < |right| ==> IsWhite(right[i])
    requires text != "" && !IsWhite(text[0]) && !IsWhite(text[|text| - 1])
    ensures Trim(left + text + right) == text
    decreases |left| + |right|
  {
    var s := left + text + right;
    if left != "" {
      assert s[1..] == left[1..] + text + right;
      TrimIs(left[1..], text, right);
    } else if right != "" {
      assert s[0] == text[0] && s[..|s| - 1] == left + text + right[..|right| - 1];
      TrimIs(left, text, right[..|right| - 1]);
    } else {
      assert s == text;
    }
  }

  /** White space around a destination is ignored, after the scheme if it has one. */
  lemma BlanksAreIgnored(left: string, text: string, right: string)
    requires (forall i :: 0 <= i < |left| ==> IsWhite(left[i])) && forall i :: 0 <= i < |right| ==> IsWhite(right[i])
    requires text != "" && !IsWhite(text[0]) && !IsWhite(text[|text| - 1])
    ensures ParseSshDestination("ssh://" + (left + text + right)) == ParseParts(text)
    ensures !("ssh://" <= left + text + right) ==> ParseSshDestination(left + text + right) == ParseParts(text)
  {
    TrimIs(left, text, right);
    var inner := left + text + right;
    assert "ssh://" <= "ssh://" + inner && ("ssh://" + inner)[|"ssh://"|..] == inner;
    hide ParseParts, Trim;
  }

  /** A port may have a plus sign, as the number parser takes it. */
  lemma PlusIsTaken(n: nat)
    requires n < 0x1_0000
    ensures ParsePort("+" + ShowPort(n)) == Some(n)
  {
    PortReads(n);
    PortParses(n);
    assert ("+" + ShowPort(n))[1..] == ShowPort(n);
  }

  /** What does not parse as a port stays in the host: after the one colon, and
      after the brackets too; and with two colons and no brackets nothing does. */
  lemma NotAPort(host: string, port: string)
    requires '@' !in host && '@' !in port && ParsePort(port).None?
    ensures ':' !in host && (host != "" ==> host[0] != '[') && ':' !in port ==>
      ParseParts(host + ([':'] + port)) == Parts(None, host + ([':'] + port), None)
    ensures ']' !in host ==>
      ParseParts("[" + (host + ("]:" + port))) == Parts(None, "[" + (host + ("]:" + port)), None)
    ensures ':' !in host && (host != "" ==> host[0] != '[') && ':' in port ==>
      ParseParts(host + ([':'] + port)) == Parts(None, host + ([':'] + port), None)
  {
    var text := host + ([':'] + port);
    RSplitOnceNone(text, '@');
    SplitsAtColon(host, port);
    var bracketed := "[" + (host + ("]:" + port));
    RSplitOnceNone(bracketed, '@');
    if ']' !in host {
      BracketSplits(host, port);
    }
    hide ParsePort, SplitOnce, RSplitOnce;
  }

  lemma {:induction false} RSplitOnceNone(s: string, c: char)
    requires c !in s
    ensures RSplitOnce(s, c) == None
  {
    if s != "" {
      RSplitOnceNone(s[1..], c);
    }
  }

  lemma SplitsAtColon(host: string, port: string)
    ensures ':' !in host && (host != "" ==> host[0] != '[') ==>
      HostAndPort(host + ([':'] + port)) ==
        if ':' !in port then (host, Some(port)) else (host + ([':'] + port), None)
  {
    if ':' !in host {
      SplitOnceAt(host, ':', port);
    }
    hide SplitOnce;
  }

  lemma BracketSplits(host: string, port: string)
    requires ']' !in host
    ensures HostAndPort("[" + (host + ("]:" + port))) == (host, Some(port))
  {
    var text := "[" + (host + ("]:" + port));
    SplitOnceAt(host, ']', ":" + port);
    assert "]:" + port == [']'] + (":" + port);
    assert text[1..] == host + ([']'] + (":" + port));
    assert ":" <= ":" + port && (":" + port)[1..] == port;
    hide SplitOnce;
  }
}
