/** Quoting for a POSIX shell, and the shell it is quoted for: token recognition
    and quoting by sections 2.2 and 2.3 of the Shell Command Language in IEEE
    Std 1003.1-2017. */
module Shell {
  import opened Decimal

  // ---- the shell's side ----

  datatype State = Bare | Escape | Single | Double | DoubleEscape | Dollar(double: bool)

  /** The state, and for each command substitution that is open whether it
      stands inside double quotes. */
  datatype Mode = Mode(state: State, open: seq<bool>)

  const START := Mode(Bare, [])

  /** `Lit` is a character that stands for itself. `Raw` is unquoted text and
      `Active` an expansion that is still to come. `Mark` says that a quotation
      began, so that an empty one is a word too. */
  datatype Event = Lit(c: char) | Raw(c: char) | Active(c: char) | Mark | Break | Op(c: char) | Sub | EndSub

  function InBare(open: seq<bool>, c: char): (Mode, seq<Event>) {
    if c == '\'' then (Mode(Single, open), [Mark])
    else if c == '"' then (Mode(Double, open), [Mark])
    else if c == '\\' then (Mode(Escape, open), [])
    else if c == '$' then (Mode(Dollar(false), open), [])
    else if c == ' ' || c == '\t' then (Mode(Bare, open), [Break])
    else if c == ')' && open != [] then
      (Mode(if open[|open| - 1] then Double else Bare, open[..|open| - 1]), [EndSub])
    else if c in "\n&|;<>()" then (Mode(Bare, open), [Op(c)])
    else if c == '`' then (Mode(Bare, open), [Active(c)])
    else (Mode(Bare, open), [Raw(c)])
  }

  function InDouble(open: seq<bool>, c: char): (Mode, seq<Event>) {
    if c == '"' then (Mode(Bare, open), [])
    else if c == '\\' then (Mode(DoubleEscape, open), [])
    else if c == '$' then (Mode(Dollar(true), open), [])
    else if c == '`' then (Mode(Double, open), [Active(c)])
    else (Mode(Double, open), [Lit(c)])
  }

  function Step(mode: Mode, c: char): (Mode, seq<Event>) {
    var open := mode.open;
    match mode.state
    case Bare => InBare(open, c)
    case Double => InDouble(open, c)
    case Single => if c == '\'' then (Mode(Bare, open), []) else (Mode(Single, open), [Lit(c)])
    case Escape => (Mode(Bare, open), if c == '\n' then [] else [Lit(c)])
    case DoubleEscape =>
      (Mode(Double, open), if c == '\n' then [] else if c in "$`\"\\" then [Lit(c)] else [Lit('\\'), Lit(c)])
    case Dollar(double) =>
      if c == '(' then (Mode(Bare, open + [double]), [Sub])
      else
        var (next, events) := if double then InDouble(open, c) else InBare(open, c);
        (next, [Active('$')] + events)
  }

  function Lex(mode: Mode, text: string): (Mode, seq<Event>)
    decreases |text|
  {
    if text == "" then (mode, [])
    else
      var (next, events) := Step(mode, text[0]);
      var (last, rest) := Lex(next, text[1..]);
      (last, events + rest)
  }

  /** The words of a list of events, or none if any word needs more than its own
      characters, or the text is more than a list of words. */
  function Words(events: seq<Event>, word: Option<string>): Option<seq<string>>
    decreases |events|
  {
    if events == [] then Some(if word.Some? then [word.value] else [])
    else
      match events[0]
      case Break =>
        var rest := Words(events[1..], None);
        if rest.Some? && word.Some? then Some([word.value] + rest.value) else rest
      case Mark => Words(events[1..], Some(Begun(word)))
      case Lit(c) => Words(events[1..], Some(Begun(word) + [c]))
      case _ => None
  }

  function Begun(word: Option<string>): string { if word.Some? then word.value else "" }

  /** What a command line is split into. */
  function Split(text: string): Option<seq<string>> {
    var (mode, events) := Lex(START, text);
    if mode == START then Words(events, None) else None
  }

  lemma {:induction false} LexConcat(mode: Mode, a: string, b: string)
    ensures var (middle, first) := Lex(mode, a);
      var (last, second) := Lex(middle, b);
      Lex(mode, a + b) == (last, first + second)
    decreases |a|
  {
    hide Step;
    if a == "" {
      assert a + b == b && [] + Lex(mode, b).1 == Lex(mode, b).1;
    } else {
      assert (a + b)[0] == a[0] && (a + b)[1..] == a[1..] + b;
      LexConcat(Step(mode, a[0]).0, a[1..], b);
      var events := Step(mode, a[0]).1;
      var (middle, first) := Lex(Step(mode, a[0]).0, a[1..]);
      assert events + (first + Lex(middle, b).1) == events + first + Lex(middle, b).1;
    }
  }

  // ---- the quoting ----

  function Escaped(text: string): string {
    if text == "" then "" else (if text[0] == '\'' then "'\\''" else [text[0]]) + Escaped(text[1..])
  }

  function Quote(text: string): string { "'" + (Escaped(text) + "'") }

  /** The events of a quoted text: its characters, and the quotations begun. */
  function Inner(text: string): seq<Event> {
    if text == "" then [] else (if text[0] == '\'' then [Lit('\''), Mark] else [Lit(text[0])]) + Inner(text[1..])
  }

  function Quoted(text: string): seq<Event> { [Mark] + Inner(text) }

  /** Nothing but characters and quotation marks: one word, whole. */
  predicate IsWord(events: seq<Event>, text: string) {
    Words(events, None) == Some([text]) && forall i :: 0 <= i < |events| ==> events[i].Lit? || events[i].Mark?
  }

  lemma LexOne(mode: Mode, c: char)
    ensures Lex(mode, [c]) == Step(mode, c)
  {
    assert [c][1..] == "";
    assert Step(mode, c).1 + [] == Step(mode, c).1;
  }

  lemma LexQuoteMark(open: seq<bool>)
    ensures Lex(Mode(Single, open), "'\\''") == (Mode(Single, open), [Lit('\''), Mark])
  {
    var s := "'\\''";
    assert s[1..] == "\\''" && s[1..][1..] == "''" && s[1..][1..][1..] == "'";
    LexOne(Mode(Bare, open), '\'');
    assert Lex(Mode(Escape, open), "''") == (Mode(Single, open), [Lit('\'')] + [Mark]) by {
      assert "''"[1..] == "'";
    }
    assert [] + ([] + ([Lit('\'')] + [Mark])) == [Lit('\''), Mark];
  }

  lemma {:induction false} LexEscaped(open: seq<bool>, text: string)
    ensures Lex(Mode(Single, open), Escaped(text)) == (Mode(Single, open), Inner(text))
  {
    if text != "" {
      LexEscaped(open, text[1..]);
      LexConcat(Mode(Single, open), if text[0] == '\'' then "'\\''" else [text[0]], Escaped(text[1..]));
      if text[0] == '\'' {
        LexQuoteMark(open);
      } else {
        LexOne(Mode(Single, open), text[0]);
      }
    }
  }

  /** Wherever it stands, a quoted text lexes to itself and leaves the shell as
      it was. */
  lemma LexQuote(open: seq<bool>, text: string)
    ensures Lex(Mode(Bare, open), Quote(text)) == (Mode(Bare, open), Quoted(text))
  {
    LexEscaped(open, text);
    LexConcat(Mode(Single, open), Escaped(text), "'");
    LexOne(Mode(Single, open), '\'');
    LexConcat(Mode(Bare, open), "'", Escaped(text) + "'");
    LexOne(Mode(Bare, open), '\'');
    assert Inner(text) + [] == Inner(text);
  }

  lemma FirstAdds(event: Event, rest: seq<Event>, word: string)
    requires event.Lit? || event.Mark?
    ensures Words([event] + rest, Some(word)) == Words(rest, Some(word + if event.Lit? then [event.c] else []))
  {
    assert ([event] + rest)[1..] == rest && word + [] == word;
  }

  lemma {:induction false} InnerAdds(text: string, rest: seq<Event>, word: string)
    ensures Words(Inner(text) + rest, Some(word)) == Words(rest, Some(word + text))
    decreases |text|
  {
    if text == "" {
      assert Inner(text) + rest == rest && word + text == word;
    } else {
      var more := Inner(text[1..]) + rest;
      InnerAdds(text[1..], rest, word + [text[0]]);
      assert word + [text[0]] + text[1..] == word + text;
      if text[0] == '\'' {
        assert Inner(text) + rest == [Lit('\'')] + ([Mark] + more);
        hide Inner;
        FirstAdds(Lit('\''), [Mark] + more, word);
        FirstAdds(Mark, more, word + ['\'']);
      } else {
        assert Inner(text) + rest == [Lit(text[0])] + more;
        hide Inner;
        FirstAdds(Lit(text[0]), more, word);
      }
    }
  }

  lemma QuotedAdds(text: string, rest: seq<Event>)
    ensures Words(Quoted(text) + rest, None) == Words(rest, Some(text))
  {
    assert (Quoted(text) + rest)[0] == Mark && (Quoted(text) + rest)[1..] == Inner(text) + rest;
    InnerAdds(text, rest, "");
    assert "" + text == text;
  }

  lemma {:induction false} QuotedIsWord(text: string)
    ensures IsWord(Quoted(text), text)
  {
    QuotedAdds(text, []);
    assert Quoted(text) + [] == Quoted(text);
    InnerIsPlain(text);
  }

  lemma {:induction false} InnerIsPlain(text: string)
    ensures forall i :: 0 <= i < |Inner(text)| ==> Inner(text)[i].Lit? || Inner(text)[i].Mark?
  {
    if text != "" {
      InnerIsPlain(text[1..]);
    }
  }

  // ---- a command for another host ----

  /** `ssh` joins its arguments with spaces for the remote shell. */
  function Joined(parts: seq<string>): string
    decreases |parts|
  {
    if parts == [] then "" else if |parts| == 1 then parts[0] else parts[0] + (" " + Joined(parts[1..]))
  }

  function QuoteAll(argv: seq<string>): (quoted: seq<string>)
    ensures |quoted| == |argv|
  {
    if argv == [] then [] else QuoteAll(argv[..|argv| - 1]) + [Quote(argv[|argv| - 1])]
  }

  lemma {:induction false} QuoteAllAt(argv: seq<string>)
    ensures forall i :: 0 <= i < |argv| ==> QuoteAll(argv)[i] == Quote(argv[i])
    decreases |argv|
  {
    if argv != [] {
      QuoteAllAt(argv[..|argv| - 1]);
    }
  }

  lemma QuoteAllRest(argv: seq<string>)
    requires argv != []
    ensures QuoteAll(argv)[0] == Quote(argv[0]) && QuoteAll(argv)[1..] == QuoteAll(argv[1..])
  {
    QuoteAllAt(argv);
    QuoteAllAt(argv[1..]);
  }

  function LineEvents(argv: seq<string>): seq<Event> {
    if argv == [] then [] else if |argv| == 1 then Quoted(argv[0]) else Quoted(argv[0]) + ([Break] + LineEvents(argv[1..]))
  }

  lemma {:induction false} LexLine(argv: seq<string>)
    ensures Lex(START, Joined(QuoteAll(argv))) == (START, LineEvents(argv))
    decreases |argv|
  {
    if argv != [] {
      QuoteAllRest(argv);
      LexQuote([], argv[0]);
      if |argv| > 1 {
        LexLine(argv[1..]);
        LexConcat(START, Quote(argv[0]), " " + Joined(QuoteAll(argv[1..])));
        LexConcat(START, " ", Joined(QuoteAll(argv[1..])));
        LexOne(START, ' ');
      }
    }
  }

  lemma {:induction false} LineWords(argv: seq<string>)
    ensures Words(LineEvents(argv), None) == Some(argv)
    decreases |argv|
  {
    if |argv| == 1 {
      QuotedIsWord(argv[0]);
      assert argv == [argv[0]];
    } else if argv != [] {
      var rest := [Break] + LineEvents(argv[1..]);
      QuotedAdds(argv[0], rest);
      assert rest[0] == Break && rest[1..] == LineEvents(argv[1..]);
      LineWords(argv[1..]);
      assert argv == [argv[0]] + argv[1..];
    }
  }

  /** For every list of strings: the remote shell gets back that very list. */
  lemma CommandSplitsBack(argv: seq<string>)
    ensures Split(Joined(QuoteAll(argv))) == Some(argv)
  {
    LexLine(argv);
    LineWords(argv);
  }

  datatype SshHost = SshHost(destination: string, extraArgs: seq<string>)

  function BaseFlags(windows: bool): seq<string> {
    if windows then ["-o", "BatchMode=yes", "-o", "ControlMaster=no", "-o", "ControlPath=none"] else ["-o", "BatchMode=yes"]
  }

  /** What ssh joins for the remote shell is everything after its own arguments,
      the destination and the separator. */
  method RunArgv(host: SshHost, windows: bool, argv: seq<string>) returns (ssh: seq<string>)
    ensures var multiplexing := if windows then ["-o", "ControlMaster=no", "-o", "ControlPath=none"] else [];
      var own := ["ssh", "-o", "BatchMode=yes"] + multiplexing + host.extraArgs + [host.destination, "--"];
      own <= ssh && Split(Joined(ssh[|own|..])) == Some(argv)
  {
    ghost var own := ["ssh"] + BaseFlags(windows) + host.extraArgs + [host.destination, "--"];
    assert own == ["ssh", "-o", "BatchMode=yes"]
      + (if windows then ["-o", "ControlMaster=no", "-o", "ControlPath=none"] else []) + host.extraArgs + [host.destination, "--"];
    ssh := ["ssh"];
    ssh := ssh + BaseFlags(windows);
    ssh := ssh + host.extraArgs;
    ssh := ssh + [host.destination];
    ssh := ssh + ["--"];
    assert ssh == own;
    var i := 0;
    while i < |argv|
      invariant 0 <= i <= |argv| && ssh == own + QuoteAll(argv[..i])
    {
      assert argv[..i + 1][..i] == argv[..i];
      ssh := ssh + [Quote(argv[i])];
      i := i + 1;
    }
    assert argv[..|argv|] == argv;
    assert ssh[|own|..] == QuoteAll(argv);
    CommandSplitsBack(argv);
  }

  // ---- the upload script, a command inside a command ----

  const MKDIR := "mkdir -p "
  const AND := " && "
  const MKTEMP := "temp=" + ("$(" + "mktemp ")
  const VAR := "\"" + ("$" + ("temp" + "\""))
  const TRAPPED := "'" + ("rm -f \"$temp\"" + "'")
  const TRAP := ")" + (" && trap " + (TRAPPED + " EXIT HUP INT TERM && "))
  const COPY := "cat > " + (VAR + (" && chmod 755 " + (VAR + (" && mv " + (VAR + " ")))))
  const SUFFIX := ".ade-upload.XXXXXX"

  /** `parent` is what the path library takes as the directory of `path`. */
  method UploadScript(path: string, parent: Option<string>) returns (script: string)
    ensures script == Script(path, parent)
    ensures script ==
      (if parent.Some? && parent.value != "" then "mkdir -p " + (Quote(parent.value) + " && ") else "")
      + (("temp=" + ("$(" + "mktemp ")) + (Quote(path + ".ade-upload.XXXXXX")
      + ((")" + (" && trap " + (("'" + ("rm -f \"$temp\"" + "'")) + " EXIT HUP INT TERM && ")))
      + (("cat > " + (("\"" + ("$" + ("temp" + "\""))) + (" && chmod 755 " + (("\"" + ("$" + ("temp" + "\"")))
      + (" && mv " + (("\"" + ("$" + ("temp" + "\""))) + " "))))))
      + Quote(path)))))
  {
    hide Quote;
    script := "";
    if parent.Some? && parent.value != "" {
      script := script + (MKDIR + (Quote(parent.value) + AND));
    }
    script := script + (MKTEMP + (Quote(path + SUFFIX) + (TRAP + (COPY + Quote(path)))));
  }

  function Script(path: string, parent: Option<string>): string {
    (if parent.Some? && parent.value != "" then MKDIR + (Quote(parent.value) + AND) else "")
    + (MKTEMP + (Quote(path + SUFFIX) + (TRAP + (COPY + Quote(path)))))
  }

  function Fixed(open: seq<bool>, text: string): seq<Event> { Lex(Mode(Bare, open), text).1 }

  /** The fixed text's events, with each quoted path as one word in its place. */
  function ScriptEvents(path: string, parent: Option<string>): seq<Event> {
    (if parent.Some? && parent.value != "" then Fixed([], MKDIR) + (Quoted(parent.value) + Fixed([], AND)) else [])
    + (Fixed([], MKTEMP) + (Quoted(path + SUFFIX) + (Fixed([false], TRAP) + (Fixed([], COPY) + Quoted(path)))))
  }

  /** Where a word may begin, and where it must have ended. */
  predicate Cuts(event: Event) { event.Break? || event.Op? || event.EndSub? }

  predicate CutsBefore(events: seq<Event>) { events != [] && Cuts(events[|events| - 1]) }

  predicate CutsAfter(events: seq<Event>) { events != [] && Cuts(events[0]) }

  /** Characters that leave the shell between quotations. */
  predicate Flat(text: string) { forall i :: 0 <= i < |text| ==> text[i] !in "'\"\\$()" }

  lemma {:induction false} FlatStays(open: seq<bool>, text: string)
    requires Flat(text)
    ensures Lex(Mode(Bare, open), text).0 == Mode(Bare, open)
    ensures |Lex(Mode(Bare, open), text).1| == |text|
    ensures text != "" && text[0] == ' ' ==> CutsAfter(Lex(Mode(Bare, open), text).1)
    ensures text != "" && text[|text| - 1] == ' ' ==> CutsBefore(Lex(Mode(Bare, open), text).1)
    decreases |text|
  {
    if text != "" {
      FlatStays(open, text[1..]);
      var (next, events) := Step(Mode(Bare, open), text[0]);
      assert |events| == 1;
      assert text[0] == ' ' ==> events == [Break];
      var all := Lex(Mode(Bare, open), text).1;
      assert all == events + Lex(next, text[1..]).1;
      if |text| > 1 {
        assert text[1..][|text[1..]| - 1] == text[|text| - 1];
        assert all[|all| - 1] == Lex(next, text[1..]).1[|text| - 2];
      }
    }
  }

  lemma {:induction false} SingleStays(open: seq<bool>, text: string)
    requires '\'' !in text
    ensures Lex(Mode(Single, open), text).0 == Mode(Single, open)
  {
    if text != "" {
      SingleStays(open, text[1..]);
    }
  }

  lemma {:induction false} DoubleStays(open: seq<bool>, text: string)
    requires Flat(text) && '`' !in text
    ensures Lex(Mode(Double, open), text).0 == Mode(Double, open)
  {
    if text != "" {
      DoubleStays(open, text[1..]);
    }
  }

  /** One piece after another. */
  lemma Then(mode: Mode, a: string, b: string)
    ensures Lex(mode, a + b).0 == Lex(Lex(mode, a).0, b).0
    ensures Lex(mode, a + b).1 == Lex(mode, a).1 + Lex(Lex(mode, a).0, b).1
  {
    LexConcat(mode, a, b);
  }

  lemma LexMkdir()
    ensures Lex(START, MKDIR).0 == START && CutsBefore(Fixed([], MKDIR))
  {
    hide Lex, Cuts;
    FlatStays([], MKDIR);
  }

  lemma LexAnd()
    ensures Lex(START, AND).0 == START && CutsBefore(Fixed([], AND)) && CutsAfter(Fixed([], AND))
  {
    hide Lex, Cuts;
    FlatStays([], AND);
  }

  lemma LexMktemp()
    ensures Lex(START, MKTEMP).0 == Mode(Bare, [false]) && CutsBefore(Fixed([], MKTEMP))
  {
    hide Lex;
    FlatStays([], "temp=");
    FlatStays([false], "mktemp ");
    LexOne(START, '$');
    LexOne(Mode(Dollar(false), []), '(');
    var none: seq<bool> := [];
    assert none + [false] == [false];
    assert "$(" == "$" + "(";
    Then(START, "$", "(");
    Then(START, "$(", "mktemp ");
    Then(START, "temp=", "$(" + "mktemp ");
  }

  lemma LexTrapped()
    ensures Lex(START, TRAPPED).0 == START
  {
    hide Lex;
    var inner := "rm -f \"$temp\"";
    SingleStays([], inner);
    LexOne(START, '\'');
    LexOne(Mode(Single, []), '\'');
    Then(Mode(Single, []), inner, "'");
    Then(START, "'", inner + "'");
  }

  lemma LexTrap()
    ensures Lex(Mode(Bare, [false]), TRAP).0 == START && CutsAfter(Fixed([false], TRAP))
  {
    hide Lex;
    LexTrapped();
    FlatStays([], " && trap ");
    FlatStays([], " EXIT HUP INT TERM && ");
    LexOne(Mode(Bare, [false]), ')');
    var rest := TRAPPED + " EXIT HUP INT TERM && ";
    Then(START, TRAPPED, " EXIT HUP INT TERM && ");
    Then(START, " && trap ", rest);
    Then(Mode(Bare, [false]), ")", " && trap " + rest);
  }

  lemma LexVar()
    ensures Lex(START, VAR).0 == START
  {
    hide Lex;
    LexOne(START, '"');
    LexOne(Mode(Double, []), '$');
    LexOne(Mode(Dollar(true), []), 't');
    DoubleStays([], "emp");
    LexOne(Mode(Double, []), '"');
    assert "temp" == "t" + "emp";
    Then(Mode(Dollar(true), []), "t", "emp");
    Then(Mode(Dollar(true), []), "temp", "\"");
    Then(Mode(Double, []), "$", "temp" + "\"");
    Then(START, "\"", "$" + ("temp" + "\""));
  }

  lemma LexCopy()
    ensures Lex(START, COPY).0 == START && CutsBefore(Fixed([], COPY))
  {
    hide Lex;
    LexVar();
    FlatStays([], "cat > ");
    FlatStays([], " && chmod 755 ");
    FlatStays([], " && mv ");
    FlatStays([], " ");
    Then(START, VAR, " ");
    Then(START, " && mv ", VAR + " ");
    Then(START, VAR, " && mv " + (VAR + " "));
    Then(START, " && chmod 755 ", VAR + (" && mv " + (VAR + " ")));
    Then(START, VAR, " && chmod 755 " + (VAR + (" && mv " + (VAR + " "))));
    Then(START, "cat > ", VAR + (" && chmod 755 " + (VAR + (" && mv " + (VAR + " ")))));
  }

  lemma LexTail(path: string)
    ensures Lex(Mode(Bare, [false]), TRAP + (COPY + Quote(path)))
         == (START, Fixed([false], TRAP) + (Fixed([], COPY) + Quoted(path)))
  {
    hide Lex;
    LexTrap();
    LexCopy();
    LexQuote([], path);
    LexConcat(START, COPY, Quote(path));
    LexConcat(Mode(Bare, [false]), TRAP, COPY + Quote(path));
  }

  lemma LexTemplate(path: string)
    ensures Lex(START, MKTEMP + (Quote(path + SUFFIX) + (TRAP + (COPY + Quote(path)))))
         == (START, Fixed([], MKTEMP) + (Quoted(path + SUFFIX) + (Fixed([false], TRAP) + (Fixed([], COPY) + Quoted(path)))))
  {
    hide Lex;
    LexMktemp();
    LexTail(path);
    LexQuote([false], path + SUFFIX);
    LexConcat(Mode(Bare, [false]), Quote(path + SUFFIX), TRAP + (COPY + Quote(path)));
    LexConcat(START, MKTEMP, Quote(path + SUFFIX) + (TRAP + (COPY + Quote(path))));
  }

  lemma LexParent(parent: string)
    ensures Lex(START, MKDIR + (Quote(parent) + AND)) == (START, Fixed([], MKDIR) + (Quoted(parent) + Fixed([], AND)))
  {
    hide Lex;
    LexMkdir();
    LexAnd();
    LexQuote([], parent);
    LexConcat(START, Quote(parent), AND);
    LexConcat(START, MKDIR, Quote(parent) + AND);
  }

  /** Whatever the path, the script lexes to its fixed text with the directory,
      the template and the path each as one word, cut off on both sides. */
  lemma PathsAreWords(path: string, parent: Option<string>)
    ensures Lex(START, Script(path, parent)) == (START, ScriptEvents(path, parent))
    ensures IsWord(Quoted(path + SUFFIX), path + SUFFIX) && IsWord(Quoted(path), path)
    ensures parent.Some? ==> IsWord(Quoted(parent.value), parent.value)
    ensures CutsBefore(Fixed([], MKDIR)) && CutsAfter(Fixed([], AND))
    ensures CutsBefore(Fixed([], MKTEMP)) && CutsAfter(Fixed([false], TRAP)) && CutsBefore(Fixed([], COPY))
  {
    hide Lex, IsWord, Quoted, Quote;
    LexTemplate(path);
    QuotedIsWord(path);
    QuotedIsWord(path + SUFFIX);
    LexMkdir();
    LexAnd();
    LexMktemp();
    LexTrap();
    LexCopy();
    var rest := MKTEMP + (Quote(path + SUFFIX) + (TRAP + (COPY + Quote(path))));
    if parent.Some? {
      QuotedIsWord(parent.value);
      LexParent(parent.value);
      LexConcat(START, MKDIR + (Quote(parent.value) + AND), rest);
    }
    assert "" + rest == rest;
    assert [] + Lex(START, rest).1 == Lex(START, rest).1;
  }

  /** Both levels at once: the remote shell hands `sh` exactly the script. */
  lemma UploadArrives(path: string, parent: Option<string>)
    ensures Split(Joined(QuoteAll(["sh", "-c", Script(path, parent)]))) == Some(["sh", "-c", Script(path, parent)])
    ensures Lex(START, Script(path, parent)) == (START, ScriptEvents(path, parent))
  {
    CommandSplitsBack(["sh", "-c", Script(path, parent)]);
    PathsAreWords(path, parent);
  }
}
