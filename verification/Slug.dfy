/** Skill names made from titles. */
module Slug {
  import opened Utf8
  import opened Decimal

  const MAX_SKILL_NAME_LEN: nat := 64

  predicate IsNameChar(c: char) { 'a' <= c <= 'z' || '0' <= c <= '9' }

  predicate IsAlphanumeric(c: char) { IsUpper(c) || IsNameChar(c) }

  /** `&` written out as a word of its own. */
  function Anded(title: string): string {
    if title == "" then "" else (if title[0] == '&' then "-and-" else [title[0]]) + Anded(title[1..])
  }

  // ---- what a slug is to be ----

  /** The words of `text`, the first of them begun with `word`: letters and
      digits, parted by blanks and dashes, with all else dropped. */
  function Words(text: string, word: string): seq<string>
    decreases |text|
  {
    if text == "" then if word == "" then [] else [word]
    else if IsAlphanumeric(text[0]) then Words(text[1..], word + [Lower(text[0])])
    else if text[0] == ' ' || text[0] == '-' then (if word == "" then [] else [word]) + Words(text[1..], "")
    else Words(text[1..], word)
  }

  function Dashed(words: seq<string>): string
    decreases |words|
  {
    if words == [] then "" else if |words| == 1 then words[0] else words[0] + ("-" + Dashed(words[1..]))
  }

  function Cut(slug: string): string { if |slug| > MAX_SKILL_NAME_LEN then slug[..MAX_SKILL_NAME_LEN] else slug }

  function TrimEnd(slug: string): string
    decreases |slug|
  {
    if slug != "" && slug[|slug| - 1] == '-' then TrimEnd(slug[..|slug| - 1]) else slug
  }

  function SlugOf(title: string): string { TrimEnd(Cut(Dashed(Words(Anded(title), "")))) }

  datatype NameError = Empty | TooLong | EdgeHyphen | BadCharacter

  function ValidateName(name: string): Option<NameError> {
    if name == "" then Some(Empty)
    else if |name| > MAX_SKILL_NAME_LEN then Some(TooLong)
    else if name[0] == '-' || name[|name| - 1] == '-' then Some(EdgeHyphen)
    else if exists i :: 0 <= i < |name| && !IsNameChar(name[i]) && name[i] != '-' then Some(BadCharacter)
    else None
  }

  // ---- what words there are ----

  /** The letters and digits of a text, in small letters. */
  function Squeezed(text: string): string {
    if text == "" then "" else (if IsAlphanumeric(text[0]) then [Lower(text[0])] else "") + Squeezed(text[1..])
  }

  /** A blank or a dash parts a text into its two lists of words. */
  lemma {:induction false} WordsPart(a: string, c: char, b: string, word: string)
    requires c == ' ' || c == '-'
    ensures Words(a + ([c] + b), word) == Words(a, word) + Words(b, "")
    decreases |a|
  {
    var text := a + ([c] + b);
    if a == "" {
      assert text == [c] + b && text[1..] == b;
    } else {
      assert text[0] == a[0] && text[1..] == a[1..] + ([c] + b);
      if IsAlphanumeric(a[0]) {
        WordsPart(a[1..], c, b, word + [Lower(a[0])]);
      } else if a[0] == ' ' || a[0] == '-' {
        WordsPart(a[1..], c, b, "");
        var one := if word == "" then [] else [word];
        assert one + (Words(a[1..], "") + Words(b, "")) == one + Words(a[1..], "") + Words(b, "");
      } else {
        WordsPart(a[1..], c, b, word);
      }
    }
  }

  /** A text with neither is one word at most, whatever else is in it. */
  lemma {:induction false} OneWord(text: string, word: string)
    requires forall i :: 0 <= i < |text| ==> text[i] != ' ' && text[i] != '-'
    ensures Words(text, word) == if word + Squeezed(text) == "" then [] else [word + Squeezed(text)]
    decreases |text|
  {
    if text == "" {
      assert word + "" == word;
    } else if IsAlphanumeric(text[0]) {
      OneWord(text[1..], word + [Lower(text[0])]);
      assert word + [Lower(text[0])] + Squeezed(text[1..]) == word + Squeezed(text);
    } else {
      OneWord(text[1..], word);
      assert "" + Squeezed(text[1..]) == Squeezed(text[1..]);
    }
  }

  lemma {:induction false} AndedJoins(a: string, b: string)
    ensures Anded(a + b) == Anded(a) + Anded(b)
    decreases |a|
  {
    if a == "" {
      assert a + b == b;
    } else {
      assert (a + b)[1..] == a[1..] + b;
      AndedJoins(a[1..], b);
    }
  }

  /** An ampersand is a word of its own. */
  lemma AmpersandIsAnd(a: string, b: string)
    ensures Words(Anded(a + ("&" + b)), "") == Words(Anded(a), "") + (["and"] + Words(Anded(b), ""))
  {
    var and := "and" + ("-" + Anded(b));
    AndedJoins(a, "&" + b);
    AndedJoins("&", b);
    assert "&"[1..] == "" && Anded("&") == "-and-" + "";
    assert "-and-" + "" + Anded(b) == "-" + and;
    WordsPart(Anded(a), '-', and, "");
    WordsPart("and", '-', Anded(b), "");
    OneWord("and", "");
    assert Squeezed("and") == "and" by {
      assert "and"[1..] == "nd" && "nd"[1..] == "d" && "d"[1..] == "";
    }
    assert "" + "and" == "and";
  }

  // ---- what the words are like ----

  predicate NameChars(s: string) { forall i :: 0 <= i < |s| ==> IsNameChar(s[i]) }

  predicate WordsOk(words: seq<string>) { forall i :: 0 <= i < |words| ==> words[i] != "" && NameChars(words[i]) }

  /** Name characters in single-dashed words. */
  predicate Clean(s: string) {
    && (forall i :: 0 <= i < |s| ==> IsNameChar(s[i]) || s[i] == '-')
    && (forall i :: 0 <= i < |s| - 1 ==> s[i] != '-' || s[i + 1] != '-')
    && (s != "" ==> s[0] != '-')
  }

  predicate EndsWell(s: string) { s != "" ==> s[|s| - 1] != '-' }

  lemma {:induction false} WordsAreOk(text: string, word: string)
    requires NameChars(word)
    ensures WordsOk(Words(text, word))
    decreases |text|
  {
    if text != "" {
      if IsAlphanumeric(text[0]) {
        WordsAreOk(text[1..], word + [Lower(text[0])]);
      } else if text[0] == ' ' || text[0] == '-' {
        WordsAreOk(text[1..], "");
      } else {
        WordsAreOk(text[1..], word);
      }
    }
  }

  lemma {:induction false} DashedIsClean(words: seq<string>)
    requires WordsOk(words)
    ensures Clean(Dashed(words)) && EndsWell(Dashed(words)) && (Dashed(words) == "" <==> words == [])
    decreases |words|
  {
    if |words| > 1 {
      DashedIsClean(words[1..]);
      var rest := Dashed(words[1..]);
      hide Dashed;
      assert rest != "" && words[0] != "";
      CleanJoins(words[0], rest);
    }
  }

  lemma CleanJoins(word: string, rest: string)
    requires word != "" && NameChars(word) && Clean(rest) && EndsWell(rest) && rest != ""
    ensures Clean(word + ("-" + rest)) && EndsWell(word + ("-" + rest))
  {
    var s := word + ("-" + rest);
    forall i | 0 <= i < |s| - 1 ensures s[i] != '-' || s[i + 1] != '-' {
      if i > |word| {
        assert s[i] == rest[i - |word| - 1] && s[i + 1] == rest[i - |word|];
      }
    }
    forall i | 0 <= i < |s| ensures IsNameChar(s[i]) || s[i] == '-' {
      if i > |word| {
        assert s[i] == rest[i - |word| - 1];
      }
    }
  }

  // ---- the loop ----

  /** What the loop has pushed once `done` words are complete and `word` is
      under way. */
  function Pushed(done: seq<string>, word: string): string {
    if word != "" then Dashed(done + [word]) else if done == [] then "" else Dashed(done) + "-"
  }

  lemma {:induction false} DashedSnoc(words: seq<string>, word: string)
    ensures Dashed(words + [word]) == if words == [] then word else Dashed(words) + ("-" + word)
    decreases |words|
  {
    if |words| == 1 {
      assert (words + [word])[1..] == [word];
    } else if words != [] {
      assert (words + [word])[1..] == words[1..] + [word];
      DashedSnoc(words[1..], word);
      var rest := Dashed(words[1..]);
      assert words[0] + ("-" + (rest + ("-" + word))) == words[0] + ("-" + rest) + ("-" + word);
    } else {
      assert words + [word] == [word];
    }
  }

  lemma PushedGrows(done: seq<string>, word: string, c: char)
    ensures Pushed(done, word + [c]) == Pushed(done, word) + [c]
    ensures word != "" ==> Pushed(done + [word], "") == Pushed(done, word) + "-"
  {
    DashedSnoc(done, word);
    DashedSnoc(done, word + [c]);
    hide Dashed;
    if done == [] {
      assert word == "" ==> "" + [c] == word + [c];
    } else if word == "" {
      assert "" + [c] == [c];
      assert Dashed(done) + ("-" + [c]) == Dashed(done) + "-" + [c];
    } else {
      assert Dashed(done) + ("-" + (word + [c])) == Dashed(done) + ("-" + word) + [c];
    }
  }

  /** The dash the loop may have left at the end. */
  lemma PushedEnds(done: seq<string>, word: string)
    requires WordsOk(done) && NameChars(word)
    ensures var slug := Pushed(done, word);
      if slug != "" && slug[|slug| - 1] == '-' then word == "" && slug[..|slug| - 1] == Dashed(done)
      else slug == Dashed(done + if word == "" then [] else [word])
  {
    if word == "" {
      assert done + [] == done;
    } else {
      DashedIsClean(done + [word]);
    }
  }

  lemma TrimEndOnce(slug: string)
    ensures slug != "" && slug[|slug| - 1] == '-' ==> TrimEnd(slug) == TrimEnd(slug[..|slug| - 1])
    ensures EndsWell(slug) ==> TrimEnd(slug) == slug
  {
  }

  /** One pass over the title, one character at a time. */
  method Push(title: string) returns (slug: string)
    ensures slug == Dashed(Words(Anded(title), ""))
  {
    hide Dashed;
    var input := Anded(title);
    var lastWasDash := true;
    slug := "";
    ghost var done: seq<string> := [];
    ghost var word := "";
    var i := 0;
    assert input[0..] == input && done + Words(input, "") == Words(input, "");
    while i < |input|
      invariant 0 <= i <= |input|
      invariant done + Words(input[i..], word) == Words(input, "")
      invariant WordsOk(done) && NameChars(word)
      invariant slug == Pushed(done, word) && lastWasDash == (word == "")
    {
      var ch := input[i];
      assert input[i..][0] == ch && input[i..][1..] == input[i + 1..];
      i := i + 1;
      if IsAlphanumeric(ch) {
        PushedGrows(done, word, Lower(ch));
        word := word + [Lower(ch)];
        lastWasDash := false;
        slug := slug + [Lower(ch)];
      } else if ch == ' ' || ch == '-' {
        if lastWasDash {
          assert [] + Words(input[i..], "") == Words(input[i..], "");
          continue;
        }
        PushedGrows(done, word, '-');
        assert done + ([word] + Words(input[i..], "")) == (done + [word]) + Words(input[i..], "");
        lastWasDash := true;
        slug := slug + "-";
        done := done + [word];
        word := "";
      }
    }
    assert Words(input[i..], word) == if word == "" then [] else [word];
    PushedEnds(done, word);
    if slug != "" && slug[|slug| - 1] == '-' {
      slug := slug[..|slug| - 1];
      assert done + [] == done;
    }
  }

  method SlugifySkillName(title: string) returns (name: Option<string>)
    ensures name == if SlugOf(title) == "" then None else Some(SlugOf(title))
  {
    var slug := Push(title);
    WordsAreOk(Anded(title), "");
    DashedIsClean(Words(Anded(title), ""));
    hide Dashed, Words;
    if |slug| > MAX_SKILL_NAME_LEN {
      slug := slug[..MAX_SKILL_NAME_LEN];
      while slug != "" && slug[|slug| - 1] == '-'
        invariant TrimEnd(slug) == SlugOf(title)
        decreases |slug|
      {
        TrimEndOnce(slug);
        slug := slug[..|slug| - 1];
      }
    }
    TrimEndOnce(slug);
    name := if slug == "" then None else Some(slug);
  }

  // ---- what every slug is ----

  lemma {:induction false} TrimEndIsPrefix(slug: string)
    ensures TrimEnd(slug) <= slug && EndsWell(TrimEnd(slug))
    ensures slug != "" && slug[0] != '-' ==> TrimEnd(slug) != ""
    decreases |slug|
  {
    if slug != "" && slug[|slug| - 1] == '-' {
      TrimEndIsPrefix(slug[..|slug| - 1]);
    }
  }

  lemma SlugIsClean(title: string)
    ensures Clean(SlugOf(title)) && EndsWell(SlugOf(title)) && |SlugOf(title)| <= MAX_SKILL_NAME_LEN
    ensures SlugOf(title) == "" <==> Words(Anded(title), "") == []
  {
    WordsAreOk(Anded(title), "");
    DashedIsClean(Words(Anded(title), ""));
    TrimEndIsPrefix(Cut(Dashed(Words(Anded(title), ""))));
    hide Dashed, Words, TrimEnd;
  }

  /** The whole of the dashed words if they are short enough; otherwise 64 of their
      characters, or 63 before a dash. */
  lemma SlugIsCutAt64(title: string)
    ensures var whole := Dashed(Words(Anded(title), ""));
      && (|whole| <= 64 ==> SlugOf(title) == whole)
      && (|whole| > 64 ==> SlugOf(title) == if whole[63] == '-' then whole[..63] else whole[..64])
  {
    WordsAreOk(Anded(title), "");
    DashedIsClean(Words(Anded(title), ""));
    var whole := Dashed(Words(Anded(title), ""));
    TrimEndOnce(whole);
    if |whole| > 64 {
      assert whole[..64][..63] == whole[..63];
      TrimEndOnce(whole[..64]);
      TrimEndOnce(whole[..63]);
    }
    hide Dashed, Words, TrimEnd;
  }

  /** A name is valid exactly when it is 1 to 64 small letters, digits and dashes
      with no dash at either end. */
  lemma ValidExactly(name: string)
    ensures ValidateName(name) == None <==>
      && 1 <= |name| <= 64 && name[0] != '-' && name[|name| - 1] != '-'
      && forall i :: 0 <= i < |name| ==> 'a' <= name[i] <= 'z' || '0' <= name[i] <= '9' || name[i] == '-'
  {
  }

  /** Any result passes the validator. */
  lemma SlugIsValid(title: string)
    ensures SlugOf(title) != "" ==> ValidateName(SlugOf(title)) == None
  {
    SlugIsClean(title);
    hide SlugOf;
  }

  /** Clean but for a dash it may begin with. */
  predicate Tidy(s: string) {
    && (forall i :: 0 <= i < |s| ==> IsNameChar(s[i]) || s[i] == '-')
    && (forall i :: 0 <= i < |s| - 1 ==> s[i] != '-' || s[i + 1] != '-')
    && EndsWell(s)
  }

  lemma TidyRest(s: string)
    requires Tidy(s) && s != ""
    ensures Tidy(s[1..]) && (s[0] == '-' || IsNameChar(s[0]))
    ensures s[0] == '-' ==> s[1..] != "" && s[1..][0] != '-'
  {
  }

  lemma WordsStep(s: string, word: string)
    requires s != ""
    ensures IsNameChar(s[0]) ==> Words(s, word) == Words(s[1..], word + [s[0]])
    ensures s[0] == '-' && word != "" ==> Words(s, word) == [word] + Words(s[1..], "")
  {
  }

  /** A clean text is its own words, dashed. */
  lemma {:induction false} CleanIsItsWords(s: string, word: string)
    requires Tidy(s) && (s != "" && s[0] == '-' ==> word != "")
    ensures Dashed(Words(s, word)) == word + s
    ensures Words(s, word) == [] <==> word + s == ""
    decreases |s|
  {
    if s == "" {
      assert word + s == word;
    } else {
      hide *;
      TidyRest(s);
      WordsStep(s, word);
      Rejoin(word, s);
      if s[0] == '-' {
        CleanIsItsWords(s[1..], "");
        DashedCons(word, Words(s[1..], ""));
      } else {
        CleanIsItsWords(s[1..], word + [s[0]]);
      }
    }
  }

  lemma Rejoin(word: string, s: string)
    requires s != ""
    ensures word + [s[0]] + s[1..] == word + s && "" + s[1..] == s[1..]
    ensures s[0] == '-' ==> word + ("-" + s[1..]) == word + s
  {
  }

  lemma DashedCons(word: string, rest: seq<string>)
    ensures Dashed([word] + rest) == if rest == [] then word else word + ("-" + Dashed(rest))
  {
    assert ([word] + rest)[1..] == rest;
  }

  lemma {:induction false} AndedKeeps(s: string)
    requires '&' !in s
    ensures Anded(s) == s
  {
    if s != "" {
      AndedKeeps(s[1..]);
      assert s == [s[0]] + s[1..];
    }
  }

  /** Slugging a slug changes nothing. */
  lemma SlugIsIdempotent(title: string)
    ensures SlugOf(SlugOf(title)) == SlugOf(title)
  {
    var slug := SlugOf(title);
    SlugIsClean(title);
    AndedKeeps(slug);
    CleanIsItsWords(slug, "");
    assert "" + slug == slug;
    hide Dashed, Words;
    TrimEndOnce(slug);
  }

  predicate Meant(c: char) { 'a' <= c <= 'z' || 'A' <= c <= 'Z' || '0' <= c <= '9' || c == '&' }

  predicate Blank(text: string) { forall i :: 0 <= i < |text| ==> !IsAlphanumeric(text[i]) }

  lemma BlankConcat(a: string, b: string)
    ensures Blank(a + b) <==> Blank(a) && Blank(b)
  {
    if Blank(a + b) {
      assert forall i :: 0 <= i < |a| ==> (a + b)[i] == a[i];
      assert forall i :: 0 <= i < |b| ==> (a + b)[|a| + i] == b[i];
    }
  }

  lemma {:induction false} NoWords(text: string, word: string)
    ensures Words(text, word) == [] <==> word == "" && Blank(text)
    decreases |text|
  {
    if text != "" {
      assert text == [text[0]] + text[1..];
      BlankConcat([text[0]], text[1..]);
      if IsAlphanumeric(text[0]) {
        assert !Blank([text[0]]) by { assert IsAlphanumeric([text[0]][0]); }
        NoWords(text[1..], word + [Lower(text[0])]);
      } else {
        NoWords(text[1..], "");
        NoWords(text[1..], word);
      }
    }
  }

  lemma {:induction false} AndedMeans(title: string)
    ensures Blank(Anded(title)) <==> forall i :: 0 <= i < |title| ==> !Meant(title[i])
  {
    if title != "" {
      AndedMeans(title[1..]);
      assert forall i :: 0 <= i < |title| - 1 ==> title[1..][i] == title[i + 1];
      if title[0] == '&' {
        assert IsAlphanumeric(Anded(title)[1]);
      } else {
        BlankConcat([title[0]], Anded(title[1..]));
        assert Blank([title[0]]) <==> !IsAlphanumeric(title[0]) by { assert [title[0]][0] == title[0]; }
        if forall i :: 0 <= i < |title[1..]| ==> !Meant(title[1..][i]) {
          assert forall i :: 0 < i < |title| ==> title[i] == title[1..][i - 1];
        }
      }
    }
  }

  /** There is no result exactly when the title has no ASCII letter, digit or
      ampersand. */
  lemma NoSlugExactlyWhen(title: string)
    ensures SlugOf(title) == "" <==> forall i :: 0 <= i < |title| ==> !Meant(title[i])
  {
    SlugIsClean(title);
    NoWords(Anded(title), "");
    AndedMeans(title);
  }
}
