/** `shlex.quote` and `shlex.split` (POSIX mode, no comments), following the
    quoting rules of section 2.2 of the POSIX.1-2017 Shell Command Language. */
module ShellWords {
  import opened Prelude
  import opened PyText

  // ----- shlex.quote -----

  predicate IsSafe(c: char) {
    || 'a' <= c <= 'z' || 'A' <= c <= 'Z' || '0' <= c <= '9'
    || c in {'_', '@', '%', '+', '=', ':', ',', '.', '/', '-'}
  }

  predicate AllSafe(s: string) {
    forall c :: c in s ==> IsSafe(c)
  }

  /** `s.replace("'", "'\"'\"'")` */
  function EscapeQuotes(s: string): string {
    if s == "" then ""
    else (if s[0] == '\'' then "'\"'\"'" else [s[0]]) + EscapeQuotes(s[1..])
  }

  function Quote(s: string): string {
    if s == "" then "''"
    else if AllSafe(s) then s
    else "'" + EscapeQuotes(s) + "'"
  }

  // ----- shlex.split -----

  /** The reader's state: between words, inside a word, inside quotes, or after
      a backslash met in some other state. */
  datatype Mode = Between | Word | Quoted(mark: char) | Escape(back: Mode)

  predicate IsBlank(c: char) {
    c in {' ', '\t', '\r', '\n'}
  }

  predicate IsMark(c: char) {
    c == '\'' || c == '"'
  }

  predicate IsPlain(c: char) {
    !IsBlank(c) && !IsMark(c) && c != '\\'
  }

  function Emit(token: string, quoted: bool): seq<string> {
    if token != "" || quoted then [token] else []
  }

  function Lex(s: string, mode: Mode, token: string, quoted: bool): Result<seq<string>>
    decreases |s|
  {
    if s == "" then
      if mode.Between? || mode.Word? then Success(Emit(token, quoted)) else Failure
    else
      var c, rest := s[0], s[1..];
      match mode
      case Between =>
        if IsBlank(c) then Lex(rest, Between, token, quoted)
        else if c == '\\' then Lex(rest, Escape(Word), token, quoted)
        else if IsMark(c) then Lex(rest, Quoted(c), token, quoted)
        else Lex(rest, Word, [c], quoted)
      case Word =>
        if IsBlank(c) then
          var others :- Lex(rest, Between, "", false);
          Success(Emit(token, quoted) + others)
        else if IsMark(c) then Lex(rest, Quoted(c), token, quoted)
        else if c == '\\' then Lex(rest, Escape(Word), token, quoted)
        else Lex(rest, Word, token + [c], quoted)
      case Quoted(mark) =>
        if c == mark then Lex(rest, Word, token, true)
        else if c == '\\' && mark == '"' then Lex(rest, Escape(mode), token, true)
        else Lex(rest, mode, token + [c], true)
      case Escape(back) =>
        var kept := if back.Quoted? && c != '\\' && c != back.mark then token + ['\\'] else token;
        Lex(rest, back, kept + [c], quoted)
  }

  function ShlexSplit(s: string): Result<seq<string>> {
    Lex(s, Between, "", false)
  }

  // ----- reading back what was quoted -----

  lemma {:induction false} PlainRun(v: string, rest: string, token: string, quoted: bool)
    requires forall c :: c in v ==> IsPlain(c)
    ensures Lex(v + rest, Word, token, quoted) == Lex(rest, Word, token + v, quoted)
  {
    if v == "" {
      assert v + rest == rest && token + v == token;
    } else {
      assert v[0] in v && (v + rest)[0] == v[0] && (v + rest)[1..] == v[1..] + rest;
      assert token + [v[0]] + v[1..] == token + v;
      PlainRun(v[1..], rest, token + [v[0]], quoted);
    }
  }

  lemma {:induction false} QuotedRun(v: string, rest: string, token: string, quoted: bool)
    ensures Lex(EscapeQuotes(v) + ("'" + rest), Quoted('\''), token, quoted) == Lex(rest, Word, token + v, true)
  {
    if v == "" {
      assert EscapeQuotes(v) + ("'" + rest) == "'" + rest;
      assert token + v == token;
    } else {
      var later := EscapeQuotes(v[1..]) + ("'" + rest);
      QuotedRun(v[1..], rest, token + [v[0]], true);
      assert token + [v[0]] + v[1..] == token + v;
      if v[0] == '\'' {
        assert EscapeQuotes(v) + ("'" + rest) == "'\"'\"'" + later;
        QuotedQuote(later, token, quoted);
      } else {
        var text := EscapeQuotes(v) + ("'" + rest);
        assert text == [v[0]] + later;
        assert text[0] == v[0] && text[1..] == later;
      }
    }
  }

  /** The five characters that stand for one single quote. */
  lemma QuotedQuote(later: string, token: string, quoted: bool)
    ensures Lex("'\"'\"'" + later, Quoted('\''), token, quoted) == Lex(later, Quoted('\''), token + ['\''], true)
  {
    var text := "'\"'\"'" + later;
    assert text[1..] == "\"'\"'" + later;
    assert text[1..][1..] == "'\"'" + later;
    assert text[1..][1..][1..] == "\"'" + later;
    assert text[1..][1..][1..][1..] == "'" + later;
    assert text[1..][1..][1..][1..][1..] == later;
    calc {
      Lex(text, Quoted('\''), token, quoted);
      Lex(text[1..], Word, token, true);
      Lex(text[1..][1..], Quoted('"'), token, true);
      Lex(text[1..][1..][1..], Quoted('"'), token + ['\''], true);
      Lex(text[1..][1..][1..][1..], Word, token + ['\''], true);
      Lex(later, Quoted('\''), token + ['\''], true);
    }
  }

  /** Once a word has a character, whether it was quoted no longer matters. */
  lemma {:induction false} FlagForgotten(s: string, mode: Mode, token: string)
    requires token != ""
    ensures Lex(s, mode, token, true) == Lex(s, mode, token, false)
    decreases |s|
  {
    if s != "" {
      var c, rest := s[0], s[1..];
      match mode
      case Between =>
        FlagForgotten(rest, if c == '\\' then Escape(Word) else if IsMark(c) then Quoted(c) else Between, token);
                      FlagForgotten(rest, Word, [c]);
      case Word =>
        FlagForgotten(rest, if c == '\\' then Escape(Word) else if IsMark(c) then Quoted(c) else Word, token);
                   FlagForgotten(rest, Word, token + [c]);
      case Quoted(_) =>
      case Escape(back) => FlagForgotten(rest, back, token + [c]);
                           FlagForgotten(rest, back, token + ['\\'] + [c]);
    }
  }

  /** Inside a word, the quoted form of any text adds exactly that text. */
  lemma QuoteReadsBack(v: string, rest: string, token: string)
    requires token != ""
    ensures Lex(Quote(v) + rest, Word, token, false) == Lex(rest, Word, token + v, false)
  {
    if v != "" && AllSafe(v) {
      PlainRun(v, rest, token, false);
    } else {
      var body := EscapeQuotes(v) + ("'" + rest);
      assert Quote(v) + rest == "'" + body;
      assert (Quote(v) + rest)[1..] == body;
      QuotedRun(v, rest, token, false);
      FlagForgotten(rest, Word, token + v);
    }
  }

  /** A word `name=value` with the value quoted. */
  datatype Field = Field(name: string, value: string) {
    function Text(): string {
      name + "=" + Quote(value)
    }

    function Token(): string {
      name + "=" + value
    }

    predicate Plain() {
      name != "" && forall c :: c in name ==> IsPlain(c)
    }
  }

  function Texts(fields: seq<Field>): (r: seq<string>)
    ensures |r| == |fields|
    ensures forall i :: 0 <= i < |fields| ==> r[i] == fields[i].Text()
  {
    seq(|fields|, i requires 0 <= i < |fields| => fields[i].Text())
  }

  function Tokens(fields: seq<Field>): (r: seq<string>)
    ensures |r| == |fields|
    ensures forall i :: 0 <= i < |fields| ==> r[i] == fields[i].Token()
  {
    seq(|fields|, i requires 0 <= i < |fields| => fields[i].Token())
  }

  /** A plain character starts a word. */
  lemma WordStarts(c: char, rest: string)
    requires IsPlain(c)
    ensures Lex([c] + rest, Between, "", false) == Lex(rest, Word, [c], false)
  {
    assert ([c] + rest)[1..] == rest;
  }

  /** A blank ends it, and so does the end of the text. */
  lemma WordEnds(token: string, later: string, sep: char)
    requires token != "" && IsBlank(sep)
    ensures Lex("", Word, token, false) == Success([token])
    ensures Lex([sep] + later, Word, token, false) == Before(token, ShlexSplit(later))
  {
    assert ([sep] + later)[1..] == later;
  }

  function Before(token: string, others: Result<seq<string>>): Result<seq<string>> {
    if others.Success? then Success([token] + others.value) else Failure
  }

  lemma LexField(f: Field, rest: string)
    requires f.Plain()
    ensures Lex(f.Text() + rest, Between, "", false) == Lex(rest, Word, f.Token(), false)
  {
    hide Lex, Quote, IsPlain;
    var first, start := f.name[0], f.name[1..] + "=";
    assert first in f.name;
    assert f.Text() + rest == [first] + (start + (Quote(f.value) + rest));
    NameIsPlain(f);
    WordStarts(first, start + (Quote(f.value) + rest));
    PlainRun(start, Quote(f.value) + rest, [first], false);
    QuoteReadsBack(f.value, rest, [first] + start);
    assert [first] + start + f.value == f.Token();
  }

  lemma NameIsPlain(f: Field)
    requires f.Plain()
    ensures IsPlain(f.name[0]) && forall c :: c in f.name[1..] + "=" ==> IsPlain(c)
  {
  }

  /** Splitting the words, joined by blanks or line breaks, gives each name with
      its value, whatever quotes, blanks or backslashes the values hold. */
  lemma {:induction false} SplitReadsFields(fields: seq<Field>, sep: char)
    requires IsBlank(sep) && forall f :: f in fields ==> f.Plain()
    ensures ShlexSplit(Join(Texts(fields), sep)) == Success(Tokens(fields))
  {
    hide Lex, Quote;
    if fields == [] {
      NothingToSplit();
    } else {
      var f, rest := fields[0], fields[1..];
      assert f in fields;
      assert Texts(fields)[1..] == Texts(rest) && Tokens(fields) == [f.Token()] + Tokens(rest);
      var later := Join(Texts(rest), sep);
      WordEnds(f.Token(), later, sep);
      if rest == [] {
        assert f.Text() + "" == f.Text() == Join(Texts(fields), sep);
        assert Tokens(fields) == [f.Token()];
        LexField(f, "");
      } else {
        assert Join(Texts(fields), sep) == f.Text() + ([sep] + later);
        LexField(f, [sep] + later);
        SplitReadsFields(rest, sep);
      }
    }
  }

  // ----- other ways to write a word -----

  lemma SafeIsPlain(c: char)
    requires IsSafe(c)
    ensures IsPlain(c)
  {
  }

  /** A quoted value stands for itself on its own as well, even if empty. */
  lemma QuoteIsOneWord(v: string)
    ensures ShlexSplit(Quote(v)) == Success([v])
  {
    hide IsSafe;
    if v != "" && AllSafe(v) {
      assert v[0] in v && v == [v[0]] + v[1..] && v[1..] + "" == v[1..];
      forall c | c in v ensures IsPlain(c) {
        SafeIsPlain(c);
      }
      WordStarts(v[0], v[1..]);
      PlainRun(v[1..], "", [v[0]], false);
    } else {
      var body := EscapeQuotes(v) + ("'" + "");
      assert Quote(v) == "'" + body && Quote(v)[1..] == body;
      QuotedRun(v, "", "", false);
      assert "" + v == v;
    }
  }

  /** `v` with a backslash before every character that is to be escaped. */
  function Backslashed(v: string, escapes: set<char>): string {
    if v == "" then "" else (if v[0] in escapes then "\\" else "") + [v[0]] + Backslashed(v[1..], escapes)
  }

  /** Between double quotes only these two are escaped. */
  lemma {:induction false} DoubleQuotesReadBack(v: string, rest: string, token: string, quoted: bool)
    ensures Lex(Backslashed(v, {'"', '\\'}) + ("\"" + rest), Quoted('"'), token, quoted)
         == Lex(rest, Word, token + v, true)
  {
    hide Lex;
    var text := Backslashed(v, {'"', '\\'}) + ("\"" + rest);
    if v == "" {
      assert text == "\"" + rest && token + v == token;
      QuoteCloses(rest, token, quoted);
    } else {
      var later := Backslashed(v[1..], {'"', '\\'}) + ("\"" + rest);
      DoubleQuotesReadBack(v[1..], rest, token + [v[0]], true);
      assert token + [v[0]] + v[1..] == token + v;
      assert text == (if v[0] in {'"', '\\'} then "\\" + ([v[0]] + later) else [v[0]] + later);
      QuotedChar(v[0], later, token, quoted);
    }
  }

  lemma QuoteCloses(rest: string, token: string, quoted: bool)
    ensures Lex("\"" + rest, Quoted('"'), token, quoted) == Lex(rest, Word, token, true)
  {
    assert ("\"" + rest)[1..] == rest;
  }

  lemma QuotedChar(c: char, later: string, token: string, quoted: bool)
    ensures Lex(if c in {'"', '\\'} then "\\" + ([c] + later) else [c] + later, Quoted('"'), token, quoted)
         == Lex(later, Quoted('"'), token + [c], true)
  {
    if c in {'"', '\\'} {
      assert ("\\" + ([c] + later))[1..] == [c] + later;
    }
    assert ([c] + later)[1..] == later;
  }

  /** A backslash between double quotes stays before any other character. */
  lemma BackslashStays(c: char, rest: string, token: string, quoted: bool)
    requires c !in {'"', '\\'}
    ensures Lex("\\" + ([c] + rest), Quoted('"'), token, quoted) == Lex(rest, Quoted('"'), token + ['\\'] + [c], true)
  {
    var text := "\\" + ([c] + rest);
    assert text[1..] == [c] + rest && text[1..][1..] == rest;
  }

  /** Outside quotes a backslash takes any character into the word. */
  lemma {:induction false} BackslashesReadBack(v: string, all: set<char>, rest: string, token: string, quoted: bool)
    requires forall c :: c in v ==> c in all
    ensures Lex(Backslashed(v, all) + rest, Word, token, quoted) == Lex(rest, Word, token + v, quoted)
  {
    var text := Backslashed(v, all) + rest;
    if v == "" {
      assert text == rest && token + v == token;
    } else {
      var later := Backslashed(v[1..], all) + rest;
      assert v[0] in v && text == ['\\'] + ([v[0]] + later) && text[1..] == [v[0]] + later && text[1..][1..] == later;
      assert token + [v[0]] + v[1..] == token + v;
      BackslashesReadBack(v[1..], all, rest, token + [v[0]], quoted);
    }
  }

  /** A quote that is never closed makes the text unreadable. */
  lemma {:induction false} UnclosedQuoteFails(s: string, token: string, quoted: bool)
    requires '\'' !in s
    ensures Lex(s, Quoted('\''), token, quoted) == Failure
  {
    if s != "" {
      assert s[0] in s;
      UnclosedQuoteFails(s[1..], token + [s[0]], true);
    }
  }

  lemma NothingToSplit()
    ensures ShlexSplit("") == Success([])
  {
  }
}
