/** The part of the POSIX shell's lexical rules that the printed command line relies on
    (IEEE Std 1003.1-2017, Shell Command Language, sections 2.2.1, 2.2.2 and 2.3), and the quoting. */
module Shell {

  /** `Plain`: outside quotes. `Escape`: after an unquoted backslash. `Quote`: inside single quotes.
      `Bad`: the text is outside the covered part of the grammar. */
  datatype Mode = Plain | Escape | Quote | Bad

  /** The fields so far, and the field under construction if one has begun. */
  datatype Lexer = Lexer(mode: Mode, words: seq<string>, word: seq<string>)
  {
    /** The characters of the field under construction. */
    function Current(): string {
      if word == [] then "" else word[0]
    }

    function Append(c: char): Lexer {
      this.(mode := if mode == Quote then Quote else Plain, word := [Current() + [c]])
    }

    function EndWord(): Lexer {
      if word == [] then this else Lexer(mode, words + [word[0]], [])
    }
  }

  const NUL := 0 as char
  const START := Lexer(Plain, [], [])

  predicate Blank(c: char) {
    c == ' ' || c == '\t'
  }

  /** Characters that mean something when unquoted: operators, expansions, patterns, comments, assignments. */
  predicate Special(c: char) {
    || c == '|' || c == '&' || c == ';' || c == '<' || c == '>' || c == '(' || c == ')' || c == '\n'
    || c == '$' || c == '`' || c == '"' || c == '*' || c == '?' || c == '[' || c == '#' || c == '~'
    || c == '=' || c == '%' || c == '{' || c == '}' || c == '!'
  }

  function Step(lx: Lexer, c: char): Lexer {
    if c == NUL then lx.(mode := Bad)
    else
      match lx.mode
      case Bad => lx
      case Quote => if c == '\'' then lx.(mode := Plain) else lx.Append(c)
      // A backslash-newline is removed before the text is split into tokens.
      case Escape => if c == '\n' then lx.(mode := Plain) else lx.Append(c)
      case Plain =>
        if c == '\\' then lx.(mode := Escape)
        else if c == '\'' then lx.(mode := Quote, word := [lx.Current()])
        else if Blank(c) then lx.EndWord()
        else if Special(c) then lx.(mode := Bad)
        else lx.Append(c)
  }

  function Feed(lx: Lexer, text: string): Lexer
    decreases text
  {
    if text == [] then lx else Feed(Step(lx, text[0]), text[1..])
  }

  datatype Fields = Fields(argv: seq<string>) | Rejected

  /** The fields of a one-line simple command. */
  function Lex(text: string): Fields {
    var lx := Feed(START, text).EndWord();
    if lx.mode == Plain then Fields(lx.words) else Rejected
  }

  lemma {:induction false} FeedConcat(lx: Lexer, a: string, b: string)
    ensures Feed(lx, a + b) == Feed(Feed(lx, a), b)
    decreases a
  {
    if a == [] {
      assert a + b == b;
    } else {
      assert (a + b)[0] == a[0] && (a + b)[1..] == a[1..] + b;
      FeedConcat(Step(lx, a[0]), a[1..], b);
    }
  }

  lemma {:induction false} BadStaysBad(lx: Lexer, text: string)
    requires lx.mode == Bad
    ensures Feed(lx, text).mode == Bad
    decreases text
  {
    if text != [] {
      BadStaysBad(Step(lx, text[0]), text[1..]);
    }
  }

  /** A text with a NUL is no shell input. */
  lemma {:induction false} NulIsRejected(lx: Lexer, text: string)
    requires NUL in text
    ensures Feed(lx, text).mode == Bad
    decreases text
  {
    if text[0] == NUL {
      BadStaysBad(Step(lx, text[0]), text[1..]);
    } else {
      NulIsRejected(Step(lx, text[0]), text[1..]);
    }
  }

  // ---- shellQuote ----

  /** `strings.ReplaceAll` of each single quote by `'\''`. */
  function ReplaceQuotes(s: string): string {
    if s == [] then []
    else (if s[0] == '\'' then "'\\''" else [s[0]]) + ReplaceQuotes(s[1..])
  }

  function ShellQuote(s: string): string {
    "'" + ReplaceQuotes(s) + "'"
  }

  /** Closing the quotes, an escaped quote, and opening them again add one quote character. */
  lemma EscapedQuote(lx: Lexer)
    requires lx.mode == Quote && |lx.word| == 1
    ensures Feed(lx, "'\\''") == lx.(word := [lx.word[0] + "'"])
  {
  }

  /** Inside single quotes the replaced text spells the original, character by character. */
  lemma {:induction false} QuotedText(lx: Lexer, s: string)
    requires lx.mode == Quote && |lx.word| == 1 && NUL !in s
    ensures Feed(lx, ReplaceQuotes(s)) == lx.(word := [lx.word[0] + s])
    decreases s
  {
    if s == [] {
      assert lx.word[0] + s == lx.word[0];
    } else {
      var after := lx.(word := [lx.word[0] + [s[0]]]);
      var head := if s[0] == '\'' then "'\\''" else [s[0]];
      FeedConcat(lx, head, ReplaceQuotes(s[1..]));
      if s[0] == '\'' {
        EscapedQuote(lx);
      } else {
        assert Feed(lx, head) == after;
      }
      QuotedText(after, s[1..]);
      assert after.word[0] + s[1..] == lx.word[0] + s;
    }
  }

  /** A quoted string adds exactly its original to the current field, beginning one if need be. */
  lemma QuotedWord(lx: Lexer, s: string)
    requires lx.mode == Plain && NUL !in s
    ensures Feed(lx, ShellQuote(s)) == lx.(word := [lx.Current() + s])
  {
    var open := lx.(mode := Quote, word := [lx.Current()]);
    FeedConcat(lx, "'" + ReplaceQuotes(s), "'");
    FeedConcat(lx, "'", ReplaceQuotes(s));
    assert Feed(lx, "'") == open;
    QuotedText(open, s);
    assert Feed(open.(word := [lx.Current() + s]), "'") == lx.(word := [lx.Current() + s]);
  }

  lemma {:induction false} ReplacingKeepsNul(s: string)
    ensures NUL in ReplaceQuotes(s) <==> NUL in s
  {
    if s != [] {
      ReplacingKeepsNul(s[1..]);
      assert s == [s[0]] + s[1..];
    }
  }

  /** Quoting is reversible: any one string, alone, comes back as the one field it was. */
  lemma QuoteRoundTrip(s: string)
    ensures Lex(ShellQuote(s)) == (if NUL in s then Rejected else Fields([s]))
  {
    if NUL in s {
      ReplacingKeepsNul(s);
      NulIsRejected(START, ShellQuote(s));
    } else {
      QuotedWord(START, s);
      assert "" + s == s;
    }
  }

  // ---- unquoted words, options, line ends ----

  /** Lower-case letters, colons, and `-./0123456789`, which follow each other. */
  predicate PlainChar(c: char) {
    'a' <= c <= 'z' || '-' <= c <= '9' || c == ':'
  }

  predicate PlainText(s: string) {
    forall c | c in s :: PlainChar(c)
  }

  /** Unquoted text of ordinary characters stands for itself. */
  lemma {:induction false} PlainWord(lx: Lexer, s: string)
    requires lx.mode == Plain && PlainText(s) && s != []
    ensures Feed(lx, s) == lx.(word := [lx.Current() + s])
    decreases s
  {
    var after := lx.Append(s[0]);
    assert PlainChar(s[0]) && Step(lx, s[0]) == after;
    if |s| > 1 {
      PlainWord(after, s[1..]);
    } else {
      assert s[1..] == "" && s == [s[0]];
    }
    assert lx.Current() + s == (lx.Current() + [s[0]]) + s[1..];
  }

  lemma PlainHasNoNul(s: string)
    requires PlainText(s)
    ensures NUL !in s
  {
  }

  const CONTINUE := " \\\n"

  lemma Continued(words: seq<string>, w: string)
    ensures Feed(Lexer(Plain, words, [w]), CONTINUE) == Lexer(Plain, words + [w], [])
  {
  }

  /** Fields already complete, none begun. */
  function Between(words: seq<string>): Lexer {
    Lexer(Plain, words, [])
  }

  lemma Indented(words: seq<string>, text: string)
    ensures Feed(Between(words), "  " + text) == Feed(Between(words), text)
  {
  }

  lemma Spaced(words: seq<string>, w: string, text: string)
    ensures Feed(Lexer(Plain, words, [w]), " " + text) == Feed(Between(words + [w]), text)
  {
  }

  /** One line of the command: an indented flag and its quoted value. */
  function OptionLine(flag: string, value: string): string {
    "  " + (flag + (" " + (ShellQuote(value) + CONTINUE)))
  }

  lemma OptionLineLexed(words: seq<string>, flag: string, value: string)
    requires PlainText(flag) && flag != []
    ensures var r := Feed(Between(words), OptionLine(flag, value));
            if NUL in value then r.mode == Bad else r == Between(words + [flag, value])
  {
    var quoted := ShellQuote(value) + CONTINUE;
    Indented(words, flag + (" " + quoted));
    FeedConcat(Between(words), flag, " " + quoted);
    PlainWord(Between(words), flag);
    assert "" + flag == flag;
    Spaced(words, flag, quoted);
    var after := Between(words + [flag]);
    if NUL in value {
      ReplacingKeepsNul(value);
      NulIsRejected(after, quoted);
    } else {
      FeedConcat(after, ShellQuote(value), CONTINUE);
      QuotedWord(after, value);
      assert "" + value == value;
      Continued(words + [flag], value);
      assert (words + [flag]) + [value] == words + [flag, value];
    }
  }

  /** One line with an unquoted word, or a flag and an unquoted word. */
  lemma PlainLineLexed(words: seq<string>, w: string)
    requires PlainText(w) && w != []
    ensures Feed(Between(words), w + CONTINUE) == Between(words + [w])
  {
    FeedConcat(Between(words), w, CONTINUE);
    PlainWord(Between(words), w);
    assert "" + w == w;
    Continued(words, w);
  }

  lemma PlainOptionLexed(words: seq<string>, flag: string, w: string)
    requires PlainText(flag) && flag != [] && PlainText(w) && w != []
    ensures Feed(Between(words), "  " + (flag + (" " + (w + CONTINUE)))) == Between(words + [flag, w])
  {
    Indented(words, flag + (" " + (w + CONTINUE)));
    FeedConcat(Between(words), flag, " " + (w + CONTINUE));
    PlainWord(Between(words), flag);
    assert "" + flag == flag;
    Spaced(words, flag, w + CONTINUE);
    PlainLineLexed(words + [flag], w);
    assert (words + [flag]) + [w] == words + [flag, w];
  }
}
