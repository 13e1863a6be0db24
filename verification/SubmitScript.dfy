/** The spark-submit command line: merged configuration, sorted keys, quoted text. */
module SubmitScript {
  import opened Common
  import opened Text
  import opened Shell
  import opened BuiltinConf

  /** Derived entries override built-in ones, user entries override both. */
  function Merged(job: Job, ctx: Context, execEnvConf: map<string, string>): map<string, string> {
    Builtins(job, ctx) + execEnvConf + job.sparkConf
  }

  // ---- the text and the fields it stands for ----

  /** The fixed words of the command line. The proofs use no more of them than that the shell takes
      them as they are. */
  datatype Words = Words(submit: string, master: string, url: string, mode: string, client: string,
                         name: string, class_: string, conf: string)

  function SparkWords(): Words {
    Words("/opt/spark/bin/" + "spark-submit", "--master", "k8s://https://" + "kubernetes.default.svc:443",
          "--deploy-mode", "client", "--name", "--class", "--conf")
  }

  predicate PlainWordText(s: string) {
    s != "" && PlainText(s)
  }

  predicate Unquoted(t: Words) {
    && PlainWordText(t.submit) && PlainWordText(t.master) && PlainWordText(t.url) && PlainWordText(t.mode)
    && PlainWordText(t.client) && PlainWordText(t.name) && PlainWordText(t.class_) && PlainWordText(t.conf)
  }

  function Setting(key: string, confs: map<string, string>): string
    requires key in confs
  {
    key + "=" + confs[key]
  }

  function ConfText(t: Words, keys: seq<string>, confs: map<string, string>): string
    requires forall k | k in keys :: k in confs
  {
    if keys == [] then "" else OptionLine(t.conf, Setting(keys[0], confs)) + ConfText(t, keys[1..], confs)
  }

  function ConfArgs(t: Words, keys: seq<string>, confs: map<string, string>): seq<string>
    requires forall k | k in keys :: k in confs
  {
    if keys == [] then [] else [t.conf, Setting(keys[0], confs)] + ConfArgs(t, keys[1..], confs)
  }

  function ArgsText(args: seq<string>): string {
    if args == [] then "" else " " + (ShellQuote(args[0]) + ArgsText(args[1..]))
  }

  /** The command and two flags with their values, all unquoted. */
  function Preamble(t: Words): string {
    t.submit + CONTINUE
    + ("  " + (t.master + (" " + (t.url + CONTINUE))))
    + ("  " + (t.mode + (" " + (t.client + CONTINUE))))
  }

  function PreambleArgs(t: Words): seq<string> {
    [t.submit, t.master, t.url, t.mode, t.client]
  }

  function ClassText(t: Words, mainClass: string): string {
    if mainClass == "" then "" else OptionLine(t.class_, mainClass)
  }

  function ClassArgs(t: Words, mainClass: string): seq<string> {
    if mainClass == "" then [] else [t.class_, mainClass]
  }

  ghost function TextOf(t: Words, job: Job, confs: map<string, string>): string {
    SortedKeys(confs);
    Preamble(t) + (OptionLine(t.name, job.name) + (ClassText(t, job.mainClass)
    + (ConfText(t, Sorted(confs.Keys), confs) + ("  " + (ShellQuote(job.mainFile) + ArgsText(job.arguments))))))
  }

  ghost function ArgvOf(t: Words, job: Job, confs: map<string, string>): seq<string> {
    SortedKeys(confs);
    PreambleArgs(t) + [t.name, job.name] + ClassArgs(t, job.mainClass)
    + ConfArgs(t, Sorted(confs.Keys), confs) + [job.mainFile] + job.arguments
  }

  /** The script as a function of the job and the merged mapping alone. */
  ghost function ScriptText(job: Job, confs: map<string, string>): string {
    TextOf(SparkWords(), job, confs)
  }

  /** The argument vector it is meant to run. */
  ghost function Argv(job: Job, confs: map<string, string>): seq<string> {
    ArgvOf(SparkWords(), job, confs)
  }

  lemma SortedKeys(confs: map<string, string>)
    ensures forall k :: k in Sorted(confs.Keys) <==> k in confs
    ensures Ascending(Sorted(confs.Keys))
  {
    SortedIsAscending(confs.Keys);
    assert forall k :: k in Sorted(confs.Keys) <==> k in Elements(Sorted(confs.Keys));
  }

  predicate NulFree(words: seq<string>) {
    forall w | w in words :: NUL !in w
  }

  // ---- round trip ----

  lemma NulFreeConcat(a: seq<string>, b: seq<string>)
    ensures NulFree(a + b) <==> NulFree(a) && NulFree(b)
  {
  }

  lemma NulFreePair(flag: string, value: string)
    requires PlainText(flag)
    ensures NulFree([flag, value]) <==> NUL !in value
  {
  }

  /** An option line in front of text already understood. */
  lemma OptionThen(words: seq<string>, flag: string, value: string, rest: string, more: seq<string>)
    requires PlainText(flag) && flag != ""
    requires var r := Feed(Between(words + [flag, value]), rest);
             if NulFree(more) then r == Between(words + [flag, value] + more) else r.mode == Bad
    ensures var r := Feed(Between(words), OptionLine(flag, value) + rest);
            if NulFree([flag, value] + more) then r == Between(words + ([flag, value] + more)) else r.mode == Bad
  {
    FeedConcat(Between(words), OptionLine(flag, value), rest);
    OptionLineLexed(words, flag, value);
    NulFreePair(flag, value);
    NulFreeConcat([flag, value], more);
    if NUL in value {
      BadStaysBad(Feed(Between(words), OptionLine(flag, value)), rest);
    } else {
      assert words + [flag, value] + more == words + ([flag, value] + more);
    }
  }

  lemma {:induction false} ConfTextLexed(t: Words, words: seq<string>, keys: seq<string>, confs: map<string, string>)
    requires Unquoted(t) && forall k | k in keys :: k in confs
    ensures var r := Feed(Between(words), ConfText(t, keys, confs));
            var args := ConfArgs(t, keys, confs);
            if NulFree(args) then r == Between(words + args) else r.mode == Bad
    decreases keys
  {
    if keys == [] {
      assert words + [] == words;
    } else {
      var value := Setting(keys[0], confs);
      ConfTextLexed(t, words + [t.conf, value], keys[1..], confs);
      OptionThen(words, t.conf, value, ConfText(t, keys[1..], confs), ConfArgs(t, keys[1..], confs));
    }
  }

  /** The main file and the arguments close the line; the last field ends with the text. */
  lemma {:induction false} ArgsLexed(words: seq<string>, w: string, args: seq<string>)
    ensures var r := Feed(Lexer(Plain, words, [w]), ArgsText(args));
            if NulFree(args) then r.mode == Plain && r.EndWord().words == words + [w] + args else r.mode == Bad
    decreases args
  {
    if args == [] {
      assert words + [w] + [] == words + [w];
    } else {
      var rest := ShellQuote(args[0]) + ArgsText(args[1..]);
      Spaced(words, w, rest);
      assert args == [args[0]] + args[1..];
      var next := Between(words + [w]);
      FeedConcat(next, ShellQuote(args[0]), ArgsText(args[1..]));
      if NUL in args[0] {
        ReplacingKeepsNul(args[0]);
        NulIsRejected(next, rest);
      } else {
        QuotedWord(next, args[0]);
        assert "" + args[0] == args[0];
        ArgsLexed(words + [w], args[0], args[1..]);
        assert words + [w] + [args[0]] + args[1..] == words + [w] + args;
      }
    }
  }

  lemma PreambleLexed(t: Words)
    requires Unquoted(t)
    ensures Feed(START, Preamble(t)) == Between(PreambleArgs(t)) && NulFree(PreambleArgs(t))
  {
    var a := t.submit + CONTINUE;
    var b := "  " + (t.master + (" " + (t.url + CONTINUE)));
    var c := "  " + (t.mode + (" " + (t.client + CONTINUE)));
    FeedConcat(START, a + b, c);
    FeedConcat(START, a, b);
    PlainLineLexed([], t.submit);
    PlainOptionLexed([t.submit], t.master, t.url);
    PlainOptionLexed([t.submit, t.master, t.url], t.mode, t.client);
    assert [] + [t.submit] == [t.submit];
    assert [t.submit] + [t.master, t.url] == [t.submit, t.master, t.url];
    assert [t.submit, t.master, t.url] + [t.mode, t.client] == PreambleArgs(t);
    PlainHasNoNul(t.submit);
    PlainHasNoNul(t.master);
    PlainHasNoNul(t.url);
    PlainHasNoNul(t.mode);
    PlainHasNoNul(t.client);
  }

  lemma ClassTextLexed(t: Words, words: seq<string>, mainClass: string)
    requires Unquoted(t)
    ensures var r := Feed(Between(words), ClassText(t, mainClass));
            if NUL in mainClass then r.mode == Bad else r == Between(words + ClassArgs(t, mainClass))
  {
    if mainClass != "" {
      OptionLineLexed(words, t.class_, mainClass);
    } else {
      assert words + [] == words;
    }
  }

  /** From the main file on. */
  lemma TailLexed(words: seq<string>, mainFile: string, args: seq<string>)
    ensures var r := Feed(Between(words), "  " + (ShellQuote(mainFile) + ArgsText(args)));
            if NUL !in mainFile && NulFree(args)
            then r.mode == Plain && r.EndWord().words == words + [mainFile] + args
            else r.mode == Bad
  {
    var quoted := ShellQuote(mainFile);
    Indented(words, quoted + ArgsText(args));
    FeedConcat(Between(words), quoted, ArgsText(args));
    if NUL in mainFile {
      ReplacingKeepsNul(mainFile);
      NulIsRejected(Between(words), quoted + ArgsText(args));
    } else {
      QuotedWord(Between(words), mainFile);
      assert "" + mainFile == mainFile;
      ArgsLexed(words, mainFile, args);
    }
  }

  /** From the configuration on. */
  lemma ConfTailLexed(t: Words, words: seq<string>, keys: seq<string>, confs: map<string, string>,
                      mainFile: string, args: seq<string>)
    requires Unquoted(t) && forall k | k in keys :: k in confs
    ensures var r := Feed(Between(words), ConfText(t, keys, confs) + ("  " + (ShellQuote(mainFile) + ArgsText(args))));
            var conf := ConfArgs(t, keys, confs);
            if NulFree(conf) && NUL !in mainFile && NulFree(args)
            then r.mode == Plain && r.EndWord().words == words + conf + [mainFile] + args
            else r.mode == Bad
  {
    var conf, tail := ConfText(t, keys, confs), "  " + (ShellQuote(mainFile) + ArgsText(args));
    FeedConcat(Between(words), conf, tail);
    ConfTextLexed(t, words, keys, confs);
    if NulFree(ConfArgs(t, keys, confs)) {
      TailLexed(words + ConfArgs(t, keys, confs), mainFile, args);
    } else {
      BadStaysBad(Feed(Between(words), conf), tail);
    }
  }

  /** From the job's name on. */
  lemma NameLexed(t: Words, words: seq<string>, name: string, mainClass: string, tail: string)
    requires Unquoted(t)
    ensures var r := Feed(Between(words), OptionLine(t.name, name) + (ClassText(t, mainClass) + tail));
            if NUL !in name && NUL !in mainClass
            then r == Feed(Between(words + [t.name, name] + ClassArgs(t, mainClass)), tail)
            else r.mode == Bad
  {
    var line, cls := OptionLine(t.name, name), ClassText(t, mainClass);
    FeedConcat(Between(words), line, cls + tail);
    OptionLineLexed(words, t.name, name);
    if NUL in name {
      BadStaysBad(Feed(Between(words), line), cls + tail);
    } else {
      var w := words + [t.name, name];
      FeedConcat(Between(w), cls, tail);
      ClassTextLexed(t, w, mainClass);
      if NUL in mainClass {
        BadStaysBad(Feed(Between(w), cls), tail);
      }
    }
  }

  lemma NulInArgv(t: Words, job: Job, confs: map<string, string>, keys: seq<string>)
    requires Unquoted(t) && keys == Sorted(confs.Keys) && forall k | k in keys :: k in confs
    ensures NulFree(ArgvOf(t, job, confs)) <==>
              && NUL !in job.name && NUL !in job.mainClass && NulFree(ConfArgs(t, keys, confs))
              && NUL !in job.mainFile && NulFree(job.arguments)
  {
  }

  lemma RoundTripOf(t: Words, job: Job, confs: map<string, string>)
    requires Unquoted(t)
    ensures Lex(TextOf(t, job, confs)) ==
            if NulFree(ArgvOf(t, job, confs)) then Fields(ArgvOf(t, job, confs)) else Rejected
  {
    SortedKeys(confs);
    var keys := Sorted(confs.Keys);
    var tail := ConfText(t, keys, confs) + ("  " + (ShellQuote(job.mainFile) + ArgsText(job.arguments)));
    FeedConcat(START, Preamble(t), OptionLine(t.name, job.name) + (ClassText(t, job.mainClass) + tail));
    PreambleLexed(t);
    NameLexed(t, PreambleArgs(t), job.name, job.mainClass, tail);
    NulInArgv(t, job, confs, keys);
    var words := PreambleArgs(t) + [t.name, job.name] + ClassArgs(t, job.mainClass);
    ConfTailLexed(t, words, keys, confs, job.mainFile, job.arguments);
  }

  lemma PlainTogether(a: string, b: string)
    requires PlainText(a) && PlainText(b)
    ensures PlainText(a + b)
  {
  }

  lemma FlagsAreUnquoted()
    ensures PlainText("--master") && PlainText("--deploy-mode") && PlainText("--name")
    ensures PlainText("--class") && PlainText("--conf") && PlainText("client")
  {
  }

  lemma SubmitIsUnquoted()
    ensures PlainText("/opt/spark/bin/") && PlainText("spark-submit")
  {
  }

  lemma SchemeIsUnquoted()
    ensures PlainText("k8s://https://")
  {
  }

  lemma HostIsUnquoted()
    ensures PlainText("kubernetes.default.svc:443")
  {
  }

  lemma {:induction false} SparkWordsAreUnquoted()
    ensures Unquoted(SparkWords())
  {
    FlagsAreUnquoted();
    SubmitIsUnquoted();
    SchemeIsUnquoted();
    HostIsUnquoted();
    PlainTogether("/opt/spark/bin/", "spark-submit");
    PlainTogether("k8s://https://", "kubernetes.default.svc:443");
  }

  /** The round trip: by the shell's own rules the printed script is exactly the intended argument
      vector, whatever quotes, blanks, newlines or backslashes the job contains, and however many
      strings are empty. Only a NUL, which no argument can hold, is in the way. */
  lemma {:induction false} ScriptRoundTrip(job: Job, confs: map<string, string>)
    ensures Lex(ScriptText(job, confs)) ==
            if NulFree(Argv(job, confs)) then Fields(Argv(job, confs)) else Rejected
  {
    SparkWordsAreUnquoted();
    RoundTripOf(SparkWords(), job, confs);
  }

  // ---- the configuration printed ----

  lemma {:induction false} ConfArgsAt(t: Words, keys: seq<string>, confs: map<string, string>, i: nat)
    requires (forall k | k in keys :: k in confs) && i < |keys|
    ensures |ConfArgs(t, keys, confs)| == 2 * |keys|
    ensures ConfArgs(t, keys, confs)[2 * i] == t.conf
    ensures ConfArgs(t, keys, confs)[2 * i + 1] == Setting(keys[i], confs)
    decreases keys
  {
    if |keys| > 1 {
      ConfArgsAt(t, keys[1..], confs, if i > 0 then i - 1 else 0);
    } else {
      assert ConfArgs(t, keys[1..], confs) == [];
    }
  }

  /** The `--conf` options run through the keys of all three maps, each once and in ascending order,
      with the user's value over the derived one over the built-in one. */
  lemma ConfPrecedence(t: Words, job: Job, ctx: Context, derived: map<string, string>)
    ensures var confs := Merged(job, ctx, derived);
            var keys := Sorted(confs.Keys);
            && Ascending(keys)
            && (forall k :: k in keys <==> k in job.sparkConf || k in derived || k in Builtins(job, ctx))
            && (forall k | k in keys :: k in confs)
            && (forall i | 0 <= i < |keys| ::
                  var value := if keys[i] in job.sparkConf then job.sparkConf[keys[i]]
                               else if keys[i] in derived then derived[keys[i]]
                               else Builtins(job, ctx)[keys[i]];
                  && 2 * i + 1 < |ConfArgs(t, keys, confs)|
                  && ConfArgs(t, keys, confs)[2 * i] == t.conf
                  && ConfArgs(t, keys, confs)[2 * i + 1] == keys[i] + "=" + value)
  {
    PrecedenceOf(t, Builtins(job, ctx), derived, job.sparkConf);
  }

  lemma PrecedenceOf(t: Words, builtin: map<string, string>, derived: map<string, string>, user: map<string, string>)
    ensures var confs := builtin + derived + user;
            var keys := Sorted(confs.Keys);
            && Ascending(keys)
            && (forall k :: k in keys <==> k in user || k in derived || k in builtin)
            && (forall k | k in keys :: k in confs)
            && (forall i | 0 <= i < |keys| ::
                  var value := if keys[i] in user then user[keys[i]]
                               else if keys[i] in derived then derived[keys[i]] else builtin[keys[i]];
                  && 2 * i + 1 < |ConfArgs(t, keys, confs)|
                  && ConfArgs(t, keys, confs)[2 * i] == t.conf
                  && ConfArgs(t, keys, confs)[2 * i + 1] == keys[i] + "=" + value)
  {
    var confs := builtin + derived + user;
    SortedKeys(confs);
    var keys := Sorted(confs.Keys);
    forall i | 0 <= i < |keys|
      ensures 2 * i + 1 < |ConfArgs(t, keys, confs)|
      ensures ConfArgs(t, keys, confs)[2 * i] == t.conf
      ensures ConfArgs(t, keys, confs)[2 * i + 1] == Setting(keys[i], confs)
    {
      ConfArgsAt(t, keys, confs, i);
    }
  }

  // ---- the fields, told by the job ----

  /** Among the options, which stand in pairs between the five opening fields and the main file, `flag` has the
      value `text`. */
  ghost predicate Option(argv: seq<string>, end: int, flag: string, text: string)
    requires end <= |argv|
  {
    exists i :: 5 <= i < end - 1 && i % 2 == 1 && argv[i] == flag && argv[i + 1] == text
  }

  /** The fields, given the fixed words and the settings. */
  ghost predicate LaidOut(t: Words, job: Job, confs: map<string, string>, argv: seq<string>) {
    var end := |argv| - 1 - |job.arguments|;
    && 7 <= end && end % 2 == 1 && argv[..5] == PreambleArgs(t)
    && argv[5] == t.name && argv[6] == job.name && argv[end] == job.mainFile && argv[end + 1..] == job.arguments
    && (forall i | 7 <= i < end && i % 2 == 1 :: argv[i] == t.class_ || argv[i] == t.conf)
    && (forall c :: Option(argv, end, t.class_, c) <==> c == job.mainClass != "")
    && (forall text :: Option(argv, end, t.conf, text) <==> Spelled(confs, text))
  }

  ghost predicate Spelled(confs: map<string, string>, text: string) {
    exists k :: k in confs && text == k + "=" + confs[k]
  }

  /** Where everything stands: the settings from `base` on, in the order of `keys`, the main file at `end`. */
  ghost predicate Positions(t: Words, job: Job, confs: map<string, string>, keys: seq<string>, argv: seq<string>,
                            base: nat, end: nat) {
    && (forall k :: k in keys <==> k in confs)
    && base == 7 + |ClassArgs(t, job.mainClass)| && end == base + 2 * |keys|
    && |argv| == end + 1 + |job.arguments|
    && argv[..5] == PreambleArgs(t) && argv[5] == t.name && argv[6] == job.name
    && argv[7..base] == ClassArgs(t, job.mainClass)
    && argv[end] == job.mainFile && argv[end + 1..] == job.arguments
    && (forall j: nat | j < |keys| :: argv[base + 2 * j] == t.conf && argv[base + 2 * j + 1] == Setting(keys[j], confs))
  }

  lemma ArgvAt(t: Words, job: Job, confs: map<string, string>, keys: seq<string>, base: nat, end: nat)
    requires keys == Sorted(confs.Keys) && (forall k :: k in keys <==> k in confs)
    requires base == 7 + |ClassArgs(t, job.mainClass)| && end == base + 2 * |keys|
    ensures Positions(t, job, confs, keys, ArgvOf(t, job, confs), base, end)
  {
    var argv, conf := ArgvOf(t, job, confs), ConfArgs(t, keys, confs);
    ConfArgsLength(t, keys, confs);
    Segments(PreambleArgs(t), [t.name, job.name], ClassArgs(t, job.mainClass), conf, [job.mainFile], job.arguments,
             argv);
    forall j: nat | j < |keys|
      ensures argv[base + 2 * j] == t.conf && argv[base + 2 * j + 1] == Setting(keys[j], confs)
    {
      ConfArgsAt(t, keys, confs, j);
      assert argv[base + 2 * j] == argv[base..end][2 * j] && argv[base + 2 * j + 1] == argv[base..end][2 * j + 1];
    }
  }

  lemma Segments(a: seq<string>, b: seq<string>, c: seq<string>, d: seq<string>, e: seq<string>, f: seq<string>,
                 all: seq<string>)
    requires |a| == 5 && |b| == 2 && |e| == 1 && all == a + b + c + d + e + f
    ensures |all| == 8 + |c| + |d| + |f|
    ensures all[..5] == a && all[5] == b[0] && all[6] == b[1] && all[7..7 + |c|] == c
    ensures all[7 + |c|..7 + |c| + |d|] == d && all[7 + |c| + |d|] == e[0] && all[8 + |c| + |d|..] == f
  {
  }

  lemma ConfArgsLength(t: Words, keys: seq<string>, confs: map<string, string>)
    requires forall k | k in keys :: k in confs
    ensures |ConfArgs(t, keys, confs)| == 2 * |keys|
  {
    if keys != [] {
      ConfArgsAt(t, keys, confs, 0);
    }
  }

  predicate FlagsDiffer(t: Words) {
    t.name != t.class_ && t.name != t.conf && t.class_ != t.conf
  }

  lemma ArgvLaidOut(t: Words, job: Job, confs: map<string, string>)
    requires FlagsDiffer(t)
    ensures LaidOut(t, job, confs, ArgvOf(t, job, confs))
  {
    SortedKeys(confs);
    var keys := Sorted(confs.Keys);
    var base := 7 + |ClassArgs(t, job.mainClass)|;
    ArgvAt(t, job, confs, keys, base, base + 2 * |keys|);
    PositionsLaidOut(t, job, confs, keys, ArgvOf(t, job, confs), base, base + 2 * |keys|);
  }

  lemma PositionsLaidOut(t: Words, job: Job, confs: map<string, string>, keys: seq<string>, argv: seq<string>,
                         base: nat, end: nat)
    requires FlagsDiffer(t) && Positions(t, job, confs, keys, argv, base, end)
    ensures LaidOut(t, job, confs, argv)
  {
    forall i | 7 <= i < end && i % 2 == 1 ensures argv[i] == t.class_ || argv[i] == t.conf {
      FlagAt(t, job, confs, keys, argv, base, end, i);
    }
    forall c ensures Option(argv, end, t.class_, c) <==> c == job.mainClass != "" {
      ClassOption(t, job, confs, keys, argv, base, end, c);
    }
    forall text ensures Option(argv, end, t.conf, text) <==> Spelled(confs, text) {
      if Option(argv, end, t.conf, text) {
        var i: nat :| 5 <= i < end - 1 && i % 2 == 1 && argv[i] == t.conf && argv[i + 1] == text;
        ConfOptionSpelled(t, job, confs, keys, argv, base, end, i);
      }
      if k :| k in confs && text == k + "=" + confs[k] {
        SpelledConfOption(t, job, confs, keys, argv, base, end, k);
      }
    }
  }

  /** What stands at a flag's position. */
  lemma FlagAt(t: Words, job: Job, confs: map<string, string>, keys: seq<string>, argv: seq<string>,
               base: nat, end: nat, i: nat)
    requires Positions(t, job, confs, keys, argv, base, end) && 7 <= i < end && i % 2 == 1
    ensures i < base ==> i == 7 && argv[i] == t.class_ && argv[i + 1] == job.mainClass != ""
    ensures i >= base ==>
              argv[i] == t.conf && (i - base) / 2 < |keys| && argv[i + 1] == Setting(keys[(i - base) / 2], confs)
  {
    if i < base {
      assert argv[7] == argv[7..base][0] && argv[8] == argv[7..base][1];
    } else {
      var j: nat := (i - base) / 2;
      assert i == base + 2 * j;
    }
  }

  lemma ClassOption(t: Words, job: Job, confs: map<string, string>, keys: seq<string>, argv: seq<string>,
                    base: nat, end: nat, c: string)
    requires FlagsDiffer(t) && Positions(t, job, confs, keys, argv, base, end)
    ensures Option(argv, end, t.class_, c) <==> c == job.mainClass != ""
  {
    if Option(argv, end, t.class_, c) {
      var i: nat :| 5 <= i < end - 1 && i % 2 == 1 && argv[i] == t.class_ && argv[i + 1] == c;
      assert i != 5;
      FlagAt(t, job, confs, keys, argv, base, end, i);
    }
    if c == job.mainClass != "" {
      FlagAt(t, job, confs, keys, argv, base, end, 7);
      assert argv[7] == t.class_ && argv[7 + 1] == c;
    }
  }

  lemma ConfOptionSpelled(t: Words, job: Job, confs: map<string, string>, keys: seq<string>, argv: seq<string>,
                          base: nat, end: nat, i: nat)
    requires FlagsDiffer(t) && Positions(t, job, confs, keys, argv, base, end)
    requires 5 <= i < end - 1 && i % 2 == 1 && argv[i] == t.conf
    ensures Spelled(confs, argv[i + 1])
  {
    assert i != 5;
    FlagAt(t, job, confs, keys, argv, base, end, i);
    var k := keys[(i - base) / 2];
    assert k in keys && argv[i + 1] == k + "=" + confs[k];
  }

  lemma SpelledConfOption(t: Words, job: Job, confs: map<string, string>, keys: seq<string>, argv: seq<string>,
                          base: nat, end: nat, k: string)
    requires Positions(t, job, confs, keys, argv, base, end) && k in confs
    ensures Option(argv, end, t.conf, k + "=" + confs[k])
  {
    var j: nat :| j < |keys| && keys[j] == k;
    var i := base + 2 * j;
    assert argv[base + 2 * j] == t.conf && argv[i + 1] == Setting(k, confs);
  }

  /** The value a key gets: the user's over the derived one over the built-in one. */
  ghost predicate Chosen(job: Job, ctx: Context, derived: map<string, string>, key: string, value: string) {
    if key in job.sparkConf then value == job.sparkConf[key]
    else if key in derived then value == derived[key]
    else BuiltIn(job, ctx, key, value)
  }

  lemma MergedIsChosen(job: Job, ctx: Context, derived: map<string, string>, key: string, value: string)
    ensures Sets(Merged(job, ctx, derived), key, value) <==> Chosen(job, ctx, derived, key, value)
  {
    BuiltinsMeaning(job, ctx, key, value);
  }

  /** What a job asks to be submitted, field by field: the opening, the name, the class if there is one, one
      `--conf` for every key that the user, the references or the built-in settings give a value, no other
      option, the main file and the arguments. */
  ghost predicate AsAsked(job: Job, ctx: Context, derived: map<string, string>, argv: seq<string>) {
    var end := |argv| - 1 - |job.arguments|;
    && 7 <= end && end % 2 == 1
    && argv[..5] == ["/opt/spark/bin/" + "spark-submit", "--master",
                     "k8s://https://" + "kubernetes.default.svc:443", "--deploy-mode", "client"]
    && argv[5] == "--name" && argv[6] == job.name && argv[end] == job.mainFile && argv[end + 1..] == job.arguments
    && (forall i | 7 <= i < end && i % 2 == 1 :: argv[i] == "--class" || argv[i] == "--conf")
    && (forall c :: Option(argv, end, "--class", c) <==> c == job.mainClass != "")
    && (forall text :: Option(argv, end, "--conf", text) <==> Asked(job, ctx, derived, text))
  }

  ghost predicate Asked(job: Job, ctx: Context, derived: map<string, string>, text: string) {
    exists key, value :: Chosen(job, ctx, derived, key, value) && text == key + "=" + value
  }

  lemma SettingsAreChosen(job: Job, ctx: Context, derived: map<string, string>, confs: map<string, string>,
                          text: string)
    requires confs == Merged(job, ctx, derived)
    ensures Spelled(confs, text) <==> Asked(job, ctx, derived, text)
  {
    if k :| k in confs && text == k + "=" + confs[k] {
      MergedIsChosen(job, ctx, derived, k, confs[k]);
    }
    if key, value :| Chosen(job, ctx, derived, key, value) && text == key + "=" + value {
      MergedIsChosen(job, ctx, derived, key, value);
    }
  }

  lemma SparkFlagsDiffer()
    ensures FlagsDiffer(SparkWords())
  {
    var t := SparkWords();
    assert t.name[2] == 'n' && t.conf[2] == 'c' && |t.class_| == 7 && |t.name| == 6 && |t.conf| == 6;
  }

  /** The intended vector is what the job asks for. */
  lemma ArgvAsAsked(job: Job, ctx: Context, derived: map<string, string>)
    ensures AsAsked(job, ctx, derived, Argv(job, Merged(job, ctx, derived)))
  {
    var confs := Merged(job, ctx, derived);
    SparkFlagsDiffer();
    ArgvLaidOut(SparkWords(), job, confs);
    LaidOutAsAsked(SparkWords(), job, ctx, derived, confs, Argv(job, confs));
  }

  lemma LaidOutAsAsked(t: Words, job: Job, ctx: Context, derived: map<string, string>, confs: map<string, string>,
                       argv: seq<string>)
    requires t == SparkWords() && confs == Merged(job, ctx, derived) && LaidOut(t, job, confs, argv)
    ensures AsAsked(job, ctx, derived, argv)
  {
    forall text ensures Spelled(confs, text) <==> Asked(job, ctx, derived, text) {
      SettingsAreChosen(job, ctx, derived, confs, text);
    }
  }

  // ---- single settings ----

  /** A text with one equals sign is one setting. */
  lemma OneEquals(key: string, value: string, key': string, value': string)
    requires '=' !in key && '=' !in value && key + "=" + value == key' + "=" + value'
    ensures key == key' && value == value'
  {
    var text := key + "=" + value;
    assert text[|key'|] == '=' by {
      assert (key' + "=" + value')[|key'|] == '=';
    }
    assert forall i | 0 <= i < |text| && i != |key| :: text[i] in key || text[i] in value;
    assert |key'| == |key|;
    assert key == text[..|key|] && key' == (key' + "=" + value')[..|key'|];
    assert value == text[|key| + 1..] && value' == (key' + "=" + value')[|key'| + 1..];
  }

  lemma SettingAsked(job: Job, ctx: Context, derived: map<string, string>, argv: seq<string>,
                     key: string, value: string)
    requires AsAsked(job, ctx, derived, argv) && '=' !in key && '=' !in value
    ensures Option(argv, |argv| - 1 - |job.arguments|, "--conf", key + "=" + value) <==>
              Chosen(job, ctx, derived, key, value)
  {
    if Asked(job, ctx, derived, key + "=" + value) {
      var key', value' :| Chosen(job, ctx, derived, key', value') && key + "=" + value == key' + "=" + value';
      OneEquals(key, value, key', value');
    }
  }

  /** The cores asked for: executors and driver each get the least count that covers their own request, if they
      make one and no user or derived setting says otherwise. */
  lemma CoresAsked(job: Job, ctx: Context, derived: map<string, string>, argv: seq<string>, n: nat)
    requires AsAsked(job, ctx, derived, argv)
    ensures "spark.executor.cores" !in job.sparkConf && "spark.executor.cores" !in derived ==>
              (Option(argv, |argv| - 1 - |job.arguments|, "--conf", "spark.executor.cores" + "=" + Itoa(n)) <==>
                 job.executorCpu.Some? && LeastCores(job.executorCpu.value, n))
    ensures "spark.driver.cores" !in job.sparkConf && "spark.driver.cores" !in derived ==>
              (Option(argv, |argv| - 1 - |job.arguments|, "--conf", "spark.driver.cores" + "=" + Itoa(n)) <==>
                 job.driverCpu.Some? && LeastCores(job.driverCpu.value, n))
  {
    ItoaHasNoEquals(n);
    KeysHaveNoEquals();
    SettingAsked(job, ctx, derived, argv, "spark.executor.cores", Itoa(n));
    SettingAsked(job, ctx, derived, argv, "spark.driver.cores", Itoa(n));
    ExecutorCores(job, ctx, Itoa(n));
    DriverCores(job, ctx, Itoa(n));
    if job.executorCpu.Some? {
      CoresNumeral(job.executorCpu.value, n);
    }
    if job.driverCpu.Some? {
      CoresNumeral(job.driverCpu.value, n);
    }
  }

  /** And the memory. */
  lemma MemoryAsked(job: Job, ctx: Context, derived: map<string, string>, argv: seq<string>, value: string)
    requires AsAsked(job, ctx, derived, argv) && '=' !in value
    ensures "spark.executor.memory" !in job.sparkConf && "spark.executor.memory" !in derived ==>
              (Option(argv, |argv| - 1 - |job.arguments|, "--conf", "spark.executor.memory" + "=" + value) <==>
                 MemoryIs(job.executorMemory, value))
    ensures "spark.driver.memory" !in job.sparkConf && "spark.driver.memory" !in derived ==>
              (Option(argv, |argv| - 1 - |job.arguments|, "--conf", "spark.driver.memory" + "=" + value) <==>
                 MemoryIs(job.driverMemory, value))
  {
    KeysHaveNoEquals();
    SettingAsked(job, ctx, derived, argv, "spark.executor.memory", value);
    SettingAsked(job, ctx, derived, argv, "spark.driver.memory", value);
    ExecutorMemory(job, ctx, value);
    DriverMemory(job, ctx, value);
  }

  lemma KeysHaveNoEquals()
    ensures '=' !in "spark.executor.cores" && '=' !in "spark.driver.cores"
    ensures '=' !in "spark.executor.memory" && '=' !in "spark.driver.memory"
  {
  }

  lemma {:induction false} DigitsHaveNoEquals(n: nat)
    ensures '=' !in Digits(n)
  {
    if n >= 10 {
      DigitsHaveNoEquals(n / 10);
    }
  }

  lemma ItoaHasNoEquals(n: nat)
    ensures '=' !in Itoa(n)
  {
    DigitsHaveNoEquals(n);
  }

  // ---- the printer ----

  lemma {:induction false} ConfTextGrows(t: Words, keys: seq<string>, confs: map<string, string>, i: nat)
    requires (forall k | k in keys :: k in confs) && i < |keys|
    ensures ConfText(t, keys[..i + 1], confs) ==
            ConfText(t, keys[..i], confs) + OptionLine(t.conf, Setting(keys[i], confs))
    decreases keys
  {
    if i == 0 {
      assert keys[..1][1..] == [];
    } else {
      ConfTextGrows(t, keys[1..], confs, i - 1);
      assert keys[..i + 1][1..] == keys[1..][..i] && keys[..i][1..] == keys[1..][..i - 1];
    }
  }

  lemma {:induction false} ArgsTextGrows(args: seq<string>, i: nat)
    requires i < |args|
    ensures ArgsText(args[..i + 1]) == ArgsText(args[..i]) + (" " + ShellQuote(args[i]))
    decreases args
  {
    if i == 0 {
      assert args[..1][1..] == [];
    } else {
      ArgsTextGrows(args[1..], i - 1);
      assert args[..i + 1][1..] == args[1..][..i] && args[..i][1..] == args[1..][..i - 1];
    }
  }

  lemma Regrouped(a: string, b: string, c: string, d: string, e: string, f: string, g: string)
    ensures a + b + c + d + (e + f) + g == a + (b + (c + (d + (e + (f + g)))))
  {
  }

  /** `sparkSubmitScript`. Whatever order the map of settings is walked in, the text is the same, the shell
      reads it back as the intended argument vector, and that holds what the job asks for, field by field. */
  method SparkSubmitScript(job: Job, ctx: Context, execEnvConf: map<string, string>) returns (script: string)
    ensures script == ScriptText(job, Merged(job, ctx, execEnvConf))
    ensures var argv := Argv(job, Merged(job, ctx, execEnvConf));
            Lex(script) == if NulFree(argv) then Fields(argv) else Rejected
    ensures Lex(script).Fields? ==> AsAsked(job, ctx, execEnvConf, Lex(script).argv)
  {
    var confs := Builtins(job, ctx);
    confs := confs + execEnvConf;
    confs := confs + job.sparkConf;
    script := Print(SparkWords(), job, confs);
    ScriptRoundTrip(job, confs);
    ArgvAsAsked(job, ctx, execEnvConf);
  }

  /** The part of `sparkSubmitScript` that collects and sorts the keys and fills the string builder. */
  method Print(t: Words, job: Job, confs: map<string, string>) returns (b: string)
    ensures b == TextOf(t, job, confs)
  {
    var keys := Enumerate(confs.Keys);
    keys := SortStrings(keys);
    SortedKeys(confs);
    b := Preamble(t);
    b := b + OptionLine(t.name, job.name);
    if job.mainClass != "" {
      b := b + OptionLine(t.class_, job.mainClass);
    }
    assert b == Preamble(t) + OptionLine(t.name, job.name) + ClassText(t, job.mainClass);
    b := PrintConfs(t, b, keys, confs);
    b := b + ("  " + ShellQuote(job.mainFile));
    b := PrintArguments(b, job.arguments);
    Regrouped(Preamble(t), OptionLine(t.name, job.name), ClassText(t, job.mainClass), ConfText(t, keys, confs),
              "  ", ShellQuote(job.mainFile), ArgsText(job.arguments));
  }

  /** The loop over the sorted keys. */
  method PrintConfs(t: Words, text: string, keys: seq<string>, confs: map<string, string>) returns (b: string)
    requires forall k | k in keys :: k in confs
    ensures b == text + ConfText(t, keys, confs)
  {
    b := text;
    assert text + "" == text;
    for i := 0 to |keys|
      invariant b == text + ConfText(t, keys[..i], confs)
    {
      ConfTextGrows(t, keys, confs, i);
      b := b + OptionLine(t.conf, Setting(keys[i], confs));
    }
    assert keys[..|keys|] == keys;
  }

  /** The loop over the arguments. */
  method PrintArguments(text: string, args: seq<string>) returns (b: string)
    ensures b == text + ArgsText(args)
  {
    b := text;
    assert text + "" == text;
    for i := 0 to |args|
      invariant b == text + ArgsText(args[..i])
    {
      ArgsTextGrows(args, i);
      b := b + (" " + ShellQuote(args[i]));
    }
    assert args[..|args|] == args;
  }
}
