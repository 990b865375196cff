/**
 The runner command line of internal/runner/bws.go and what the shell makes of it.

 `bws run` joins the tokens after `--` with spaces and hands the result to `sh -c`. The
 reader below follows POSIX.1-2017, Shell Command Language: section 2.2.1 (backslash), 2.2.2
 (single quotes), 2.3 (token recognition, for the blanks) and 2.6.7 (quote removal). Every
 other unquoted character stays marked as active, open to any meaning the shell gives it.
 */
module Shell {
  import opened Basics
  import C = Config

  // ----- The shell's side -----

  datatype Mark = Quoted(c: char) | Active(c: char)

  type Word = seq<Mark>

  /** The words of a text, read outside quotes; None for a text that ends inside a quotation. */
  function Scan(s: string, word: Option<Word>): Option<seq<Word>>
    decreases |s|, 1
  {
    if s == "" then Some(Flush(word))
    else if s[0] == ' ' || s[0] == '\t' then Prepended(Flush(word), Scan(s[1..], None))
    else if s[0] == '\'' then ScanQuoted(s[1..], Or(word))
    else if s[0] == '\\' then
      if |s| == 1 then None
      else if s[1] == '\n' then Scan(s[2..], word)
      else Scan(s[2..], Some(Or(word) + [Quoted(s[1])]))
    else Scan(s[1..], Some(Or(word) + [Active(s[0])]))
  }

  /** Inside single quotes every character stands for itself. */
  function ScanQuoted(s: string, word: Word): Option<seq<Word>>
    decreases |s|, 0
  {
    if s == "" then None
    else if s[0] == '\'' then Scan(s[1..], Some(word))
    else ScanQuoted(s[1..], word + [Quoted(s[0])])
  }

  function Or(word: Option<Word>): Word { match word case None => [] case Some(w) => w }

  function Flush(word: Option<Word>): seq<Word> { match word case None => [] case Some(w) => [w] }

  function Prepended(words: seq<Word>, rest: Option<seq<Word>>): Option<seq<Word>> {
    match rest case None => None case Some(more) => Some(words + more)
  }

  /** The text `sh -c` receives; a NUL byte cannot be passed in an argument. */
  function ShellWords(text: string): Option<seq<Word>> {
    if '\0' in text then None else Scan(text, None)
  }

  /** A word in which nothing is open to interpretation. */
  function Literal(s: string): Word { if s == "" then [] else [Quoted(s[0])] + Literal(s[1..]) }

  function Literals(args: seq<string>): seq<Word> {
    if args == [] then [] else [Literal(args[0])] + Literals(args[1..])
  }

  // ----- The runner's side -----

  function Escape(s: string): string {
    if s == "" then "" else (if s[0] == '\'' then "'\\''" else [s[0]]) + Escape(s[1..])
  }

  function ShellQuote(s: string): string { "'" + Escape(s) + "'" }

  function JoinSpaces(args: seq<string>): string {
    if args == [] then "" else if |args| == 1 then args[0] else args[0] + " " + JoinSpaces(args[1..])
  }

  function QuoteAll(args: seq<string>): seq<string> {
    if args == [] then [] else [ShellQuote(args[0])] + QuoteAll(args[1..])
  }

  const SudoPrefix: seq<string> := ["/usr/bin/sudo", "-n", "-H", "-u", "secrets-broker-runner", "--"]

  // ----- Quoting and reading back -----

  lemma StepPlain(c: char, rest: string, w: Word)
    requires c != '\''
    ensures ScanQuoted([c] + rest, w) == ScanQuoted(rest, w + [Quoted(c)])
  {
    assert ([c] + rest)[1..] == rest;
  }

  /** A quote is closed, escaped and opened again. */
  lemma StepQuote(rest: string, w: Word)
    ensures ScanQuoted("'\\''" + rest, w) == ScanQuoted(rest, w + [Quoted('\'')])
  {
    var s := "'\\''" + rest;
    assert s[1..] == "\\''" + rest;
    assert s[1..][2..] == "'" + rest;
    assert ("'" + rest)[1..] == rest;
    assert ScanQuoted(s, w) == Scan("\\''" + rest, Some(w));
    assert Scan("\\''" + rest, Some(w)) == Scan("'" + rest, Some(w + [Quoted('\'')]));
  }

  lemma {:induction false} ReadQuoted(s: string, rest: string, w: Word)
    ensures ScanQuoted(Escape(s) + ("'" + rest), w) == Scan(rest, Some(w + Literal(s)))
    decreases |s|
  {
    var tail := "'" + rest;
    if s == "" {
      assert Escape(s) + tail == tail && tail[1..] == rest;
      assert w + Literal(s) == w;
    } else {
      var first := if s[0] == '\'' then "'\\''" else [s[0]];
      Regroup(first, Escape(s[1..]), tail);
      if s[0] == '\'' {
        StepQuote(Escape(s[1..]) + tail, w);
      } else {
        StepPlain(s[0], Escape(s[1..]) + tail, w);
      }
      ReadQuoted(s[1..], rest, w + [Quoted(s[0])]);
      assert w + [Quoted(s[0])] + Literal(s[1..]) == w + Literal(s);
    }
  }

  /** A quoted argument at the start of a word is read as exactly that argument. */
  lemma ReadArgument(s: string, rest: string)
    ensures Scan(ShellQuote(s) + rest, None) == Scan(rest, Some(Literal(s)))
  {
    var text := ShellQuote(s) + rest;
    assert text == "'" + (Escape(s) + ("'" + rest));
    assert text[1..] == Escape(s) + ("'" + rest);
    ReadQuoted(s, rest, []);
    assert [] + Literal(s) == Literal(s);
  }

  lemma {:induction false} ReadArguments(args: seq<string>)
    ensures Scan(JoinSpaces(QuoteAll(args)), None) == Some(Literals(args))
  {
    hide Literal, ShellQuote;
    if |args| == 1 {
      assert QuoteAll(args) == [ShellQuote(args[0])];
      assert ShellQuote(args[0]) + "" == ShellQuote(args[0]);
      ReadArgument(args[0], "");
      assert Literals(args) == [Literal(args[0])];
    } else if |args| > 1 {
      var rest := JoinSpaces(QuoteAll(args[1..]));
      QuoteAllCount(args[1..]);
      Regroup(ShellQuote(args[0]), " ", rest);
      ReadArgument(args[0], " " + rest);
      assert (" " + rest)[1..] == rest;
      ReadArguments(args[1..]);
    }
  }

  lemma {:induction false} QuoteAllCount(args: seq<string>)
    ensures |QuoteAll(args)| == |args|
  {
    if args != [] { QuoteAllCount(args[1..]); }
  }

  // ----- NUL bytes -----

  predicate NulFree(args: seq<string>) { forall i :: 0 <= i < |args| ==> '\0' !in args[i] }

  lemma {:induction false} EscapeNul(s: string)
    ensures '\0' in Escape(s) <==> '\0' in s
  {
    if s != "" {
      EscapeNul(s[1..]);
      assert s == [s[0]] + s[1..];
    }
  }

  lemma {:induction false} JoinNul(args: seq<string>)
    ensures '\0' in JoinSpaces(QuoteAll(args)) <==> !NulFree(args)
  {
    if args != [] {
      JoinNul(args[1..]);
      EscapeNul(args[0]);
      QuoteAllCount(args[1..]);
      assert NulFree(args) <==> '\0' !in args[0] && NulFree(args[1..]) by {
        assert args == [args[0]] + args[1..];
      }
    }
  }

  /**
   The shell reads the joined line as exactly the given arguments, every character of them
   literal, if and only if no argument contains a NUL byte.
   */
  lemma QuotingExact(args: seq<string>)
    ensures ShellWords(JoinSpaces(QuoteAll(args))) == Some(Literals(args)) <==> NulFree(args)
  {
    JoinNul(args);
    ReadArguments(args);
  }

  /** Literal words determine the arguments: nothing is split, merged or dropped. */
  lemma {:induction false} LiteralInjective(a: string, b: string)
    requires Literal(a) == Literal(b)
    ensures a == b
  {
    if a != "" && b != "" {
      assert Literal(a)[0] == Literal(b)[0] && Literal(a)[1..] == Literal(b)[1..];
      LiteralInjective(a[1..], b[1..]);
      assert a == [a[0]] + a[1..] && b == [b[0]] + b[1..];
    }
  }

  lemma {:induction false} LiteralsInjective(a: seq<string>, b: seq<string>)
    requires Literals(a) == Literals(b)
    ensures a == b
  {
    if a != [] && b != [] {
      assert Literals(a)[0] == Literals(b)[0] && Literals(a)[1..] == Literals(b)[1..];
      LiteralInjective(a[0], b[0]);
      LiteralsInjective(a[1..], b[1..]);
      assert a == [a[0]] + a[1..] && b == [b[0]] + b[1..];
    }
  }

  // ----- BWSRunner.Run -----

  datatype RunSpec = RunSpec(projectId: string, token: string, workingDir: string, argv: seq<string>)

  predicate Runnable(bws: string, spec: RunSpec) {
    spec.argv != [] && spec.projectId != "" && spec.token != "" && C.IsAbs(bws) && spec.workingDir != ""
  }

  /** The arguments of `bws`: its own, then the quoted sudo prefix and argv. */
  function CommandArgs(spec: RunSpec): seq<string> {
    ["run", "--project-id", spec.projectId, "--no-inherit-env", "--"] + QuoteAll(SudoPrefix + spec.argv)
  }

  /**
   What follows `--` is read by the inner shell as sudo's fixed prefix and the requested argv,
   if and only if no argument contains a NUL byte.
   */
  lemma ArgumentsExact(spec: RunSpec)
    ensures CommandArgs(spec)[5..] == QuoteAll(SudoPrefix + spec.argv)
    ensures ShellWords(JoinSpaces(CommandArgs(spec)[5..])) == Some(Literals(SudoPrefix + spec.argv))
            <==> NulFree(spec.argv)
  {
    hide QuoteAll, Literals, ShellWords, JoinSpaces, NulFree;
    ArgvNulFree(spec.argv);
    QuotingExact(SudoPrefix + spec.argv);
  }

  lemma {:induction false} QuoteAllConcat(a: seq<string>, b: seq<string>)
    ensures QuoteAll(a + b) == QuoteAll(a) + QuoteAll(b)
  {
    if a == [] {
      assert a + b == b;
    } else {
      assert (a + b)[1..] == a[1..] + b;
      QuoteAllConcat(a[1..], b);
    }
  }

  /**
   BWSRunner.Run up to the launch: the checks and the arguments of `bws`. What follows `--`
   is read by the inner shell as sudo's fixed prefix and the requested argv.
   */
  method BuildCommand(bws: string, spec: RunSpec) returns (args: Option<seq<string>>)
    ensures args.Some? <==> Runnable(bws, spec)
    ensures args.Some? ==>
              args.value == CommandArgs(spec) && |args.value| == 11 + |spec.argv|
              && args.value[..5] == ["run", "--project-id", spec.projectId, "--no-inherit-env", "--"]
              && (NulFree(spec.argv) ==>
                    ShellWords(JoinSpaces(args.value[5..])) == Some(Literals(SudoPrefix + spec.argv)))
  {
    hide ShellQuote, QuoteAll, Literals, ShellWords, JoinSpaces, NulFree;
    if |spec.argv| == 0 { return None; }
    if spec.projectId == "" { return None; }
    if spec.token == "" { return None; }
    if !C.IsAbs(bws) { return None; }
    if spec.workingDir == "" { return None; }
    var built := ["run", "--project-id", spec.projectId, "--no-inherit-env", "--",
                  ShellQuote("/usr/bin/sudo"), ShellQuote("-n"), ShellQuote("-H"), ShellQuote("-u"),
                  ShellQuote("secrets-broker-runner"), ShellQuote("--")];
    PrefixQuoted();
    assert built[5..] == QuoteAll(SudoPrefix);
    assert SudoPrefix + spec.argv[..0] == SudoPrefix;
    for i := 0 to |spec.argv|
      invariant |built| == 11 + i && built[..5] == ["run", "--project-id", spec.projectId, "--no-inherit-env", "--"]
      invariant built[5..] == QuoteAll(SudoPrefix + spec.argv[..i])
    {
      QuoteNext(spec.argv, i);
      built := built + [ShellQuote(spec.argv[i])];
    }
    assert spec.argv[..|spec.argv|] == spec.argv;
    ArgvNulFree(spec.argv);
    QuotingExact(SudoPrefix + spec.argv);
    args := Some(built);
  }

  lemma QuoteNext(argv: seq<string>, i: nat)
    requires i < |argv|
    ensures QuoteAll(SudoPrefix + argv[..i + 1]) == QuoteAll(SudoPrefix + argv[..i]) + [ShellQuote(argv[i])]
  {
    hide ShellQuote;
    assert SudoPrefix + argv[..i + 1] == (SudoPrefix + argv[..i]) + [argv[i]];
    QuoteAllConcat(SudoPrefix + argv[..i], [argv[i]]);
    assert QuoteAll([argv[i]]) == [ShellQuote(argv[i])];
  }

  lemma PrefixQuoted()
    ensures QuoteAll(SudoPrefix) == [ShellQuote("/usr/bin/sudo"), ShellQuote("-n"), ShellQuote("-H"), ShellQuote("-u"),
                                     ShellQuote("secrets-broker-runner"), ShellQuote("--")]
  {
    hide ShellQuote;
    var p := SudoPrefix;
    QuoteAllConcat(p[..3], p[3..]);
    assert p[..3] + p[3..] == p;
    assert p[..3][1..] == p[1..3] && p[1..3][1..] == [p[2]] && QuoteAll([p[2]]) == [ShellQuote(p[2])];
    assert p[3..][1..] == p[4..] && p[4..][1..] == [p[5]] && QuoteAll([p[5]]) == [ShellQuote(p[5])];
    assert QuoteAll(p[1..3]) == [ShellQuote(p[1])] + [ShellQuote(p[2])];
    assert QuoteAll(p[4..]) == [ShellQuote(p[4])] + [ShellQuote(p[5])];
  }

  lemma ArgvNulFree(argv: seq<string>)
    ensures NulFree(SudoPrefix + argv) <==> NulFree(argv)
  {
    assert NulFree(SudoPrefix);
    forall i | 0 <= i < |argv| ensures (SudoPrefix + argv)[|SudoPrefix| + i] == argv[i] {
    }
  }
}
