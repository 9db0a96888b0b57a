/** Quoting an argument list for a Windows command line, and reading it back. */
module WinQuote {
  function Slashes(n: nat): string {
    seq(n, _ => '\\')
  }

  predicate IsBlank(c: char) {
    c == ' ' || c == '\t'
  }

  predicate NeedsQuotes(arg: string) {
    arg == "" || exists i :: 0 <= i < |arg| && arg[i] in " \t\n\U{0B}\""
  }

  /** What stands between the quotes; `pending` backslashes have been read but not written. */
  function Escaped(arg: string, pending: nat): string {
    if arg == "" then Slashes(2 * pending)
    else if arg[0] == '\\' then Escaped(arg[1..], pending + 1)
    else if arg[0] == '"' then Slashes(2 * pending + 1) + "\"" + Escaped(arg[1..], 0)
    else Slashes(pending) + [arg[0]] + Escaped(arg[1..], 0)
  }

  function Quote(arg: string): string {
    if NeedsQuotes(arg) then "\"" + Escaped(arg, 0) + "\"" else arg
  }

  /** The quoted arguments with one space between them. */
  function CommandLine(args: seq<string>): string {
    if args == [] then ""
    else if |args| == 1 then Quote(args[0])
    else Quote(args[0]) + " " + CommandLine(args[1..])
  }

  lemma {:induction false} EscapedIsLonger(arg: string, pending: nat)
    ensures |Escaped(arg, pending)| >= |arg| + pending
  {
    if arg != "" {
      EscapedIsLonger(arg[1..], if arg[0] == '\\' then pending + 1 else 0);
    }
  }

  /** An argument is left as it is exactly when it is not empty and holds no blank, no line break and no quote. */
  lemma PlainIsKept(arg: string)
    ensures Quote(arg) == arg <==>
      arg != "" && forall i :: 0 <= i < |arg| ==> arg[i] !in " \t\n\U{0B}\""
  {
    EscapedIsLonger(arg, 0);
    if Quote(arg) == arg { assert |Quote(arg)| == |arg|; }
  }

  method CmdlineQuote(arg: string) returns (quoted: string)
    ensures quoted == Quote(arg)
  {
    var special := false;
    for i := 0 to |arg|
      invariant special <==> exists k :: 0 <= k < i && arg[k] in " \t\n\U{0B}\""
    {
      if arg[i] in " \t\n\U{0B}\"" { special := true; }
    }
    if arg != "" && !special { return arg; }
    var out := "\"";
    var backslashes := 0;
    assert arg[0..] == arg;
    for i := 0 to |arg|
      invariant out + Escaped(arg[i..], backslashes) == "\"" + Escaped(arg, 0)
    {
      var c := arg[i];
      ghost var rest := arg[i + 1..];
      assert arg[i..][1..] == rest;
      if c == '\\' {
        backslashes := backslashes + 1;
      } else if c == '"' {
        assert out + (Slashes(2 * backslashes + 1) + "\"" + Escaped(rest, 0))
            == out + Slashes(2 * backslashes + 1) + "\"" + Escaped(rest, 0);
        out := out + Slashes(2 * backslashes + 1) + "\"";
        backslashes := 0;
      } else {
        assert out + (Slashes(backslashes) + [c] + Escaped(rest, 0)) == out + Slashes(backslashes) + [c]
            + Escaped(rest, 0);
        out := out + Slashes(backslashes) + [c];
        backslashes := 0;
      }
    }
    quoted := out + Slashes(2 * backslashes) + "\"";
  }

  method JoinQuoted(argv: seq<string>) returns (command: string)
    ensures command == CommandLine(argv)
  {
    command := "";
    hide Quote;
    if argv == [] { return; }
    command := CmdlineQuote(argv[0]);
    assert argv == [argv[0]] + argv[1..];
    for i := 1 to |argv|
      invariant command + (if i == |argv| then "" else " " + CommandLine(argv[i..])) == CommandLine(argv)
    {
      var q := CmdlineQuote(argv[i]);
      assert argv[i..][1..] == argv[i + 1..];
      assert command + (" " + CommandLine(argv[i..])) == command + " " + CommandLine(argv[i..]);
      command := command + " " + q;
    }
  }

  // ---------------------------------------------------------------------
  // Reading it back: the rules of CommandLineToArgvW after the program name
  // ---------------------------------------------------------------------

  /**
    Reads one argument.  `pending` backslashes have been read; before a quote
    they count half, and an odd one makes the quote literal; elsewhere they are
    literal.  A doubled quote inside quotes is a literal quote.
  */
  function ReadArg(s: string, inQuotes: bool, pending: nat, acc: string): (res: (string, string))
    ensures |res.1| <= |s|
    decreases |s|
  {
    if s == "" then (acc + Slashes(pending), "")
    else if s[0] == '\\' then ReadArg(s[1..], inQuotes, pending + 1, acc)
    else if s[0] == '"' then
      var acc1 := acc + Slashes(pending / 2);
      if pending % 2 == 1 then ReadArg(s[1..], inQuotes, 0, acc1 + "\"")
      else if inQuotes && |s| > 1 && s[1] == '"' then ReadArg(s[2..], true, 0, acc1 + "\"")
      else ReadArg(s[1..], !inQuotes, 0, acc1)
    else if IsBlank(s[0]) && !inQuotes then (acc + Slashes(pending), s)
    else ReadArg(s[1..], inQuotes, 0, acc + Slashes(pending) + [s[0]])
  }

  function SkipBlanks(s: string): (t: string)
    ensures |t| <= |s|
    ensures t != "" ==> !IsBlank(t[0])
  {
    if s != "" && IsBlank(s[0]) then SkipBlanks(s[1..]) else s
  }

  function ReadArgs(s: string): seq<string>
    decreases |s|
  {
    var t := SkipBlanks(s);
    if t == "" then []
    else
      var (arg, rest) := ReadArg(t, false, 0, "");
      [arg] + ReadArgs(rest)
  }

  lemma {:induction false} ReadSlashes(k: nat, s: string, inQuotes: bool, pending: nat, acc: string)
    ensures ReadArg(Slashes(k) + s, inQuotes, pending, acc) == ReadArg(s, inQuotes, pending + k, acc)
    decreases k
  {
    if k == 0 {
      assert Slashes(0) + s == s;
    } else {
      ReadSlashes(k - 1, s, inQuotes, pending + 1, acc);
      assert (Slashes(k) + s)[1..] == Slashes(k - 1) + s;
    }
  }

  /** What may follow an argument: the end, or a blank. */
  predicate EndsArg(rest: string) {
    rest == "" || IsBlank(rest[0])
  }

  lemma {:induction false} ReadPlain(arg: string, rest: string, pending: nat, acc: string)
    requires EndsArg(rest) && forall i :: 0 <= i < |arg| ==> arg[i] !in " \t\n\U{0B}\""
    ensures ReadArg(arg + rest, false, pending, acc) == (acc + Slashes(pending) + arg, rest)
    decreases |arg|
  {
    if arg == "" {
      assert "" + rest == rest && acc + Slashes(pending) + "" == acc + Slashes(pending);
    } else {
      assert (arg + rest)[1..] == arg[1..] + rest;
      if arg[0] == '\\' {
        ReadPlain(arg[1..], rest, pending + 1, acc);
        assert acc + Slashes(pending + 1) + arg[1..] == acc + Slashes(pending) + arg;
      } else {
        ReadPlain(arg[1..], rest, 0, acc + Slashes(pending) + [arg[0]]);
        assert acc + Slashes(pending) + [arg[0]] + Slashes(0) + arg[1..] == acc + Slashes(pending) + arg;
      }
    }
  }

  /** Backslashes and an escaped quote read as half of them and the quote. */
  lemma ReadEscapedQuote(pending: nat, next: string, acc: string)
    ensures ReadArg(Slashes(2 * pending + 1) + "\"" + next, true, 0, acc)
         == ReadArg(next, true, 0, acc + Slashes(pending) + "\"")
  {
    var k := 2 * pending + 1;
    assert Slashes(k) + "\"" + next == Slashes(k) + ("\"" + next);
    ReadSlashes(k, "\"" + next, true, 0, acc);
    assert ("\"" + next)[1..] == next;
  }

  /** Backslashes before any other character read as themselves. */
  lemma ReadOther(pending: nat, c: char, next: string, acc: string)
    requires c != '\\' && c != '"'
    ensures ReadArg(Slashes(pending) + [c] + next, true, 0, acc)
         == ReadArg(next, true, 0, acc + Slashes(pending) + [c])
  {
    assert Slashes(pending) + [c] + next == Slashes(pending) + ([c] + next);
    ReadSlashes(pending, [c] + next, true, 0, acc);
    assert ([c] + next)[1..] == next;
  }

  /** Doubled backslashes before the closing quote read as half of them. */
  lemma ReadClosing(pending: nat, rest: string, acc: string)
    requires EndsArg(rest)
    ensures ReadArg(Slashes(2 * pending) + "\"" + rest, true, 0, acc) == (acc + Slashes(pending), rest)
  {
    assert Slashes(2 * pending) + "\"" + rest == Slashes(2 * pending) + ("\"" + rest);
    ReadSlashes(2 * pending, "\"" + rest, true, 0, acc);
    assert ("\"" + rest)[1..] == rest;
    assert acc + Slashes(pending) + Slashes(0) == acc + Slashes(pending);
  }

  lemma {:induction false} ReadEscaped(arg: string, pending: nat, rest: string, acc: string)
    requires EndsArg(rest)
    ensures ReadArg(Escaped(arg, pending) + "\"" + rest, true, 0, acc) == (acc + Slashes(pending) + arg, rest)
    decreases |arg|
  {
    hide ReadArg, Slashes;
    if arg == "" {
      ReadClosing(pending, rest, acc);
      assert acc + Slashes(pending) + arg == acc + Slashes(pending);
    } else {
      var tail := arg[1..];
      var next := Escaped(tail, 0) + "\"" + rest;
      assert arg == [arg[0]] + tail;
      NoSlashes();
      if arg[0] == '\\' {
        ReadEscaped(tail, pending + 1, rest, acc);
        OneMoreSlash(pending);
        assert acc + (Slashes(pending) + "\\") + tail == acc + Slashes(pending) + (['\\'] + tail);
      } else if arg[0] == '"' {
        assert Escaped(arg, pending) + "\"" + rest == Slashes(2 * pending + 1) + "\"" + next;
        ReadEscapedQuote(pending, next, acc);
        ReadEscaped(tail, 0, rest, acc + Slashes(pending) + "\"");
        assert acc + Slashes(pending) + "\"" + "" + tail == acc + Slashes(pending) + (['"'] + tail);
      } else {
        assert Escaped(arg, pending) + "\"" + rest == Slashes(pending) + [arg[0]] + next;
        ReadOther(pending, arg[0], next, acc);
        ReadEscaped(tail, 0, rest, acc + Slashes(pending) + [arg[0]]);
        assert acc + Slashes(pending) + [arg[0]] + "" + tail == acc + Slashes(pending) + ([arg[0]] + tail);
      }
    }
  }

  lemma NoSlashes()
    ensures Slashes(0) == ""
  {
  }

  lemma OneMoreSlash(n: nat)
    ensures Slashes(n + 1) == Slashes(n) + "\\"
  {
  }

  /** One quoted argument reads back as itself, whatever it holds. */
  lemma ReadQuoted(arg: string, rest: string)
    requires EndsArg(rest)
    ensures ReadArg(Quote(arg) + rest, false, 0, "") == (arg, rest)
    ensures Quote(arg) != "" && !IsBlank(Quote(arg)[0])
  {
    assert "" + Slashes(0) + arg == arg;
    if NeedsQuotes(arg) {
      var s := Escaped(arg, 0) + "\"" + rest;
      assert Quote(arg) + rest == "\"" + s;
      assert ("\"" + s)[1..] == s;
      assert "" + Slashes(0) == "";
      ReadEscaped(arg, 0, rest, "");
    } else {
      ReadPlain(arg, rest, 0, "");
    }
  }

  /** Round trip: any argument list is read back from its command line. */
  lemma {:induction false} RoundTrip(args: seq<string>)
    ensures ReadArgs(CommandLine(args)) == args
    decreases |args|
  {
    hide ReadArg, Quote;
    if args != [] {
      var rest := if |args| == 1 then "" else " " + CommandLine(args[1..]);
      assert CommandLine(args) == Quote(args[0]) + rest;
      ReadQuoted(args[0], rest);
      RoundTrip(args[1..]);
      assert args == [args[0]] + args[1..];
    }
  }

  /** So no two argument lists share a command line. */
  lemma CommandLineIsInjective(a: seq<string>, b: seq<string>)
    requires CommandLine(a) == CommandLine(b)
    ensures a == b
  {
    RoundTrip(a);
    RoundTrip(b);
  }
}
