/** Shell-integration marks: the text of an OSC payload, and what it says. */
module Marks {
  import opened Bytes

  /** The marks of OSC 133 and, where they differ in effect, of OSC 633. */
  datatype Mark =
    | PromptStart
    | CommandStart
    | Executed
    | Finished(exitCode: Option<int>)
    | Cwd(path: string)
    | CommandLine(text: string)
    | PlainPrompt
    | PlainCommandStart
    | Unknown

  /** What stands before the first `c` and what stands behind it. */
  function Partition(s: string, c: char): (string, string) {
    if s == "" then ("", "")
    else if s[0] == c then ("", s[1..])
    else
      var (a, b) := Partition(s[1..], c);
      ([s[0]] + a, b)
  }

  predicate StartsWith(s: string, prefix: string) {
    |prefix| <= |s| && s[..|prefix|] == prefix
  }

  function Lower(s: string): string {
    if s == "" then "" else [if 'A' <= s[0] <= 'Z' then s[0] + 32 as char else s[0]] + Lower(s[1..])
  }

  /** The text behind `b64:`, if it can be decoded. */
  type Base64 = string -> Option<string>

  function DirectoryMark(rest: string): Mark {
    var (key, value) := Partition(rest, '=');
    if Lower(key) in {"cwd", "dir"} && value != "" then Cwd(value) else Unknown
  }

  function LineText(rest: string, base64: Base64): string {
    if StartsWith(rest, "b64:") then
      var t := base64(rest[4..]);
      if t == None then rest else t.value
    else rest
  }

  // ---------------------------------------------------------------------
  // Exit codes
  // ---------------------------------------------------------------------

  predicate IsSpace(c: char) {
    9 <= c as int <= 13 || 28 <= c as int <= 32
  }

  function StripLeft(s: string): string {
    if s != "" && IsSpace(s[0]) then StripLeft(s[1..]) else s
  }

  function StripRight(s: string): string {
    if s != "" && IsSpace(s[|s| - 1]) then StripRight(s[..|s| - 1]) else s
  }

  predicate IsDigit(c: char) {
    '0' <= c <= '9'
  }

  function DigitValue(c: char): nat
    requires IsDigit(c)
  {
    c as int - '0' as int
  }

  /** More digits behind a number read so far, with single underscores between them. */
  function MoreDigits(s: string, value: int): Option<int> {
    if s == "" then Some(value)
    else if IsDigit(s[0]) then MoreDigits(s[1..], 10 * value + DigitValue(s[0]))
    else if s[0] == '_' && |s| > 1 && IsDigit(s[1]) then MoreDigits(s[1..], value)
    else None
  }

  function Natural(s: string): Option<int> {
    if s != "" && IsDigit(s[0]) then MoreDigits(s[1..], DigitValue(s[0])) else None
  }

  /** The number in the text, as Python's `int` reads it; `None` for an empty text and for what is no number. */
  function ExitCode(rest: string): Option<int> {
    var s := StripRight(StripLeft(rest));
    if s == "" then None
    else if s[0] == '-' then
      var n := Natural(s[1..]);
      if n == None then None else Some(-n.value)
    else if s[0] == '+' then Natural(s[1..])
    else Natural(s)
  }

  function DigitOf(n: nat): (c: char)
    requires n < 10
    ensures IsDigit(c) && DigitValue(c) == n
  {
    (n + '0' as int) as char
  }

  function DecimalNat(n: nat): (s: string)
    ensures s != "" && forall i :: 0 <= i < |s| ==> IsDigit(s[i])
  {
    if n < 10 then [DigitOf(n)] else DecimalNat(n / 10) + [DigitOf(n % 10)]
  }

  function Decimal(n: int): string {
    if n < 0 then "-" + DecimalNat(-n) else DecimalNat(n)
  }

  lemma {:induction false} DigitJoins(s: string, c: char, value: int)
    requires IsDigit(c) && MoreDigits(s, value) != None && forall i :: 0 <= i < |s| ==> IsDigit(s[i])
    ensures MoreDigits(s + [c], value) == Some(10 * MoreDigits(s, value).value + DigitValue(c))
    decreases |s|
  {
    if s == "" {
      assert (s + [c])[1..] == "";
    } else {
      assert (s + [c])[1..] == s[1..] + [c];
      DigitJoins(s[1..], c, 10 * value + DigitValue(s[0]));
    }
  }

  lemma {:induction false} NaturalRoundTrip(n: nat)
    ensures Natural(DecimalNat(n)) == Some(n)
  {
    if n >= 10 {
      var s, c := DecimalNat(n / 10), DigitOf(n % 10);
      NaturalRoundTrip(n / 10);
      DigitJoins(s[1..], c, DigitValue(s[0]));
      assert (s + [c])[1..] == s[1..] + [c];
    }
  }

  /** Every exit code is read back as it was printed. */
  lemma ExitCodeRoundTrip(n: int)
    ensures ExitCode(Decimal(n)) == Some(n)
  {
    var s := Decimal(n);
    NaturalRoundTrip(if n < 0 then -n else n);
    assert !IsSpace(s[0]) && !IsSpace(s[|s| - 1]);
    assert StripRight(StripLeft(s)) == s;
    if n < 0 { assert s[1..] == DecimalNat(-n); }
  }

  lemma NoExitCode()
    ensures ExitCode("") == None
  {
  }

  // ---------------------------------------------------------------------
  // Recognising a mark
  // ---------------------------------------------------------------------

  function Mark133(kind: string, rest: string, base64: Base64): Mark {
    match kind
    case "A" => PromptStart
    case "B" => CommandStart
    case "C" => Executed
    case "D" => Finished(ExitCode(rest))
    case "P" => DirectoryMark(rest)
    case _ => Unknown
  }

  function Mark633(kind: string, rest: string, base64: Base64): Mark {
    match kind
    case "E" => CommandLine(LineText(rest, base64))
    case "P" => DirectoryMark(rest)
    case "A" => PlainPrompt
    case "B" => PlainCommandStart
    case "C" => Executed
    case "D" => Finished(ExitCode(rest))
    case _ => Unknown
  }

  /** The mark in the text of an OSC payload. */
  function MarkOf(text: string, base64: Base64): Mark {
    if StartsWith(text, "133;") then
      var (kind, rest) := Partition(text[4..], ';');
      Mark133(kind, rest, base64)
    else if StartsWith(text, "633;") then
      var (kind, rest) := Partition(text[4..], ';');
      Mark633(kind, rest, base64)
    else Unknown
  }

  /** The text a shell writes for a mark; a command that looks encoded has to be. */
  function MarkText(m: Mark, encode: string -> string): string {
    match m
    case PromptStart => "133;A"
    case CommandStart => "133;B"
    case Executed => "133;C"
    case Finished(exitCode) => if exitCode == None then "133;D" else "133;D;" + Decimal(exitCode.value)
    case Cwd(path) => "633;P;Cwd=" + path
    case CommandLine(text) => "633;E;" + if StartsWith(text, "b64:") then "b64:" + encode(text) else text
    case PlainPrompt => "633;A"
    case PlainCommandStart => "633;B"
    case Unknown => ""
  }

  lemma {:induction false} PartitionAt(a: string, c: char, b: string)
    requires c !in a
    ensures Partition(a + [c] + b, c) == (a, b)
    ensures Partition(a, c) == (a, "")
  {
    if a == "" {
      assert a + [c] + b == [c] + b;
    } else {
      PartitionAt(a[1..], c, b);
      assert (a + [c] + b)[1..] == a[1..] + [c] + b;
      assert [a[0]] + a[1..] == a;
    }
  }

  lemma PartsOf(text: string, prefix: string, kind: string, rest: string, base64: Base64)
    requires (prefix == "133;" || prefix == "633;") && ';' !in kind
    requires text == prefix + kind + ";" + rest || (text == prefix + kind && rest == "")
    ensures MarkOf(text, base64) == if prefix == "133;" then Mark133(kind, rest, base64)
        else Mark633(kind, rest, base64)
  {
    hide Mark133, Mark633;
    PartitionAt(kind, ';', rest);
    hide Partition;
    assert text[..4] == prefix;
    assert prefix == "633;" ==> prefix[0] != "133;"[0];
    if text == prefix + kind {
      assert text[4..] == kind;
    } else {
      assert text[4..] == kind + [';'] + rest;
    }
  }

  lemma UnknownText(base64: Base64)
    ensures MarkOf("", base64) == Unknown
  {
  }

  /** What a shell writes is recognised as what it meant, for every directory, command and exit code. */
  lemma MarkRoundTrip(m: Mark, base64: Base64, encode: string -> string)
    requires forall t :: base64(encode(t)) == Some(t)
    requires m.Cwd? ==> m.path != ""
    ensures MarkOf(MarkText(m, encode), base64) == m
  {
    var text := MarkText(m, encode);
    hide MarkOf, Partition, ExitCode, Decimal;
    match m {
      case PromptStart => PartsOf(text, "133;", "A", "", base64);
      case CommandStart => PartsOf(text, "133;", "B", "", base64);
      case Executed => PartsOf(text, "133;", "C", "", base64);
      case Finished(exitCode) =>
        if exitCode == None {
          NoExitCode();
          PartsOf(text, "133;", "D", "", base64);
        } else {
          var n := exitCode.value;
          assert text == "133;" + "D" + ";" + Decimal(n);
          PartsOf(text, "133;", "D", Decimal(n), base64);
          ExitCodeRoundTrip(n);
        }
      case Cwd(path) =>
        PartsOf(text, "633;", "P", "Cwd=" + path, base64);
        PartitionAt("Cwd", '=', path);
        assert "Cwd=" + path == "Cwd" + ['='] + path;
        assert Lower("Cwd") == "cwd";
      case CommandLine(line) =>
        var rest := if StartsWith(line, "b64:") then "b64:" + encode(line) else line;
        PartsOf(text, "633;", "E", rest, base64);
        EncodedLine(line, base64, encode);
      case PlainPrompt => PartsOf(text, "633;", "A", "", base64);
      case PlainCommandStart => PartsOf(text, "633;", "B", "", base64);
      case Unknown => UnknownText(base64);
    }
  }

  /** OSC 133 and OSC 633 share the marks of execution, of the end and of the directory. */
  lemma MarksInCommon(prefix: string, n: int, base64: Base64)
    requires prefix == "133;" || prefix == "633;"
    ensures MarkOf(prefix + "C", base64) == Executed
    ensures MarkOf(prefix + "D", base64) == Finished(None)
    ensures MarkOf(prefix + "D" + ";" + Decimal(n), base64) == Finished(Some(n))
  {
    hide MarkOf, Partition, ExitCode, Decimal;
    PartsOf(prefix + "C", prefix, "C", "", base64);
    NoExitCode();
    PartsOf(prefix + "D", prefix, "D", "", base64);
    ExitCodeRoundTrip(n);
    PartsOf(prefix + "D" + ";" + Decimal(n), prefix, "D", Decimal(n), base64);
  }

  /** Both tell the directory, under either name; an empty one is not told. */
  lemma DirectoryInCommon(prefix: string, key: string, path: string, base64: Base64)
    requires (prefix == "133;" || prefix == "633;") && (key == "Cwd" || key == "Dir")
    ensures MarkOf(prefix + "P" + ";" + (key + "=" + path), base64) == if path == "" then Unknown else Cwd(path)
  {
    hide MarkOf, Partition;
    DirectoryIs(key, path);
    PartsOf(prefix + "P" + ";" + (key + "=" + path), prefix, "P", key + "=" + path, base64);
  }

  lemma DirectoryIs(key: string, path: string)
    requires key == "Cwd" || key == "Dir"
    ensures DirectoryMark(key + "=" + path) == if path == "" then Unknown else Cwd(path)
  {
    PartitionAt(key, '=', path);
    assert key + "=" + path == key + ['='] + path;
    assert Lower("Cwd") == "cwd" && Lower("Dir") == "dir";
    hide Lower, Partition;
  }

  /** Any other letter, any other OSC and a prompt or a command line of the wrong OSC say nothing. */
  lemma NothingElseIsAMark(text: string, base64: Base64)
    requires MarkOf(text, base64) != Unknown
    ensures StartsWith(text, "133;") || StartsWith(text, "633;")
    ensures var kind := Partition(text[4..], ';').0;
      kind in {"A", "B", "C", "D", "P"} || (kind == "E" && StartsWith(text, "633;"))
  {
  }

  lemma EncodedLine(line: string, base64: Base64, encode: string -> string)
    requires base64(encode(line)) == Some(line)
    ensures LineText(if StartsWith(line, "b64:") then "b64:" + encode(line) else line, base64) == line
  {
    var t := "b64:" + encode(line);
    assert t[..4] == "b64:" && t[4..] == encode(line);
  }
}
