/**
 * Particular script lines and the operations they stand for, each derived
 * from the general properties in LineParserProperties and CommandProperties.
 * The general statements come first, over any plain name; the particular
 * lines are instances of them.
 */
module WorkedLines {
  import opened PyStr
  import opened PyInt
  import opened LineParser
  import opened LineParserProperties
  import opened CommandProperties

  /** A bare command whose name the schema does not know is UNKNOWN. */
  lemma UnknownBareCommand(name: string)
    requires IsPlainName(name) && name !in Commands
    ensures Opcodes(BareLine(name)) == [Error(UnknownCommand)]
  {
    BareCommand(name);
  }

  /** A bare command that takes arguments reports how many it expected and that none came. */
  lemma MissingArguments(name: string)
    requires IsPlainName(name) && name in Commands && |Commands[name]| != 0
    ensures Opcodes(BareLine(name)) == [Error(ArityMessage(|Commands[name]|, 0))]
  {
    BareCommand(name);
  }

  /** The text of `!name "body` as a script line: a quote opened and never closed. */
  function OpenQuoteLine(name: string, body: string): string {
    "!" + name + " \"" + body
  }

  /** `!name "body` with a single quote is the generic syntax error. */
  lemma OpenQuote(name: string, body: string)
    requires IsPlainName(name)
    requires '"' !in body && '#' !in body && '/' !in body
    requires body == [] || !IsWhitespace(body[|body| - 1])
    ensures Opcodes(OpenQuoteLine(name, body)) == [SyntaxError]
  {
    var line := OpenQuoteLine(name, body);
    OpenQuoteParts(name, body);
    NoSlashNoOpener(line);
    StripTrimmed(line);
    UnbalancedQuotesPlain(line);
  }

  /** `!name "body` holds one quote and no comment marker. */
  lemma OpenQuoteParts(name: string, body: string)
    requires IsPlainName(name)
    requires '"' !in body && '#' !in body && '/' !in body
    ensures Count(OpenQuoteLine(name, body), '"') == 1
    ensures '#' !in OpenQuoteLine(name, body) && '/' !in OpenQuoteLine(name, body)
  {
    PlainNameHasNoMarkers(name);
    var line := OpenQuoteLine(name, body);
    var head := "!" + name + " ";
    assert '"' !in head && '#' !in head && '/' !in head;
    assert line == head + "\"" + body;
    CountAppend(head + "\"", body, '"');
    CountAppend(head, "\"", '"');
  }

  /** `!loc 80001234` sets the location: one COMMAND with the integer 0x80001234. */
  lemma LocLine()
    ensures Opcodes(HexArgLine("loc", "80001234")) == [Command(Cmd("loc", [I(0x8000_1234)]))]
  {
    LocValue();
    HexArgument("loc", "80001234");
  }

  /** The digits `80001234` read in base 16. */
  lemma LocValue()
    ensures AllDigits("80001234", 16) && DigitsValue("80001234", 16) == 0x8000_1234
  {
    assert IsDigit('8', 16) && IsDigit('0', 16) && IsDigit('1', 16);
    assert IsDigit('2', 16) && IsDigit('3', 16) && IsDigit('4', 16);
    var s0: string := [];
    var s1 := s0 + ['8'];
    DigitsValueSnoc(s0, '8', 16);
    var s2 := s1 + ['0'];
    DigitsValueSnoc(s1, '0', 16);
    var s3 := s2 + ['0'];
    DigitsValueSnoc(s2, '0', 16);
    var s4 := s3 + ['0'];
    DigitsValueSnoc(s3, '0', 16);
    var s5 := s4 + ['1'];
    DigitsValueSnoc(s4, '1', 16);
    var s6 := s5 + ['2'];
    DigitsValueSnoc(s5, '2', 16);
    var s7 := s6 + ['3'];
    DigitsValueSnoc(s6, '3', 16);
    var s8 := s7 + ['4'];
    DigitsValueSnoc(s7, '4', 16);
    assert s8 == "80001234";
  }

  /** Reading one more digit multiplies by the base and adds that digit. */
  lemma DigitsValueSnoc(ds: string, d: char, base: nat)
    requires AllDigits(ds, base) && IsDigit(d, base)
    ensures AllDigits(ds + [d], base)
    ensures DigitsValue(ds + [d], base) == DigitsValue(ds, base) * base + DigitValue(d)
  {
    assert (ds + [d])[..|ds|] == ds;
  }

  /** `!echo "hello world"` carries the text between the quotes, space included. */
  lemma EchoLine()
    ensures Opcodes(QuotedLine("echo", "hello world")) == [Command(Cmd("echo", [S("hello world")]))]
  {
    NoSlashNoOpener("hello world");
    QuotedArgument("echo", "hello world");
  }

  /** `!string "abc"` stores `abc`, without the quotes. */
  lemma StringLine()
    ensures Opcodes(QuotedLine("string", "abc")) == [Command(Cmd("string", [S("abc")]))]
  {
    NoSlashNoOpener("abc");
    QuotedArgument("string", "abc");
  }

  /** `!src "code/main.asm"`: a file path keeps its `/`, which opens no comment. */
  lemma SourcePathLine()
    ensures Opcodes(QuotedLine("src", "code/main.asm")) == [Command(Cmd("src", [S("code/main.asm")]))]
  {
    NoStarNoOpener("code/main.asm");
    QuotedArgument("src", "code/main.asm");
  }

  /** `!echo "hello" world`: the unquoted `world` is dropped and the quoted text is the argument. */
  lemma EchoWithStrayToken()
    ensures Opcodes(QuotedLine("echo", "hello") + " world") == [Command(Cmd("echo", [S("hello")]))]
  {
    assert !IsWhitespace('d');
    NoSlashNoOpener("hello");
    NoSlashNoOpener(" world");
    QuotedArgumentWithTail("echo", "hello", " world");
  }

  /** `!loc` without its argument is an arity error: 1 expected and 0 received. */
  lemma LocWithoutArgument()
    ensures Opcodes(BareLine("loc")) == [Error(ArityMessage(1, 0))]
  {
    assert IsPlainName("loc");
    MissingArguments("loc");
  }

  /** The arity message for one expected and none received, spelled out. */
  lemma OneExpectedNoneReceived()
    ensures ArityMessage(1, 0) == "Command expected 1 arg(s) but received 0"
  {
    assert FormatNat(1) == "1" && FormatNat(0) == "0";
    assert ArityMessage(1, 0) == "Command expected " + "1" + " arg(s) but received " + "0";
  }

  /** `!bogus` is not in the schema. */
  lemma BogusLine()
    ensures Opcodes(BareLine("bogus")) == [Error("Unknown command")]
  {
    assert IsPlainName("bogus");
    UnknownBareCommand("bogus");
  }

  /** `!echo "abc` has one quote, so it is the generic syntax error. */
  lemma OddQuotesLine()
    ensures Opcodes(OpenQuoteLine("echo", "abc")) == [SyntaxError]
  {
    assert IsPlainName("echo");
    OpenQuote("echo", "abc");
  }

  /** A line of spaces and a tab yields nothing. */
  lemma SpacesAndTabLine()
    ensures Opcodes(" \t ") == []
  {
    assert AllWhitespace(" \t ");
    WhitespaceAndCommentOnly(" \t ", "");
  }

  /** A line that is only a `#` comment yields nothing. */
  lemma NoteLine()
    ensures Opcodes("  " + "#" + " just a note") == []
  {
    assert AllWhitespace("  ");
    WhitespaceAndCommentOnly("  ", " just a note");
  }
}
