/**
 * Properties of command lines: the order in which `_parse_command` checks a
 * command, the arguments of every COMMAND that reaches the output, and the
 * tokenisation of the common command shapes (a quoted string argument, a hex
 * argument, no argument).
 */
module CommandProperties {
  import opened PyStr
  import opened PyInt
  import opened LineParser
  import opened LineParserProperties

  // ---------------------------------------------------------------------
  // Validation order (`_parse_command`)
  // ---------------------------------------------------------------------

  /** Argument `j` is the first one that does not have the kind its position asks for. */
  predicate FirstBad(kinds: seq<Kind>, args: seq<string>, j: int)
    requires |kinds| == |args| && StringSlotsFilled(kinds, args)
  {
    && 0 <= j < |args|
    && Coerce(kinds[j], args[j]).None?
    && forall i :: 0 <= i < j ==> Coerce(kinds[i], args[i]).Some?
  }

  /** Every argument has the kind its position asks for. */
  predicate AllTyped(kinds: seq<Kind>, args: seq<string>)
    requires |kinds| == |args| && StringSlotsFilled(kinds, args)
  {
    forall i :: 0 <= i < |args| ==> Coerce(kinds[i], args[i]).Some?
  }

  /** The typed arguments, position by position, when every argument has its kind. */
  function TypedArgs(kinds: seq<Kind>, args: seq<string>): seq<Arg>
    requires |kinds| == |args| && StringSlotsFilled(kinds, args)
    requires AllTyped(kinds, args)
  {
    seq(|args|, i requires 0 <= i < |args| => Coerce(kinds[i], args[i]).value)
  }

  /** When `cs[j]` is the first None from `i` on, going through from `i` stops there. */
  lemma {:induction false} CoerceStopsAtFirstBad(cs: seq<Option<Arg>>, i: nat, j: nat)
    requires i <= j < |cs| && cs[j].None?
    requires forall k :: i <= k < j ==> cs[k].Some?
    ensures CoerceFrom(cs, i) == Bad(j)
    decreases j - i
  {
    if i < j {
      CoerceStopsAtFirstBad(cs, i + 1, j);
    }
  }

  /** When every argument has its kind, going through gives all their values, in order. */
  lemma CoerceTypesAll(kinds: seq<Kind>, args: seq<string>)
    requires |kinds| == |args| && StringSlotsFilled(kinds, args)
    requires AllTyped(kinds, args)
    ensures CoerceFrom(CoerceAll(kinds, args), 0) == Typed(TypedArgs(kinds, args))
  {
    var cs := CoerceAll(kinds, args);
    var r := CoerceFrom(cs, 0);
    var typed := TypedArgs(kinds, args);
    assert forall k :: 0 <= k < |cs| ==> cs[k].Some?;
    forall k | 0 <= k < |typed| ensures r.typed[k] == typed[k] {
      assert cs[0 + k] == Some(r.typed[k]);
    }
  }

  /**
   * `_parse_command` checks the name first, then the argument count, then the
   * arguments from left to right, and reports the first failure: an unknown
   * name, the expected and received counts, or the 1-based position and
   * expected kind of the first bad argument. Only a command that passes all
   * three is a COMMAND, and then it carries every argument typed.
   */
  lemma ValidationOrder(name: string, args: seq<string>)
    requires CommandCallable(name, args)
    ensures name !in Commands ==> Validate(name, args) == Error(UnknownCommand)
    ensures name in Commands && |args| != |Commands[name]| ==>
      Validate(name, args) == Error(ArityMessage(|Commands[name]|, |args|))
    ensures name in Commands && |args| == |Commands[name]| ==>
      forall j :: FirstBad(Commands[name], args, j) ==>
        Validate(name, args) == Error(ArgumentMessage(j + 1, Commands[name][j]))
    ensures Validate(name, args).Command? <==>
      name in Commands && |args| == |Commands[name]| && AllTyped(Commands[name], args)
    ensures name in Commands && |args| == |Commands[name]| && AllTyped(Commands[name], args) ==>
      Validate(name, args) == Command(Cmd(name, TypedArgs(Commands[name], args)))
  {
    if name in Commands && |args| == |Commands[name]| {
      var kinds := Commands[name];
      forall j | FirstBad(kinds, args, j)
        ensures Validate(name, args) == Error(ArgumentMessage(j + 1, kinds[j]))
      {
        var cs := CoerceAll(kinds, args);
        CoerceStopsAtFirstBad(cs, 0, j);
      }
      if AllTyped(kinds, args) {
        CoerceTypesAll(kinds, args);
      }
    }
  }

  // ---------------------------------------------------------------------
  // The commands that reach the output
  // ---------------------------------------------------------------------

  /**
   * A content operation that is a COMMAND comes from a `!` line, names a
   * command of the schema, carries arguments of the schema's kinds, and no
   * string argument keeps a double quote.
   */
  lemma ContentCommand(text: string)
    requires text != [] && !IsWhitespace(text[|text| - 1])
    ensures Content(text).Command? ==> text[0] == '!' && Content(text).command.name == CommandName(text)
    ensures Content(text).Command? ==> ValidCommand(Content(text).command)
  {
    ContentKinds(text);
    if text[0] == '!' {
      ContentOfCommand(text);
    }
  }

  /** A command of the schema, with arguments of its kinds, no string argument holding `"`. */
  predicate ValidCommand(c: Cmd) {
    && c.name in Commands
    && MatchesSchema(Commands[c.name], c.args)
    && forall j :: 0 <= j < |c.args| && c.args[j].S? ==> '"' !in c.args[j].text
  }

  /** Every COMMAND that a normalised line stands for is valid. */
  lemma AssembleCommands(n: Normalized)
    requires n.text == [] || !IsWhitespace(n.text[|n.text| - 1])
    ensures var ops := Assemble(n);
      forall i :: 0 <= i < |ops| && ops[i].Command? ==> ValidCommand(ops[i].command)
  {
    if n.text != [] {
      ContentCommand(n.text);
    }
  }

  /**
   * Every COMMAND in the result of any line names a command of the schema,
   * has arguments of the schema's kinds, and its string arguments hold no
   * double quote.
   */
  lemma CommandsInOutput(line: string)
    ensures var ops := Opcodes(line);
      forall i :: 0 <= i < |ops| && ops[i].Command? ==> ValidCommand(ops[i].command)
  {
    AssembleCommands(Normalize(line));
  }

  // ---------------------------------------------------------------------
  // Command lines
  // ---------------------------------------------------------------------

  /** A line whose normalized text starts with `!`: the quote check, then validation. */
  lemma CommandNormalized(line: string, t: string)
    requires Normalize(line) == Normalized(t, false)
    requires t != [] && t[0] == '!'
    ensures CommandCallable(CommandName(t), CommandArgs(t))
    ensures Count(t, '"') % 2 == 1 ==> Opcodes(line) == [SyntaxError]
    ensures Count(t, '"') % 2 == 0 ==> Opcodes(line) == [Validate(CommandName(t), CommandArgs(t))]
  {
    ContentOfCommand(t);
  }

  /** `line` is its own normalized text, a `!` line with balanced quotes, tokenised as `name` and `args`. */
  predicate TokenizedAs(line: string, name: string, args: seq<string>) {
    && Normalize(line) == Normalized(line, false)
    && line != [] && line[0] == '!' && Count(line, '"') % 2 == 0
    && CommandName(line) == name && CommandArgs(line) == args
  }

  /** No quotes, or one pair, is an even number of quotes. */
  lemma EvenQuotes(s: string)
    requires Count(s, '"') == 0 || Count(s, '"') == 2
    ensures Count(s, '"') % 2 == 0
  {
  }

  /** A tokenised command line is validated as tokenised. */
  lemma TokenizedCommand(line: string, name: string, args: seq<string>)
    requires TokenizedAs(line, name, args)
    ensures CommandCallable(name, args)
    ensures Opcodes(line) == [Validate(name, args)]
  {
    CommandNormalized(line, line);
  }

  /**
   * A command whose text, after comment removal, holds an odd number of
   * double quotes is the generic syntax error, followed by MULTILINE_COMMENT
   * when a block comment was left open.
   */
  lemma UnbalancedQuotes(line: string)
    requires Normalize(line).text != [] && Normalize(line).text[0] == '!'
    requires Count(Normalize(line).text, '"') % 2 == 1
    ensures Opcodes(line) == [SyntaxError] + (if Normalize(line).pending then [MultilineComment] else [])
  {
    ContentOfCommand(Normalize(line).text);
  }

  /** For a line without comments the count is over the line itself. */
  lemma UnbalancedQuotesPlain(line: string)
    requires '#' !in line && Absent(line, "/*")
    requires Strip(line) != [] && Strip(line)[0] == '!'
    requires Count(line, '"') % 2 == 1
    ensures Opcodes(line) == [SyntaxError]
  {
    NoBlockComment(line);
    CountStrip(line, '"');
    CommandNormalized(line, Strip(line));
  }

  /** Two parts in front of the rest of a split: their odd-numbered one comes first. */
  lemma OddPartsCons(a: string, b: string, rest: seq<string>)
    ensures OddParts([a, b] + rest) == [b] + OddParts(rest)
  {
    var parts := [a, b] + rest;
    var r := OddParts(parts);
    forall i | 1 <= i < |r| ensures r[i] == OddParts(rest)[i - 1] {
      assert parts[2 * i + 1] == rest[2 * (i - 1) + 1];
    }
  }

  /** The quoted spans come in the order of the line: the first pair of quotes gives the first span. */
  lemma {:induction false} QuotedSpansCons(a: string, b: string, rest: string)
    requires '"' !in a && '"' !in b
    ensures QuotedSpans(a + "\"" + b + "\"" + rest) == [b] + QuotedSpans(rest)
  {
    var s := a + "\"" + b + "\"" + rest;
    assert s == a + ['"'] + (b + ['"'] + rest);
    SplitTwoQuotes(a, b, rest);
    OddPartsCons(a, b, SplitOn(rest, '"'));
  }

  /** Splitting at the first two quotes gives the text before, the text between, and the split of the rest. */
  lemma SplitTwoQuotes(a: string, b: string, rest: string)
    requires '"' !in a && '"' !in b
    ensures SplitOn(a + ['"'] + (b + ['"'] + rest), '"') == [a, b] + SplitOn(rest, '"')
  {
    SplitOnAfter(a, b + ['"'] + rest, '"');
    SplitOnAfter(b, rest, '"');
    assert [a] + ([b] + SplitOn(rest, '"')) == [a, b] + SplitOn(rest, '"');
  }

  /** Text without a quote has no quoted span. */
  lemma QuotedSpansNone(s: string)
    requires '"' !in s
    ensures QuotedSpans(s) == []
  {
    SplitOnFree(s, '"');
  }

  /**
   * Once a `!` line holds a pair of quotes, its arguments are its quoted
   * spans, one per pair, in order, each in quotes again, so that each is
   * accepted as a string and stored as the span itself.
   */
  lemma QuotedArgs(line: string)
    requires '"' in line && Count(line, '"') % 2 == 0
    ensures |CommandArgs(line)| == |QuotedSpans(line)| == Count(line, '"') / 2 >= 1
    ensures forall i :: 0 <= i < |CommandArgs(line)| ==>
      CommandArgs(line)[i] == "\"" + QuotedSpans(line)[i] + "\""
    ensures forall i :: 0 <= i < |CommandArgs(line)| ==>
      Coerce(Str, CommandArgs(line)[i]) == Some(S(QuotedSpans(line)[i]))
  {
    var spans := QuotedSpans(line);
    QuotedSpansCount(line);
    forall i | 0 <= i < |spans| ensures Coerce(Str, "\"" + spans[i] + "\"") == Some(S(spans[i])) {
      QuotesRemoved(spans[i]);
    }
  }

  /** Unquoted tokens around a quoted span are never arguments. */
  lemma UnquotedTokensIgnored(head: string, body: string, tail: string)
    requires '"' !in head && '"' !in body && '"' !in tail
    ensures CommandArgs(head + "\"" + body + "\"" + tail) == ["\"" + body + "\""]
  {
    QuotedSpansCons(head, body, tail);
    QuotedSpansNone(tail);
  }

  /** A character that command names are made of. */
  predicate IsNameChar(ch: char) {
    'a' <= ch <= 'z' || '0' <= ch <= '9'
  }

  predicate IsPlainName(name: string) {
    forall i :: 0 <= i < |name| ==> IsNameChar(name[i])
  }

  /** Every name in the schema is lower-case letters and digits. */
  lemma SchemaNamesArePlain(name: string)
    requires name in Commands
    ensures IsPlainName(name)
  {
  }

  /** A plain name holds none of the characters the parser splits or cuts on. */
  lemma PlainNameHasNoMarkers(name: string)
    requires IsPlainName(name)
    ensures ' ' !in name && '"' !in name && '#' !in name && '/' !in name
  {
    forall i | 0 <= i < |name|
      ensures name[i] != ' ' && name[i] != '"' && name[i] != '#' && name[i] != '/'
    {
      assert IsNameChar(name[i]);
    }
  }

  /** A string free of `/` has no block-comment opener. */
  lemma NoSlashNoOpener(s: string)
    requires '/' !in s
    ensures Absent(s, "/*")
  {
    forall j | 0 <= j ensures !OccursAt(s, "/*", j) {
      if j + 2 <= |s| {
        assert s[j..j + 2][0] == s[j];
      }
    }
  }

  /** `s` holds a block-comment opener at `j` exactly when its characters there are `/` and `*`. */
  lemma OpenerAt(s: string, j: int)
    ensures OccursAt(s, "/*", j) <==> 0 <= j && j + 2 <= |s| && s[j] == '/' && s[j + 1] == '*'
  {
    if 0 <= j && j + 2 <= |s| {
      assert s[j..j + 2][0] == s[j] && s[j..j + 2][1] == s[j + 1];
      if s[j] == '/' && s[j + 1] == '*' {
        assert s[j..j + 2] == "/*";
      }
    }
  }

  /** A string free of `*` has no block-comment opener either. */
  lemma NoStarNoOpener(s: string)
    requires '*' !in s
    ensures Absent(s, "/*")
  {
    forall j | 0 <= j ensures !OccursAt(s, "/*", j) {
      OpenerAt(s, j);
      if j + 2 <= |s| {
        assert s[j + 1] in s;
      }
    }
  }

  /** Two texts without an opener, not meeting in `/` then `*`, joined have none either. */
  lemma AbsentJoin(a: string, b: string)
    requires Absent(a, "/*") && Absent(b, "/*")
    requires a == [] || b == [] || a[|a| - 1] != '/' || b[0] != '*'
    ensures Absent(a + b, "/*")
  {
    var s := a + b;
    forall j | 0 <= j ensures !OccursAt(s, "/*", j) {
      OpenerAt(s, j);
      if j + 2 <= |s| {
        if j + 2 <= |a| {
          OpenerAt(a, j);
          assert s[j] == a[j] && s[j + 1] == a[j + 1];
        } else if j >= |a| {
          OpenerAt(b, j - |a|);
          assert s[j] == b[j - |a|] && s[j + 1] == b[j + 1 - |a|];
        } else {
          assert s[j] == a[|a| - 1] && s[j + 1] == b[0];
        }
      }
    }
  }

  /** The text of `!name "body"` as a script line. */
  function QuotedLine(name: string, body: string): string {
    "!" + name + " \"" + body + "\""
  }

  /** How `!name "body"` is tokenised: the name, one re-quoted argument, two quotes. */
  lemma QuotedTokens(name: string, body: string)
    requires IsPlainName(name) && '"' !in body
    ensures CommandName(QuotedLine(name, body)) == name
    ensures CommandArgs(QuotedLine(name, body)) == ["\"" + body + "\""]
    ensures Count(QuotedLine(name, body), '"') == 2
  {
    QuotedLineQuotes(name, body);
    QuotedLineName(name, body);
  }

  /** `!name "body"` splits at its quotes into the head, the body and nothing. */
  lemma QuotedLineQuotes(name: string, body: string)
    requires IsPlainName(name) && '"' !in body
    ensures QuotedSpans(QuotedLine(name, body)) == [body]
    ensures Count(QuotedLine(name, body), '"') == 2
  {
    PlainNameHasNoMarkers(name);
    var line := QuotedLine(name, body);
    var head := "!" + name + " ";
    assert '"' !in head;
    assert line == head + ['"'] + (body + ['"'] + []);
    SplitTwoQuotes(head, body, []);
    SplitOnFree([], '"');
    SplitOnCount(line, '"');
    assert SplitOn(line, '"') == [head, body, []];
  }

  /** The first space of `!name "body"` comes right after the name. */
  lemma QuotedLineName(name: string, body: string)
    requires IsPlainName(name)
    ensures CommandName(QuotedLine(name, body)) == name
  {
    PlainNameHasNoMarkers(name);
    var line := QuotedLine(name, body);
    assert ' ' !in "!" + name;
    assert line == ("!" + name) + [' '] + ("\"" + body + "\"");
    SplitOnAfter("!" + name, "\"" + body + "\"", ' ');
  }

  /** `!name "body"` has no comment and nothing to strip when `body` holds no `#` and no opener. */
  lemma QuotedLineIsPlain(name: string, body: string)
    requires IsPlainName(name) && '#' !in body && Absent(body, "/*")
    ensures '#' !in QuotedLine(name, body)
    ensures Absent(QuotedLine(name, body), "/*")
    ensures Strip(QuotedLine(name, body)) == QuotedLine(name, body)
  {
    PlainNameHasNoMarkers(name);
    var line := QuotedLine(name, body);
    var head := "!" + name + " \"";
    assert '#' !in head && '/' !in head;
    assert line == head + body + "\"";
    assert '#' !in line;
    NoSlashNoOpener(head);
    NoSlashNoOpener("\"");
    AbsentJoin(head, body);
    AbsentJoin(head + body, "\"");
    StripTrimmed(line);
  }

  /** The quoted argument of a string command loses its quotes. */
  lemma QuotesRemoved(body: string)
    requires '"' !in body
    ensures Coerce(Str, "\"" + body + "\"") == Some(S(body))
  {
    var q := "\"" + body + "\"";
    assert q[0] == '"' && q[|q| - 1] == '"';
    RemoveCharAppend("\"" + body, "\"", '"');
    RemoveCharAppend("\"", body, '"');
    assert RemoveChar("\"", '"') == [];
    assert RemoveChar(body, '"') == body;
    assert RemoveChar(q, '"') == body;
  }

  /**
   * A string command with one quoted argument is a COMMAND whose argument is
   * the text between the quotes, a file path with `/` included; a `#`, a
   * block-comment opener or a `"` inside it would change how the line is cut
   * or split, so they are excluded here.
   */
  lemma QuotedArgument(name: string, body: string)
    requires name in Commands && Commands[name] == [Str]
    requires '"' !in body && '#' !in body && Absent(body, "/*")
    ensures Opcodes(QuotedLine(name, body)) == [Command(Cmd(name, [S(body)]))]
  {
    var line := QuotedLine(name, body);
    SchemaNamesArePlain(name);
    QuotedLineIsPlain(name, body);
    QuotedTokens(name, body);
    NoBlockComment(line);
    EvenQuotes(line);
    TokenizedCommand(line, name, ["\"" + body + "\""]);
    QuotedValidates(name, body);
  }

  /** How `!name "body" tail` is tokenised: the name, the quoted argument alone, two quotes. */
  lemma QuotedTailTokens(name: string, body: string, tail: string)
    requires IsPlainName(name) && '"' !in body && '"' !in tail
    ensures CommandName(QuotedLine(name, body) + tail) == name
    ensures CommandArgs(QuotedLine(name, body) + tail) == ["\"" + body + "\""]
    ensures Count(QuotedLine(name, body) + tail, '"') == 2
  {
    PlainNameHasNoMarkers(name);
    var line := QuotedLine(name, body) + tail;
    var head := "!" + name + " ";
    assert '"' !in head;
    QuotedLineSplits(name, body, tail);
    UnquotedTokensIgnored(head, body, tail);
    SplitOnAfter("!" + name, "\"" + body + "\"" + tail, ' ');
    CountAppend(head + "\"" + body + "\"", tail, '"');
    CountAppend(head + "\"" + body, "\"", '"');
    CountAppend(head + "\"", body, '"');
    CountAppend(head, "\"", '"');
  }

  /** `!name "body" tail` cut before its first quote, and around its first space. */
  lemma QuotedLineSplits(name: string, body: string, tail: string)
    ensures QuotedLine(name, body) + tail == ("!" + name + " ") + "\"" + body + "\"" + tail
    ensures QuotedLine(name, body) + tail == ("!" + name) + [' '] + ("\"" + body + "\"" + tail)
  {
    assert " \"" == " " + "\"";
    assert " \"" == [' '] + "\"";
  }

  /** A stripped text free of `#` and openers, followed by such a tail not ending in whitespace, is plain. */
  lemma PlainWithTail(line: string, tail: string)
    requires line != [] && Strip(line) == line && '#' !in line && Absent(line, "/*") && line[|line| - 1] != '/'
    requires '#' !in tail && Absent(tail, "/*")
    requires tail == [] || !IsWhitespace(tail[|tail| - 1])
    ensures '#' !in line + tail && Absent(line + tail, "/*")
    ensures Strip(line + tail) == line + tail
  {
    var s := line + tail;
    AbsentJoin(line, tail);
    assert s[0] == line[0];
    assert s[|s| - 1] == if tail == [] then line[|line| - 1] else tail[|tail| - 1];
    StripTrimmed(s);
  }

  /**
   * Unquoted text after the quoted argument of a string command changes
   * nothing: the COMMAND still carries only the text between the quotes.
   */
  lemma QuotedArgumentWithTail(name: string, body: string, tail: string)
    requires name in Commands && Commands[name] == [Str]
    requires '"' !in body && '#' !in body && Absent(body, "/*")
    requires '"' !in tail && '#' !in tail && Absent(tail, "/*")
    requires tail == [] || !IsWhitespace(tail[|tail| - 1])
    ensures Opcodes(QuotedLine(name, body) + tail) == [Command(Cmd(name, [S(body)]))]
  {
    var line := QuotedLine(name, body) + tail;
    SchemaNamesArePlain(name);
    QuotedTailTokenized(name, body, tail);
    TokenizedCommand(line, name, ["\"" + body + "\""]);
    QuotedValidates(name, body);
  }

  /** `!name "body" tail` is its own normalized text, tokenised as `name` with the quoted argument. */
  lemma QuotedTailTokenized(name: string, body: string, tail: string)
    requires IsPlainName(name)
    requires '"' !in body && '#' !in body && Absent(body, "/*")
    requires '"' !in tail && '#' !in tail && Absent(tail, "/*")
    requires tail == [] || !IsWhitespace(tail[|tail| - 1])
    ensures TokenizedAs(QuotedLine(name, body) + tail, name, ["\"" + body + "\""])
  {
    var line := QuotedLine(name, body) + tail;
    assert Normalize(line) == Normalized(line, false) by {
      QuotedLineIsPlain(name, body);
      PlainWithTail(QuotedLine(name, body), tail);
      NoBlockComment(line);
    }
    QuotedTailTokens(name, body, tail);
    EvenQuotes(line);
  }

  /** Validating a string command with one quoted argument. */
  lemma QuotedValidates(name: string, body: string)
    requires name in Commands && Commands[name] == [Str]
    requires '"' !in body
    ensures CommandCallable(name, ["\"" + body + "\""])
    ensures Validate(name, ["\"" + body + "\""]) == Command(Cmd(name, [S(body)]))
  {
    var args := ["\"" + body + "\""];
    QuotesRemoved(body);
    assert AllTyped(Commands[name], args);
    assert TypedArgs(Commands[name], args) == [S(body)];
    ValidationOrder(name, args);
  }

  /** No hex digit is one of the characters the parser splits or cuts on, or whitespace. */
  lemma HexDigitsHaveNoMarkers(ds: string)
    requires AllDigits(ds, 16)
    ensures ' ' !in ds && '"' !in ds && '#' !in ds && '/' !in ds
    ensures ds != [] ==> !IsWhitespace(ds[|ds| - 1])
  {
    forall i | 0 <= i < |ds|
      ensures ds[i] != ' ' && ds[i] != '"' && ds[i] != '#' && ds[i] != '/' && !IsWhitespace(ds[i])
    {
      assert IsDigit(ds[i], 16);
    }
  }

  /** The text of `!name ds` as a script line. */
  function HexArgLine(name: string, ds: string): string {
    "!" + name + " " + ds
  }

  /** How `!name ds` is tokenised: the name and the one argument `ds`, and no quotes. */
  lemma HexTokens(name: string, ds: string)
    requires IsPlainName(name) && AllDigits(ds, 16)
    ensures CommandName(HexArgLine(name, ds)) == name
    ensures CommandArgs(HexArgLine(name, ds)) == [ds]
    ensures Count(HexArgLine(name, ds), '"') == 0
  {
    PlainNameHasNoMarkers(name);
    HexDigitsHaveNoMarkers(ds);
    var line := HexArgLine(name, ds);
    var head := "!" + name;
    assert '"' !in head && ' ' !in head;
    assert line == head + [' '] + ds;
    assert '"' !in line;
    SplitOnFree(line, '"');
    assert QuotedSpans(line) == [];
    SplitOnAfter(head, ds, ' ');
    SplitOnFree(ds, ' ');
    assert SplitOn(line, ' ') == [head, ds];
  }

  /** `!name ds` has no comment and nothing to strip. */
  lemma HexArgLineIsPlain(name: string, ds: string)
    requires IsPlainName(name) && ds != [] && AllDigits(ds, 16)
    ensures '#' !in HexArgLine(name, ds) && Absent(HexArgLine(name, ds), "/*")
    ensures Strip(HexArgLine(name, ds)) == HexArgLine(name, ds)
  {
    PlainNameHasNoMarkers(name);
    HexDigitsHaveNoMarkers(ds);
    var line := HexArgLine(name, ds);
    var head := "!" + name + " ";
    assert '#' !in head && '/' !in head;
    assert line == head + ds;
    assert '#' !in line && '/' !in line;
    assert line[|line| - 1] == ds[|ds| - 1];
    NoSlashNoOpener(line);
    StripTrimmed(line);
  }

  /** Validating a hex command with one argument of hex digits. */
  lemma HexValidates(name: string, ds: string)
    requires name in Commands && Commands[name] == [HexInt]
    requires ds != [] && AllDigits(ds, 16)
    ensures CommandCallable(name, [ds])
    ensures Validate(name, [ds]) == Command(Cmd(name, [I(DigitsValue(ds, 16) as int)]))
  {
    PlainDigitsAccepted(ds, 16);
    assert Coerce(HexInt, ds) == Some(I(DigitsValue(ds, 16) as int));
    assert AllTyped(Commands[name], [ds]);
    assert TypedArgs(Commands[name], [ds]) == [I(DigitsValue(ds, 16) as int)];
    ValidationOrder(name, [ds]);
  }

  /** A hex command with one argument of hex digits is a COMMAND carrying the value of those digits. */
  lemma HexArgument(name: string, ds: string)
    requires name in Commands && Commands[name] == [HexInt]
    requires ds != [] && AllDigits(ds, 16)
    ensures Opcodes(HexArgLine(name, ds)) == [Command(Cmd(name, [I(DigitsValue(ds, 16) as int)]))]
  {
    var line := HexArgLine(name, ds);
    SchemaNamesArePlain(name);
    HexArgLineIsPlain(name, ds);
    HexTokens(name, ds);
    NoBlockComment(line);
    EvenQuotes(line);
    TokenizedCommand(line, name, [ds]);
    HexValidates(name, ds);
  }

  /** How `!name` is tokenised: the name and no arguments, and no quotes. */
  lemma BareTokens(name: string)
    requires IsPlainName(name)
    ensures CommandName(BareLine(name)) == name
    ensures CommandArgs(BareLine(name)) == []
    ensures Count(BareLine(name), '"') == 0
    ensures '#' !in BareLine(name) && Absent(BareLine(name), "/*")
    ensures Strip(BareLine(name)) == BareLine(name)
  {
    PlainNameHasNoMarkers(name);
    var line := BareLine(name);
    assert '"' !in line && ' ' !in line && '#' !in line && '/' !in line;
    SplitOnFree(line, '"');
    assert QuotedSpans(line) == [];
    SplitOnFree(line, ' ');
    assert line[|line| - 1] == '!' || IsNameChar(line[|line| - 1]);
    NoSlashNoOpener(line);
    StripTrimmed(line);
  }

  /** The text of `!name` as a script line. */
  function BareLine(name: string): string {
    "!" + name
  }

  /** `!name` is its own normalized text, tokenised as `name` with no arguments. */
  lemma BareTokenized(name: string)
    requires IsPlainName(name)
    ensures TokenizedAs(BareLine(name), name, [])
  {
    BareTokens(name);
    NoBlockComment(BareLine(name));
    EvenQuotes(BareLine(name));
  }

  /** A command line without arguments is validated with no arguments. */
  lemma BareLineValidated(name: string)
    requires IsPlainName(name)
    ensures CommandCallable(name, [])
    ensures Opcodes(BareLine(name)) == [Validate(name, [])]
  {
    var line := BareLine(name);
    BareTokenized(name);
    TokenizedCommand(line, name, []);
  }

  /**
   * A command without arguments: an unknown name is reported as such, a
   * command that expects an argument reports the expected count and 0, and
   * a command that expects none is a COMMAND with no arguments.
   */
  lemma BareCommand(name: string)
    requires IsPlainName(name)
    ensures Opcodes(BareLine(name)) == [
      if name !in Commands then Error(UnknownCommand)
      else if |Commands[name]| != 0 then Error(ArityMessage(|Commands[name]|, 0))
      else Command(Cmd(name, []))]
  {
    BareLineValidated(name);
    BareValidates(name);
  }

  /** Validating a command given no arguments. */
  lemma BareValidates(name: string)
    ensures CommandCallable(name, [])
    ensures Validate(name, []) ==
      if name !in Commands then Error(UnknownCommand)
      else if |Commands[name]| != 0 then Error(ArityMessage(|Commands[name]|, 0))
      else Command(Cmd(name, []))
  {
    ValidationOrder(name, []);
    if name in Commands && |Commands[name]| == 0 {
      assert TypedArgs(Commands[name], []) == [];
    }
  }
}
