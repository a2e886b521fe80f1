/**
 * The single-line classifier of the Gecko-code build-script language.
 *
 * `ParseOpcodes` takes one script line and returns the operations it stands
 * for: the line is cut at `#`, a block comment (opened by slash-star, closed
 * by star-slash) is spliced out (or, when it is not closed on the line,
 * everything from its opener on is dropped and a MULTILINE_COMMENT signal is
 * kept for the end), the rest is stripped, and a
 * non-blank remainder is classified as a raw hex line, a raw binary line, a
 * `!` command checked against the `Commands` schema, or a syntax error.
 *
 * The functions `Normalize`, `Content`, `Validate` and `Opcodes` specify the
 * two methods; the lemmas about them are in module LineParserProperties.
 */
module LineParser {
  import opened PyStr
  import opened PyInt

  /** The eight operation kinds of `CODETYPES`, each with the payload it carries. */
  datatype Op =
    | Comment
    | MultilineComment
    | MultilineEnd
    | Bin(bits: string)
    | Hex(digits: string)
    | Command(command: Cmd)
    | Warning(warning: string)
    | Error(message: string)

  /** A validated command argument: a string without its quotes, or the value of a hex token. */
  datatype Arg = S(text: string) | I(number: int)

  /** A command as handed on after validation: its name and its typed arguments. */
  datatype Cmd = Cmd(name: string, args: seq<Arg>)

  /** The argument kinds of the schema: `str`, and `int`, which is always read in base 16. */
  datatype Kind = Str | HexInt

  /** `COMMANDS`: every known command with the kinds of the arguments it expects. */
  const Commands: map<string, seq<Kind>> := map[
    "loc" := [HexInt],
    "gci" := [HexInt],
    "src" := [Str],
    "file" := [Str],
    "geckocodelist" := [Str],
    "string" := [Str],
    "asm" := [],
    "asmend" := [],
    "c2" := [Str],
    "c2end" := [],
    "begin" := [],
    "end" := [],
    "echo" := [Str]
  ]

  /** `SYNTAX_ERROR`, the generic error for a line that cannot be classified. */
  const SyntaxError: Op := Error("Invalid syntax")

  const UnknownCommand: string := "Unknown command"

  /** The message for a command given the wrong number of arguments. */
  function ArityMessage(expected: nat, received: nat): string {
    "Command expected " + FormatNat(expected) + " arg(s) but received " + FormatNat(received)
  }

  /** The message for the argument at 1-based `position` not being of kind `kind`. */
  function ArgumentMessage(position: nat, kind: Kind): string {
    "Command argument " + FormatNat(position)
      + (if kind == Str then " must be a string" else " must be a hex value")
  }

  // ---------------------------------------------------------------------
  // Argument validation (`_parse_command`)
  // ---------------------------------------------------------------------

  /**
   * Every argument in a `Str` position is non-empty. The source reads the
   * first character of such an argument unguarded, so an empty one would
   * raise IndexError; `ParseOpcodes` never produces one.
   */
  predicate StringSlotsFilled(kinds: seq<Kind>, args: seq<string>) {
    forall j :: 0 <= j < |args| && j < |kinds| && kinds[j] == Str ==> args[j] != []
  }

  /** What `_parse_command` demands of its `Command`: string arguments are non-empty when the arity is right. */
  predicate CommandCallable(name: string, args: seq<string>) {
    name in Commands && |args| == |Commands[name]| ==> StringSlotsFilled(Commands[name], args)
  }

  /**
   * The typed value of one argument token of kind `k`, or None where the
   * source reports the argument as not of that kind. A string keeps no `"`;
   * a hex token gives the integer `int(token, 16)` reads.
   */
  function Coerce(k: Kind, a: string): (r: Option<Arg>)
    requires k == Str ==> a != []
    ensures r.Some? ==> (r.value.S? <==> k == Str)
    ensures r.Some? && k == Str ==> r.value.text == RemoveChar(a, '"') && '"' !in r.value.text
    ensures r.Some? && k == HexInt ==> Some(r.value.number) == IntOfString(a, 16)
    ensures k == Str ==> (r.Some? <==> a[0] == '"' && a[|a| - 1] == '"')
    ensures k == HexInt ==> (r.Some? <==> IntOfString(a, 16).Some?)
  {
    match k
    case Str => if a[0] == '"' && a[|a| - 1] == '"' then Some(S(RemoveChar(a, '"'))) else None
    case HexInt => match IntOfString(a, 16) {
      case Some(v) => Some(I(v))
      case None => None
    }
  }

  /** The outcome of typing an argument list: all typed, or the index of the first bad one. */
  datatype Coerced = Typed(typed: seq<Arg>) | Bad(index: nat)

  /** `Typed` results after a typed prefix `ts`; a `Bad` result is kept. */
  function Prepend(ts: seq<Arg>, c: Coerced): Coerced {
    match c
    case Typed(rest) => Typed(ts + rest)
    case Bad(j) => Bad(j)
  }

  lemma PrependNothing(c: Coerced)
    ensures Prepend([], c) == c
  {
    if c.Typed? {
      assert [] + c.typed == c.typed;
    }
  }

  lemma PrependTwice(ts: seq<Arg>, us: seq<Arg>, c: Coerced)
    ensures Prepend(ts, Prepend(us, c)) == Prepend(ts + us, c)
  {
    if c.Typed? {
      assert ts + (us + c.typed) == (ts + us) + c.typed;
    }
  }

  /** A typed argument at `i` moves from the rest to the typed prefix. */
  lemma CoerceStep(ts: seq<Arg>, cs: seq<Option<Arg>>, i: nat, a: Arg)
    requires i < |cs| && cs[i] == Some(a)
    ensures Prepend(ts, CoerceFrom(cs, i)) == Prepend(ts + [a], CoerceFrom(cs, i + 1))
  {
    PrependTwice(ts, [a], CoerceFrom(cs, i + 1));
  }

  /** An argument at `i` of the wrong kind is reported, whatever was typed before it. */
  lemma CoerceStopsAt(ts: seq<Arg>, cs: seq<Option<Arg>>, i: nat)
    requires i < |cs| && cs[i].None?
    ensures Prepend(ts, CoerceFrom(cs, i)) == Bad(i)
  {
  }

  /** The typed value, or None, of every argument against the kind of its position. */
  function CoerceAll(kinds: seq<Kind>, args: seq<string>): (cs: seq<Option<Arg>>)
    requires |kinds| == |args|
    requires StringSlotsFilled(kinds, args)
    ensures |cs| == |args|
    ensures forall j :: 0 <= j < |args| ==> cs[j] == Coerce(kinds[j], args[j])
  {
    seq(|args|, j requires 0 <= j < |args| => Coerce(kinds[j], args[j]))
  }

  /**
   * Going through `cs[i..]` left to right: the index of the first argument
   * that does not have its kind, or else all the typed values in order.
   */
  function CoerceFrom(cs: seq<Option<Arg>>, i: nat): (r: Coerced)
    requires i <= |cs|
    ensures r.Bad? ==> i <= r.index < |cs| && cs[r.index].None?
    ensures r.Bad? ==> forall j :: i <= j < r.index ==> cs[j].Some?
    ensures r.Typed? ==> |r.typed| == |cs| - i
    ensures r.Typed? ==> forall k :: 0 <= k < |r.typed| ==> cs[i + k] == Some(r.typed[k])
    decreases |cs| - i
  {
    if i == |cs| then Typed([])
    else
      match cs[i]
      case None => Bad(i)
      case Some(a) =>
        match CoerceFrom(cs, i + 1)
        case Bad(j) => Bad(j)
        case Typed(rest) =>
          assert ([a] + rest)[1..] == rest;
          Typed([a] + rest)
  }

  /** The argument list has the schema's length and, position by position, its kinds. */
  predicate MatchesSchema(kinds: seq<Kind>, args: seq<Arg>) {
    |args| == |kinds| && forall j :: 0 <= j < |args| ==> (args[j].S? <==> kinds[j] == Str)
  }

  /**
   * `_parse_command` as one operation: an unknown name, a wrong argument
   * count, or the first argument not of its kind is an ERROR; otherwise a
   * COMMAND with the same name and arguments typed as the schema says.
   */
  function Validate(name: string, args: seq<string>): (r: Op)
    requires CommandCallable(name, args)
    ensures r.Command? || r.Error?
    ensures r.Error? ==> r.message != []
    ensures r.Command? ==> r.command.name == name && name in Commands
    ensures r.Command? ==> MatchesSchema(Commands[name], r.command.args)
    ensures r.Command? ==> |args| == |Commands[name]|
    ensures r.Command? ==> forall j :: 0 <= j < |args| ==> Coerce(Commands[name][j], args[j]) == Some(r.command.args[j])
  {
    if name !in Commands then Error(UnknownCommand)
    else
      var kinds := Commands[name];
      if |args| != |kinds| then Error(ArityMessage(|kinds|, |args|))
      else
        match CoerceFrom(CoerceAll(kinds, args), 0)
        case Bad(j) => Error(ArgumentMessage(j + 1, kinds[j]))
        case Typed(typed) => Command(Cmd(name, typed))
  }

  // ---------------------------------------------------------------------
  // Command tokenisation
  // ---------------------------------------------------------------------

  /** `s.split('"')[1::2]`: the texts between the 1st and 2nd, 3rd and 4th, ... double quote. */
  function QuotedSpans(s: string): (spans: seq<string>)
    ensures forall i :: 0 <= i < |spans| ==> '"' !in spans[i]
  {
    OddParts(SplitOn(s, '"'))
  }

  /** There are as many quoted spans as there are complete pairs of quotes. */
  lemma QuotedSpansCount(s: string)
    ensures |QuotedSpans(s)| == (Count(s, '"') + 1) / 2
  {
    SplitOnCount(s, '"');
  }

  /** The command name: the first space-separated token of the line without its leading `!`. */
  function CommandName(line: string): (name: string)
    requires line != [] && line[0] == '!'
    ensures ' ' !in name
  {
    SplitOn(line, ' ')[0][1..]
  }

  /**
   * The candidate arguments: the quoted spans, re-quoted, if there are any;
   * else the other space-separated tokens, none of which holds a space.
   */
  function CommandArgs(line: string): (args: seq<string>)
    ensures QuotedSpans(line) == [] ==> forall i :: 0 <= i < |args| ==> ' ' !in args[i]
    ensures QuotedSpans(line) != [] ==> |args| == |QuotedSpans(line)|
    ensures QuotedSpans(line) != [] ==> forall i :: 0 <= i < |args| ==>
      2 <= |args[i]| && args[i][0] == '"' && args[i][|args[i]| - 1] == '"'
  {
    var spans := QuotedSpans(line);
    if spans != [] then seq(|spans|, i requires 0 <= i < |spans| => "\"" + spans[i] + "\"")
    else SplitOn(line, ' ')[1..]
  }

  /** No schema entry takes more than one argument. */
  lemma SchemaArity(name: string)
    requires name in Commands
    ensures |Commands[name]| <= 1
  {
  }

  /** The arguments taken from a stripped `!` line meet what `_parse_command` demands. */
  lemma CommandArgsCallable(line: string)
    requires line != [] && line[0] == '!' && !IsWhitespace(line[|line| - 1])
    ensures CommandCallable(CommandName(line), CommandArgs(line))
  {
    var name, args := CommandName(line), CommandArgs(line);
    if name in Commands && |args| == |Commands[name]| && QuotedSpans(line) == [] {
      SchemaArity(name);
      if |args| == 1 {
        var parts := SplitOn(line, ' ');
        SplitOnLast(line, ' ');
        assert args[0] == parts[|parts| - 1];
      }
    }
  }

  // ---------------------------------------------------------------------
  // The whole line (`parse_opcodes`)
  // ---------------------------------------------------------------------

  /** A line after its comments are removed and it is stripped, and whether a block comment was left open. */
  datatype Normalized = Normalized(text: string, pending: bool)

  /** `s` up to its first `#`. */
  function CutAtHash(s: string): string {
    var k := Find(s, "#");
    if k >= 0 then s[..k] else s
  }

  /** Nothing from the first `#` on survives the cut. */
  lemma CutAtHashHasNoHash(s: string)
    ensures '#' !in CutAtHash(s)
  {
    var h := CutAtHash(s);
    forall j | 0 <= j < |h| ensures h[j] != '#' {
      assert !OccursAt(s, "#", j);
      assert s[j..j + 1] == [s[j]];
    }
  }

  /**
   * Comment removal: the text is cut at the first `#`; if it holds a
   * block-comment opener (slash-star), the part from the first opener to after
   * the first closer (star-slash) anywhere in it is removed, or, without any
   * closer, everything from the opener on is removed and a multi-line comment
   * is left pending.
   */
  function Uncomment(line: string): Normalized
  {
    var h := CutAtHash(line);
    var open := Find(h, "/*");
    if open < 0 then Normalized(h, false)
    else
      var close := Find(h, "*/");
      if close >= 0 then Normalized(h[..open] + h[close + 2..], false)
      else Normalized(h[..open], true)
  }

  /** No `#` survives comment removal. */
  lemma UncommentHasNoHash(line: string)
    ensures '#' !in Uncomment(line).text
  {
    var h := CutAtHash(line);
    CutAtHashHasNoHash(line);
    var kept := Uncomment(line).text;
    var open := Find(h, "/*");
    if open >= 0 {
      var close := Find(h, "*/");
      forall j | 0 <= j < |kept| ensures kept[j] != '#' {
        if j >= open {
          assert kept[j] == h[close + 2 + j - open];
        }
      }
    }
  }

  /** Comment removal followed by stripping. */
  function Normalize(line: string): (n: Normalized)
    ensures n.text == [] || (!IsWhitespace(n.text[0]) && !IsWhitespace(n.text[|n.text| - 1]))
    ensures n.pending == Uncomment(line).pending
  {
    var u := Uncomment(line);
    Normalized(Strip(u.text), u.pending)
  }

  /** No `#` survives normalisation. */
  lemma NormalizeHasNoHash(line: string)
    ensures '#' !in Normalize(line).text
  {
    UncommentHasNoHash(line);
    StripAddsNothing(Uncomment(line).text, '#');
  }

  predicate IsHexDigit(ch: char) {
    IsDigit(ch, 16)
  }

  /**
   * The one operation a normalised, non-blank line stands for: HEX for a hex
   * digit first, BIN for `%`, the validated command for `!`, and otherwise the
   * generic syntax error.
   */
  function Content(text: string): (op: Op)
    requires text != [] && !IsWhitespace(text[|text| - 1])
  {
    if IsHexDigit(text[0]) then
      var digits := RemoveWhitespace(text);
      if IntOfString(digits, 16).Some? then Hex(digits) else SyntaxError
    else if text[0] == '%' then
      var bits := RemoveWhitespace(text[1..]);
      if IntOfString(bits, 2).Some? then Bin(bits) else SyntaxError
    else if text[0] == '!' then
      if Count(text, '"') % 2 == 1 then SyntaxError
      else
        CommandArgsCallable(text);
        Validate(CommandName(text), CommandArgs(text))
    else SyntaxError
  }

  /**
   * The operations of a normalised line: nothing for a blank line, else its
   * one content operation; then MULTILINE_COMMENT when a block comment was
   * left open.
   */
  function Assemble(n: Normalized): seq<Op>
    requires n.text == [] || !IsWhitespace(n.text[|n.text| - 1])
  {
    (if n.text == [] then [] else [Content(n.text)]) + (if n.pending then [MultilineComment] else [])
  }

  /** The operations of one script line. */
  function Opcodes(line: string): seq<Op> {
    var n := Normalize(line);
    assert n.text == [] || !IsWhitespace(n.text[|n.text| - 1]);
    Assemble(n)
  }

  /**
   * One pass of `_parse_command`'s loop: a string argument must start and end
   * with `"` and loses every `"`; a hex argument must be read by `int(arg, 16)`.
   * None is where the source reports the argument as not of its kind.
   */
  method TypeArgument(kind: Kind, arg: string) returns (typed: Option<Arg>)
    requires kind == Str ==> arg != []
    ensures typed == Coerce(kind, arg)
  {
    if kind == Str {
      if arg[0] != '"' || arg[|arg| - 1] != '"' {
        return None;
      }
      return Some(S(RemoveChar(arg, '"')));
    }
    var parsed := IntOfString(arg, 16);
    if parsed.None? {
      return None;
    }
    return Some(I(parsed.value));
  }

  /**
   * The loop of `_parse_command`: types the arguments left to right against
   * their kinds and stops at the first one that is not of its kind.
   */
  method TypeArguments(kinds: seq<Kind>, args: seq<string>) returns (outcome: Coerced)
    requires |kinds| == |args| && StringSlotsFilled(kinds, args)
    ensures outcome == CoerceFrom(CoerceAll(kinds, args), 0)
  {
    var typedArgs: seq<Arg> := [];
    ghost var coerced := CoerceAll(kinds, args);
    PrependNothing(CoerceFrom(coerced, 0));
    var index := 0;
    while index < |args|
      invariant 0 <= index <= |args|
      invariant Prepend(typedArgs, CoerceFrom(coerced, index)) == CoerceFrom(coerced, 0)
    {
      var typed := TypeArgument(kinds[index], args[index]);
      if typed.None? {
        CoerceStopsAt(typedArgs, coerced, index);
        return Bad(index);
      }
      var typedArg := typed.value;
      CoerceStep(typedArgs, coerced, index, typedArg);
      typedArgs := typedArgs + [typedArg];
      index := index + 1;
    }
    assert typedArgs + [] == typedArgs;
    return Typed(typedArgs);
  }

  /** `_parse_command`: validates a command's name, argument count and argument kinds, in that order. */
  method ParseCommand(name: string, args: seq<string>) returns (ops: seq<Op>)
    requires CommandCallable(name, args)
    ensures ops == [Validate(name, args)]
  {
    if name !in Commands {
      return [Error(UnknownCommand)];
    }
    var argCount := |args|;
    var expectedArgCount := |Commands[name]|;
    if argCount != expectedArgCount {
      return [Error(ArityMessage(expectedArgCount, argCount))];
    }
    var expectedTypes := Commands[name];
    var outcome := TypeArguments(expectedTypes, args);
    match outcome
    case Bad(index) =>
      return [Error(ArgumentMessage(index + 1, expectedTypes[index]))];
    case Typed(typedArgs) =>
      return [Command(Cmd(name, typedArgs))];
  }

  /**
   * The classification step of `parse_opcodes` for a stripped, non-blank
   * line: raw hex, raw binary, a command, or a syntax error.
   */
  method ParseContent(text: string) returns (ops: seq<Op>)
    requires text != [] && !IsWhitespace(text[|text| - 1])
    ensures ops == [Content(text)]
  {
    var line := text;
    if IsHexDigit(line[0]) {
      line := RemoveWhitespace(line);
      if IntOfString(line, 16).Some? {
        ops := [Hex(line)];
      } else {
        ops := [SyntaxError];
      }
    } else if line[0] == '%' {
      line := line[1..];
      line := RemoveWhitespace(line);
      if IntOfString(line, 2).Some? {
        ops := [Bin(line)];
      } else {
        ops := [SyntaxError];
      }
    } else if line[0] == '!' {
      if Count(line, '"') % 2 == 1 {
        ops := [SyntaxError];
      } else {
        var commandArgs := SplitOn(line, ' ');
        var commandName := commandArgs[0][1..];
        commandArgs := commandArgs[1..];
        var commandQuotes := QuotedSpans(line);
        if commandQuotes != [] {
          commandQuotes := seq(|commandQuotes|, i requires 0 <= i < |commandQuotes| => "\"" + commandQuotes[i] + "\"");
          commandArgs := commandQuotes;
        }
        assert commandName == CommandName(line) && commandArgs == CommandArgs(line);
        CommandArgsCallable(line);
        var validatedCommands := ParseCommand(commandName, commandArgs);
        ops := validatedCommands;
      }
    } else {
      ops := [SyntaxError];
    }
  }

  /** `parse_opcodes`: the operations one script line stands for. */
  method ParseOpcodes(scriptLine: string) returns (opList: seq<Op>)
    ensures opList == Opcodes(scriptLine)
  {
    opList := [];
    var multilineComment := false;
    var line := scriptLine;
    // Trim a single-line comment.
    var commentIndex := Find(line, "#");
    if commentIndex >= 0 {
      line := line[..commentIndex];
    }
    // Trim a multi-line comment, or everything after an unclosed one.
    commentIndex := Find(line, "/*");
    if commentIndex >= 0 {
      var endIndex := Find(line, "*/");
      if endIndex >= 0 {
        line := line[..commentIndex] + line[endIndex + 2..];
      } else {
        line := line[..commentIndex];
        multilineComment := true;
      }
    }
    assert Normalized(line, multilineComment) == Uncomment(scriptLine);
    line := Strip(line);
    if line == [] {
      if multilineComment {
        opList := opList + [MultilineComment];
      }
      return;
    }
    opList := ParseContent(line);
    if multilineComment {
      opList := opList + [MultilineComment];
    }
  }
}
