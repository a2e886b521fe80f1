# Gecko-code script line parser, modelled in Dafny

This project models the single-line classifier of the Melee GCI compiler's
build-script language (`mgc-tools/lineparser.py`). One line of a Gecko-code
build script goes in; an ordered list of tagged operations comes out. The
classifier works in five steps:

1. It cuts the line at the first `#`. It then removes a `/* … */` block
   comment, or it drops everything from an unclosed `/*` on and keeps a
   pending MULTILINE_COMMENT signal.
2. It strips the line. A blank line ends here.
3. A first character that is a hex digit makes a raw HEX line; a first `%`
   makes a raw BIN line. The whitespace is removed and Python's
   `int(…, 16)` or `int(…, 2)` must accept the result.
4. A first `!` makes a command. The line must hold an even number of `"`.
   The name is the first space-separated token without its `!`. The
   arguments are the quoted spans, re-quoted, when there are any, and
   otherwise the remaining space-separated tokens.
5. `_parse_command` checks the command against the 13-entry `COMMANDS`
   schema. It checks the name, then the argument count, then each
   argument's kind in order. The result is one COMMAND with typed
   arguments, or one ERROR.

Any other first character is the generic `Invalid syntax` error. The
pending MULTILINE_COMMENT signal always comes last.

Files and modules:

- `pystr.dfy` (module `PyStr`) models the Python `str` operations the parser
  uses: `find`, `strip`, deleting `string.whitespace`, `split` on one
  character, `count`, `replace(c, '')` and the slice `[1::2]`.
- `pyint.dfy` (module `PyInt`) models Python's `int(s, base)` for bases 2
  and 16 and `f"{n}"` for the numbers in error messages. The `int` model
  includes the forms Python accepts beyond bare digits: surrounding
  whitespace, one sign, a `0x`/`0b` prefix, and single `_` separators.
- `lineparser.dfy` (module `LineParser`) holds the data model (`Op` with the
  eight `CODETYPES`, `Cmd`, `Arg`, `Kind`, the `Commands` schema). It also
  holds the specification functions (`Normalize`, `Content`, `Validate`,
  `Opcodes`) and the imperative methods `ParseOpcodes`, `ParseContent` and
  `ParseCommand`. These methods follow the source statement by statement
  and are proved to compute those functions. The loop of `_parse_command` is the
  method `TypeArguments`, and its body, which types one argument, is the
  method `TypeArgument`.
- `lineparser_props.dfy` (module `LineParserProperties`) proves comment
  handling, blank lines, the shape of the result, and hex and binary lines.
- `command_props.dfy` (module `CommandProperties`) proves the validation
  order, the tokenisation of quoted and unquoted arguments, and the
  validity of every COMMAND that reaches the output.
- `worked_lines.dfy` (module `WorkedLines`) proves particular lines as
  instances of the general lemmas, such as `!loc 80001234`,
  `!echo "hello world"`, `!loc` and `!bogus`.

Two behaviours of the classifier are easy to miss, and the model keeps both:

- HEX and BIN payloads may hold more than digits. Python's `int` also
  accepts a sign, a `0x`/`0b` prefix and `_` separators, so payloads such
  as `0x12`, `1_000` or `-101` are accepted (`PyInt.IntOfString`).
- A block comment closed on the same line is removed as
  `s[:open] + s[close+2:]`, where `close` is the first `*/` anywhere on the
  line, even one before the `/*`
  (`LineParserProperties.BlockCommentClosed`).

## Model

| member | source | states |
|---|---|---|
| `LineParser.ParseOpcodes` | mgc-tools/lineparser.py:37-110 | the method, statement for statement as in `parse_opcodes`, returns exactly `Opcodes(line)`: the comment cuts, the strip, the blank-line return, the classification and the trailing signal |
| `LineParser.ParseContent` | mgc-tools/lineparser.py:64-106 | the hex / `%` / `!` / other dispatch on a stripped non-blank line returns exactly `[Content(text)]` |
| `LineParser.ParseCommand` | mgc-tools/lineparser.py:112-148 | the name check, the arity check and the typing loop, with their early returns, return exactly `[Validate(name, args)]` |
| `LineParser.TypeArguments` | mgc-tools/lineparser.py:127-146 | the loop over the arguments stops at the first one not of its kind and otherwise yields every typed value in order, exactly `CoerceFrom(CoerceAll(kinds, args), 0)`; the invariant ties the typed prefix to the left-to-right typing of the rest |
| `LineParser.Validate` | mgc-tools/lineparser.py:119-148 | the result is a COMMAND or an ERROR; an ERROR has a non-empty message; a COMMAND keeps the name, the name is in the schema, the arity matches, every argument has its schema kind and is the coercion of the raw token at its position |
| `LineParser.Coerce` | mgc-tools/lineparser.py:132-146 | a `str` slot accepts exactly the tokens that start and end with `"` (so `"ab` and `ab"` are refused) and stores them with every `"` removed; an `int` slot accepts exactly the tokens `int(token, 16)` accepts, with the value it reads |
| `LineParser.TypeArgument` | mgc-tools/lineparser.py:131-146 | one pass of the loop: the quote test or the base-16 read gives exactly `Coerce` of the slot's kind and the token |
| `LineParser.CoerceFrom` | mgc-tools/lineparser.py:131-146 | typing stops at the first argument of the wrong kind and reports its index; otherwise every argument is typed, position by position |
| `LineParser.QuotedSpans` | mgc-tools/lineparser.py:94 | no span of `split('"')[1::2]` holds a `"` |
| `LineParser.QuotedSpansCount` | mgc-tools/lineparser.py:94 | `split('"')[1::2]` has (number of quotes + 1) / 2 spans |
| `LineParser.CommandName` | mgc-tools/lineparser.py:91-92 | the name holds no space; `QuotedTokens`, `HexTokens` and `BareCommand` show it is the text between `!` and the first space |
| `LineParser.CommandArgs` | mgc-tools/lineparser.py:91-98 | without quotes, the tokens after the name, none holding a space; with quotes, one argument per span, each starting and ending with `"` (`QuotedArgs` gives their contents) |
| `LineParser.SchemaArity` | mgc-tools/lineparser.py:15-30 | no schema entry takes more than one argument |
| `LineParser.CommandArgsCallable` | mgc-tools/lineparser.py:91-100 | the tokens taken from a stripped `!` line never give an empty string-kind argument, so the unguarded `arg[0]` of `_parse_command` cannot fail |
| `LineParser.CutAtHash` | mgc-tools/lineparser.py:45-46 | the cut at the first `#`; `LineParser.CutAtHashHasNoHash` proves no `#` survives and `LineParserProperties.HashCommentIgnored` that text after it never matters |
| `LineParser.Uncomment` | mgc-tools/lineparser.py:45-56 | comment removal; `UncommentHasNoHash`, `BlockCommentClosed` and `BlockCommentOpen` state what it leaves for each kind of comment |
| `LineParser.Normalize` | mgc-tools/lineparser.py:44-58 | the normalised text has no leading or trailing whitespace, and the pending flag is the one comment removal left |
| `LineParser.UncommentHasNoHash` | mgc-tools/lineparser.py:45-56 | no `#` survives comment removal, even after a block comment is spliced out |
| `LineParser.NormalizeHasNoHash` | mgc-tools/lineparser.py:45-58 | no `#` survives normalisation |
| `LineParserProperties.HashCommentIgnored` | mgc-tools/lineparser.py:45-46 | text from the first `#` on never changes the result |
| `LineParserProperties.BlockCommentClosed` | mgc-tools/lineparser.py:48-53 | with an opener and a closer, the line becomes `s[:open] + s[firstClose+2:]`, wherever the first closer is, and nothing is pending |
| `LineParserProperties.BlockCommentOpen` | mgc-tools/lineparser.py:48-56 | with an opener and no closer, the line becomes `s[:open]`; the result is that prefix's result followed by MULTILINE_COMMENT |
| `LineParserProperties.BlankLine` | mgc-tools/lineparser.py:58-62 | a blank normalised line gives `[]`, or `[MULTILINE_COMMENT]` when a block comment is pending |
| `LineParserProperties.EmptyResult` | mgc-tools/lineparser.py:58-62 | the result is empty exactly when the normalised line is blank and nothing is pending |
| `LineParserProperties.WhitespaceAndCommentOnly` | mgc-tools/lineparser.py:45-62 | a line of whitespace, with or without a `#` comment after it, gives `[]` |
| `LineParserProperties.ContentKinds` | mgc-tools/lineparser.py:64-106 | the content operation is HEX, BIN, COMMAND or ERROR; HEX only for a hex-digit first character, with the whitespace-free line that base 16 accepts; BIN only for `%`, with the whitespace-free rest that base 2 accepts; COMMAND only for `!` with an even number of quotes; an ERROR always has a message |
| `LineParserProperties.AssembleShape` | mgc-tools/lineparser.py:58-110 | one content operation for a non-blank line, then MULTILINE_COMMENT exactly when pending and only in last place; never COMMENT, MULTILINE_END or WARNING |
| `LineParserProperties.OutputShape` | mgc-tools/lineparser.py:37-110 | for any line: length 0, 1 or 2 as above, the signal only last, and no COMMENT, MULTILINE_END or WARNING |
| `LineParserProperties.HexLine` | mgc-tools/lineparser.py:65-72 | for a comment-free line: HEX of the line without whitespace, case kept, when base 16 accepts it, else the syntax error; hex digits and whitespace always give HEX |
| `LineParserProperties.BinLine` | mgc-tools/lineparser.py:74-83 | for a comment-free `%` line: BIN of the rest without whitespace when base 2 accepts it, else the syntax error |
| `LineParserProperties.OtherLine` | mgc-tools/lineparser.py:104-106 | for a comment-free line whose first non-blank character is not a hex digit, `%` or `!`: the generic syntax error alone |
| `LineParserProperties.EmptyBinLine` | mgc-tools/lineparser.py:76-83 | `%` with nothing but whitespace after it is the syntax error |
| `LineParserProperties.BinDigitsLine` | mgc-tools/lineparser.py:76-81 | `%` followed by binary digits and whitespace gives BIN of those digits |
| `CommandProperties.ValidationOrder` | mgc-tools/lineparser.py:119-148 | `Unknown command` first, then `Command expected N arg(s) but received M`, then `Command argument i must be a string` / `must be a hex value` for the first bad argument (1-based); COMMAND exactly when all pass, with every argument typed |
| `CommandProperties.CommandsInOutput` | mgc-tools/lineparser.py:100-101 | every COMMAND in any result names a schema command, has arguments of its schema kinds, and no string argument holds `"` |
| `CommandProperties.TokenizedCommand` | mgc-tools/lineparser.py:86-101 | a `!` line with an even number of quotes, tokenised as `name` and `args`, gives exactly the one validation result of that name and those arguments |
| `CommandProperties.UnbalancedQuotes` | mgc-tools/lineparser.py:88-89 | a `!` line with an odd number of quotes gives the syntax error, then the pending signal if any |
| `CommandProperties.UnbalancedQuotesPlain` | mgc-tools/lineparser.py:88-89 | the same, counted on the raw comment-free line |
| `CommandProperties.QuotedSpansCons` | mgc-tools/lineparser.py:94 | the first pair of quotes gives the first span, the rest follow in order |
| `CommandProperties.QuotedArgs` | mgc-tools/lineparser.py:94-98 | with quotes on the line there is one argument per quote pair, each the span in quotes, each typed as that span |
| `CommandProperties.UnquotedTokensIgnored` | mgc-tools/lineparser.py:91-98 | unquoted tokens around a quoted span are not arguments |
| `CommandProperties.QuotedTokens` | mgc-tools/lineparser.py:88-98 | `!name "body"` has two quotes, the name `name` and the one argument `"body"` |
| `CommandProperties.QuotesRemoved` | mgc-tools/lineparser.py:135-139 | a quoted string argument is stored without its quotes |
| `CommandProperties.QuotedArgument` | mgc-tools/lineparser.py:86-148 | a string command with one quoted argument is a COMMAND whose argument is the text between the quotes; the text may hold `/`, as file paths do, and only `"`, `#` and a `/*` opener are excluded |
| `CommandProperties.QuotedArgumentWithTail` | mgc-tools/lineparser.py:91-101 | unquoted text after the quoted argument, `/` included, changes nothing |
| `CommandProperties.HexTokens` | mgc-tools/lineparser.py:91-92 | `!name ds` has the name `name` and the one argument `ds` |
| `CommandProperties.HexArgument` | mgc-tools/lineparser.py:86-148 | a hex command with one argument of hex digits is a COMMAND carrying the value of those digits |
| `CommandProperties.BareCommand` | mgc-tools/lineparser.py:86-148 | `!name` alone is `Unknown command`, an arity error with 0 received, or a COMMAND with no arguments |
| `CommandProperties.SchemaNamesArePlain` | mgc-tools/lineparser.py:15-30 | every schema name is lower-case letters and digits |
| `WorkedLines.LocLine` | mgc-tools/lineparser.py:140-144 | `!loc 80001234` is COMMAND `loc` with the integer 0x80001234 |
| `WorkedLines.EchoLine` | mgc-tools/lineparser.py:94-139 | `!echo "hello world"` is COMMAND `echo` with `hello world` |
| `WorkedLines.StringLine` | mgc-tools/lineparser.py:133-139 | `!string "abc"` stores `abc` without quotes |
| `WorkedLines.SourcePathLine` | mgc-tools/lineparser.py:48-139 | `!src "code/main.asm"` is COMMAND `src` with the path, its `/` opening no comment |
| `WorkedLines.EchoWithStrayToken` | mgc-tools/lineparser.py:93-98 | `!echo "hello" world` stores only `hello` |
| `WorkedLines.LocWithoutArgument` | mgc-tools/lineparser.py:123-126 | `!loc` is the arity error for 1 expected and 0 received |
| `WorkedLines.OneExpectedNoneReceived` | mgc-tools/lineparser.py:126 | that message reads `Command expected 1 arg(s) but received 0` |
| `WorkedLines.BogusLine` | mgc-tools/lineparser.py:120-121 | `!bogus` is `Unknown command` |
| `WorkedLines.OddQuotesLine` | mgc-tools/lineparser.py:88-89 | `!echo "abc` is the syntax error |
| `WorkedLines.NoteLine` | mgc-tools/lineparser.py:45-62 | a line holding only a `#` note gives nothing |
| `PyStr.Find` | mgc-tools/lineparser.py:45 | `find` gives the first index where the pattern occurs, or -1 when it occurs nowhere |
| `PyStr.Strip` | mgc-tools/lineparser.py:58 | `strip` leaves no whitespace at either end, is empty exactly for a blank string, and leaves whitespace-free text alone |
| `PyStr.StripRange` | mgc-tools/lineparser.py:58 | `strip` gives a slice of the line, and everything it cuts off on either side is whitespace |
| `PyStr.RemoveWhitespace` | mgc-tools/lineparser.py:67-78 | deleting `string.whitespace` leaves no whitespace, never lengthens the text and leaves whitespace-free text alone; `RemoveWhitespaceKeeps` shows it keeps every other character |
| `PyStr.RemoveWhitespaceStrip` | mgc-tools/lineparser.py:58-78 | deleting all whitespace after stripping gives the same text as deleting it from the unstripped line |
| `PyStr.RemoveWhitespaceKeeps` | mgc-tools/lineparser.py:67 | deleting whitespace keeps exactly the other characters |
| `PyStr.SplitJoin` | mgc-tools/lineparser.py:91 | `split(c)` keeps empty parts: joining the parts with `c` gives back the string |
| `PyStr.SplitOn` | mgc-tools/lineparser.py:91 | `split(c)` has at least one part and no part holds `c` |
| `PyStr.SplitOnCount` | mgc-tools/lineparser.py:91 | `split(c)` has one more part than `c` occurrences |
| `PyStr.Count` | mgc-tools/lineparser.py:88 | `count(c)` is zero exactly when `c` is absent |
| `PyStr.CountStrip` | mgc-tools/lineparser.py:58-88 | stripping does not change how many quotes a line holds |
| `PyStr.OddParts` | mgc-tools/lineparser.py:94 | the slice `[1::2]`: half as many items, item `i` being part `2i + 1` |
| `PyStr.RemoveChar` | mgc-tools/lineparser.py:139 | `replace('"', '')` leaves no `"` and removes only those |
| `PyInt.IntOfString` | mgc-tools/lineparser.py:69-80 | `int(s, base)`; `LiteralChars`, `PlainDigitsAccepted`, `HexPrefixAccepted`, `NegativeAccepted` and `GroupedValueDeletesSeparators` state what it accepts and the value it reads |
| `PyInt.LiteralChars` | mgc-tools/lineparser.py:69 | anything `int(s, base)` accepts is made of whitespace, digits, `_`, a sign and the prefix letter |
| `PyInt.PlainDigitsAccepted` | mgc-tools/lineparser.py:69-80 | a non-empty run of plain digits is accepted and reads as the number it spells |
| `PyInt.HexPrefixAccepted` | mgc-tools/lineparser.py:143 | `0x` in front of hex digits is accepted and ignored |
| `PyInt.NegativeAccepted` | mgc-tools/lineparser.py:80 | a leading `-` is accepted and negates the value |
| `PyInt.GroupedValueDeletesSeparators` | mgc-tools/lineparser.py:69-80 | the value `int` reads from digits with `_` separators is the value of the digits with every `_` deleted |
| `PyInt.FormatNat` | mgc-tools/lineparser.py:126 | `f"{n}"` is a non-empty run of decimal digits without a leading zero; `FormatNatRoundTrip` reads it back as `n` |
| `PyInt.FormatNatRoundTrip` | mgc-tools/lineparser.py:126 | the decimal numeral written into a message reads back as the number |

## Left out

- `mgc/gci_tools/savefile.py` is not part of this model. It is a command-line script that reads `sys.argv`, calls the packing code of the sibling module `meleegci`, and writes a file.
- The `filepath` and `line_number` parameters of `parse_opcodes` are unused by the classifier, so `ParseOpcodes` does not take them.
- The `isinstance` check that raises `ValueError` in `_parse_command` is left out. Dafny's types make a non-`Command` argument impossible.
- `LineParser.ParseCommand` requires that no string-kind argument is empty. The source reads `arg[0]` unguarded and would raise `IndexError` on such an argument. `LineParser.CommandArgsCallable` proves that no line reaches `_parse_command` with one.
- Whitespace is one ASCII set: space, tab, LF, VT, FF and CR, as in Python's `string.whitespace`. Python's `str.strip()` and `int()` also treat `\x1c`–`\x1f` and non-ASCII spaces as whitespace, but the deletion at lines 67 and 78 does not. The model does not capture that difference.
- `PyInt.IntOfString` does not model non-ASCII digits, which Python's `int` also accepts.
- Multi-line comment state is not kept across lines. The classifier only signals an unclosed `/*`; the caller is out of scope.
- Code generation from the operations and the resolution of command arguments are out of scope.
- COMMENT, MULTILINE_END and WARNING are in the `Op` datatype because `CODETYPES` declares them. The classifier never produces them, as `LineParserProperties.OutputShape` proves.
