/**
 * What `parse_opcodes` and `_parse_command` promise, stated over the
 * specification functions of module LineParser (`Opcodes`, `Normalize`,
 * `Content`, `Validate`), which the methods `ParseOpcodes` and
 * `ParseCommand` are proved to compute.
 */
module LineParserProperties {
  import opened PyStr
  import opened PyInt
  import opened LineParser

  /** `p` occurs at `i` and nowhere before: what `find` reports. */
  ghost predicate FirstAt(s: string, p: string, i: int) {
    OccursAt(s, p, i) && forall j :: 0 <= j < i ==> !OccursAt(s, p, j)
  }

  /** `p` occurs nowhere in `s`. */
  ghost predicate Absent(s: string, p: string) {
    forall j :: 0 <= j ==> !OccursAt(s, p, j)
  }

  // ---------------------------------------------------------------------
  // Comments
  // ---------------------------------------------------------------------

  /** A line without `#` is not cut. */
  lemma NoHash(line: string)
    requires '#' !in line
    ensures CutAtHash(line) == line
  {
    forall j | 0 <= j ensures !OccursAt(line, "#", j) {
      OccursAtChar(line, '#', j);
    }
    FindAbsent(line, "#");
  }

  /** The cut is at the first `#`. */
  lemma FirstHash(a: string, b: string)
    requires '#' !in a
    ensures CutAtHash(a + "#" + b) == a
  {
    var s := a + "#" + b;
    OccursAtChar(s, '#', |a|);
    forall j | 0 <= j < |a| ensures !OccursAt(s, "#", j) {
      OccursAtChar(s, '#', j);
      assert s[j] == a[j];
    }
    FindFirst(s, "#", |a|);
    assert s[..|a|] == a;
  }

  /** Text from the first `#` on never influences the result. */
  lemma HashCommentIgnored(a: string, b: string)
    requires '#' !in a
    ensures Opcodes(a + "#" + b) == Opcodes(a)
  {
    FirstHash(a, b);
    NoHash(a);
    assert Uncomment(a + "#" + b) == Uncomment(a);
  }

  /** A line without a block-comment opener is only stripped. */
  lemma NoBlockComment(line: string)
    requires '#' !in line && Absent(line, "/*")
    ensures Normalize(line) == Normalized(Strip(line), false)
  {
    NoHash(line);
    FindAbsent(line, "/*");
  }

  /**
   * With an opener and a closer on the line, the text from the first opener
   * to after the first closer, wherever that closer is, is spliced out and
   * nothing is left pending.
   */
  lemma BlockCommentClosed(line: string, open: int, close: int)
    requires '#' !in line
    requires FirstAt(line, "/*", open) && FirstAt(line, "*/", close)
    ensures Normalize(line) == Normalized(Strip(line[..open] + line[close + 2..]), false)
  {
    NoHash(line);
    FindFirst(line, "/*", open);
    FindFirst(line, "*/", close);
  }

  /** An occurrence inside a prefix is an occurrence in the whole string. */
  lemma OccursInPrefix(s: string, p: string, k: int, j: int)
    requires 0 <= k <= |s|
    ensures OccursAt(s[..k], p, j) ==> OccursAt(s, p, j)
  {
    if 0 <= j && j + |p| <= k {
      assert s[..k][j..j + |p|] == s[j..j + |p|];
    }
  }

  /**
   * An opener that is never closed drops everything from it on and leaves a
   * MULTILINE_COMMENT pending, which comes last; the text before the opener is
   * classified as a line of its own would be.
   */
  lemma BlockCommentOpen(line: string, open: int)
    requires '#' !in line
    requires FirstAt(line, "/*", open) && Absent(line, "*/")
    ensures Normalize(line) == Normalized(Strip(line[..open]), true)
    ensures Opcodes(line) == Opcodes(line[..open]) + [MultilineComment]
  {
    OpenerLeftOpen(line, open);
    BeforeOpenerIsPlain(line, open);
    PendingComesLast(Strip(line[..open]));
  }

  /** How an opener that is never closed normalizes. */
  lemma OpenerLeftOpen(line: string, open: int)
    requires '#' !in line
    requires FirstAt(line, "/*", open) && Absent(line, "*/")
    ensures Normalize(line) == Normalized(Strip(line[..open]), true)
  {
    NoHash(line);
    FindFirst(line, "/*", open);
    FindAbsent(line, "*/");
  }

  /** A pending block comment adds MULTILINE_COMMENT after whatever the text stands for. */
  lemma PendingComesLast(t: string)
    requires t == [] || !IsWhitespace(t[|t| - 1])
    ensures Assemble(Normalized(t, true)) == Assemble(Normalized(t, false)) + [MultilineComment]
  {
  }

  /** The text before the first opener has no opener, and no `#` if the line has none. */
  lemma BeforeOpenerIsPlain(line: string, open: int)
    requires '#' !in line
    requires FirstAt(line, "/*", open)
    ensures Normalize(line[..open]) == Normalized(Strip(line[..open]), false)
  {
    var before := line[..open];
    forall j | 0 <= j ensures !OccursAt(before, "/*", j) {
      OccursInPrefix(line, "/*", open, j);
    }
    assert '#' !in before by {
      forall j | 0 <= j < |before| ensures before[j] != '#' {
        assert before[j] == line[j];
      }
    }
    NoBlockComment(before);
  }

  // ---------------------------------------------------------------------
  // The shape of the result
  // ---------------------------------------------------------------------

  /** The content of a line whose first character is a hex digit. */
  lemma ContentOfHex(text: string)
    requires text != [] && !IsWhitespace(text[|text| - 1]) && IsHexDigit(text[0])
    ensures var digits := RemoveWhitespace(text);
      Content(text) == if IntOfString(digits, 16).Some? then Hex(digits) else SyntaxError
  {
  }

  /** Neither marker character is a hex digit. */
  lemma MarkersAreNotHexDigits()
    ensures !IsHexDigit('%') && !IsHexDigit('!')
  {
    assert DigitValue('%') == -1 && DigitValue('!') == -1;
  }

  /** The content of a line whose first character is `%`. */
  lemma ContentOfBin(text: string)
    requires text != [] && !IsWhitespace(text[|text| - 1]) && text[0] == '%'
    ensures var bits := RemoveWhitespace(text[1..]);
      Content(text) == if IntOfString(bits, 2).Some? then Bin(bits) else SyntaxError
  {
    MarkersAreNotHexDigits();
  }

  /** The content of a line whose first character is `!`. */
  lemma ContentOfCommand(text: string)
    requires text != [] && !IsWhitespace(text[|text| - 1]) && text[0] == '!'
    ensures CommandCallable(CommandName(text), CommandArgs(text))
    ensures Content(text) == if Count(text, '"') % 2 == 1 then SyntaxError else Validate(CommandName(text), CommandArgs(text))
  {
    MarkersAreNotHexDigits();
    CommandArgsCallable(text);
  }

  /** The content of a line with any other first character. */
  lemma ContentOfOther(text: string)
    requires text != [] && !IsWhitespace(text[|text| - 1])
    requires !IsHexDigit(text[0]) && text[0] != '%' && text[0] != '!'
    ensures Content(text) == SyntaxError
  {
  }

  /** The content operation of a non-blank line is HEX, BIN, COMMAND or ERROR, each as its marker says. */
  lemma ContentKinds(text: string)
    requires text != [] && !IsWhitespace(text[|text| - 1])
    ensures Content(text).Hex? || Content(text).Bin? || Content(text).Command? || Content(text).Error?
    ensures Content(text).Hex? ==> IsHexDigit(text[0]) && Content(text).digits == RemoveWhitespace(text)
    ensures Content(text).Hex? ==> IntOfString(Content(text).digits, 16).Some?
    ensures Content(text).Bin? ==> text[0] == '%' && Content(text).bits == RemoveWhitespace(text[1..])
    ensures Content(text).Bin? ==> IntOfString(Content(text).bits, 2).Some?
    ensures Content(text).Command? ==> text[0] == '!' && Count(text, '"') % 2 == 0
    ensures Content(text).Error? ==> Content(text).message != []
  {
    if IsHexDigit(text[0]) {
      ContentOfHex(text);
    } else if text[0] == '%' {
      ContentOfBin(text);
    } else if text[0] == '!' {
      ContentOfCommand(text);
    } else {
      ContentOfOther(text);
    }
  }

  /**
   * At most two operations: the content operation of a non-blank line first,
   * then MULTILINE_COMMENT exactly when a block comment was left open, and
   * nowhere else. COMMENT, MULTILINE_END and WARNING never occur, and every
   * ERROR carries a message.
   */
  lemma AssembleShape(n: Normalized)
    requires n.text == [] || !IsWhitespace(n.text[|n.text| - 1])
    ensures var ops := Assemble(n);
      |ops| == (if n.text == [] then 0 else 1) + (if n.pending then 1 else 0)
    ensures var ops := Assemble(n);
      n.text != [] ==> ops[0].Hex? || ops[0].Bin? || ops[0].Command? || ops[0].Error?
    ensures var ops := Assemble(n);
      forall i :: 0 <= i < |ops| ==> (ops[i] == MultilineComment <==> n.pending && i == |ops| - 1)
    ensures var ops := Assemble(n);
      forall i :: 0 <= i < |ops| ==> !ops[i].Comment? && !ops[i].MultilineEnd? && !ops[i].Warning?
    ensures var ops := Assemble(n);
      forall i :: 0 <= i < |ops| && ops[i].Error? ==> ops[i].message != []
  {
    if n.text != [] {
      ContentKinds(n.text);
    }
  }

  /** The shape of the result of any script line, as `AssembleShape` states it. */
  lemma OutputShape(line: string)
    ensures var ops, n := Opcodes(line), Normalize(line);
      |ops| == (if n.text == [] then 0 else 1) + (if n.pending then 1 else 0)
    ensures var ops := Opcodes(line);
      forall i :: 0 <= i < |ops| ==> (ops[i] == MultilineComment <==> Normalize(line).pending && i == |ops| - 1)
    ensures var ops := Opcodes(line);
      forall i :: 0 <= i < |ops| ==> !ops[i].Comment? && !ops[i].MultilineEnd? && !ops[i].Warning?
  {
    AssembleShape(Normalize(line));
  }

  /** The result is empty exactly for a blank line with no block comment left open. */
  lemma EmptyResult(line: string)
    ensures Opcodes(line) == [] <==> Normalize(line).text == [] && !Normalize(line).pending
  {
    AssembleShape(Normalize(line));
  }

  /** A blank line yields nothing but the pending signal, if one is left. */
  lemma BlankLine(line: string)
    requires Normalize(line).text == []
    ensures Opcodes(line) == (if Normalize(line).pending then [MultilineComment] else [])
  {
  }

  /** A line of only whitespace, with or without a `#` comment after it, yields nothing. */
  lemma WhitespaceAndCommentOnly(ws: string, comment: string)
    requires AllWhitespace(ws)
    ensures Opcodes(ws) == []
    ensures Opcodes(ws + "#" + comment) == []
  {
    assert '#' !in ws by {
      forall j | 0 <= j < |ws| ensures ws[j] != '#' {
        assert IsWhitespace(ws[j]);
      }
    }
    forall j | 0 <= j ensures !OccursAt(ws, "/*", j) {
      if j + 2 <= |ws| {
        assert ws[j..j + 2][0] == ws[j];
      }
    }
    NoBlockComment(ws);
    HashCommentIgnored(ws, comment);
  }

  // ---------------------------------------------------------------------
  // Raw hex and binary lines
  // ---------------------------------------------------------------------

  /** Deleting whitespace keeps a leading non-whitespace character. */
  lemma RemoveWhitespaceKeepsHead(t: string)
    requires t != [] && !IsWhitespace(t[0])
    ensures RemoveWhitespace(t) != [] && RemoveWhitespace(t)[0] == t[0]
  {
  }

  /** A non-blank normalised line with nothing pending gives its content operation alone. */
  lemma AssembleContent(t: string)
    requires t != [] && !IsWhitespace(t[|t| - 1])
    ensures Assemble(Normalized(t, false)) == [Content(t)]
  {
  }

  /** Normalized text starting with a hex digit, as `HexLine` states it for whole lines. */
  lemma HexText(t: string)
    requires t != [] && !IsWhitespace(t[|t| - 1]) && IsHexDigit(t[0])
    ensures var payload := RemoveWhitespace(t);
      Assemble(Normalized(t, false)) == (if IntOfString(payload, 16).Some? then [Hex(payload)] else [SyntaxError])
    ensures AllDigits(RemoveWhitespace(t), 16) ==> Assemble(Normalized(t, false)) == [Hex(RemoveWhitespace(t))]
  {
    AssembleContent(t);
    ContentOfHex(t);
    if AllDigits(RemoveWhitespace(t), 16) {
      HexPayloadAccepted(t);
    }
  }

  /** A hex line whose text without whitespace is all hex digits is accepted by base 16. */
  lemma HexPayloadAccepted(t: string)
    requires t != [] && IsHexDigit(t[0]) && AllDigits(RemoveWhitespace(t), 16)
    ensures IntOfString(RemoveWhitespace(t), 16).Some?
  {
    assert !IsWhitespace(t[0]);
    RemoveWhitespaceKeepsHead(t);
    PlainDigitsAccepted(RemoveWhitespace(t), 16);
  }

  /**
   * A line whose first non-blank character is a hex digit gives HEX with the
   * line's characters other than whitespace, in their case, when that text
   * reads as a base-16 integer, and the generic syntax error otherwise; in
   * particular a line of hex digits and whitespace gives HEX.
   */
  lemma HexLine(line: string)
    requires '#' !in line && Absent(line, "/*")
    requires Strip(line) != [] && IsHexDigit(Strip(line)[0])
    ensures var payload := RemoveWhitespace(line);
      Opcodes(line) == (if IntOfString(payload, 16).Some? then [Hex(payload)] else [SyntaxError])
    ensures AllDigits(RemoveWhitespace(line), 16) ==> Opcodes(line) == [Hex(RemoveWhitespace(line))]
  {
    NoBlockComment(line);
    HexText(Strip(line));
    RemoveWhitespaceStrip(line);
  }

  /** Deleting whitespace from nothing leaves nothing, which `int` refuses. */
  lemma EmptyRefused(base: nat)
    requires base == 2 || base == 16
    ensures IntOfString([], base).None?
  {
    assert Strip([]) == [];
    assert LiteralBody([], base) == [];
  }

  /**
   * A line whose first non-blank character is `%` gives BIN with the rest of
   * the line without whitespace when that reads as a base-2 integer, and the
   * generic syntax error otherwise, in particular when nothing follows the
   * `%`; a rest of binary digits and whitespace gives BIN.
   */
  lemma BinLine(line: string)
    requires '#' !in line && Absent(line, "/*")
    requires Strip(line) != [] && Strip(line)[0] == '%'
    ensures var bits := RemoveWhitespace(Strip(line)[1..]);
      Opcodes(line) == (if IntOfString(bits, 2).Some? then [Bin(bits)] else [SyntaxError])
  {
    NoBlockComment(line);
    BinNormalized(line, Strip(line));
  }

  /** A line whose first non-blank character is not a hex digit, `%` or `!` is the generic syntax error. */
  lemma OtherLine(line: string)
    requires '#' !in line && Absent(line, "/*")
    requires Strip(line) != [] && !IsHexDigit(Strip(line)[0]) && Strip(line)[0] != '%' && Strip(line)[0] != '!'
    ensures Opcodes(line) == [SyntaxError]
  {
    NoBlockComment(line);
    AssembleContent(Strip(line));
    ContentOfOther(Strip(line));
  }

  /** A `%` with nothing but whitespace after it is a syntax error. */
  lemma EmptyBinLine(line: string)
    requires '#' !in line && Absent(line, "/*")
    requires Strip(line) != [] && Strip(line)[0] == '%'
    requires RemoveWhitespace(Strip(line)[1..]) == []
    ensures Opcodes(line) == [SyntaxError]
  {
    BinLine(line);
    EmptyRefused(2);
  }

  /** A `%` followed by binary digits and whitespace gives BIN with those digits. */
  lemma BinDigitsLine(line: string)
    requires '#' !in line && Absent(line, "/*")
    requires Strip(line) != [] && Strip(line)[0] == '%'
    requires var bits := RemoveWhitespace(Strip(line)[1..]); bits != [] && AllDigits(bits, 2)
    ensures Opcodes(line) == [Bin(RemoveWhitespace(Strip(line)[1..]))]
  {
    BinLine(line);
    PlainDigitsAccepted(RemoveWhitespace(Strip(line)[1..]), 2);
  }

  /** A line that normalizes to text starting with `%`, as `BinLine` states it. */
  lemma BinNormalized(line: string, t: string)
    requires Normalize(line) == Normalized(t, false)
    requires t != [] && t[0] == '%'
    ensures var bits := RemoveWhitespace(t[1..]);
      Opcodes(line) == (if IntOfString(bits, 2).Some? then [Bin(bits)] else [SyntaxError])
  {
    ContentOfBin(t);
  }
}
