/**
 * The ANSI colour helpers (`Ansi` in lib/ansi.ts; src/ansi.ts is an older copy
 * that differs only in accepting strings alone).  Every wrapper is
 * `formatEnd(formatCode(code) + str)` with a fixed SGR code; the seventeen
 * wrappers are modelled as one function over a `Style` table.
 */
module Ansi {
  import opened Text

  /** The escape character ESC (0x1B). */
  const Esc: char := '\U{1B}'

  /** The code that resets all attributes: ESC [ m. */
  const EndFormatCode: string := [Esc, '[', 'm']

  /** The escape sequence that selects SGR code `code`. */
  function FormatCode(code: int): (r: string)
    ensures |r| >= 4 && r[..2] == [Esc, '['] && r[|r| - 1] == 'm'
    ensures forall i :: 2 <= i < |r| - 1 ==> r[i] != 'm' && r[i] != Esc
  {
    [Esc, '['] + IntToString(code) + "m"
  }

  /** Appends the reset code unless the text already ends with it. */
  function FormatEnd(text: string): (r: string)
    ensures EndsWith(r, EndFormatCode)
    ensures StartsWith(r, text)
    ensures EndsWith(text, EndFormatCode) ==> r == text
    ensures !EndsWith(text, EndFormatCode) ==> r[|text|..] == EndFormatCode
  {
    if EndsWith(text, EndFormatCode) then text else text + EndFormatCode
  }

  /** The seventeen wrappers of the `Ansi` class. */
  datatype Style =
    | Black | DarkGray | Gray | White
    | Red | DarkRed | Green | DarkGreen
    | Yellow | DarkYellow | Blue | DarkBlue
    | Magenta | DarkMagenta | Cyan | DarkCyan
    | Bold

  /** The SGR code each wrapper passes to `formatCode`. */
  function Code(st: Style): nat {
    match st
    case Black => 30
    case DarkGray => 90
    case Gray => 37
    case White => 97
    case Red => 91
    case DarkRed => 31
    case Green => 92
    case DarkGreen => 32
    case Yellow => 93
    case DarkYellow => 33
    case Blue => 94
    case DarkBlue => 34
    case Magenta => 95
    case DarkMagenta => 35
    case Cyan => 96
    case DarkCyan => 36
    case Bold => 1
  }

  /** `Ansi.<style>(s)`. */
  function Paint(st: Style, s: string): (r: string)
    ensures StartsWith(r, FormatCode(Code(st)) + s) && EndsWith(r, EndFormatCode)
    ensures |r| <= |FormatCode(Code(st))| + |s| + |EndFormatCode|
  {
    FormatEnd(FormatCode(Code(st)) + s)
  }

  /** The selector is ESC '[', then the code's decimal digits (which read back as the code), then 'm'. */
  lemma FormatCodeDecodes(code: nat)
    ensures var r := FormatCode(code);
      |r| >= 4 && r[..2] == [Esc, '['] && r[|r| - 1] == 'm' &&
      IsDigits(r[2..|r| - 1]) && DigitsValue(r[2..|r| - 1]) == code
  {
    var r := FormatCode(code);
    assert r[2..|r| - 1] == NatToString(code);
    DigitsValueOfNatToString(code);
  }

  /** `formatEnd` is idempotent. */
  lemma FormatEndIdempotent(text: string)
    ensures FormatEnd(FormatEnd(text)) == FormatEnd(text)
  {
  }

  /** A selector ends with a digit and then 'm'. */
  lemma SelectorTail(code: nat)
    ensures var c := FormatCode(code); |c| >= 4 && c[|c| - 1] == 'm' && '0' <= c[|c| - 2] <= '9'
  {
    var digits := NatToString(code);
    assert FormatCode(code) == [Esc, '['] + digits + "m";
    assert FormatCode(code)[|FormatCode(code)| - 2] == digits[|digits| - 1];
  }

  /** A selector never ends with the reset code, so only the text decides whether one is appended. */
  lemma {:induction false} SelectorThenText(code: nat, s: string)
    ensures EndsWith(FormatCode(code) + s, EndFormatCode) <==> EndsWith(s, EndFormatCode)
  {
    var c := FormatCode(code);
    SelectorTail(code);
    var t := c + s;
    if |s| == 0 {
      assert t[|t| - 2] == c[|c| - 2];
    } else if |s| == 1 {
      assert t[|t| - 2] == c[|c| - 1];
    } else if |s| == 2 {
      assert t[|t| - 3] == c[|c| - 1];
    } else {
      assert t[|t| - 3..] == s[|s| - 3..];
    }
  }

  /**
   * Every wrapper emits its selector and the text, and appends the reset code
   * exactly when the text does not already end with it.
   */
  lemma PaintShape(st: Style, s: string)
    ensures Paint(st, s) == FormatCode(Code(st)) + s + (if EndsWith(s, EndFormatCode) then "" else EndFormatCode)
  {
    SelectorThenText(Code(st), s);
  }

  /** Nesting two wrappers yields both selectors and a single reset code. */
  lemma PaintNested(outer: Style, inner: Style, s: string)
    ensures Paint(outer, Paint(inner, s)) == FormatCode(Code(outer)) + Paint(inner, s)
  {
    SelectorThenText(Code(outer), Paint(inner, s));
  }

  /** The selectors of `red` and `bold`. */
  lemma RedAndBoldSelectors()
    ensures FormatCode(Code(Red)) == [Esc] + "[91m"
    ensures FormatCode(Code(Bold)) == [Esc] + "[1m"
  {
    assert NatToString(91) == "91";
    assert NatToString(1) == "1";
  }

  /** `red('test')` is ESC[91m test ESC[m. */
  lemma RedTest()
    ensures Paint(Red, "test") == [Esc] + "[91mtest" + [Esc] + "[m"
  {
    RedAndBoldSelectors();
    PaintShape(Red, "test");
    assert !EndsWith("test", EndFormatCode);
  }

  /** `bold(red('test'))` is ESC[1m ESC[91m test ESC[m. */
  lemma BoldRedTest()
    ensures Paint(Bold, Paint(Red, "test")) == [Esc] + "[1m" + [Esc] + "[91mtest" + [Esc] + "[m"
  {
    RedAndBoldSelectors();
    RedTest();
    PaintNested(Bold, Red, "test");
  }
}
