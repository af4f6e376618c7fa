// The per-line scanner's output as the layout layer sees it: the raw lexeme
// kinds of enum LogosToken, the lexemes of one line with their slices, and
// the conversion of a raw lexeme into a Token (src/lexer.rs:25-111, 238-276).
// The regular expressions themselves are not modelled: a Line is given.
module Scanner {
  import Tokens
  import Seqs
  type Token = Tokens.Token

  datatype RawKind =
    | And | Break | Def | Elif | Else | For | If | Not | Or | Return | While
    | Boolean | Integer | Float | Identifier
    | Assign | Add | Subtract | Multiply | Divide | Equal | NotEqual | GT | GTE | LT | LTE
    | ParenOpen | ParenClose | Comma | Colon
    | Newline | Indent | Dedent
    | Comment | Error | End

  // One scanned lexeme: its kind and the text it matched.
  datatype Lexeme = Lexeme(kind: RawKind, slice: string)


  // The kinds that convert to a Token of the same name.
  predicate Convertible(k: RawKind)
  {
    k != Comment && k != Error && k != End
  }

  predicate IsDigits(d: string)
  {
    forall i :: 0 <= i < |d| ==> '0' <= d[i] <= '9'
  }

  // The text shape of regex -?[0-9]+, the only form i32::from_str is applied to.
  predicate IsIntegerSlice(s: string)
  {
    if |s| > 0 && s[0] == '-' then |s| > 1 && IsDigits(s[1..]) else |s| > 0 && IsDigits(s)
  }

  // Value of a string of decimal digits, most significant first.
  function DigitsValue(d: string): (v: nat)
    requires IsDigits(d)
    ensures |d| == 0 ==> v == 0
  {
    if |d| == 0 then 0
    else 10 * DigitsValue(d[..|d| - 1]) + (d[|d| - 1] as int - '0' as int)
  }

  // The mathematical value i32::from_str computes for a well-formed slice.
  function IntegerValue(s: string): (v: int)
    requires IsIntegerSlice(s)
    ensures v < 0 ==> s[0] == '-'
  {
    if s[0] == '-' then -(DigitsValue(s[1..]) as int) else DigitsValue(s)
  }

  // i32::from_str(slice).unwrap() does not panic: an optional minus sign
  // and decimal digits whose value lies in the i32 range (ParsesAsI32Means).
  predicate ParsesAsI32(s: string)
  {
    if |s| > 0 && s[0] == '-' then |s| > 1 && DigitsWithin(s[1..], 0x8000_0000)
    else |s| > 0 && DigitsWithin(s, 0x7FFF_FFFF)
  }

  // d is all decimal digits and its value is at most bound, checked from
  // the last digit: the prefix must then be at most (bound - last) / 10.
  predicate DigitsWithin(d: string, bound: int)
    decreases |d|
  {
    && 0 <= bound
    && (|d| == 0 ||
        var c := d[|d| - 1] as int - '0' as int;
        0 <= c <= 9 && c <= bound && DigitsWithin(d[..|d| - 1], (bound - c) / 10))
  }

  lemma {:induction false} DigitsWithinValue(d: string, bound: int)
    requires 0 <= bound
    ensures DigitsWithin(d, bound) <==> IsDigits(d) && DigitsValue(d) <= bound
    decreases |d|
  {
    if |d| > 0 {
      var p := d[..|d| - 1];
      var c := d[|d| - 1] as int - '0' as int;
      assert IsDigits(d) <==> IsDigits(p) && 0 <= c <= 9 by {
        if IsDigits(p) && 0 <= c <= 9 {
          forall i | 0 <= i < |d| ensures '0' <= d[i] <= '9' {
            if i < |p| { assert d[i] == p[i]; }
          }
        }
      }
      if 0 <= c <= bound {
        DigitsWithinValue(p, (bound - c) / 10);
        if IsDigits(p) {
          var v := DigitsValue(p);
          assert 10 * v <= bound - c <==> v <= (bound - c) / 10;
        }
      }
    }
  }

  // The predicate says what its name says.
  lemma ParsesAsI32Means(s: string)
    ensures ParsesAsI32(s) <==> IsIntegerSlice(s) && -0x8000_0000 <= IntegerValue(s) < 0x8000_0000
  {
    if |s| > 0 && s[0] == '-' {
      DigitsWithinValue(s[1..], 0x8000_0000);
    } else {
      DigitsWithinValue(s, 0x7FFF_FFFF);
    }
  }

  // The Integer token of a slice that parses.
  function IntegerToken(s: string): (t: Token)
    requires ParsesAsI32(s)
  {
    ParsesAsI32Means(s);
    Tokens.Integer(IntegerValue(s) as Tokens.i32)
  }

  // What the scanner can produce before the End of a line: no lexeme of
  // the three structural kinds (they have no pattern), and only integer
  // slices that fit in an i32.
  predicate WellScannedLexeme(lx: Lexeme)
  {
    && lx.kind != Newline && lx.kind != Indent && lx.kind != Dedent && lx.kind != End
    && (lx.kind == Integer ==> ParsesAsI32(lx.slice))
  }

  // A lexeme the scanner can actually deliver.
  type ScannedLexeme = lx: Lexeme | WellScannedLexeme(lx) witness Lexeme(And, "and")


  // The raw kind a Token is named after: the inverse of ToToken.
  function KindOf(t: Token): RawKind
  {
    match t
    case And => And
    case Break => Break
    case Def => Def
    case Elif => Elif
    case Else => Else
    case For => For
    case If => If
    case Not => Not
    case Or => Or
    case Return => Return
    case While => While
    case Boolean(_) => Boolean
    case Integer(_) => Integer
    case Float(_) => Float
    case Identifier(_) => Identifier
    case Assign => Assign
    case Add => Add
    case Subtract => Subtract
    case Multiply => Multiply
    case Divide => Divide
    case Equal => Equal
    case NotEqual => NotEqual
    case GT => GT
    case GTE => GTE
    case LT => LT
    case LTE => LTE
    case ParenOpen => ParenOpen
    case ParenClose => ParenClose
    case Comma => Comma
    case Colon => Colon
    case Newline => Newline
    case Indent => Indent
    case Dedent => Dedent
  }

  // The conversion of src/lexer.rs:238-276: the four literal kinds take
  // their payload from the slice, every other kind becomes the Token of the
  // same name (the `unreachable!()` arm is excluded by the precondition).
  function ToToken(lx: Lexeme): (t: Token)
    requires Convertible(lx.kind)
    requires lx.kind == Integer ==> ParsesAsI32(lx.slice)
  {
    match lx.kind
    case Boolean => Tokens.Boolean(lx.slice == "True")
    case Integer => IntegerToken(lx.slice)
    case Float => Tokens.Float(lx.slice)
    case Identifier => Tokens.Identifier(lx.slice)
    case And => Tokens.And
    case Break => Tokens.Break
    case Def => Tokens.Def
    case Elif => Tokens.Elif
    case Else => Tokens.Else
    case For => Tokens.For
    case If => Tokens.If
    case Not => Tokens.Not
    case Or => Tokens.Or
    case Return => Tokens.Return
    case While => Tokens.While
    case Assign => Tokens.Assign
    case Add => Tokens.Add
    case Subtract => Tokens.Subtract
    case Multiply => Tokens.Multiply
    case Divide => Tokens.Divide
    case Equal => Tokens.Equal
    case NotEqual => Tokens.NotEqual
    case GT => Tokens.GT
    case GTE => Tokens.GTE
    case LT => Tokens.LT
    case LTE => Tokens.LTE
    case ParenOpen => Tokens.ParenOpen
    case ParenClose => Tokens.ParenClose
    case Comma => Tokens.Comma
    case Colon => Tokens.Colon
    case Newline => Tokens.Newline
    case Indent => Tokens.Indent
    case Dedent => Tokens.Dedent
  }

  // The conversion keeps the kind: KindOf undoes it.
  lemma ToTokenKeepsKind(lx: Lexeme)
    requires Convertible(lx.kind)
    requires lx.kind == Integer ==> ParsesAsI32(lx.slice)
    ensures KindOf(ToToken(lx)) == lx.kind
  {
    match lx.kind
    case Boolean =>
    case Integer =>
    case Float =>
    case Identifier =>
    case And =>
    case Break =>
    case Def =>
    case Elif =>
    case Else =>
    case For =>
    case If =>
    case Not =>
    case Or =>
    case Return =>
    case While =>
    case Assign =>
    case Add =>
    case Subtract =>
    case Multiply =>
    case Divide =>
    case Equal =>
    case NotEqual =>
    case GT =>
    case GTE =>
    case LT =>
    case LTE =>
    case ParenOpen =>
    case ParenClose =>
    case Comma =>
    case Colon =>
    case Newline =>
    case Indent =>
    case Dedent =>
  }

  // Literals take their payload from the slice; Boolean is true exactly for
  // the text "True".
  lemma ToTokenKeepsPayload(lx: Lexeme)
    requires Convertible(lx.kind)
    requires lx.kind == Integer ==> ParsesAsI32(lx.slice)
    ensures lx.kind == Boolean ==> ToToken(lx) == Tokens.Boolean(lx.slice == "True")
    ensures lx.kind == Integer ==> IsIntegerSlice(lx.slice) && ToToken(lx).Integer? && ToToken(lx).number as int == IntegerValue(lx.slice)
    ensures lx.kind == Float ==> ToToken(lx) == Tokens.Float(lx.slice)
    ensures lx.kind == Identifier ==> ToToken(lx) == Tokens.Identifier(lx.slice)
  {
    if lx.kind == Integer {
      ParsesAsI32Means(lx.slice);
    }
  }

  // What the scanning loop does with a lexeme (src/lexer.rs:229-278):
  // treat a Comment or an Error specially, or queue a Token.
  datatype Item = Emit(token: Token) | CommentMark | ErrorMark

  // An item the scanner can produce: it never queues a structural token.
  type ScannedItem = it: Item | !(it.Emit? && it.token in {Tokens.Newline, Tokens.Indent, Tokens.Dedent})
    witness CommentMark

  function Classify(lx: ScannedLexeme): (it: ScannedItem)
  {
    if lx.kind == Comment then CommentMark
    else if lx.kind == Error then ErrorMark
    else
      ToTokenKeepsKind(lx);
      Emit(ToToken(lx))
  }

  // The items of a line's lexemes, in order.
  function Items(raw: seq<ScannedLexeme>): (items: seq<ScannedItem>)
    ensures |items| == |raw|
  {
    Seqs.Map(Classify, raw)
  }

  // One physical line as the layout layer reads it: `width` is the number
  // of leading whitespace bytes counted by IndentHelper, that is, the
  // `whites` of Widths.LeadingWidth, which Widths.ReplayMonotone shows is
  // never negative (hence Layout.NonNegativeWidths); `items` stand for the
  // lexemes in source order up to (not including) the End that terminates
  // the line.
  datatype Line = Line(width: int, items: seq<ScannedItem>)

  // The line the scanner delivers for the given width and lexemes.
  function ScanLexemes(width: int, raw: seq<ScannedLexeme>): (line: Line)
  {
    Line(width, Items(raw))
  }

  // A line whose first lexeme is already End: empty or whitespace only.
  predicate IsBlank(line: Line)
  {
    |line.items| == 0
  }

  // The decimal text of a natural number, most significant digit first.
  function Decimal(n: nat): (s: string)
    ensures |s| > 0 && IsDigits(s)
  {
    if n < 10 then ["0123456789"[n]] else Decimal(n / 10) + ["0123456789"[n % 10]]
  }

  lemma {:induction false} DigitsOfDecimal(n: nat)
    ensures DigitsValue(Decimal(n)) == n
  {
    var s := Decimal(n);
    if n >= 10 {
      DigitsOfDecimal(n / 10);
      assert s[..|s| - 1] == Decimal(n / 10);
    } else {
      assert s[..0] == [];
    }
  }

  // Reading back the decimal text of a number gives the number: the slice
  // parsing above is the inverse of printing an integer.
  lemma DecimalRoundTrip(n: nat)
    ensures IsIntegerSlice(Decimal(n)) && IntegerValue(Decimal(n)) == n
    ensures n > 0 ==> IsIntegerSlice("-" + Decimal(n)) && IntegerValue("-" + Decimal(n)) == -(n as int)
  {
    var s := Decimal(n);
    DigitsOfDecimal(n);
    assert s[0] != '-';
    if n > 0 {
      assert ("-" + s)[1..] == s;
    }
  }
}
