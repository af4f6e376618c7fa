// The token model shared by the tokenizer and the parser (enum Token of src/lexer.rs).
module Tokens {

  // Rust's i32, the payload of an Integer token.
  newtype i32 = x: int | -0x8000_0000 <= x < 0x8000_0000

  datatype Token =
    // Keywords
    | And | Break | Def | Elif | Else | For | If | Not | Or | Return | While
    // Literals; a Float keeps the text it was scanned from, since 32-bit
    // floating point is not modelled
    | Boolean(flag: bool) | Integer(number: i32) | Float(text: string) | Identifier(name: string)
    // Operators and punctuation
    | Assign | Add | Subtract | Multiply | Divide | Equal | NotEqual | GT | GTE | LT | LTE
    | ParenOpen | ParenClose | Comma | Colon
    // Structural tokens, synthesised by the layout layer
    | Newline | Indent | Dedent

  // What a token contributes to the nesting depth.
  function Weight(t: Token): int
  {
    if t == Indent then 1 else if t == Dedent then -1 else 0
  }

  // Number of Indent tokens minus number of Dedent tokens in ts.
  function Net(ts: seq<Token>): int
    decreases |ts|
  {
    if |ts| == 0 then 0 else Weight(ts[0]) + Net(ts[1..])
  }

  lemma {:induction false} NetAppend(a: seq<Token>, b: seq<Token>)
    ensures Net(a + b) == Net(a) + Net(b)
    decreases |a|
  {
    if |a| == 0 {
      assert a + b == b;
    } else {
      assert (a + b)[1..] == a[1..] + b;
      NetAppend(a[1..], b);
    }
  }

  // Net counts what its name says.
  lemma {:induction false} NetCounts(ts: seq<Token>)
    ensures Net(ts) == multiset(ts)[Indent] as int - multiset(ts)[Dedent] as int
    decreases |ts|
  {
    if |ts| > 0 {
      assert ts == [ts[0]] + ts[1..];
      NetCounts(ts[1..]);
    }
  }

  // The sequence of k copies of t.
  function Repeat(t: Token, k: nat): (r: seq<Token>)
    ensures |r| == k

  {
    if k == 0 then [] else Repeat(t, k - 1) + [t]
  }
}
