// The Lexer struct of src/lexer.rs:164-305 as a class whose methods update
// its fields in place, as the Rust iterator does. Each method is proved to
// do exactly what the corresponding function of the Layout module
// describes, so every property proved there holds of the class.
module Lexers {
  import opened Wrappers
  import opened Tokens
  import opened Scanner
  import opened Layout

  class Lexer {
    // The reader: the lines not read yet, and whether reading past them
    // fails instead of reporting the end of input.
    var input: seq<Line>
    var failing: bool
    // The indentation stack (a Vec used as a stack) and the FIFO queue of
    // tokens not handed out yet (a VecDeque).
    var indents: seq<int>
    var tokens: seq<Token>

    // The whole state of the lexer as a value.
    function Snapshot(): State
      reads this
    {
      State(input, failing, indents, tokens)
    }

    // Lexer::new: stack [0] and an empty queue.
    constructor (source: seq<Line>, failsAtEnd: bool)
      ensures Snapshot() == State(source, failsAtEnd, [0], [])
    {
      input := source;
      failing := failsAtEnd;
      indents := [0];
      tokens := [];
    }

    // The `while let Some(top)` loop of src/lexer.rs:206-216: queue Indent
    // and push while the top is below the width, queue Dedent and pop
    // while it is above, stop when they are equal or the stack is empty.
    method Realign(width: int)
      modifies this
      ensures indents == Reconcile(old(indents), width).stack
      ensures tokens == old(tokens) + Reconcile(old(indents), width).emitted
      ensures input == old(input) && failing == old(failing)
    {
      while |indents| > 0
        invariant input == old(input) && failing == old(failing)
        invariant Reconcile(indents, width).stack == Reconcile(old(indents), width).stack
        invariant tokens + Reconcile(indents, width).emitted == old(tokens) + Reconcile(old(indents), width).emitted
        decreases |Reconcile(indents, width).emitted|
      {
        var top := indents[|indents| - 1];
        if top < width {
          assert Reconcile(indents + [width], width) == Reconciled(indents + [width], []);
          tokens := tokens + [Token.Indent];
          indents := indents + [width];
        } else if top > width {
          var front := indents[..|indents| - 1];
          assert Reconcile(indents, width).emitted == [Token.Dedent] + Reconcile(front, width).emitted;
          tokens := tokens + [Token.Dedent];
          indents := front;
        } else {
          break;
        }
      }
    }

    // The `loop` of src/lexer.rs:222-279 over the items of the rest of the
    // line, appending to the queue; true when it stopped at an Error.
    method ScanItems(items: seq<Item>) returns (failed: bool)
      modifies this
      ensures ScanLine(old(tokens), items) == Scanned(tokens, failed)
      ensures input == old(input) && failing == old(failing) && indents == old(indents)
    {
      var i := 0;
      while true
        invariant 0 <= i <= |items|
        invariant input == old(input) && failing == old(failing) && indents == old(indents)
        invariant ScanLine(old(tokens), items) == ScanLine(tokens, items[i..])
        decreases |items| - i
      {
        if i == |items| {
          tokens := tokens + [Token.Newline];
          return false;
        }
        var item := items[i];
        assert items[i..][0] == item && items[i..][1..] == items[i + 1..];
        if item.CommentMark? {
          if |tokens| == 0 {
            return false;
          }
          tokens := tokens + [Token.Newline];
        } else if item.ErrorMark? {
          return true;
        } else {
          tokens := tokens + [item.token];
        }
        i := i + 1;
      }
    }

    // Iterator::next: hand out the front of the queue; otherwise read a
    // line, skipping a blank one and starting over after absorbing any
    // other; at the end of input pop one level of the stack.
    method Next() returns (r: Option<Lexed>)
      modifies this
      ensures (r, Snapshot()) == Layout.Next(old(Snapshot()))
      decreases |input|
    {
      if |tokens| > 0 {
        var t := tokens[0];
        tokens := tokens[1..];
        return Some(Ok(t));
      }
      if |input| == 0 {
        if failing {
          return Some(Err(ReadError));
        }
        if |indents| == 0 {
          return None;
        }
        var s := indents[|indents| - 1];
        indents := indents[..|indents| - 1];
        return if s == 0 then None else Some(Ok(Token.Dedent));
      }
      ghost var st := Snapshot();
      var line := input[0];
      input := input[1..];
      if IsBlank(line) {
        r := Next();
        return;
      }
      Realign(line.width);
      ghost var rc := Reconcile(st.indents, line.width);
      assert indents == rc.stack && tokens == rc.emitted;
      if |indents| == 0 {
        return Some(Err(InvalidError("Indentation Error")));
      }
      var failed := ScanItems(line.items);
      assert ReadLine(st) == (if failed then Some(InvalidError("Logos Error")) else None, Snapshot());
      if failed {
        return Some(Err(InvalidError("Logos Error")));
      }
      r := Next();
    }
  }
}
