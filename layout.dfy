// The layout layer of the tokenizer (Lexer::next, src/lexer.rs:183-305) as a
// pure transition on the lexer's state: the indentation stack, the FIFO
// queue of tokens not yet handed out, and the input still to be read.
// The class in lexer.dfy runs the same algorithm in place and is proved to
// agree with Next below; the properties of the layout layer are proved here.
module Layout {
  import opened Wrappers
  import opened Tokens
  import opened Scanner
  import Seqs

  datatype LexError = ReadError | InvalidError(message: string)

  // What one call of the iterator yields when it yields something.
  datatype Lexed = Ok(token: Token) | Err(error: LexError)

  // `input`: lines not read yet; `failing`: whether reading past them fails
  // (otherwise it reports 0 bytes, the end of input); `indents` and
  // `tokens` are the fields of the Rust struct.
  datatype State = State(input: seq<Line>, failing: bool, indents: seq<int>, tokens: seq<Token>)

  // A well-formed indentation stack: 0 at the bottom, strictly increasing.
  ghost predicate IndentStack(s: seq<int>)
  {
    |s| > 0 && s[0] == 0 && forall i, j :: 0 <= i < j < |s| ==> s[i] < s[j]
  }

  ghost predicate NonNegativeWidths(lines: seq<Line>)
  {
    forall i :: 0 <= i < |lines| ==> lines[i].width >= 0
  }

  // ---------------------------------------------------------------------
  // Reconciling a line's width against the stack (src/lexer.rs:206-216)

  datatype Reconciled = Reconciled(stack: seq<int>, emitted: seq<Token>)

  // The `while let` loop: push and emit Indent while the top is smaller
  // than the width, pop and emit Dedent while it is larger, stop when equal
  // or when the stack is empty. A non-empty result ends with the width.
  function Reconcile(stack: seq<int>, width: int): (r: Reconciled)
    ensures |r.stack| > 0 ==> Last(r.stack) == width
    decreases |stack|
  {
    if |stack| == 0 then Reconciled([], [])
    else if Last(stack) < width then Reconciled(stack + [width], [Token.Indent])
    else if Last(stack) > width then
      var rest := Reconcile(stack[..|stack| - 1], width);
      Reconciled(rest.stack, [Token.Dedent] + rest.emitted)
    else Reconciled(stack, [])
  }

  // What one reconciliation does, exactly: pop `pops` levels, each one
  // larger than the width and each queueing one Dedent, then push the width
  // at most once, queueing one Indent.
  lemma {:induction false} ReconcileShape(stack: seq<int>, width: int) returns (pops: nat, pushed: bool)
    ensures pops <= |stack|
    ensures Reconcile(stack, width).emitted == Repeat(Token.Dedent, pops) + (if pushed then [Token.Indent] else [])
    ensures Reconcile(stack, width).stack == stack[..|stack| - pops] + (if pushed then [width] else [])
    ensures forall i :: |stack| - pops <= i < |stack| ==> stack[i] > width
    ensures pushed ==> |stack| - pops > 0 && stack[|stack| - pops - 1] < width
    decreases |stack|
  {
    if |stack| == 0 {
      pops, pushed := 0, false;
      assert Repeat(Token.Dedent, 0) == [];
    } else if Last(stack) < width {
      pops, pushed := 0, true;
      assert Reconcile(stack, width) == Reconciled(stack + [width], [Token.Indent]);
      assert Repeat(Token.Dedent, 0) == [];
      assert stack[..|stack|] == stack;
    } else if Last(stack) > width {
      var front := stack[..|stack| - 1];
      var p, pu := ReconcileShape(front, width);
      var rf := Reconcile(front, width);
      assert Reconcile(stack, width) == Reconciled(rf.stack, [Token.Dedent] + rf.emitted);
      var kept := |stack| - (p + 1);
      assert front[..|front| - p] == stack[..kept];
      assert rf.stack == stack[..kept] + (if pu then [width] else []);
      RepeatCons(Token.Dedent, p);
      forall i | kept <= i < |stack| ensures stack[i] > width {
        if i < |stack| - 1 { assert stack[i] == front[i]; }
      }
      assert pu ==> stack[kept - 1] == front[kept - 1];
      pops, pushed := p + 1, pu;
    } else {
      pops, pushed := 0, false;
      assert Reconcile(stack, width) == Reconciled(stack, []);
      assert Repeat(Token.Dedent, 0) == [];
      assert stack[..|stack|] == stack;
    }
  }

  // The stack height changes by the number of Indents minus the number of
  // Dedents queued.
  lemma ReconcileNet(stack: seq<int>, width: int)
    ensures |Reconcile(stack, width).stack| - |stack| == Net(Reconcile(stack, width).emitted)
  {
    var pops, pushed := ReconcileShape(stack, width);
    RepeatNet(Token.Dedent, pops);
    NetAppend(Repeat(Token.Dedent, pops), if pushed then [Token.Indent] else []);
  }

  lemma {:induction false} RepeatNet(t: Token, k: nat)
    ensures Net(Repeat(t, k)) == k * Weight(t)
    decreases k
  {
    if k > 0 {
      RepeatNet(t, k - 1);
      NetAppend(Repeat(t, k - 1), [t]);
    }
  }

  lemma {:induction false} RepeatCons(t: Token, k: nat)
    ensures Repeat(t, k + 1) == [t] + Repeat(t, k)
    decreases k
  {
    if k > 0 {
      RepeatCons(t, k - 1);
    }
  }

  // On a well-formed stack and a non-negative width the stack stays well
  // formed and its top becomes the width; the bottom 0 is never popped, so
  // the "Indentation Error" branch (src/lexer.rs:218-220) cannot be taken.
  lemma {:induction false} ReconcileKeepsStack(stack: seq<int>, width: int)
    requires IndentStack(stack) && width >= 0
    ensures IndentStack(Reconcile(stack, width).stack)
    ensures Last(Reconcile(stack, width).stack) == width
    decreases |stack|
  {
    if Last(stack) > width {
      var front := stack[..|stack| - 1];
      assert |stack| > 1 by {
        if |stack| == 1 { assert stack[0] == 0; }
      }
      assert IndentStack(front);
      ReconcileKeepsStack(front, width);
    } else if Last(stack) < width {
      assert forall i :: 0 <= i < |stack| ==> stack[i] <= Last(stack);
    }
  }

  function Last(s: seq<int>): int
    requires |s| > 0
  {
    s[|s| - 1]
  }

  // A dedent to a width that was never pushed: from [0, 4] to width 2 the
  // loop pops 4, queueing Dedent, then pushes 2, queueing Indent.
  lemma DedentToUnpushedWidth()
    ensures Reconcile([0, 4], 2) == Reconciled([0, 2], [Token.Dedent, Token.Indent])
  {
    assert [0, 4][..1] == [0];
  }

  // ---------------------------------------------------------------------
  // Scanning the rest of a line (src/lexer.rs:222-279)

  datatype Scanned = Scanned(queue: seq<Token>, failed: bool)

  // The `loop` over the items still to come, appending to queue: the End
  // of the line appends Newline and stops; a Comment stops the
  // line when the queue is empty and otherwise appends Newline; an Error
  // stops with a failure; any other lexeme appends its Token.
  function ScanLine(queue: seq<Token>, items: seq<Item>): (r: Scanned)
    decreases |items|
  {
    if |items| == 0 then Scanned(queue + [Token.Newline], false)
    else if items[0].CommentMark? && |queue| == 0 then Scanned(queue, false)
    else if items[0].ErrorMark? then Scanned(queue, true)
    else if items[0].CommentMark? then ScanLine(queue + [Token.Newline], items[1..])
    else ScanLine(queue + [items[0].token], items[1..])
  }

  ghost predicate NoLayoutItems(items: seq<Item>)
  {
    forall i :: 0 <= i < |items| && items[i].Emit? ==>
      items[i].token != Token.Newline && items[i].token != Token.Indent && items[i].token != Token.Dedent
  }

  lemma LineHasNoLayout(line: Line)
    ensures NoLayoutItems(line.items)
  {
  }

  ghost predicate NoLayoutTokens(ts: seq<Token>)
  {
    forall k :: 0 <= k < |ts| ==> ts[k] != Token.Indent && ts[k] != Token.Dedent
  }

  // The queue only grows, and as no item queues a structural token, no
  // Indent or Dedent is added to it.
  lemma {:induction false} ScanLineAppends(queue: seq<Token>, items: seq<Item>)
    requires NoLayoutItems(items)
    ensures var r := ScanLine(queue, items);
      |queue| <= |r.queue| && r.queue == queue + r.queue[|queue|..] && NoLayoutTokens(r.queue[|queue|..])
    decreases |items|
  {
    var r := ScanLine(queue, items);
    if !(|items| == 0 || (items[0].CommentMark? && |queue| == 0) || items[0].ErrorMark?) {
      var q := if items[0].CommentMark? then queue + [Token.Newline] else queue + [items[0].token];
      assert NoLayoutItems(items[1..]) by {
        forall i | 0 <= i < |items| - 1 && items[1..][i].Emit?
          ensures items[1..][i].token != Token.Newline && items[1..][i].token != Token.Indent && items[1..][i].token != Token.Dedent
        {
          assert items[1..][i] == items[i + 1];
        }
      }
      ScanLineAppends(q, items[1..]);
      assert r == ScanLine(q, items[1..]);
      assert r.queue[|queue|..] == q[|queue|..] + r.queue[|q|..];
    }
  }

  lemma {:induction false} NoLayoutNet(ts: seq<Token>)
    requires NoLayoutTokens(ts)
    ensures Net(ts) == 0
    decreases |ts|
  {
    if |ts| > 0 {
      NoLayoutNet(ts[1..]);
    }
  }

  // The items that queue the given tokens.
  function Emits(ts: seq<Token>): (items: seq<Item>)
    ensures |items| == |ts|
  {
    seq(|ts|, i requires 0 <= i < |ts| => Emit(ts[i]))
  }

  // Scanning over items that only queue tokens appends exactly those
  // tokens, in order.
  lemma {:induction false} ScanEmits(queue: seq<Token>, ts: seq<Token>, rest: seq<Item>)
    ensures ScanLine(queue, Emits(ts) + rest) == ScanLine(queue + ts, rest)
    decreases |ts|
  {
    if |ts| == 0 {
      assert Emits(ts) + rest == rest;
      assert queue + ts == queue;
    } else {
      var items := Emits(ts) + rest;
      assert items[0] == Emit(ts[0]);
      assert items[1..] == Emits(ts[1..]) + rest;
      ScanEmits(queue + [ts[0]], ts[1..], rest);
      assert queue + [ts[0]] + ts[1..] == queue + ts;
    }
  }

  // Lexemes that are neither End, Comment nor Error.
  ghost predicate Plain(raw: seq<ScannedLexeme>)
  {
    forall i :: 0 <= i < |raw| ==> Convertible(raw[i].kind)
  }

  // The tokens a run of plain lexemes converts to, in order.
  function ToTokens(raw: seq<ScannedLexeme>): (ts: seq<Token>)
    requires Plain(raw)
    ensures |ts| == |raw|
  {
    seq(|raw|, i requires 0 <= i < |raw| => ToToken(raw[i]))
  }

  // The items of plain lexemes followed by more: the items that queue their
  // tokens, then the items of the rest.
  lemma PlainItems(plain: seq<ScannedLexeme>, rest: seq<ScannedLexeme>)
    requires Plain(plain)
    ensures Items(plain + rest) == Emits(ToTokens(plain)) + Items(rest)
  {
    Seqs.MapAppend(Classify, plain, rest);
    PlainItemsEmit(plain);
  }

  lemma PlainItemsEmit(plain: seq<ScannedLexeme>)
    requires Plain(plain)
    ensures Items(plain) == Emits(ToTokens(plain))
  {
    forall i | 0 <= i < |plain| ensures Items(plain)[i] == Emits(ToTokens(plain))[i] {
      assert Convertible(plain[i].kind);
    }
  }

  // A line of plain lexemes queues their tokens followed by one Newline.
  lemma ScanPlainLine(queue: seq<Token>, plain: seq<ScannedLexeme>)
    requires Plain(plain)
    ensures ScanLine(queue, Items(plain)) == Scanned(queue + ToTokens(plain) + [Token.Newline], false)
  {
    PlainItems(plain, []);
    assert plain + [] == plain;
    ScanEmits(queue, ToTokens(plain), []);
    assert Emits(ToTokens(plain)) + [] == Emits(ToTokens(plain));
  }

  // A comment ending a line of plain lexemes: if nothing is queued by then
  // the line contributes nothing (not even a Newline); otherwise the comment
  // appends a Newline and the End after it appends a second one.
  lemma ScanCommentAtEnd(queue: seq<Token>, plain: seq<ScannedLexeme>, comment: string)
    requires Plain(plain)
    ensures var before := queue + ToTokens(plain);
      ScanLine(queue, Items(plain + [Lexeme(Comment, comment)])) ==
        if before == [] then Scanned([], false) else Scanned(before + [Token.Newline, Token.Newline], false)
  {
    var rest: seq<ScannedLexeme> := [Lexeme(Comment, comment)];
    PlainItems(plain, rest);
    ScanEmits(queue, ToTokens(plain), Items(rest));
    assert Items(rest) == [CommentMark];
    assert [CommentMark][1..] == [];
  }

  // An Error lexeme after plain lexemes stops the line with a failure,
  // keeping what was queued before it.
  lemma ScanStopsAtError(queue: seq<Token>, plain: seq<ScannedLexeme>, bad: string, rest: seq<ScannedLexeme>)
    requires Plain(plain)
    ensures ScanLine(queue, Items(plain + ([Lexeme(Error, bad)] + rest))) == Scanned(queue + ToTokens(plain), true)
  {
    var tail: seq<ScannedLexeme> := [Lexeme(Error, bad)] + rest;
    PlainItems(plain, tail);
    ScanEmits(queue, ToTokens(plain), Items(tail));
    assert Items(tail)[0] == ErrorMark;
  }

  // ---------------------------------------------------------------------
  // One call of the iterator (src/lexer.rs:186-304)

  // st2 is strictly smaller than st1 in the order (input, queue, stack).
  ghost predicate Shrinks(st2: State, st1: State)
  {
    || |st2.input| < |st1.input|
    || (|st2.input| == |st1.input| && |st2.tokens| < |st1.tokens|)
    || (|st2.input| == |st1.input| && |st2.tokens| == |st1.tokens| && |st2.indents| < |st1.indents|)
  }

  // At the end of input each call pops one level, yielding Dedent for a
  // non-zero level and nothing once 0 (or nothing) is popped; a failing
  // read yields ReadError (src/lexer.rs:288-302).
  function EndOfInput(st: State): (r: (Option<Lexed>, State))
  {
    if st.failing then (Some(Err(ReadError)), st)
    else if |st.indents| == 0 then (None, st)
    else
      var top := st.indents[|st.indents| - 1];
      (if top == 0 then None else Some(Ok(Token.Dedent)), st.(indents := st.indents[..|st.indents| - 1]))
  }

  // What reading one non-blank line does to the stack and the queue
  // (src/lexer.rs:205-283): None when the line was absorbed, or the error
  // that interrupted it; the state keeps whatever was queued meanwhile.
  function ReadLine(st: State): (r: (Option<LexError>, State))
    requires |st.input| > 0 && st.tokens == []
  {
    var line := st.input[0];
    var rc := Reconcile(st.indents, line.width);
    var rest := st.(input := st.input[1..], indents := rc.stack);
    if |rc.stack| == 0 then (Some(InvalidError("Indentation Error")), rest.(tokens := rc.emitted))
    else
      var sc := ScanLine(rc.emitted, line.items);
      (if sc.failed then Some(InvalidError("Logos Error")) else None, rest.(tokens := sc.queue))
  }

  // A queued token is handed out first without reading. With an empty queue
  // a line is read: a blank one is skipped; any other one is absorbed and
  // the call starts over. A call that yields a token leaves a smaller state
  // behind.
  function Next(st: State): (r: (Option<Lexed>, State))
    ensures r.0.Some? && r.0.value.Ok? ==> Shrinks(r.1, st)
    decreases |st.input|
  {
    if |st.tokens| > 0 then (Some(Ok(st.tokens[0])), st.(tokens := st.tokens[1..]))
    else if |st.input| == 0 then EndOfInput(st)
    else if IsBlank(st.input[0]) then Next(st.(input := st.input[1..]))
    else
      var (e, st') := ReadLine(st);
      if e.Some? then (Some(Err(e.value)), st') else Next(st')
  }

  // ---------------------------------------------------------------------
  // A whole run: calling next until it yields nothing or an error

  // The tokens handed out, and the error that ended the run (None when the
  // iterator ended normally).
  function Run(st: State): (r: (seq<Token>, Option<LexError>))
    decreases |st.input|, |st.tokens|, |st.indents|
  {
    var (item, st') := Next(st);
    if item.None? then ([], None)
    else if item.value.Err? then ([], Some(item.value.error))
    else
      var rest := Run(st');
      ([item.value.token] + rest.0, rest.1)
  }

  // ---------------------------------------------------------------------
  // Balance: every Indent handed out is matched by a Dedent

  // A state the lexer can reach from a new lexer: a well-formed stack and
  // lines whose widths, being counts, are non-negative.
  ghost predicate Sound(st: State)
  {
    IndentStack(st.indents) && NonNegativeWidths(st.input)
  }

  // The Dedents minus Indents the rest of a run owes: the open blocks
  // above level 0, less the Indents still waiting in the queue.
  function Potential(st: State): int
  {
    Net(st.tokens) - (|st.indents| - 1)
  }

  // Absorbing a line never reports "Indentation Error", keeps the state
  // sound, and queues exactly the change in stack height.
  lemma ReadLineBalance(st: State)
    requires |st.input| > 0 && st.tokens == [] && Sound(st)
    ensures ReadLine(st).0 != Some(InvalidError("Indentation Error"))
    ensures ReadLine(st).0.None? ==> Sound(ReadLine(st).1) && Potential(ReadLine(st).1) == Potential(st)
  {
    var line := st.input[0];
    assert line.width >= 0;
    var rc := Reconcile(st.indents, line.width);
    ReconcileKeepsStack(st.indents, line.width);
    ReconcileNet(st.indents, line.width);
    var items := line.items;
    LineHasNoLayout(line);
    ScanLineAppends(rc.emitted, items);
    var sc := ScanLine(rc.emitted, items);
    NoLayoutNet(sc.queue[|rc.emitted|..]);
    NetAppend(rc.emitted, sc.queue[|rc.emitted|..]);
    DropFirstLine(st);
  }

  lemma DropFirstLine(st: State)
    requires |st.input| > 0 && NonNegativeWidths(st.input)
    ensures NonNegativeWidths(st.input[1..])
  {
    forall i | 0 <= i < |st.input| - 1 ensures st.input[1..][i].width >= 0 {
      assert st.input[1..][i] == st.input[i + 1];
    }
  }

  // One call never reports "Indentation Error"; a call that ends the run
  // leaves nothing owed; a call that yields a token keeps the state sound
  // and pays exactly that token's share of what is owed.
  lemma {:induction false} NextBalance(st: State)
    requires Sound(st)
    ensures Next(st).0 != Some(Err(InvalidError("Indentation Error")))
    ensures Next(st).0.None? ==> Potential(st) == 0
    ensures Next(st).0.Some? && Next(st).0.value.Ok? ==>
      Sound(Next(st).1) && Potential(st) == Net([Next(st).0.value.token]) + Potential(Next(st).1)
    decreases |st.input|
  {
    if |st.tokens| > 0 {
    } else if |st.input| == 0 {
      var s := st.indents;
      if s[|s| - 1] == 0 {
        assert |s| == 1;
      } else {
        assert IndentStack(s[..|s| - 1]);
      }
    } else if IsBlank(st.input[0]) {
      DropFirstLine(st);
      NextBalance(st.(input := st.input[1..]));
    } else {
      ReadLineBalance(st);
      if ReadLine(st).0.None? {
        NextBalance(ReadLine(st).1);
      }
    }
  }

  // A run that ends normally hands out exactly the Dedents it owes, and no
  // run ends with "Indentation Error".
  lemma {:induction false} RunBalance(st: State)
    requires Sound(st)
    ensures Run(st).1 != Some(InvalidError("Indentation Error"))
    ensures Run(st).1.None? ==> Net(Run(st).0) == Potential(st)
    decreases |st.input|, |st.tokens|, |st.indents|
  {
    NextBalance(st);
    var (item, st') := Next(st);
    if item.None? {
      assert Run(st) == ([], None);
    } else if item.value.Err? {
      assert Run(st) == ([], Some(item.value.error));
    } else {
      var t := item.value.token;
      RunBalance(st');
      assert Run(st) == ([t] + Run(st').0, Run(st').1);
      NetAppend([t], Run(st').0);
    }
  }

  // From a new lexer, every run that ends normally hands out as many
  // Indents as Dedents.
  lemma BlocksBalance(lines: seq<Line>, failing: bool)
    requires NonNegativeWidths(lines)
    ensures Run(State(lines, failing, [0], [])).1 != Some(InvalidError("Indentation Error"))
    ensures Run(State(lines, failing, [0], [])).1.None? ==>
      multiset(Run(State(lines, failing, [0], [])).0)[Token.Indent] == multiset(Run(State(lines, failing, [0], [])).0)[Token.Dedent]
  {
    RunBalance(State(lines, failing, [0], []));
    NetCounts(Run(State(lines, failing, [0], [])).0);
  }

  // ---------------------------------------------------------------------
  // The queue, the end of input and lines that change nothing

  // The queue is first in, first out: a run hands out everything queued,
  // in order, before it reads anything.
  lemma {:induction false} RunDrainsQueueFirst(st: State)
    ensures Run(st) == (st.tokens + Run(st.(tokens := [])).0, Run(st.(tokens := [])).1)
    decreases |st.tokens|
  {
    if |st.tokens| == 0 {
      assert st == st.(tokens := []);
      assert st.tokens + Run(st).0 == Run(st).0;
    } else {
      var st' := st.(tokens := st.tokens[1..]);
      assert Next(st) == (Some(Ok(st.tokens[0])), st');
      assert Run(st) == ([st.tokens[0]] + Run(st').0, Run(st').1);
      RunDrainsQueueFirst(st');
      var empty := st.(tokens := []);
      assert st'.(tokens := []) == empty;
      var later := Run(empty);
      assert Run(st').0 == st'.tokens + later.0;
      assert [st.tokens[0]] + (st'.tokens + later.0) == ([st.tokens[0]] + st'.tokens) + later.0;
      assert st.tokens == [st.tokens[0]] + st'.tokens;
    }
  }

  // At the end of input, with nothing queued, a run closes every open
  // block with one Dedent each and ends normally: the final pop of level 0
  // yields nothing.
  lemma {:induction false} EndOfInputClosesBlocks(stack: seq<int>)
    requires IndentStack(stack)
    ensures Run(State([], false, stack, [])) == (Repeat(Token.Dedent, |stack| - 1), None)
    decreases |stack|
  {
    var st := State([], false, stack, []);
    if |stack| == 1 {
      assert Next(st).0 == None;
    } else {
      var front := stack[..|stack| - 1];
      assert stack[|stack| - 1] > stack[0];
      assert Next(st) == (Some(Ok(Token.Dedent)), State([], false, front, []));
      assert IndentStack(front);
      EndOfInputClosesBlocks(front);
      RepeatCons(Token.Dedent, |front| - 1);
    }
  }

  // When reading fails at the end of what could be read, with nothing
  // queued, the run ends with ReadError.
  lemma EndOfInputFails(stack: seq<int>)
    ensures Run(State([], true, stack, [])) == ([], Some(ReadError))
  {
  }

  // The state with one more line, inserted before the k-th remaining line.
  function InsertLine(st: State, k: nat, line: Line): (r: State)
    requires k <= |st.input|
  {
    st.(input := st.input[..k] + [line] + st.input[k..])
  }

  // A blank line as the next line is skipped without a trace.
  lemma NextSkipsBlank(st: State, blank: Line)
    requires IsBlank(blank) && st.tokens == []
    ensures Next(InsertLine(st, 0, blank)) == Next(st)
  {
    var ins := InsertLine(st, 0, blank);
    assert ins.input[0] == blank && ins.input[1..] == st.input;
    assert ins.(input := ins.input[1..]) == st;
  }

  // Reading a line is not affected by a line inserted after it.
  lemma ReadLineInsert(st: State, k: nat, line: Line)
    requires 0 < k <= |st.input| && st.tokens == []
    ensures ReadLine(InsertLine(st, k, line)).0 == ReadLine(st).0
    ensures ReadLine(InsertLine(st, k, line)).1 == InsertLine(ReadLine(st).1, k - 1, line)
  {
    var ins := InsertLine(st, k, line);
    assert ins.input[0] == st.input[0];
    assert ins.input[1..] == st.input[1..][..k - 1] + [line] + st.input[1..][k - 1..];
  }

  // With tokens queued, a call hands out the first one and reads nothing,
  // so an extra line stays where it was.
  lemma NextQueuedInsert(st: State, k: nat, line: Line)
    requires |st.tokens| > 0 && k <= |st.input|
    ensures Next(InsertLine(st, k, line)) == (Next(st).0, InsertLine(Next(st).1, k, line))
  {
  }

  // A skipped blank first line leaves a line inserted later one place
  // nearer the front.
  lemma NextSkipInsert(st: State, k: nat, line: Line)
    requires st.tokens == [] && 0 < k <= |st.input| && IsBlank(st.input[0])
    ensures var st1 := st.(input := st.input[1..]);
      Next(InsertLine(st, k, line)) == Next(InsertLine(st1, k - 1, line)) && Next(st) == Next(st1)
  {
    var ins := InsertLine(st, k, line);
    var st1 := st.(input := st.input[1..]);
    assert ins.input[0] == st.input[0];
    assert ins.(input := ins.input[1..]) == InsertLine(st1, k - 1, line) by {
      assert ins.input[1..] == st1.input[..k - 1] + [line] + st1.input[k - 1..];
    }
  }

  // A line absorbed from the front leaves a line inserted later one place
  // nearer the front, behind the same report.
  lemma NextReadInsert(st: State, k: nat, line: Line)
    requires st.tokens == [] && 0 < k <= |st.input| && !IsBlank(st.input[0])
    ensures var (e, st') := ReadLine(st);
      if e.Some? then Next(InsertLine(st, k, line)) == (Next(st).0, InsertLine(Next(st).1, k - 1, line))
      else Next(InsertLine(st, k, line)) == Next(InsertLine(st', k - 1, line)) && Next(st) == Next(st')
  {
    var ins := InsertLine(st, k, line);
    assert ins.input[0] == st.input[0];
    ReadLineInsert(st, k, line);
  }

  // One call on a state with an extra blank line yields the same item, and
  // leaves behind either the same state (the blank line was read and
  // skipped) or the same state with the blank line still to come.
  lemma {:induction false} NextIgnoresBlank(st: State, k: nat, blank: Line) returns (gone: bool, k': nat)
    requires IsBlank(blank) && k <= |st.input|
    ensures Next(InsertLine(st, k, blank)).0 == Next(st).0
    ensures gone ==> Next(InsertLine(st, k, blank)).1 == Next(st).1
    ensures !gone ==> k' <= |Next(st).1.input| && Next(InsertLine(st, k, blank)).1 == InsertLine(Next(st).1, k', blank)
    decreases |st.input|, 1
  {
    if |st.tokens| > 0 {
      gone, k' := false, k;
      NextQueuedInsert(st, k, blank);
    } else if k == 0 {
      gone, k' := true, 0;
      NextSkipsBlank(st, blank);
    } else if IsBlank(st.input[0]) {
      gone, k' := NextIgnoresBlankAfterBlank(st, k, blank);
    } else {
      gone, k' := NextIgnoresBlankAfterLine(st, k, blank);
    }
  }

  // NextIgnoresBlank when the first line is itself blank.
  lemma {:induction false} NextIgnoresBlankAfterBlank(st: State, k: nat, blank: Line) returns (gone: bool, k': nat)
    requires IsBlank(blank) && st.tokens == [] && 0 < k <= |st.input| && IsBlank(st.input[0])
    ensures Next(InsertLine(st, k, blank)).0 == Next(st).0
    ensures gone ==> Next(InsertLine(st, k, blank)).1 == Next(st).1
    ensures !gone ==> k' <= |Next(st).1.input| && Next(InsertLine(st, k, blank)).1 == InsertLine(Next(st).1, k', blank)
    decreases |st.input|, 0
  {
    NextSkipInsert(st, k, blank);
    gone, k' := NextIgnoresBlank(st.(input := st.input[1..]), k - 1, blank);
  }

  // NextIgnoresBlank when the first line is absorbed.
  lemma {:induction false} NextIgnoresBlankAfterLine(st: State, k: nat, blank: Line) returns (gone: bool, k': nat)
    requires IsBlank(blank) && st.tokens == [] && 0 < k <= |st.input| && !IsBlank(st.input[0])
    ensures Next(InsertLine(st, k, blank)).0 == Next(st).0
    ensures gone ==> Next(InsertLine(st, k, blank)).1 == Next(st).1
    ensures !gone ==> k' <= |Next(st).1.input| && Next(InsertLine(st, k, blank)).1 == InsertLine(Next(st).1, k', blank)
    decreases |st.input|, 0
  {
    NextReadInsert(st, k, blank);
    var (e, st') := ReadLine(st);
    if e.Some? {
      gone, k' := false, k - 1;
    } else {
      gone, k' := NextIgnoresBlank(st', k - 1, blank);
    }
  }

  // Inserting a blank line anywhere in the input changes nothing a run
  // hands out, nor how it ends.
  lemma {:induction false} RunIgnoresBlank(st: State, k: nat, blank: Line)
    requires IsBlank(blank) && k <= |st.input|
    ensures Run(InsertLine(st, k, blank)) == Run(st)
    decreases |st.input|, |st.tokens|, |st.indents|
  {
    var gone, k' := NextIgnoresBlank(st, k, blank);
    var (item, st') := Next(st);
    if item.Some? && item.value.Ok? {
      if !gone {
        RunIgnoresBlank(st', k', blank);
      }
    }
  }

  lemma BlankLinesChangeNothing(before: seq<Line>, blank: Line, after: seq<Line>, failing: bool, stack: seq<int>, queue: seq<Token>)
    requires IsBlank(blank)
    ensures Run(State(before + [blank] + after, failing, stack, queue)) == Run(State(before + after, failing, stack, queue))
  {
    var st := State(before + after, failing, stack, queue);
    RunIgnoresBlank(st, |before|, blank);
    assert st.input[..|before|] == before && st.input[|before|..] == after;
  }

  // A line holding only a comment, at the width already on top of the
  // stack and with nothing queued, is skipped without a trace.
  lemma CommentLineAtSameWidth(st: State, text: string)
    requires st.tokens == [] && |st.indents| > 0
    ensures var line := ScanLexemes(Last(st.indents), [Lexeme(Comment, text)]);
      Next(InsertLine(st, 0, line)) == Next(st)
  {
    var line := ScanLexemes(Last(st.indents), [Lexeme(Comment, text)]);
    var ins := InsertLine(st, 0, line);
    assert ins.input[0] == line && ins.input[1..] == st.input;
    assert Reconcile(st.indents, line.width) == Reconciled(st.indents, []);
    assert line.items == [CommentMark];
    assert ScanLine([], [CommentMark]) == Scanned([], false);
    assert ReadLine(ins) == (None, st);
  }

  // A comment-only line at a new width is not skipped: from a new lexer,
  // a first line "    # note" pushes 4 and queues Indent and then, the
  // queue being non-empty at the comment, two Newlines.
  lemma IndentedCommentLine()
    ensures var line := ScanLexemes(4, [Lexeme(Comment, "# note")]);
      Next(State([line], false, [0], [])) == (Some(Ok(Token.Indent)), State([], false, [0, 4], [Token.Newline, Token.Newline]))
  {
    var line := ScanLexemes(4, [Lexeme(Comment, "# note")]);
    assert Reconcile([0], 4) == Reconciled([0, 4], [Token.Indent]);
    assert line.items == [CommentMark];
    assert [CommentMark][1..] == [];
    assert ScanLine([Token.Indent], [CommentMark]) == Scanned([Token.Indent, Token.Newline, Token.Newline], false);
  }

  // ---------------------------------------------------------------------
  // Two programs in sequence

  // With nothing queued, a run through a non-blank line that reads cleanly
  // hands out what the line queued, then goes on with the lines after it.
  lemma {:induction false} RunThroughLine(line: Line, rest: seq<Line>, stack: seq<int>, after: seq<int>, queued: seq<Token>)
    requires !IsBlank(line)
    requires ReadLine(State([line] + rest, false, stack, [])) == (None, State(rest, false, after, queued))
    ensures var later := Run(State(rest, false, after, []));
      Run(State([line] + rest, false, stack, [])) == (queued + later.0, later.1)
  {
    var st := State(rest, false, after, queued);
    assert ([line] + rest)[0] == line;
    assert Next(State([line] + rest, false, stack, [])) == Next(st);
    assert Run(State([line] + rest, false, stack, [])) == Run(st);
    RunDrainsQueueFirst(st);
  }

  // A line of plain lexemes whose width the stack accepts hands out what
  // reconciling queued, then its tokens and a Newline.
  lemma {:induction false} RunPlainLine(width: int, plain: seq<ScannedLexeme>, rest: seq<Line>, stack: seq<int>, after: seq<int>, emitted: seq<Token>)
    requires Plain(plain) && |plain| > 0
    requires Reconcile(stack, width) == Reconciled(after, emitted) && |after| > 0
    ensures var later := Run(State(rest, false, after, []));
      Run(State([ScanLexemes(width, plain)] + rest, false, stack, [])) ==
        (emitted + ToTokens(plain) + [Token.Newline] + later.0, later.1)
  {
    var line := ScanLexemes(width, plain);
    var queued := emitted + ToTokens(plain) + [Token.Newline];
    ScanPlainLine(emitted, plain);
    assert ([line] + rest)[0] == line && ([line] + rest)[1..] == rest;
    assert ReadLine(State([line] + rest, false, stack, [])) == (None, State(rest, false, after, queued));
    RunThroughLine(line, rest, stack, after, queued);
  }

  // A comment-only line whose width the stack accepts hands out nothing
  // when reconciling queued nothing; otherwise it hands out what was queued
  // and two Newlines.
  lemma {:induction false} RunCommentLine(width: int, comment: ScannedLexeme, rest: seq<Line>, stack: seq<int>, after: seq<int>, emitted: seq<Token>)
    requires comment.kind == Comment
    requires Reconcile(stack, width) == Reconciled(after, emitted) && |after| > 0
    ensures var later := Run(State(rest, false, after, []));
      Run(State([ScanLexemes(width, [comment])] + rest, false, stack, [])) ==
        ((if |emitted| == 0 then [] else emitted + [Token.Newline, Token.Newline]) + later.0, later.1)
  {
    var line := ScanLexemes(width, [comment]);
    var queued := if |emitted| == 0 then [] else emitted + [Token.Newline, Token.Newline];
    assert line.items == [CommentMark];
    assert [CommentMark][1..] == [];
    assert ScanLine(emitted, [CommentMark]) == Scanned(queued, false);
    assert ([line] + rest)[0] == line && ([line] + rest)[1..] == rest;
    assert ReadLine(State([line] + rest, false, stack, [])) == (None, State(rest, false, after, queued));
    RunThroughLine(line, rest, stack, after, queued);
  }

  // A line at level 0 and a line indented under it, followed by any lines:
  // the run leaves the block open for the lines after them.
  lemma {:induction false} RunOpenBlock(head: seq<ScannedLexeme>, width: int, body: seq<ScannedLexeme>, rest: seq<Line>)
    requires Plain(head) && |head| > 0 && Plain(body) && |body| > 0 && width > 0
    ensures var later := Run(State(rest, false, [0, width], []));
      Run(State([ScanLexemes(0, head), ScanLexemes(width, body)] + rest, false, [0], [])) ==
        (ToTokens(head) + [Token.Newline, Token.Indent] + ToTokens(body) + [Token.Newline] + later.0, later.1)
  {
    var l1 := ScanLexemes(0, head);
    var l2 := ScanLexemes(width, body);
    assert Last([0]) == 0;
    assert Reconcile([0], 0) == Reconciled([0], []);
    assert Reconcile([0], width) == Reconciled([0, width], [Token.Indent]);
    assert [l1, l2] + rest == [l1] + ([l2] + rest);
    var later := Run(State(rest, false, [0, width], []));
    var inner := Run(State([l2] + rest, false, [0], []));
    RunPlainLine(width, body, rest, [0], [0, width], [Token.Indent]);
    assert inner == ([Token.Indent] + ToTokens(body) + [Token.Newline] + later.0, later.1);
    RunPlainLine(0, head, [l2] + rest, [0], [0], []);
    assert Run(State([l1] + ([l2] + rest), false, [0], [])) == ([] + ToTokens(head) + [Token.Newline] + inner.0, inner.1);
    BlockAround(ToTokens(head), ToTokens(body), later.0);
  }

  // The two lines' tokens, regrouped.
  lemma BlockAround(head: seq<Token>, body: seq<Token>, later: seq<Token>)
    ensures [] + head + [Token.Newline] + ([Token.Indent] + body + [Token.Newline] + later) ==
      head + [Token.Newline, Token.Indent] + body + [Token.Newline] + later
  {
    assert [] + head == head;
    assert [Token.Newline] + [Token.Indent] == [Token.Newline, Token.Indent];
  }

  // The tokens of the lines before a closing Dedent, regrouped.
  lemma DedentAfter(head: seq<Token>, body: seq<Token>, later: seq<Token>)
    ensures var before := head + [Token.Newline, Token.Indent] + body + [Token.Newline];
      && before + [Token.Dedent] == head + [Token.Newline, Token.Indent] + body + [Token.Newline, Token.Dedent]
      && before + ([Token.Dedent] + [Token.Newline, Token.Newline] + later) ==
         (before + [Token.Dedent]) + [Token.Newline, Token.Newline] + later
  {
    var before := head + [Token.Newline, Token.Indent] + body + [Token.Newline];
    assert [Token.Newline] + [Token.Dedent] == [Token.Newline, Token.Dedent];
    assert before + ([Token.Dedent] + [Token.Newline, Token.Newline] + later) ==
      (before + [Token.Dedent]) + ([Token.Newline, Token.Newline] + later);
  }

  // Two programs one after the other do not always tokenize as each alone.
  // The first, a line at level 0 and a line indented under it, leaves its
  // block open at its end, where the run closes it with one Dedent. The
  // second starts with a comment-only line at level 0, which alone yields
  // nothing. In sequence, that comment line closes the block instead and,
  // the queue no longer being empty, adds two Newlines after the Dedent.
  lemma {:induction false} ConcatenationAddsNewlines(head: seq<ScannedLexeme>, width: int, body: seq<ScannedLexeme>, comment: ScannedLexeme, rest: seq<Line>)
    requires Plain(head) && |head| > 0 && Plain(body) && |body| > 0 && width > 0
    requires comment.kind == Comment
    ensures var first := [ScanLexemes(0, head), ScanLexemes(width, body)];
      var second := [ScanLexemes(0, [comment])] + rest;
      var alone := Run(State(first, false, [0], []));
      var next := Run(State(second, false, [0], []));
      && alone == (ToTokens(head) + [Token.Newline, Token.Indent] + ToTokens(body) + [Token.Newline, Token.Dedent], None)
      && next == Run(State(rest, false, [0], []))
      && Run(State(first + second, false, [0], [])) == (alone.0 + [Token.Newline, Token.Newline] + next.0, next.1)
  {
    var first := [ScanLexemes(0, head), ScanLexemes(width, body)];
    var second := [ScanLexemes(0, [comment])] + rest;
    var later := Run(State(rest, false, [0], []));
    assert Last([0]) == 0 && Last([0, width]) == width && [0, width][..1] == [0];
    assert Reconcile([0], 0) == Reconciled([0], []);
    assert Reconcile([0, width], 0) == Reconciled([0], [Token.Dedent]);
    DedentAfter(ToTokens(head), ToTokens(body), later.0);
    // The first program alone.
    assert first + [] == first;
    RunOpenBlock(head, width, body, []);
    EndOfInputClosesBlocks([0, width]);
    assert Repeat(Token.Dedent, 1) == [Token.Dedent];
    // The second program alone.
    RunCommentLine(0, comment, rest, [0], [0], []);
    assert [] + later.0 == later.0;
    // Both.
    RunOpenBlock(head, width, body, second);
    RunCommentLine(0, comment, rest, [0, width], [0], [Token.Dedent]);
    var before := ToTokens(head) + [Token.Newline, Token.Indent] + ToTokens(body) + [Token.Newline];
    var alone := Run(State(first, false, [0], []));
    assert alone == (before + [Token.Dedent], None);
    assert Run(State(second, false, [0], [])) == later;
    assert Run(State(first + second, false, [0], [])) == (before + ([Token.Dedent] + [Token.Newline, Token.Newline] + later.0), later.1);
  }
}
