# Indentation-aware tokenizer and tree numbering of a small Python-like compiler front end

This project models three parts of a compiler front end for a small
Python-like language.

1. **The layout tokenizer.** `Lexer::next` in src/lexer.rs sits above a
   per-line regular-expression scanner.
   - It keeps an indentation stack, which starts as `[0]`, and a FIFO queue of tokens not yet handed out.
   - For each line that is not blank, it reconciles the line's leading-whitespace width against the stack, queueing Indent and Dedent tokens.
   - It then converts the line's lexemes into tokens. Comments, scan errors and the end of the line have their own rules.
   - At the end of input it pops one level of the stack per call.
2. **The AST** of src/ast.rs. It has statements, expressions and the `Node` wrapper.
3. **The visitor `output`** of src/main.rs. It numbers the nodes of a tree
   in pre-order. It prints one edge line from the parent to each node that
   has one, and one label line per node, except a leaf whose token has
   another variant, which prints none. It returns the next free number.

The modules follow the source:
- `Tokens`: the token type.
- `Scanner`: the raw lexeme kinds, one line as the scanner delivers it, and the lexeme-to-token conversion.
- `Widths`: the `IndentHelper` counters, as a class.
- `Layout`: `Lexer::next` as a function on the lexer's state, with the properties proved about it.
- `Lexers`: the `Lexer` struct as a class. Its methods change the stack and the queue in place, with loops. Each method is proved equal to the `Layout` function.
- `Ast`: the syntax tree, node sizes, and children in declaration order.
- `Digraph`: the visitor, in two forms:
  - `Render`, a recursive function;
  - `Output`, `OutputStatement`, `OutputExpression` and `OutputEach`, methods written as the source is, with `for` loops over the elifs and the block statements. They are proved to return exactly what `Render` describes.

Input is modelled as the lines still to be read, plus a flag that says
whether the read after the last line fails. Each line is given as its
indentation width and the scanner's items up to its End lexeme. What
`println!` prints is modelled as a returned sequence of records.

Where the documented design and the code differ, the model follows the code:

- **A dedent to a width that was never pushed** is not an error. From `[0, 4]`, width 2 pops 4 and then pushes 2, queueing Dedent then Indent (`DedentToUnpushedWidth`). The "Indentation Error" branch cannot be reached at all (`ReconcileKeepsStack`, `NextBalance`).
- **A comment-only line** is skipped only when its width equals the top of the stack (`CommentLineAtSameWidth`). At a new width it changes the stack and queues Indent or Dedent, then two Newlines (`IndentedCommentLine`).
- **A comment after tokens on the same line** makes that line end with two Newlines, not one (`ScanCommentAtEnd`).
- **Programs tokenized one after the other** do not always yield what each yields alone. Take a first program whose last line is indented under a line at level 0, and a second program that starts with a comment-only line at level 0. Alone, the first ends with one Dedent and the comment line yields nothing. In sequence, the comment line closes the block and, since that Dedent is then queued, adds two Newlines after it (`ConcatenationAddsNewlines`). "if a:" / "    b = 1" followed by "# c" / "c = 2" is an instance.

## Model

| member | source | states |
|---|---|---|
| Scanner.ToTokenKeepsKind | src/lexer.rs:238-276 | every lexeme kind other than Comment, Error and End becomes the token of the same name; the conversion is one-to-one on kinds (`KindOf` inverts it) |
| Scanner.ToTokenKeepsPayload | src/lexer.rs:252-255 | Boolean is `true` exactly for the slice "True"; Integer carries the slice's decimal value; Float and Identifier keep the slice |
| Scanner.ParsesAsI32Means | src/lexer.rs:253 | the no-panic condition for `i32::from_str(..).unwrap()`: an optional minus sign then digits, with the value in the i32 range |
| Scanner.DecimalRoundTrip | src/lexer.rs:253 | reading back the decimal text of a number, with or without a minus sign, gives the number |
| Widths.IndentHelper.constructor | src/lexer.rs:8-12 | both counters start at zero |
| Widths.IndentHelper.OnAdvance | src/lexer.rs:14-16 | an advance bumps `tokens` and nothing else |
| Widths.IndentHelper.OnWhitespace | src/lexer.rs:18-22 | a whitespace byte bumps `whites` only while `tokens` is 1 |
| Widths.LeadingWidth | src/lexer.rs:13-23 | after the first advance, k whitespace bytes, the second advance and anything else, `whites` is k: the line's leading width, whatever whitespace comes later |
| Widths.ReplayMonotone | src/lexer.rs:13-23 | the counters never decrease, so a width is never negative |
| Widths.LaterWhitespaceIgnored | src/lexer.rs:18-22 | whitespace after the second advance leaves `whites` unchanged |
| Layout.Reconcile | src/lexer.rs:206-216 | when the loop ends with a non-empty stack, its top equals the line's width |
| Layout.ReconcileShape | src/lexer.rs:206-216 | the loop pops some levels, each larger than the width and each queueing one Dedent, then pushes the width at most once, queueing one Indent, only on top of a smaller level |
| Layout.ReconcileNet | src/lexer.rs:206-216 | the stack grows by the number of Indents queued minus the number of Dedents queued |
| Layout.ReconcileKeepsStack | src/lexer.rs:206-220 | on a stack strictly increasing from 0 and a non-negative width, the stack stays strictly increasing from 0 and its top becomes the width, so the "Indentation Error" branch is never taken |
| Layout.DedentToUnpushedWidth | src/lexer.rs:206-216 | from [0, 4], width 2 gives stack [0, 2] and queues Dedent, Indent |
| Layout.ScanLineAppends | src/lexer.rs:222-279 | scanning a line only appends to the queue, and appends no Indent or Dedent |
| Layout.ScanPlainLine | src/lexer.rs:222-226 | a line of ordinary lexemes queues their tokens in order, then one Newline |
| Layout.ScanCommentAtEnd | src/lexer.rs:227-233 | a trailing comment adds nothing when the queue is still empty; otherwise the line ends with two Newlines |
| Layout.ScanStopsAtError | src/lexer.rs:234-236 | an Error lexeme stops the line with a failure, keeping what was queued before it |
| Layout.Next | src/lexer.rs:186-304 | a call that yields a token leaves a smaller state (fewer lines, a shorter queue or a shorter stack) |
| Layout.RunDrainsQueueFirst | src/lexer.rs:188-192 | the queue is FIFO: a run hands out everything queued, in order, before reading any line |
| Layout.NextSkipsBlank | src/lexer.rs:200-204 | a blank next line is skipped: the call behaves as if it were not there |
| Layout.BlankLinesChangeNothing | src/lexer.rs:200-204 | inserting a blank line anywhere in the input changes neither the tokens a run hands out nor how the run ends |
| Layout.CommentLineAtSameWidth | src/lexer.rs:206-229 | a comment-only line at the width on top of the stack, with nothing queued, leaves no trace |
| Layout.IndentedCommentLine | src/lexer.rs:206-233 | a comment-only first line at width 4 yields Indent, pushes 4 and queues two Newlines |
| Layout.EndOfInputClosesBlocks | src/lexer.rs:286-297 | at the end of input with nothing queued, a run yields one Dedent per level above 0 and then ends |
| Layout.RunThroughLine | src/lexer.rs:188-197 | with nothing queued, once a non-blank line is read without error the run hands out what that line queued, then continues with the lines after it |
| Layout.RunPlainLine | src/lexer.rs:206-226 | a line of plain lexemes, with nothing queued, hands out the Indents or Dedents of reconciling its width, then its tokens in order, then one Newline |
| Layout.RunCommentLine | src/lexer.rs:206-233 | a comment-only line hands out nothing when reconciling its width queued nothing; otherwise it hands out those Indents or Dedents followed by two Newlines |
| Layout.RunOpenBlock | src/lexer.rs:206-216 | a plain line at level 0 and a plain line indented under it yield the first line's tokens, Newline, Indent, the second line's tokens and Newline, and leave the block open for the lines that follow |
| Layout.ConcatenationAddsNewlines | src/lexer.rs:227-233 | a program ending inside a block, followed by a program starting with a comment-only line at level 0: alone they yield their own tokens, the first ending in one Dedent; in sequence they yield both and two more Newlines after that Dedent |
| Layout.EndOfInputFails | src/lexer.rs:300 | a failing read at the end of input ends the run with ReadError |
| Layout.ReadLineBalance | src/lexer.rs:205-220 | absorbing a line never reports "Indentation Error", keeps the state sound, and queues exactly the change in stack height |
| Layout.NextBalance | src/lexer.rs:186-304 | one call never reports "Indentation Error"; a call that ends the run leaves no open block; a call that yields a token keeps the state sound and accounts for that token's Indent or Dedent |
| Layout.RunBalance | src/lexer.rs:186-304 | a run never ends with "Indentation Error"; a run that ends normally yields Dedents minus Indents equal to the open blocks less the Indents already queued |
| Layout.BlocksBalance | src/lexer.rs:170-176 | from a new lexer, a run that ends normally hands out as many Indents as Dedents |
| Lexers.Lexer.constructor | src/lexer.rs:170-176 | a new lexer has stack [0] and an empty queue |
| Lexers.Lexer.Realign | src/lexer.rs:206-216 | the `while let` loop leaves the stack and the queue exactly as `Reconcile` describes, and changes nothing else |
| Lexers.Lexer.ScanItems | src/lexer.rs:222-279 | the `loop` over a line's lexemes leaves the queue, and reports a failure, exactly as `ScanLine` describes |
| Lexers.Lexer.Next | src/lexer.rs:186-304 | the iterator's `next` returns, and leaves the lexer in, exactly what `Layout.Next` gives for the old state |
| Ast.StatementArity | src/ast.rs:4-11 | Assignment has two expression children; If, ElIf and While start with the condition then the body; If has 2 + elifs + optional else children; Block has its statements; Break has none |
| Ast.ExpressionArity | src/ast.rs:20-39 | leaves have no children, Negate one, every binary operator two (left, then right); all are expressions |
| Ast.ChildrenSize | src/ast.rs:4-39 | a node is one more than all its children together |
| Digraph.Output | src/main.rs:14-154 | what `output` prints and the number it returns are exactly `Render`'s |
| Digraph.OutputStatement | src/main.rs:20-60 | the statement arms print and return exactly what `RenderStatement` describes |
| Digraph.OutputEach | src/main.rs:30-32 | the `for s in elif` loop, and the same `for s in statements` loop of src/main.rs:51-53, visit each statement from the number the previous one returned |
| Digraph.OutputExpression | src/main.rs:61-152 | the expression arms print and return exactly what `RenderExpression` describes |
| Digraph.RenderByChildren | src/main.rs:14-154 | every arm prints the parent edge, then its label (none for a leaf of the wrong variant), then visits the children in declaration order from n + 1 |
| Digraph.RenderNext | src/main.rs:14-154 | `output` returns n plus the number of nodes in the tree |
| Digraph.RenderStatementsNext | src/main.rs:30-32 | the loop over the elifs, and the loop over a Block's statements at src/main.rs:51-53, returns n plus the statements' total size |
| Digraph.ChildNumbering | src/main.rs:20-152 | the i-th child is visited between its earlier and later siblings, numbered n + 1 plus the sizes of the siblings before it |
| Digraph.BinaryNumbering | src/main.rs:80-84 | a binary operator numbers its left operand n + 1 and its right operand n + 1 + size(left) |
| Digraph.NegateNumbering | src/main.rs:128-131 | Negate has exactly one child, numbered n + 1 |
| Digraph.LeafNumbering | src/main.rs:62-79 | for the Identifier, Integer and Float arms and the Boolean arm at src/main.rs:102-107: a leaf uses one number; it is labelled with its payload when its token has the variant the leaf names, and prints no label otherwise |
| Digraph.RenderInOrder | src/main.rs:14-154 | every record is about a node in n .. n + size - 1, and records come in pre-order |
| Digraph.RenderEdgeCounts | src/main.rs:16-18 | node n has one incoming edge when there is a parent and none otherwise; every other node of the tree has exactly one |
| Digraph.RenderEdgesDown | src/main.rs:16-18 | every edge other than the parent's goes from a smaller number to a larger one |
| Digraph.RenderLabels | src/main.rs:19-152 | each number of the tree is labelled at most once, and no other number is labelled |
| Digraph.ProgramNumbering | src/main.rs:164 | numbering the program from 0 without a parent uses 0 .. size - 1 in pre-order; 0 has no incoming edge, every other number exactly one, from a smaller number; each number gets at most one label |

## Left out

- The logos regular expressions (src/lexer.rs:25-111) are not modelled. A line is given as its width and its classified lexemes, and the scanner is assumed never to produce Newline, Indent, Dedent or End before a line's end (`ScannedLexeme`).
- `read_line` I/O is left out. The input is the list of remaining lines plus a flag. Reading past the last line either fails (ReadError) or reports 0 bytes. A read error in the middle of the input is not modelled.
- The `bytes == 1` branch (src/lexer.rs:282-285) is dead code, because `bytes > 0` is tested first. A line holding only a newline is a blank line in the model.
- Floating point is left out. A Float token and a Float label keep the slice's text instead of an `f32`.
- Scanner.ToToken: the `i32::from_str(..).unwrap()` panic is a precondition (the slice parses as an i32), not modelled behaviour.
- Spans are left out. Rust's `(0, token, 0)` triples are modelled as bare tokens.
- The LALRPOP parser is not part of this model. Neither is `main`'s stdin plumbing or the "Digraph G{" framing lines.
- Output formatting is left out. Each `println!` becomes a record (`Edge` or `Labelled`) rather than its text.
- Node numbers are unbounded integers. The i32 overflow of `nodeNum` on trees of more than 2^31 nodes is not modelled.
- The i32 counters `tokens` and `whites` of IndentHelper (src/lexer.rs:10-11) and the i32 widths on the indentation stack (src/lexer.rs:166) are unbounded integers. Their overflow on a single line of more than 2^31 lexemes or whitespace bytes is not modelled.
- Digraph.Output, Digraph.OutputExpression: the twelve binary-operator arms, which differ only in their label, are one branch that takes its label from `BinaryName`. The four leaf arms are one branch that uses `LeafRecords`.
