/**
 * One character of the compiler's scan at a time: what the scan has read so
 * far, what it has built, and how each kind of character extends both.
 */
module Scan {
  import opened Wrappers
  import opened IR
  import opened Reference
  import opened Layout

  /**
   * The scan that started at `start` with `depth` open brackets and open
   * block `bb` of `g0` has read up to `i`: the commands it read, `acc`, are
   * what the reference scan puts ahead of whatever follows `i`; it has only
   * grown `g0` into `g`, leaving `cur` open; and `acc` is laid out from the
   * end of `bb`'s old ops to the end of `cur`.
   */
  ghost predicate Scanned(s: seq<char>, start: nat, i: nat, depth: nat,
                          g0: seq<Block>, g: seq<Block>, bb: nat, acc: seq<Cmd>, cur: nat) {
    && start <= i <= |s|
    && bb < |g0|
    && ParseBlock(s, start, depth) == Prepend(acc, ParseBlock(s, i, depth))
    && Frame(g0, g, bb, cur)
    && Walk(g, bb, |g0[bb].ops|, acc) == Some(Pos(cur, |g[cur].ops|))
  }

  /**
   * The scan that started at `start` with `depth` open brackets and open
   * block `bb` of `g0` ended at `next`, having read `cmds`, with `g` built:
   * the commands are the reference scan's; they are laid out from the end of
   * `bb`'s old ops to the end of block `last`; `exit` is the block left open.
   * At the top level the text is used up and `exit` is `last`; inside a loop
   * the scan stopped after a `]`, and `last` branches to the new, empty
   * `loop.cond` block `exit`.
   */
  ghost predicate Closed(s: seq<char>, start: nat, next: nat, depth: nat,
                         g0: seq<Block>, g: seq<Block>, bb: nat, cmds: seq<Cmd>, last: nat, exit: nat) {
    && start <= next <= |s|
    && bb < |g0|
    && ParseBlock(s, start, depth) == Ok(Parsed(cmds, next))
    && Frame(g0, g, bb, exit)
    && last < |g| && Walk(g, bb, |g0[bb].ops|, cmds) == Some(Pos(last, |g[last].ops|))
    && (depth == 0 ==> next == |s| && last == exit)
    && (depth > 0 ==> 0 < next && s[next - 1] == ']' && |g0| <= exit
                      && g[exit] == Block(LoopCond, [], None) && g[last].term == Some(Br(exit)))
  }

  /**
   * The `[` just before `start`, with `depth` brackets open outside it, was
   * compiled from open block `bb` of `g` into `g2`: its body scan read `body`
   * and stopped at `next`; `bb` keeps its ops and the new, empty `loop.end`
   * block `en` is the only open block; and `[ body ]` is laid out from the end
   * of `bb` to the start of `en`.
   */
  ghost predicate LoopBuilt(s: seq<char>, start: nat, depth: nat,
                            g: seq<Block>, g2: seq<Block>, bb: nat, body: seq<Cmd>, next: nat, en: nat) {
    && start <= |s|
    && ParseBlock(s, start, depth + 1) == Ok(Parsed(body, next))
    && bb < |g| && Frame(g, g2, bb, en) && g2[bb].ops == g[bb].ops && g2[en] == Block(LoopEnd, [], None)
    && Walk(g2, bb, |g2[bb].ops|, [Loop(body)]) == Some(Pos(en, 0))
  }

  lemma ScanStart(s: seq<char>, start: nat, depth: nat, g: seq<Block>, bb: nat)
    requires start <= |s| && bb < |g| && g[bb].term.None?
    ensures Scanned(s, start, start, depth, g, g, bb, [], bb)
  {
    PrependNil(ParseBlock(s, start, depth));
    assert Extends(g, g) by {
      forall i | 0 <= i < |g| ensures Grows(g[i], g[i]) { }
    }
  }

  /** A straight-line command appends its op to the open block. */
  lemma ScanEmit(s: seq<char>, start: nat, i: nat, depth: nat,
                 g0: seq<Block>, g: seq<Block>, bb: nat, acc: seq<Cmd>, cur: nat, c: Cmd, g2: seq<Block>)
    requires Scanned(s, start, i, depth, g0, g, bb, acc, cur)
    requires i < |s| && CmdOf(s[i]) == Some(c)
    requires g2 == g[cur := g[cur].(ops := g[cur].ops + [OpFor(c)])]
    ensures Scanned(s, start, i + 1, depth, g0, g2, bb, acc + [c], cur)
  {
    assert s[i] in "+-<>,.";
    assert ParseBlock(s, i, depth) == Prepend([c], ParseBlock(s, i + 1, depth));
    PrependAssoc(acc, [c], ParseBlock(s, i + 1, depth));
    FrameAppend(g0, g, bb, cur, OpFor(c));
    WalkAppendOp(g, bb, |g0[bb].ops|, acc, cur, c);
  }

  /** Any other character is skipped. */
  lemma ScanSkip(s: seq<char>, start: nat, i: nat, depth: nat,
                 g0: seq<Block>, g: seq<Block>, bb: nat, acc: seq<Cmd>, cur: nat)
    requires Scanned(s, start, i, depth, g0, g, bb, acc, cur)
    requires i < |s| && CmdOf(s[i]).None? && s[i] != '[' && s[i] != ']'
    ensures Scanned(s, start, i + 1, depth, g0, g, bb, acc, cur)
  {
  }

  /** A `[` whose loop was built continues the scan in the loop's end block. */
  lemma ScanLoop(s: seq<char>, start: nat, i: nat, depth: nat,
                 g0: seq<Block>, g: seq<Block>, bb: nat, acc: seq<Cmd>, cur: nat,
                 g2: seq<Block>, en: nat, body: seq<Cmd>, j: nat)
    requires Scanned(s, start, i, depth, g0, g, bb, acc, cur)
    requires i < |s| && s[i] == '[' && LoopBuilt(s, i + 1, depth, g, g2, cur, body, j, en)
    ensures Scanned(s, start, j, depth, g0, g2, bb, acc + [Loop(body)], en)
  {
    PrependAssoc(acc, [Loop(body)], ParseBlock(s, j, depth));
    FrameTrans(g0, g, g2, bb, cur, en);
    WalkExtends(g, g2, bb, |g0[bb].ops|, acc);
    WalkConcat(g2, bb, |g0[bb].ops|, acc, [Loop(body)]);
  }

  /** A `[` whose body scan fails makes the whole scan fail the same way. */
  lemma ScanLoopFails(s: seq<char>, start: nat, i: nat, depth: nat, acc: seq<Cmd>, e: CompileError)
    requires start <= i < |s| && s[i] == '[' && ParseBlock(s, i + 1, depth + 1) == Err(e)
    requires ParseBlock(s, start, depth) == Prepend(acc, ParseBlock(s, i, depth))
    ensures ParseBlock(s, start, depth) == Err(e)
  {
  }

  /** A `]` inside a loop ends the scan: `cur` branches to a new, open `loop.cond` block. */
  lemma ScanClose(s: seq<char>, start: nat, i: nat, depth: nat,
                  g0: seq<Block>, g: seq<Block>, bb: nat, acc: seq<Cmd>, cur: nat, g2: seq<Block>)
    requires Scanned(s, start, i, depth, g0, g, bb, acc, cur)
    requires i < |s| && s[i] == ']' && depth > 0
    requires g2 == g[cur := g[cur].(term := Some(Br(|g|)))] + [Block(LoopCond, [], None)]
    ensures Closed(s, start, i + 1, depth, g0, g2, bb, acc, cur, |g|)
  {
    assert acc + [] == acc;
    assert Extends(g, g2) by {
      assert Grows(g[cur], g2[cur]);
    }
    assert Frame(g, g2, cur, |g|);
    FrameTrans(g0, g, g2, bb, cur, |g|);
    WalkExtends(g, g2, bb, |g0[bb].ops|, acc);
  }

  /** A `]` at the top level is the unpaired-bracket error. */
  lemma ScanCloseFails(s: seq<char>, start: nat, i: nat, acc: seq<Cmd>)
    requires start <= i < |s| && s[i] == ']'
    requires ParseBlock(s, start, 0) == Prepend(acc, ParseBlock(s, i, 0))
    ensures ParseBlock(s, start, 0) == Err(UnpairedClose)
  {
  }

  /** At the end of the text the scan succeeds at the top level and fails inside a loop. */
  lemma ScanEnd(s: seq<char>, start: nat, depth: nat,
                g0: seq<Block>, g: seq<Block>, bb: nat, acc: seq<Cmd>, cur: nat)
    requires Scanned(s, start, |s|, depth, g0, g, bb, acc, cur)
    ensures depth == 0 ==> Closed(s, start, |s|, depth, g0, g, bb, acc, cur, cur)
    ensures depth != 0 ==> ParseBlock(s, start, depth) == Err(UnbalancedBrackets)
  {
    assert acc + [] == acc;
  }

  /**
   * The blocks `[` creates: `g1` is `g0` with `bb` branching to a new header
   * that tests the cell, a new body block and a new end block; the body scan
   * took `g1` to `g2` and left `loop.cond` block `c` open; `g3` makes `c` test
   * the cell like the header. Together they build the loop.
   */
  lemma LoopWired(s: seq<char>, start: nat, depth: nat, g0: seq<Block>, g1: seq<Block>, g2: seq<Block>, g3: seq<Block>,
                  bb: nat, body: seq<Cmd>, next: nat, last: nat, c: nat)
    requires bb < |g0| && g0[bb].term.None? && |g1| == |g0| + 3
    requires g1[bb] == g0[bb].(term := Some(Br(|g0|)))
    requires forall i :: 0 <= i < |g0| && i != bb ==> g1[i] == g0[i]
    requires g1[|g0|] == Block(LoopHeader, [], Some(CondBr(|g0| + 1, |g0| + 2)))
    requires g1[|g0| + 1] == Block(LoopBody, [], None) && g1[|g0| + 2] == Block(LoopEnd, [], None)
    requires Closed(s, start, next, depth + 1, g1, g2, |g0| + 1, body, last, c)
    requires g3 == g2[c := g2[c].(term := Some(CondBr(|g0| + 1, |g0| + 2)))]
    ensures LoopBuilt(s, start, depth, g0, g3, bb, body, next, |g0| + 2)
  {
    var h, bd, en := |g0|, |g0| + 1, |g0| + 2;
    LoopFrame(g0, g1, g2, g3, bb, c, CondBr(bd, en));
    assert Extends(g2, g3) by {
      assert Grows(g2[c], g3[c]);
    }
    WalkExtends(g2, g3, bd, 0, body);
    assert g3[h] == g1[h] && g3[bb] == g1[bb];
    LoopLayout(g3, bb, h, bd, en, body, Pos(last, |g3[last].ops|));
  }
}
