/** The read-ahead controller of pkg/caching/readahead.go. */
module ReadAhead {
  /** One issued read-ahead: the block, the block being read, and which sequential run it belongs to. */
  datatype Issue = Issue(block: int, curr: int, run: nat)

  /** The number of blocks that hold `bytes` bytes, the last one possibly in part. */
  function Blocks(bytes: nat, bsize: nat): nat
    requires bsize > 0
  {
    (bytes + bsize - 1) / bsize
  }

  lemma BlocksCover(bytes: nat, bsize: nat)
    requires bsize > 0
    ensures bytes <= Blocks(bytes, bsize) * bsize < bytes + bsize
  {
    var x := bytes + bsize - 1;
    assert (x / bsize) * bsize <= x < (x / bsize) * bsize + bsize;
  }

  lemma MulAtLeast(k: nat, d: nat)
    requires k >= 1
    ensures k * d >= d
  {
    assert k * d == (k - 1) * d + d;
  }

  lemma InsideObject(block: nat, size: nat, bsize: nat)
    requires bsize > 0
    ensures block < Blocks(size, bsize) <==> block * bsize < size
  {
    BlocksCover(size, bsize);
    var n := Blocks(size, bsize);
    if block < n {
      assert n * bsize == block * bsize + (n - block) * bsize;
      MulAtLeast(n - block, bsize);
    } else {
      assert block * bsize == n * bsize + (block - n) * bsize;
    }
  }

  class Controller {
    const bsize: nat
    const size: nat
    const window: int
    const numBlocks: nat
    const tokens: nat          // the semaphore's weight, shared with other objects

    var pos: nat               // where a sequential read would continue
    var runLength: nat
    var nextBlock: int
    var free: nat              // tokens nobody holds
    var held: nat              // tokens held by reads under way

    ghost var run: nat         // number of sequential runs so far
    ghost var log: seq<Issue>  // everything issued so far

    constructor (size: nat, bsize: nat, window: int, tokens: nat)
      requires bsize > 0
      ensures Valid() && log == [] && free == tokens && this.bsize == bsize && this.size == size
      ensures this.window == window && this.tokens == tokens && pos == 0
    {
      this.size, this.bsize, this.window, this.tokens := size, bsize, window, tokens;
      numBlocks := Blocks(size, bsize);
      pos, runLength, nextBlock, free, held := 0, 0, 1, tokens, 0;
      run, log := 0, [];
    }

    /** What every issued block satisfies. */
    ghost predicate IssueOk(i: Issue) {
      0 <= i.curr < i.block <= i.curr + window && i.block < numBlocks
    }

    ghost predicate Valid()
      reads this
    {
      && bsize > 0 && numBlocks == Blocks(size, bsize)
      && free + held == tokens
      && nextBlock >= 1
      && (forall i | 0 <= i < |log| :: IssueOk(log[i]) && log[i].run <= run)
      && (forall i | 0 <= i < |log| && log[i].run == run :: log[i].block < nextBlock)
      // within one sequential run no block is issued twice
      && (forall i, j {:trigger log[i], log[j]} | 0 <= i < j < |log| && log[i].run == log[j].run ::
        log[i].block < log[j].block)
    }

    /** Meanwhile: reads under way may finish and other objects may take or return tokens. */
    method Meanwhile(taken: nat, returned: nat)
      requires Valid() && taken <= free && returned <= held + taken
      modifies this`free, this`held
      ensures Valid()
    {
      free, held := free - taken + returned, held + taken - returned;
    }

    /** Take a token and read block `nextBlock` ahead. */
    method Start(currBlock: nat)
      requires Valid() && free > 0 && currBlock < nextBlock <= currBlock + window && nextBlock < numBlocks
      modifies this`free, this`held, this`log, this`nextBlock
      ensures Valid() && log == old(log) + [Issue(old(nextBlock), currBlock, run)] && nextBlock == old(nextBlock) + 1
    {
      free, held := free - 1, held + 1;
      log := log + [Issue(nextBlock, currBlock, run)];
      nextBlock := nextBlock + 1;
    }

    /** Account for a read: continue the run, or start a new one. */
    method Note(off: nat, n: nat)
      requires Valid()
      modifies this`pos, this`runLength, this`nextBlock, this`run
      ensures Valid() && pos == off + n && off / bsize < nextBlock
      ensures runLength == if old(pos) == off then old(runLength) + n else n
      ensures run == if old(pos) == off then old(run) else old(run) + 1
      ensures nextBlock == if old(pos) == off && old(nextBlock) > off / bsize then old(nextBlock) else off / bsize + 1
    {
      var currBlock := off / bsize;
      if pos != off {
        runLength := n;
        nextBlock := currBlock + 1;
        run := run + 1;
      } else {
        runLength := runLength + n;
        if nextBlock <= currBlock {
          nextBlock := currBlock + 1;
        }
      }
      pos := off + n;
    }

    /** `Update`. `schedule` gives, before each attempt to take a token, how many tokens
      others take and return. The `k` blocks issued are consecutive. */
    method Update(off: nat, n: nat, schedule: seq<(nat, nat)>) returns (k: nat)
      requires Valid()
      modifies this
      ensures Valid() && pos == off + n
      ensures runLength == if old(pos) == off then old(runLength) + n else n
      ensures run == if old(pos) == off then old(run) else old(run) + 1
      // never more blocks than have been read in sequence
      ensures k <= Blocks(runLength, bsize)
      ensures log == old(log) + Burst(nextBlock - k, k, off / bsize, run)
      // unless the tokens ran out, it stops only at the window, the damper or the end of the object
      ensures free > 0 ==> k == Blocks(runLength, bsize) || nextBlock > off / bsize + window || nextBlock >= numBlocks
    {
      Note(off, n);
      var currBlock := off / bsize;
      var damper := Blocks(runLength, bsize);
      k := IssueUpTo(currBlock, damper, schedule);
    }

    method IssueUpTo(currBlock: nat, most: nat, schedule: seq<(nat, nat)>) returns (k: nat)
      requires Valid() && currBlock < nextBlock
      modifies this`free, this`held, this`log, this`nextBlock
      ensures Valid() && k <= most && nextBlock == old(nextBlock) + k
      ensures log == old(log) + Burst(old(nextBlock), k, currBlock, run)
      ensures free > 0 ==> k == most || nextBlock > currBlock + window || nextBlock >= numBlocks
    {
      k := 0;
      var damper: int := most;
      var limit := currBlock + window;
      while nextBlock <= limit && damper > 0 && nextBlock < numBlocks
        invariant Valid() && damper == most - k >= 0
        invariant nextBlock == old(nextBlock) + k && log == old(log) + Burst(old(nextBlock), k, currBlock, run)
        decreases damper
      {
        if k < |schedule| && schedule[k].0 <= free && schedule[k].1 <= held + schedule[k].0 {
          Meanwhile(schedule[k].0, schedule[k].1);
        }
        if free == 0 {
          break;
        }
        Start(currBlock);
        damper := damper - 1;
        k := k + 1;
      }
    }
  }

  /** `k` consecutive blocks from `first`. */
  ghost function Burst(first: int, k: nat, curr: int, run: nat): seq<Issue> {
    if k == 0 then [] else Burst(first, k - 1, curr, run) + [Issue(first + k - 1, curr, run)]
  }

  /** Over every sequence of reads: each issued block lies after the block being read, within the
    window and inside the object, and a sequential run issues none twice. */
  method Replay(c: Controller, calls: seq<(nat, nat)>, schedules: seq<seq<(nat, nat)>>)
    requires c.Valid() && |schedules| == |calls|
    modifies c
    ensures c.Valid() && old(c.log) <= c.log
    ensures forall i | 0 <= i < |c.log| ::
      c.log[i].curr < c.log[i].block <= c.log[i].curr + c.window && c.log[i].block * c.bsize < c.size
    ensures forall i, j | 0 <= i < j < |c.log| && c.log[i].run == c.log[j].run :: c.log[i].block != c.log[j].block
    ensures c.free + c.held == c.tokens
  {
    for k := 0 to |calls|
      invariant c.Valid() && old(c.log) <= c.log
    {
      var _ := c.Update(calls[k].0, calls[k].1, schedules[k]);
    }
    forall i | 0 <= i < |c.log| ensures c.IssueOk(c.log[i]) && c.log[i].block * c.bsize < c.size {
      InsideObject(c.log[i].block, c.size, c.bsize);
    }
  }
}
