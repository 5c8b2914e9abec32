/** The served memory and its verifier: memory_block.hpp, with PAGE_SIZE from consts.hpp. */
module MemoryBlocks {
  import opened Arithmetic
  import opened Wire

  const PAGE_SIZE: nat := 128

  datatype Result<T> = Ok(value: T) | StrategyNotSet

  /** The two filling strategies; the pseudo-random one ignores both index and seed. */
  datatype Strategy = Alphabetical | PseudoRandom(seed: nat) {
    function ValueAt(index: nat): Byte {
      match this
      case Alphabetical => 97 + index % 26
      case PseudoRandom(_) => 0xAA
    }
  }

  datatype MaybeStrategy = Null | Set(strategy: Strategy)

  /** The bytes from one index up to another under a strategy. */
  function Filling(strategy: Strategy, from: nat, to: nat): seq<Byte>
    requires from <= to
  {
    seq<Byte>(to - from, i requires 0 <= i => strategy.ValueAt(from + i))
  }

  /** A block of that many pages. */
  function Block(strategy: Strategy, pageCount: nat): (block: seq<Byte>)
    ensures |block| == PAGE_SIZE * pageCount
  {
    Filling(strategy, 0, PAGE_SIZE * pageCount)
  }

  /** Page n of a block. */
  function Slice(block: seq<Byte>, n: nat): (page: seq<Byte>)
    requires (n + 1) * PAGE_SIZE <= |block|
    ensures |page| == PAGE_SIZE
  {
    block[n * PAGE_SIZE..(n + 1) * PAGE_SIZE]
  }

  lemma PageInBlock(pageCount: nat, n: nat)
    requires n < pageCount
    ensures (n + 1) * PAGE_SIZE <= PAGE_SIZE * pageCount
  {
  }

  /** The n-th page of the filled block; it is always in bounds. */
  function PageOf(strategy: Strategy, pageCount: nat, n: nat): (page: seq<Byte>)
    requires n < pageCount
    ensures |page| == PAGE_SIZE
    ensures forall i :: 0 <= i < PAGE_SIZE ==> page[i] == strategy.ValueAt(n * PAGE_SIZE + i)
  {
    PageInBlock(pageCount, n);
    Slice(Block(strategy, pageCount), n)
  }

  class MemoryBlock {
    const data: array<Byte>
    const strategy: Strategy

    constructor (pageCount: nat, strategy: Strategy)
      ensures this.strategy == strategy && fresh(data)
      ensures data[..] == Block(strategy, pageCount)
    {
      this.strategy := strategy;
      data := new Byte[PAGE_SIZE * pageCount](_ => 0);
      new;
      Fill();
    }

    method Fill()
      modifies data
      ensures data[..] == Filling(strategy, 0, data.Length)
      ensures forall i :: 0 <= i < data.Length ==> data[i] == strategy.ValueAt(i)
    {
      for i := 0 to data.Length
        invariant data[..i] == Filling(strategy, 0, i)
      {
        data[i] := strategy.ValueAt(i);
        assert data[..i + 1] == data[..i] + [strategy.ValueAt(i)];
      }
      assert data[..] == data[..data.Length];
    }

    /** A missing strategy is an error before anything is filled. */
    static method Make(pageCount: nat, strategy: MaybeStrategy) returns (r: Result<MemoryBlock>)
      ensures r.StrategyNotSet? <==> strategy == Null
      ensures r.Ok? ==> fresh(r.value) && fresh(r.value.data) && r.value.data[..] == Block(strategy.strategy, pageCount)
    {
      if strategy == Null { return StrategyNotSet; }
      var block := new MemoryBlock(pageCount, strategy.strategy);
      r := Ok(block);
    }
  }

  class MemoryBlockVerifier {
    const pageCount: nat
    const strategy: Strategy

    constructor (pageCount: nat, strategy: Strategy)
      ensures this.pageCount == pageCount && this.strategy == strategy
    {
      this.pageCount, this.strategy := pageCount, strategy;
    }

    /** Here, too, a missing strategy is an error. */
    static method Make(pageCount: nat, strategy: MaybeStrategy) returns (r: Result<MemoryBlockVerifier>)
      ensures r.StrategyNotSet? <==> strategy == Null
      ensures r.Ok? ==> fresh(r.value) && r.value.pageCount == pageCount && r.value.strategy == strategy.strategy
    {
      if strategy == Null { return StrategyNotSet; }
      var verifier := new MemoryBlockVerifier(pageCount, strategy.strategy);
      r := Ok(verifier);
    }

    /** True exactly for an existing page whose content is, byte for byte, that page of the filled block. */
    method Verify(content: seq<Byte>, pageNumber: nat) returns (ok: bool)
      requires |content| == PAGE_SIZE
      ensures ok <==> pageNumber < pageCount
                      && forall i :: 0 <= i < PAGE_SIZE ==> content[i] == strategy.ValueAt(pageNumber * PAGE_SIZE + i)
      ensures ok <==> Passes(strategy, pageCount, content, pageNumber)
    {
      PassesByteForByte(strategy, pageCount, content, pageNumber);
      if pageNumber >= pageCount { return false; }
      for i := 0 to PAGE_SIZE
        invariant forall k :: 0 <= k < i ==> content[k] == strategy.ValueAt(pageNumber * PAGE_SIZE + k)
      {
        if content[i] != strategy.ValueAt(pageNumber * PAGE_SIZE + i) { return false; }
      }
      ok := true;
    }
  }

  /** A page passes exactly when each of its bytes is the strategy's value at its place in the block. */
  lemma PassesByteForByte(strategy: Strategy, pageCount: nat, content: seq<Byte>, pageNumber: nat)
    requires |content| == PAGE_SIZE
    ensures Passes(strategy, pageCount, content, pageNumber) <==>
            pageNumber < pageCount
            && forall i :: 0 <= i < PAGE_SIZE ==> content[i] == strategy.ValueAt(pageNumber * PAGE_SIZE + i)
  {
    if pageNumber < pageCount {
      var page := PageOf(strategy, pageCount, pageNumber);
      if forall i :: 0 <= i < PAGE_SIZE ==> content[i] == strategy.ValueAt(pageNumber * PAGE_SIZE + i) {
        assert content == page;
      }
    }
  }

  /** The alphabet over and over, from 'a' to 'z'; and the one byte of the other strategy. */
  lemma StrategyValues(index: nat, seed: nat)
    ensures Alphabetical.ValueAt(index) as char == "abcdefghijklmnopqrstuvwxyz"[index % 26]
    ensures PseudoRandom(seed).ValueAt(index) == 0xAA
  {
  }

  /** What verification promises about a page. */
  predicate Passes(strategy: Strategy, pageCount: nat, content: seq<Byte>, pageNumber: nat) {
    pageNumber < pageCount && content == PageOf(strategy, pageCount, pageNumber)
  }

  /** Which pages of the alphabetical block are mistaken for one another: those a multiple of 13 apart. */
  lemma AlphabeticalConfusion(pageCount: nat, n: nat, m: nat)
    requires n < pageCount && m < pageCount
    ensures Passes(Alphabetical, pageCount, PageOf(Alphabetical, pageCount, n), m) <==> (n - m) % 13 == 0
  {
    var a, b := PageOf(Alphabetical, pageCount, n), PageOf(Alphabetical, pageCount, m);
    if (n - m) % 13 == 0 {
      forall i | 0 <= i < PAGE_SIZE ensures a[i] == b[i] { Shift13(n, m, i); }
      assert a == b;
    } else {
      if a[0] == b[0] { Alike13(n, m); }
      assert a[0] != b[0];
    }
  }

  lemma Shift13(n: nat, m: nat, i: nat)
    requires (n - m) % 13 == 0
    ensures (n * PAGE_SIZE + i) % 26 == (m * PAGE_SIZE + i) % 26
  {
    var k := (n - m) / 13;
    assert n == m + 13 * k;
    SameRemainder(m * PAGE_SIZE + i, 64 * k, 26);
  }

  lemma Alike13(n: nat, m: nat)
    requires n * PAGE_SIZE % 26 == m * PAGE_SIZE % 26
    ensures (n - m) % 13 == 0
  {
    var k := n * PAGE_SIZE / 26 - m * PAGE_SIZE / 26;
    Euclid(n * PAGE_SIZE, 26);
    Euclid(m * PAGE_SIZE, 26);
    DivMod(n - m, 5 * (n - m) - k, 0, 13);
  }

  /** The strategy both programs actually use fills every page alike, so any served page passes as any other. */
  lemma PseudoRandomConfusion(pageCount: nat, seed: nat, n: nat, m: nat)
    requires n < pageCount && m < pageCount
    ensures Passes(PseudoRandom(seed), pageCount, PageOf(PseudoRandom(seed), pageCount, n), m)
  {
    assert PageOf(PseudoRandom(seed), pageCount, n) == PageOf(PseudoRandom(seed), pageCount, m);
  }
}
