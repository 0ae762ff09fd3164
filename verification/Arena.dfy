/** The bump allocator behind every network of nn.h: `region_alloc` hands out whole words from one
    array, and `nn_alloc` takes all matrices and rows of a network from it. */
module Arena {
  import opened Options
  import T = Training

  /** Sizes in bytes of a word, of the structs `Mat` and `Row`, and of a float. */
  datatype Sizes = Sizes(word: nat, mat: nat, row: nat, float: nat) {
    predicate Valid()
    {
      word > 0 && float > 0
    }
  }

  /** A stretch of words of the region. */
  datatype Block = Block(start: nat, words: nat)

  /** How many words hold `bytes`. */
  function Words(bytes: nat, word: nat): nat
    requires word > 0
  {
    (bytes + word - 1) / word
  }

  lemma {:induction false} Rounded(x: nat, word: nat)
    requires word > 0
    ensures x / word * word <= x < x / word * word + word
  {}

  /** They are enough, and one fewer would not be. */
  lemma {:induction false} WordsHold(bytes: nat, word: nat)
    requires word > 0
    ensures bytes <= Words(bytes, word) * word < bytes + word
  {
    Rounded(bytes + word - 1, word);
  }

  class Region {
    const word: nat
    const capacity: nat
    var size: nat

    ghost predicate Valid()
      reads this
    {
      word > 0 && size <= capacity
    }

    /** `region_alloc_alloc`: the capacity is rounded up to whole words. */
    constructor (bytes: nat, wordSize: nat)
      requires wordSize > 0
      ensures Valid() && word == wordSize && size == 0 && capacity == Words(bytes, wordSize)
    {
      word, capacity, size := wordSize, (bytes + wordSize - 1) / wordSize, 0;
    }

    /** `region_alloc`: the index of the first word, if the block still fits. */
    method Alloc(bytes: nat) returns (at: Option<Block>)
      requires Valid()
      modifies this
      ensures Valid() && (at.Some? <==> old(size) + Words(bytes, word) <= capacity)
      ensures at.Some? ==> at.value == Block(old(size), Words(bytes, word)) && size == old(size) + at.value.words
      ensures at.None? ==> size == old(size)
    {
      var words := (bytes + word - 1) / word;
      if size + words > capacity {
        return None;
      }
      at := Some(Block(size, words));
      size := size + words;
    }
  }

  // ---- blocks one after another ----

  function TotalWords(requests: seq<nat>, word: nat): nat
    requires word > 0
  {
    if requests == [] then 0 else Words(requests[0], word) + TotalWords(requests[1..], word)
  }

  function Layout(requests: seq<nat>, word: nat, from: nat): (blocks: seq<Block>)
    requires word > 0
    ensures |blocks| == |requests|
  {
    if requests == [] then []
    else [Block(from, Words(requests[0], word))] + Layout(requests[1..], word, from + Words(requests[0], word))
  }

  lemma {:induction false} LayoutSnoc(requests: seq<nat>, word: nat, from: nat, bytes: nat)
    requires word > 0
    ensures TotalWords(requests + [bytes], word) == TotalWords(requests, word) + Words(bytes, word)
    ensures Layout(requests + [bytes], word, from)
         == Layout(requests, word, from) + [Block(from + TotalWords(requests, word), Words(bytes, word))]
  {
    hide Words;
    var all := requests + [bytes];
    if requests == [] {
      assert all == [bytes] && all[1..] == [];
    } else {
      assert all[1..] == requests[1..] + [bytes];
      LayoutSnoc(requests[1..], word, from + Words(requests[0], word), bytes);
    }
  }

  /** Each block lies within what was taken, and is as large as asked for. */
  lemma {:induction false} BlockAt(requests: seq<nat>, word: nat, from: nat, i: nat)
    requires word > 0 && i < |requests|
    ensures var b := Layout(requests, word, from)[i];
      b.words == Words(requests[i], word) && from <= b.start && b.start + b.words <= from + TotalWords(requests, word)
  {
    hide Words;
    if i > 0 {
      BlockAt(requests[1..], word, from + Words(requests[0], word), i - 1);
    }
  }

  /** No block reaches into a later one. */
  lemma {:induction false} BlocksApart(requests: seq<nat>, word: nat, from: nat, i: nat, j: nat)
    requires word > 0 && i < j < |requests|
    ensures var blocks := Layout(requests, word, from); blocks[i].start + blocks[i].words <= blocks[j].start
  {
    hide Words;
    if i > 0 {
      BlocksApart(requests[1..], word, from + Words(requests[0], word), i - 1, j - 1);
    } else {
      BlockAt(requests[1..], word, from + Words(requests[0], word), j - 1);
    }
  }

  // ---- what nn_alloc asks for ----

  /** Weights, biases and activations of layer `i`. */
  function LayerRequests(arch: seq<nat>, z: Sizes, i: nat): seq<nat>
    requires 0 < i < |arch|
  {
    [z.float * (arch[i - 1] * arch[i]), z.float * arch[i], z.float * arch[i]]
  }

  /** The requests of `nn_alloc` up to layer `n`, in its order: three arrays of structs, the input
      row, and three matrices a layer. */
  function Requests(arch: seq<nat>, z: Sizes, n: nat): seq<nat>
    requires 0 < n <= |arch|
  {
    if n == 1 then [z.mat * (|arch| - 1), z.row * (|arch| - 1), z.row * |arch|, z.float * arch[0]]
    else Requests(arch, z, n - 1) + LayerRequests(arch, z, n - 1)
  }

  lemma {:induction false} RequestCount(arch: seq<nat>, z: Sizes, n: nat)
    requires 0 < n <= |arch|
    ensures |Requests(arch, z, n)| == 3 * n + 1
  {
    if n > 1 {
      RequestCount(arch, z, n - 1);
    }
  }

  /** What is allocated so far is the layout of what has been asked for. */
  ghost predicate Laid(r: Region, from: nat, requests: seq<nat>, blocks: seq<Block>)
    requires r.word > 0
    reads r
  {
    blocks == Layout(requests, r.word, from) && r.size == from + TotalWords(requests, r.word)
  }

  /** One more block, or the reason why the rest cannot fit either. */
  method AllocNext(r: Region, bytes: nat, blocks: seq<Block>, ghost from: nat, ghost requests: seq<nat>)
    returns (more: Option<seq<Block>>)
    requires r.Valid() && Laid(r, from, requests, blocks)
    modifies r
    ensures r.Valid()
    ensures more.Some? <==> from + TotalWords(requests + [bytes], r.word) <= r.capacity
    ensures more.Some? ==> Laid(r, from, requests + [bytes], more.value)
  {
    LayoutSnoc(requests, r.word, from, bytes);
    var at := r.Alloc(bytes);
    if at.None? {
      return None;
    }
    more := Some(blocks + [at.value]);
  }

  lemma {:induction false} TotalAppend(a: seq<nat>, b: seq<nat>, word: nat)
    requires word > 0
    ensures TotalWords(a + b, word) == TotalWords(a, word) + TotalWords(b, word)
  {
    hide Words;
    if a == [] {
      assert a + b == b;
    } else {
      assert (a + b)[1..] == a[1..] + b;
      TotalAppend(a[1..], b, word);
    }
  }

  /** Three more blocks. */
  method AllocThree(r: Region, x: nat, y: nat, z: nat, blocks: seq<Block>, ghost from: nat, ghost requests: seq<nat>)
    returns (more: Option<seq<Block>>)
    requires r.Valid() && Laid(r, from, requests, blocks)
    modifies r
    ensures r.Valid()
    ensures more.Some? <==> from + TotalWords(requests + [x, y, z], r.word) <= r.capacity
    ensures more.Some? ==> Laid(r, from, requests + [x, y, z], more.value)
  {
    hide Words;
    assert requests + [x] + [y] == requests + [x, y] && requests + [x, y] + [z] == requests + [x, y, z];
    TotalAppend(requests + [x], [y, z], r.word);
    TotalAppend(requests + [x, y], [z], r.word);
    assert requests + [x] + [y, z] == requests + [x, y, z];
    more := AllocNext(r, x, blocks, from, requests);
    if more.None? {
      return;
    }
    more := AllocNext(r, y, more.value, from, requests + [x]);
    if more.None? {
      return;
    }
    more := AllocNext(r, z, more.value, from, requests + [x, y]);
  }

  lemma {:induction false} TotalGrows(arch: seq<nat>, z: Sizes, m: nat, n: nat, word: nat)
    requires 0 < m <= n <= |arch| && word > 0
    ensures TotalWords(Requests(arch, z, m), word) <= TotalWords(Requests(arch, z, n), word)
  {
    hide Words, LayerRequests;
    if m < n {
      TotalGrows(arch, z, m, n - 1, word);
      TotalAppend(Requests(arch, z, n - 1), LayerRequests(arch, z, n - 1), word);
    }
  }

  /** `nn_alloc` on a region: it succeeds exactly when everything fits, and then the blocks are laid
      out one after another in the order asked for. */
  method NnAlloc(r: Region, arch: seq<nat>, z: Sizes) returns (blocks: Option<seq<Block>>)
    requires |arch| > 0 && r.Valid() && z.Valid() && z.word == r.word
    modifies r
    ensures r.Valid()
    ensures blocks.Some? <==> old(r.size) + TotalWords(Requests(arch, z, |arch|), r.word) <= r.capacity
    ensures blocks.Some? ==> Laid(r, old(r.size), Requests(arch, z, |arch|), blocks.value)
  {
    hide Words, TotalWords, Layout;
    ghost var from := r.size;
    Nothing(r);
    Heads(arch, z, r.word);
    TotalGrows(arch, z, 1, |arch|, r.word);
    blocks := AllocThree(r, z.mat * (|arch| - 1), z.row * (|arch| - 1), z.row * |arch|, [], from, []);
    if blocks.None? {
      return;
    }
    ghost var first := [] + [z.mat * (|arch| - 1), z.row * (|arch| - 1), z.row * |arch|];
    blocks := AllocNext(r, z.float * arch[0], blocks.value, from, first);
    if blocks.None? {
      return;
    }
    for i := 1 to |arch|
      invariant blocks.Some? && r.Valid() && Laid(r, from, Requests(arch, z, i), blocks.value)
    {
      TotalGrows(arch, z, i + 1, |arch|, r.word);
      blocks := AllocThree(r, z.float * (arch[i - 1] * arch[i]), z.float * arch[i], z.float * arch[i], blocks.value,
                           from, Requests(arch, z, i));
      if blocks.None? {
        return;
      }
    }
  }

  lemma {:induction false} Nothing(r: Region)
    requires r.word > 0
    ensures Laid(r, r.size, [], [])
  {}

  lemma {:induction false} Heads(arch: seq<nat>, z: Sizes, word: nat)
    requires |arch| > 0 && word > 0
    ensures var first := [] + [z.mat * (|arch| - 1), z.row * (|arch| - 1), z.row * |arch|];
      && Requests(arch, z, 1) == first + [z.float * arch[0]]
      && TotalWords(first, word) <= TotalWords(Requests(arch, z, 1), word)
  {
    var first := [] + [z.mat * (|arch| - 1), z.row * (|arch| - 1), z.row * |arch|];
    assert Requests(arch, z, 1) == first + [z.float * arch[0]];
    TotalAppend(first, [z.float * arch[0]], word);
  }

  // ---- no two numbers share memory ----

  /** The matrices of a network in the order of `nn_alloc`: the input row, then the weights, biases
      and activations of each layer. */
  function RowsOf(arch: seq<nat>, p: nat): nat
    requires p < 3 * |arch| - 2
  {
    if p % 3 == 1 then arch[(p - 1) / 3] else 1
  }

  function ColsOf(arch: seq<nat>, p: nat): nat
    requires p < 3 * |arch| - 2
  {
    if p == 0 then arch[0] else arch[(p - 1) / 3 + 1]
  }

  /** They have the shapes of the arrays in module Training. */
  lemma {:induction false} ShapesAre(nn: T.NN, l: nat)
    requires nn.Shaped() && l < nn.Depth()
    ensures nn.acts[0].Length1 == ColsOf(nn.arch, 0)
    ensures nn.ws[l].Length0 == RowsOf(nn.arch, 3 * l + 1) && nn.ws[l].Length1 == ColsOf(nn.arch, 3 * l + 1)
    ensures nn.bs[l].Length0 == RowsOf(nn.arch, 3 * l + 2) && nn.bs[l].Length1 == ColsOf(nn.arch, 3 * l + 2)
    ensures nn.acts[l + 1].Length0 == RowsOf(nn.arch, 3 * l + 3) && nn.acts[l + 1].Length1 == ColsOf(nn.arch, 3 * l + 3)
  {
    assert (3 * l + 1) % 3 == 1 && (3 * l + 2) % 3 == 2 && (3 * l + 3) % 3 == 0;
    assert 3 * l / 3 == l && (3 * l + 1) / 3 == l && (3 * l + 2) / 3 == l;
  }

  lemma {:induction false} RequestOf(arch: seq<nat>, z: Sizes, n: nat, p: nat)
    requires 0 < n <= |arch| && p < 3 * n - 2
    ensures |Requests(arch, z, n)| == 3 * n + 1
    ensures Requests(arch, z, n)[p + 3] == z.float * (RowsOf(arch, p) * ColsOf(arch, p))
  {
    RequestCount(arch, z, n);
    if n > 1 {
      RequestCount(arch, z, n - 1);
      if p < 3 * n - 5 {
        RequestOf(arch, z, n - 1, p);
      } else {
        assert (p - 1) / 3 == n - 2;
      }
    }
  }

  /** `MAT_AT`: the place of entry (i, j) in a matrix of `cols` columns. */
  function Place(i: nat, j: nat, cols: nat): nat
  {
    i * cols + j
  }

  /** The block of matrix `p`. */
  function BlockOf(arch: seq<nat>, z: Sizes, from: nat, p: nat): Block
    requires z.Valid() && |arch| > 0 && p < 3 * |arch| - 2
  {
    RequestCount(arch, z, |arch|);
    Layout(Requests(arch, z, |arch|), z.word, from)[p + 3]
  }

  /** The byte at which entry (i, j) of matrix `p` starts. */
  function Address(arch: seq<nat>, z: Sizes, from: nat, p: nat, i: nat, j: nat): nat
    requires z.Valid() && |arch| > 0 && p < 3 * |arch| - 2
  {
    BlockOf(arch, z, from, p).start * z.word + z.float * Place(i, j, ColsOf(arch, p))
  }

  predicate IsEntry(arch: seq<nat>, p: nat, i: nat, j: nat)
  {
    p < 3 * |arch| - 2 && i < RowsOf(arch, p) && j < ColsOf(arch, p)
  }

  lemma {:induction false} IndexBelow(i: nat, j: nat, rows: nat, cols: nat)
    requires i < rows && j < cols
    ensures i * cols + j < rows * cols
  {
    assert (i + 1) * cols <= rows * cols;
  }

  lemma {:induction false} IndexDiffers(i: nat, j: nat, k: nat, l: nat, cols: nat)
    requires j < cols && l < cols && (i, j) != (k, l)
    ensures i * cols + j != k * cols + l
  {
    if i < k {
      assert (i + 1) * cols <= k * cols;
    } else if k < i {
      assert (k + 1) * cols <= i * cols;
    }
  }

  lemma {:induction false} StrideFits(k: nat, n: nat, size: nat)
    requires k < n
    ensures size * k + size <= size * n
  {
    assert size * (k + 1) <= size * n;
  }

  lemma {:induction false} WordsMono(a: nat, b: nat, word: nat)
    requires a <= b
    ensures a * word <= b * word
  {}

  /** Every number lies within the block of its matrix, and the block within the words that `nn_alloc`
      took. */
  lemma {:induction false} EntryInBounds(arch: seq<nat>, z: Sizes, from: nat, p: nat, i: nat, j: nat)
    requires z.Valid() && |arch| > 0 && IsEntry(arch, p, i, j)
    ensures var b, a := BlockOf(arch, z, from, p), Address(arch, z, from, p, i, j);
      && b.start * z.word <= a && a + z.float <= (b.start + b.words) * z.word
      && from <= b.start && b.start + b.words <= from + TotalWords(Requests(arch, z, |arch|), z.word)
  {
    hide Words, Layout, TotalWords, RowsOf, ColsOf;
    var requests, n := Requests(arch, z, |arch|), RowsOf(arch, p) * ColsOf(arch, p);
    RequestOf(arch, z, |arch|, p);
    BlockAt(requests, z.word, from, p + 3);
    WordsHold(requests[p + 3], z.word);
    IndexBelow(i, j, RowsOf(arch, p), ColsOf(arch, p));
    StrideFits(Place(i, j, ColsOf(arch, p)), n, z.float);
    var b := Layout(requests, z.word, from)[p + 3];
    assert (b.start + b.words) * z.word == b.start * z.word + b.words * z.word;
  }

  /** No two numbers of a network overlap: those of different matrices lie in different blocks, those
      of one matrix a multiple of the size of a float apart. */
  lemma {:induction false} EntriesApart(arch: seq<nat>, z: Sizes, from: nat, p: nat, i: nat, j: nat, q: nat, k: nat,
      l: nat)
    requires z.Valid() && |arch| > 0 && IsEntry(arch, p, i, j) && IsEntry(arch, q, k, l) && (p, i, j) != (q, k, l)
    ensures var a, b := Address(arch, z, from, p, i, j), Address(arch, z, from, q, k, l);
      a + z.float <= b || b + z.float <= a
  {
    hide Words, Layout, TotalWords, RowsOf, Requests;
    RequestCount(arch, z, |arch|);
    if p < q {
      hide ColsOf, Address;
      MatricesApart(arch, z, from, p, i, j, q, k, l);
    } else if q < p {
      hide ColsOf, Address;
      MatricesApart(arch, z, from, q, k, l, p, i, j);
    } else {
      hide ColsOf;
      var c := ColsOf(arch, p);
      IndexDiffers(i, j, k, l, c);
      if i * c + j < k * c + l {
        StrideFits(i * c + j, k * c + l, z.float);
      } else {
        StrideFits(k * c + l, i * c + j, z.float);
      }
    }
  }

  lemma {:induction false} MatricesApart(arch: seq<nat>, z: Sizes, from: nat, p: nat, i: nat, j: nat,
      q: nat, k: nat, l: nat)
    requires z.Valid() && |arch| > 0 && IsEntry(arch, p, i, j) && IsEntry(arch, q, k, l) && p < q
    ensures Address(arch, z, from, p, i, j) + z.float <= Address(arch, z, from, q, k, l)
  {
    hide Words, Layout, TotalWords, RowsOf, ColsOf, Requests, Address;
    RequestCount(arch, z, |arch|);
    EntryInBounds(arch, z, from, p, i, j);
    EntryInBounds(arch, z, from, q, k, l);
    BlocksApart(Requests(arch, z, |arch|), z.word, from, p + 3, q + 3);
    var a, b := BlockOf(arch, z, from, p), BlockOf(arch, z, from, q);
    WordsMono(a.start + a.words, b.start, z.word);
  }

  // ---- the region of `train` ----

  /** With words of eight bytes, as on the server. */
  const WIDE := Sizes(8, 24, 16, 4)

  /** With words of four bytes. */
  const NARROW := Sizes(4, 12, 8, 4)

  const ARCH: seq<nat> := [784, 16, 10]

  const TEMP := 500 * 1024

  lemma {:induction false} TotalOfThree(x: nat, y: nat, z: nat, word: nat)
    requires word > 0
    ensures TotalWords([x, y, z], word) == Words(x, word) + Words(y, word) + Words(z, word)
  {
    hide Words;
    assert [x, y, z][1..] == [y, z] && [y, z][1..] == [z] && [z][1..] == [];
    assert TotalWords([z], word) == Words(z, word);
    assert TotalWords([y, z], word) == Words(y, word) + Words(z, word);
  }

  lemma {:induction false} TotalOfLayers(arch: seq<nat>, z: Sizes, n: nat)
    requires 1 < n <= |arch| && z.Valid()
    ensures var x, y := z.float * (arch[n - 2] * arch[n - 1]), z.float * arch[n - 1];
      TotalWords(Requests(arch, z, n), z.word)
        == TotalWords(Requests(arch, z, n - 1), z.word) + Words(x, z.word) + Words(y, z.word) + Words(y, z.word)
  {
    hide Words;
    TotalAppend(Requests(arch, z, n - 1), LayerRequests(arch, z, n - 1), z.word);
    TotalOfThree(z.float * (arch[n - 2] * arch[n - 1]), z.float * arch[n - 1], z.float * arch[n - 1], z.word);
  }

  lemma {:induction false} TotalOfHeads(arch: seq<nat>, z: Sizes)
    requires |arch| > 0 && z.Valid()
    ensures TotalWords(Requests(arch, z, 1), z.word)
         == Words(z.mat * (|arch| - 1), z.word) + Words(z.row * (|arch| - 1), z.word) + Words(z.row * |arch|, z.word)
            + Words(z.float * arch[0], z.word)
  {
    hide Words;
    var x, y, w := z.mat * (|arch| - 1), z.row * (|arch| - 1), z.row * |arch|;
    assert Requests(arch, z, 1) == [x, y, w] + [z.float * arch[0]];
    LayoutSnoc([x, y, w], z.word, 0, z.float * arch[0]);
    TotalOfThree(x, y, w, z.word);
  }

  /** The region that `train` allocates for each batch holds the gradient of its network. */
  lemma {:induction false} TempSuffices(z: Sizes)
    requires z == WIDE || z == NARROW
    ensures TotalWords(Requests(ARCH, z, |ARCH|), z.word) <= Words(TEMP, z.word)
    ensures z == WIDE ==> TotalWords(Requests(ARCH, z, |ARCH|), z.word) == 6786 && Words(TEMP, z.word) == 64000
  {
    hide TotalWords, Requests;
    TotalOfHeads(ARCH, z);
    TotalOfLayers(ARCH, z, 2);
    TotalOfLayers(ARCH, z, 3);
  }
}
