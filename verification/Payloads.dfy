/** The code of common.h that reads payloads from the tokens on the heap. */
module Payloads {
  import opened Options
  import opened Json
  import opened Grammar
  import opened Decimal
  import opened Matrices
  import opened Parser
  import opened Wire
  import Printing
  import Reading
  import Scanner
  import T = Training

  /** What the place `k` of a chain holds, and where it leads. */
  lemma {:induction false} ChainAt(cells: seq<Cell>, k: nat)
    requires Linked(cells, null) && k < |cells|
    ensures |Tokens(cells)| == |cells| && Tokens(cells[k..]) == Tokens(cells)[k..]
    ensures var c := cells[k];
      && Tokens(cells)[k] == Token(c.node.kind, c.node.text, Tokens(c.below))
      && c.node.child == First(c.below, null) && Linked(c.below, null)
      && c.node.next == First(cells[k + 1..], null) && Linked(cells[k..], null)
  {
    if k > 0 {
      ChainAt(cells[1..], k - 1);
      assert cells[1..][k - 1..] == cells[k..] && cells[1..][k..] == cells[k + 1..];
    } else {
      TokenCount(cells);
      assert cells[0..] == cells;
    }
  }

  lemma {:induction false} TokenCount(cells: seq<Cell>)
    ensures |Tokens(cells)| == |cells|
  {
    if cells != [] {
      TokenCount(cells[1..]);
    }
  }

  /** Adds the numbers of a chain to row `j` of a matrix: the innermost loops of
      `parse_weights_json`. */
  method AddRow(m: array2<real>, j: nat, first: Node?, ghost cells: seq<Cell>, ghost tokens: seq<Token>)
    requires j < m.Length0 && first == First(cells, null) && Linked(cells, null) && Tokens(cells) == tokens
    requires |tokens| >= m.Length1 && forall k :: 0 <= k < m.Length1 ==> tokens[k].text.Some?
    modifies m
    ensures forall r, k :: 0 <= r < m.Length0 && 0 <= k < m.Length1 ==>
      m[r, k] == old(m[r, k]) + (if r == j then NumberOf(tokens[k]) else 0.0)
  {
    hide Linked, Tokens, ReadReal, Foot;
    var col := first;
    TokenCount(cells);
    assert cells[0..] == cells;
    assert allocated(Foot(cells)) && forall n: Node :: n in Foot(cells) ==> (n as object) != m;
    for k := 0 to m.Length1
      invariant Linked(cells, null) && Tokens(cells) == tokens && col == First(cells[k..], null)
      invariant forall r, q :: 0 <= r < m.Length0 && 0 <= q < m.Length1 ==>
        m[r, q] == old(m[r, q]) + (if r == j && q < k then NumberOf(tokens[q]) else 0.0)
    {
      ChainAt(cells, k);
      m[j, k] := m[j, k] + ReadReal(col.text.value);
      col := col.next;
    }
  }

  /** Adds a matrix of numbers, one chain a row. */
  method AddMatrix(m: array2<real>, first: Node?, ghost cells: seq<Cell>, ghost tokens: seq<Token>)
    requires first == First(cells, null) && Linked(cells, null) && Tokens(cells) == tokens
    requires |tokens| >= m.Length0 && forall j :: 0 <= j < m.Length0 ==> HasRow(tokens[j], m.Length1)
    modifies m
    ensures forall r, k :: 0 <= r < m.Length0 && 0 <= k < m.Length1 ==>
      m[r, k] == old(m[r, k]) + RowRead(tokens[r], m.Length1)[k]
  {
    hide Linked, Tokens, NumberOf, Foot;
    var row := first;
    TokenCount(cells);
    assert cells[0..] == cells;
    assert allocated(Foot(cells)) && forall n: Node :: n in Foot(cells) ==> (n as object) != m;
    for j := 0 to m.Length0
      invariant Linked(cells, null) && Tokens(cells) == tokens && row == First(cells[j..], null)
      invariant forall r, q :: 0 <= r < m.Length0 && 0 <= q < m.Length1 ==>
        m[r, q] == old(m[r, q]) + (if r < j then RowRead(tokens[r], m.Length1)[q] else 0.0)
    {
      ChainAt(cells, j);
      AddRow(m, j, row.child, cells[j].below, tokens[j].child);
      row := row.next;
    }
  }

  function SumRow(a: seq<real>, b: seq<real>): seq<real>
  {
    seq(|a|, k requires 0 <= k < |a| => if k < |b| then a[k] + b[k] else a[k])
  }

  function SumRows(a: seq<seq<real>>, b: seq<seq<real>>): seq<seq<real>>
  {
    seq(|a|, j requires 0 <= j < |a| => if j < |b| then SumRow(a[j], b[j]) else a[j])
  }

  function SumLayer(a: Layer, b: Layer): Layer
  {
    Layer(SumRows(a.w, b.w), SumRow(a.b, b.b))
  }

  function LayerOf(w: array2<real>, b: array2<real>): Layer
    requires b.Length0 > 0
    reads w, b
  {
    Layer(Rows(w), RowOf(b, 0))
  }

  /** The `w` and `b` of one turn of the outer loop of `parse_weights_json`. */
  method AddLayer(w: array2<real>, b: array2<real>, weights: Node, bias: Node,
                  ghost wc: Cell, ghost bc: Cell, ghost wt: Token, ghost bt: Token)
    requires w != b && b.Length0 == 1 && b.Length1 == w.Length1
    requires wc.node == weights && weights.child == First(wc.below, null) && Linked(wc.below, null)
    requires Tokens(wc.below) == wt.child
    requires bc.node == bias && bias.child == First(bc.below, null) && Linked(bc.below, null)
    requires Tokens(bc.below) == bt.child
    requires HasMatrix(wt, w.Length0, w.Length1) && HasRow(bt, w.Length1)
    modifies w, b
    ensures LayerOf(w, b) ==
      SumLayer(old(LayerOf(w, b)), Layer(MatrixRead(wt, w.Length0, w.Length1), RowRead(bt, w.Length1)))
  {
    hide Linked, Tokens, RowRead, NumberOf, Foot;
    ghost var before := LayerOf(w, b);
    assert allocated(Foot(bc.below)) && forall n: Node :: n in Foot(bc.below) ==> (n as object) != w;
    AddMatrix(w, weights.child, wc.below, wt.child);
    forall r, k | 0 <= r < w.Length0 && 0 <= k < w.Length1
      ensures Rows(w)[r][k] == before.w[r][k] + RowRead(wt.child[r], w.Length1)[k]
    {
      assert Rows(w)[r][k] == w[r, k] && before.w[r][k] == old(w[r, k]);
    }
    RowsSum(before.w, Rows(w), wt, w.Length1);
    assert RowOf(b, 0) == before.b;
    AddRow(b, 0, bias.child, bc.below, bt.child);
    RowSum(before.b, RowOf(b, 0), bt);
  }

  lemma {:induction false} RowSum(before: seq<real>, after: seq<real>, t: Token)
    requires HasRow(t, |before|) && |after| == |before|
    requires forall k :: 0 <= k < |before| ==> after[k] == before[k] + NumberOf(t.child[k])
    ensures after == SumRow(before, RowRead(t, |before|))
  {
    hide NumberOf;
  }

  lemma {:induction false} RowsSum(before: seq<seq<real>>, after: seq<seq<real>>, t: Token, cols: nat)
    requires HasMatrix(t, |before|, cols) && |after| == |before|
    requires forall r :: 0 <= r < |before| ==> |before[r]| == |after[r]| == cols
    requires forall r, k :: 0 <= r < |before| && 0 <= k < cols ==>
      after[r][k] == before[r][k] + RowRead(t.child[r], cols)[k]
    ensures after == SumRows(before, MatrixRead(t, |before|, cols))
  {
    hide RowRead;
    forall r | 0 <= r < |before| ensures after[r] == SumRow(before[r], RowRead(t.child[r], cols)) {
    }
  }

  /** The buffers are all different, and sized as `arch` says. */
  predicate Buffers(ws: seq<array2<real>>, bs: seq<array2<real>>, arch: seq<nat>)
  {
    && |ws| == |bs| == |arch| - 1 && T.Distinct(ws) && T.Distinct(bs) && T.Disjoint(ws, bs)
    && forall l {:trigger ws[l]} {:trigger bs[l]} :: 0 <= l < |ws| ==>
      && ws[l].Length0 == arch[l] && ws[l].Length1 == arch[l + 1] && bs[l].Length0 == 1 && bs[l].Length1 == arch[l + 1]
  }

  /** Each layer is what it was plus, below `n`, what was read. */
  ghost predicate Added(ws: seq<array2<real>>, bs: seq<array2<real>>, arch: seq<nat>, start: seq<Layer>,
      read: seq<Layer>, n: nat)
    requires Buffers(ws, bs, arch) && |start| == |read| == |ws|
    reads ws, bs
  {
    forall l :: 0 <= l < |ws| ==> LayerOf(ws[l], bs[l]) == if l < n then SumLayer(start[l], read[l]) else start[l]
  }

  lemma {:induction false} ZeroSum(zero: Layer, read: Layer, rows: nat, cols: nat)
    requires LayerSized(zero, rows, cols) && LayerSized(read, rows, cols)
    requires forall r :: 0 <= r < rows ==> forall k :: 0 <= k < cols ==> zero.w[r][k] == 0.0
    requires forall k :: 0 <= k < cols ==> zero.b[k] == 0.0
    ensures SumLayer(zero, read) == read
  {
    assert SumRow(zero.b, read.b) == read.b;
    forall r | 0 <= r < rows ensures SumRow(zero.w[r], read.w[r]) == read.w[r] {
      assert forall k :: 0 <= k < cols ==> zero.w[r][k] == 0.0;
    }
    assert SumRows(zero.w, read.w) == read.w;
  }

  /** The `memset` loop: clears all buffers. */
  method ClearLayers(ws: seq<array2<real>>, bs: seq<array2<real>>, arch: seq<nat>)
    requires |arch| > 0 && Buffers(ws, bs, arch)
    modifies ws, bs
    ensures forall l, r, k :: 0 <= l < |ws| && 0 <= r < arch[l] && 0 <= k < arch[l + 1] ==> ws[l][r, k] == 0.0
    ensures forall l, k :: 0 <= l < |ws| && 0 <= k < arch[l + 1] ==> bs[l][0, k] == 0.0
  {
    for i := 0 to |ws|
      invariant forall l, r, k :: 0 <= l < i && 0 <= r < arch[l] && 0 <= k < arch[l + 1] ==> ws[l][r, k] == 0.0
      invariant forall l, k :: 0 <= l < i && 0 <= k < arch[l + 1] ==> bs[l][0, k] == 0.0
    {
      MatFill(ws[i], 0.0);
      MatFill(bs[i], 0.0);
    }
  }

  /** The layers that the buffers hold. */
  function LayersIn(ws: seq<array2<real>>, bs: seq<array2<real>>, arch: seq<nat>): (layers: seq<Layer>)
    requires Buffers(ws, bs, arch)
    reads ws, bs
    ensures |layers| == |ws|
  {
    seq(|ws|, l requires 0 <= l < |ws| && Buffers(ws, bs, arch) reads ws, bs => LayerOf(ws[l], bs[l]))
  }

  lemma {:induction false} NotNodes(cells: seq<Cell>, ws: seq<array2<real>>, bs: seq<array2<real>>)
    ensures forall n: Node, m: array2<real> :: n in Foot(cells) && (m in ws || m in bs) ==> (n as object) != m
  {
  }

  lemma {:induction false} LayerTokens(tokens: seq<Token>, arch: seq<nat>, l: nat)
    requires |arch| > 1 && HasLayers(tokens, arch) && l < |arch| - 1
    ensures 2 * l + 1 < |tokens|
    ensures HasMatrix(tokens[2 * l], arch[l], arch[l + 1]) && HasRow(tokens[2 * l + 1], arch[l + 1])
    ensures LayersRead(tokens, arch)[l] ==
      Layer(MatrixRead(tokens[2 * l], arch[l], arch[l + 1]), RowRead(tokens[2 * l + 1], arch[l + 1]))
  {
  }

  /** One turn of the outer loop of `parse_weights_json`. */
  method AddTurn(i: nat, weights: Node, biases: Node, ws: seq<array2<real>>, bs: seq<array2<real>>, arch: seq<nat>,
                 ghost cells: seq<Cell>, ghost tokens: seq<Token>, ghost start: seq<Layer>)
    requires |arch| > 1 && Buffers(ws, bs, arch) && i < |ws| && |start| == |ws|
    requires Linked(cells, null) && Tokens(cells) == tokens && HasLayers(tokens, arch)
    requires 2 * i + 1 < |cells| && weights == cells[2 * i].node && biases == cells[2 * i + 1].node
    requires Added(ws, bs, arch, start, LayersRead(tokens, arch), i)
    modifies ws[i], bs[i]
    ensures Added(ws, bs, arch, start, LayersRead(tokens, arch), i + 1)
  {
    hide Linked, Tokens, Foot, First, LayersRead, LayerOf, HasLayers, SumLayer, MatrixRead, RowRead, HasMatrix, HasRow;
    LayerTokens(tokens, arch, i);
    ChainAt(cells, 2 * i);
    ChainAt(cells, 2 * i + 1);
    label before:
    AddLayer(ws[i], bs[i], weights, biases, cells[2 * i], cells[2 * i + 1], tokens[2 * i], tokens[2 * i + 1]);
    forall l | 0 <= l < |ws| && l != i ensures LayerOf(ws[l], bs[l]) == old@before(LayerOf(ws[l], bs[l])) {
      assert ws[l] != ws[i] && ws[l] != bs[i] && bs[l] != ws[i] && bs[l] != bs[i];
    }
  }

  /** Two places further on a chain. */
  lemma {:induction false} TwoFurther(cells: seq<Cell>, k: nat)
    requires Linked(cells, null) && k + 1 < |cells|
    ensures cells[k].node.next == cells[k + 1].node
    ensures k + 3 < |cells| ==> cells[k].node.next.next == cells[k + 2].node
    ensures k + 3 < |cells| ==>
      cells[k + 1].node.next == cells[k + 2].node && cells[k + 1].node.next.next == cells[k + 3].node
    ensures cells[k + 1].node.next != null ==> k + 2 < |cells| && cells[k + 1].node.next == cells[k + 2].node
  {
    hide Linked, Tokens;
    ChainAt(cells, k);
    ChainAt(cells, k + 1);
    if k + 2 < |cells| {
      ChainAt(cells, k + 2);
    }
  }

  /** The outer loop of `parse_weights_json`, which walks two places of the chain at a time. */
  method AddLayers(first: Node?, ws: seq<array2<real>>, bs: seq<array2<real>>, arch: seq<nat>,
                   ghost cells: seq<Cell>, ghost tokens: seq<Token>, ghost start: seq<Layer>)
    requires |arch| > 1 && Buffers(ws, bs, arch) && start == LayersIn(ws, bs, arch)
    requires first == First(cells, null) && Linked(cells, null) && Tokens(cells) == tokens && HasLayers(tokens, arch)
    modifies ws, bs
    ensures Added(ws, bs, arch, start, LayersRead(tokens, arch), |ws|)
  {
    hide Linked, Tokens, Foot, LayersRead, LayerOf, HasMatrix, HasRow;
    NotNodes(cells, ws, bs);
    TokenCount(cells);
    TwoFurther(cells, 0);
    assert allocated(Foot(cells));
    var weights: Node?, biases: Node? := first, first.next;
    for i := 0 to |ws|
      invariant Linked(cells, null) && Tokens(cells) == tokens
      invariant i < |ws| ==> weights == cells[2 * i].node && biases == cells[2 * i + 1].node
      invariant Added(ws, bs, arch, start, LayersRead(tokens, arch), i)
    {
      hide Added, HasLayers, SumLayer;
      LayerTokens(tokens, arch, i);
      if i + 1 < |ws| {
        LayerTokens(tokens, arch, i + 1);
      }
      AddTurn(i, weights, biases, ws, bs, arch, cells, tokens, start);
      TwoFurther(cells, 2 * i);
      weights := weights.next.next;
      if biases.next != null {
        biases := biases.next.next;
      }
    }
  }

  /** `parse_weights_json`: adds what a chain of matrices and bias rows in turn holds to the
      buffers, which are cleared first unless `accum`. */
  method ParseWeights(first: Node?, ws: seq<array2<real>>, bs: seq<array2<real>>, arch: seq<nat>, accum: bool,
                      ghost cells: seq<Cell>, ghost tokens: seq<Token>)
    requires |arch| > 1 && Buffers(ws, bs, arch)
    requires first == First(cells, null) && Linked(cells, null) && Tokens(cells) == tokens && HasLayers(tokens, arch)
    modifies ws, bs
    ensures accum ==> Added(ws, bs, arch, old(LayersIn(ws, bs, arch)), LayersRead(tokens, arch), |ws|)
    ensures !accum ==> LayersIn(ws, bs, arch) == LayersRead(tokens, arch)
  {
    hide Linked, Tokens, Foot, LayersRead, HasLayers, SumLayer;
    NotNodes(cells, ws, bs);
    assert allocated(Foot(cells));
    if !accum {
      ClearLayers(ws, bs, arch);
    }
    ghost var start := LayersIn(ws, bs, arch);
    AddLayers(first, ws, bs, arch, cells, tokens, start);
    if !accum {
      forall l | 0 <= l < |ws| ensures LayerOf(ws[l], bs[l]) == LayersRead(tokens, arch)[l] {
        LayerTokens(tokens, arch, l);
        ZeroSum(start[l], LayersRead(tokens, arch)[l], arch[l], arch[l + 1]);
      }
    }
  }

  method CopyMatrix(dst: array2<real>, src: array2<real>)
    requires dst.Length0 == src.Length0 && dst.Length1 == src.Length1 && dst != src
    modifies dst
    ensures Rows(dst) == Rows(src)
  {
    for j := 0 to dst.Length0
      invariant forall r, k :: 0 <= r < j && 0 <= k < dst.Length1 ==> dst[r, k] == src[r, k]
    {
      for k := 0 to dst.Length1
        invariant forall r, q :: 0 <= r < j && 0 <= q < dst.Length1 ==> dst[r, q] == src[r, q]
        invariant forall q :: 0 <= q < k ==> dst[j, q] == src[j, q]
      {
        dst[j, k] := src[j, k];
      }
    }
    forall j | 0 <= j < dst.Length0 ensures RowOf(dst, j) == RowOf(src, j) {
    }
  }

  /** `insert_weights_to_nn`: copies the buffers into a network of the same shape. */
  method InsertWeights(nn: T.NN, ws: seq<array2<real>>, bs: seq<array2<real>>)
    requires nn.Valid() && |nn.arch| > 0 && Buffers(ws, bs, nn.arch)
    requires T.Disjoint(nn.ws, ws) && T.Disjoint(nn.ws, bs) && T.Disjoint(nn.bs, ws) && T.Disjoint(nn.bs, bs)
    modifies nn.ws, nn.bs
    ensures Printing.Layers(nn) == LayersIn(ws, bs, nn.arch) == old(LayersIn(ws, bs, nn.arch))
  {
    hide Rows, RowOf;
    for i := 0 to |nn.ws|
      invariant forall l :: 0 <= l < |ws| ==> LayerOf(ws[l], bs[l]) == old(LayerOf(ws[l], bs[l]))
      invariant forall l :: 0 <= l < i ==> LayerOf(nn.ws[l], nn.bs[l]) == LayerOf(ws[l], bs[l])
    {
      CopyLayer(nn, ws, bs, i);
    }
  }

  method CopyLayer(nn: T.NN, ws: seq<array2<real>>, bs: seq<array2<real>>, i: nat)
    requires nn.Valid() && |nn.arch| > 0 && Buffers(ws, bs, nn.arch) && i < |nn.ws|
    requires T.Disjoint(nn.ws, ws) && T.Disjoint(nn.ws, bs) && T.Disjoint(nn.bs, ws) && T.Disjoint(nn.bs, bs)
    modifies nn.ws[i], nn.bs[i]
    ensures forall l :: 0 <= l < |ws| ==> LayerOf(ws[l], bs[l]) == old(LayerOf(ws[l], bs[l]))
    ensures LayerOf(nn.ws[i], nn.bs[i]) == LayerOf(ws[i], bs[i])
    ensures forall l :: 0 <= l < |ws| && l != i ==> LayerOf(nn.ws[l], nn.bs[l]) == old(LayerOf(nn.ws[l], nn.bs[l]))
  {
    hide Rows, LayerOf;
    assert nn.ws[i] != nn.bs[i];
    CopyMatrix(nn.ws[i], ws[i]);
    CopyMatrix(nn.bs[i], bs[i]);
    assert LayerOf(nn.ws[i], nn.bs[i]) == LayerOf(ws[i], bs[i]) by { SameLayer(nn.ws[i], nn.bs[i], ws[i], bs[i]); }
    forall l | 0 <= l < |ws| ensures LayerOf(ws[l], bs[l]) == old(LayerOf(ws[l], bs[l])) {
      assert ws[l] != nn.ws[i] && ws[l] != nn.bs[i] && bs[l] != nn.ws[i] && bs[l] != nn.bs[i];
    }
    forall l | 0 <= l < |ws| && l != i ensures LayerOf(nn.ws[l], nn.bs[l]) == old(LayerOf(nn.ws[l], nn.bs[l])) {
      assert nn.ws[l] != nn.ws[i] && nn.ws[l] != nn.bs[i] && nn.bs[l] != nn.ws[i] && nn.bs[l] != nn.bs[i];
    }
  }

  lemma {:induction false} SameLayer(w: array2<real>, b: array2<real>, v: array2<real>, c: array2<real>)
    requires b.Length0 > 0 && c.Length0 > 0 && Rows(w) == Rows(v) && Rows(b) == Rows(c)
    ensures LayerOf(w, b) == LayerOf(v, c)
  {
    assert RowOf(b, 0) == Rows(b)[0] && RowOf(c, 0) == Rows(c)[0];
  }

  // ---- walking the keys ----

  /** What the reader of a key relies on: no null pointer where it looks. */
  predicate HasText(key: Token)
  {
    key.child != [] && key.child[0].text.Some?
  }

  /** The keys of the statistics whose values are read. */
  predicate IsStat(name: string)
  {
    "bytes_sent" <= name || "bytes_recv" <= name || "seg_dropped" <= name || "seg_rexmit" <= name
  }

  predicate StatOk(key: Token)
  {
    key.text.Some? && (IsStat(key.text.value) ==> HasText(key))
  }

  predicate KeyOk(key: Token)
  {
    && key.text.Some?
    && var name := key.text.value;
       if "round" <= name then HasText(key)
       else if "weights" <= name then key.child != []
       else if "training_time" <= name then HasText(key)
       else if "stats" <= name then key.child != [] && forall k :: 1 <= k < |key.child| ==> StatOk(key.child[k])
       else true
  }

  /** One place further on a chain. */
  lemma {:induction false} ChainHead(cells: seq<Cell>)
    requires cells != [] && Linked(cells, null)
    ensures var c := cells[0];
      && c.node.child == First(c.below, null) && Linked(c.below, null)
      && c.node.next == First(cells[1..], null) && Linked(cells[1..], null)
      && Tokens(cells) == [Token(c.node.kind, c.node.text, Tokens(c.below))] + Tokens(cells[1..])
      && Tokens(cells)[1..] == Tokens(cells[1..])
  {
    hide Tokens;
    assert Tokens(cells) == [Token(cells[0].node.kind, cells[0].node.text, Tokens(cells[0].below))]
        + Tokens(cells[1..]) by {
      TokensHead(cells);
    }
  }

  lemma {:induction false} TokensHead(cells: seq<Cell>)
    requires cells != []
    ensures Tokens(cells) == [Token(cells[0].node.kind, cells[0].node.text, Tokens(cells[0].below))]
        + Tokens(cells[1..])
  {
  }

  /** One turn of the loop over the keys of the statistics. */
  method VisitStat(key: Node, s: Stats, ghost cell: Cell) returns (t: Stats)
    requires cell.node == key && key.child == First(cell.below, null) && Linked(cell.below, null)
    requires StatOk(Token(key.kind, key.text, Tokens(cell.below)))
    ensures t == ReadStat(Token(key.kind, key.text, Tokens(cell.below)), s)
  {
    hide Linked, Tokens, ReadInt, Clamp, AsUnsigned;
    var name := key.text.value;
    TokenCount(cell.below);
    if cell.below != [] {
      ChildText(cell.below);
    }
    if "bytes_sent" <= name {
      t := s.(sent := AsUnsigned(Clamp(ReadInt(key.child.text.value))));
    } else if "bytes_recv" <= name {
      t := s.(received := AsUnsigned(Clamp(ReadInt(key.child.text.value))));
    } else if "seg_dropped" <= name {
      t := s.(dropped := AsUnsigned(Clamp(ReadInt(key.child.text.value))));
    } else if "seg_rexmit" <= name {
      t := s.(rexmit := AsUnsigned(Clamp(ReadInt(key.child.text.value))));
    } else {
      t := s;
    }
  }

  /** The loop over the keys of the statistics. */
  method WalkStats(first: Node?, s: Stats, ghost cells: seq<Cell>) returns (t: Stats)
    requires first == First(cells, null) && Linked(cells, null)
    requires forall k :: 0 <= k < |Tokens(cells)| ==> StatOk(Tokens(cells)[k])
    ensures t == ReadStats(Tokens(cells), s)
  {
    hide Linked, Tokens, ReadStat, StatOk;
    var key := first;
    ghost var left := cells;
    t := s;
    while key != null
      invariant key == First(left, null) && Linked(left, null)
      invariant forall k :: 0 <= k < |Tokens(left)| ==> StatOk(Tokens(left)[k])
      invariant ReadStats(Tokens(left), t) == ReadStats(Tokens(cells), s)
      decreases |left|
    {
      ChainHead(left);
      assert StatOk(Tokens(left)[0]);
      assert allocated(Foot(left)) && allocated(Foot(left[1..])) && allocated(Foot(cells));
      assert forall k :: 0 <= k < |Tokens(left)| - 1 ==> Tokens(left[1..])[k] == Tokens(left)[k + 1];
      t := VisitStat(key, t, left[0]);
      key, left := key.next, left[1..];
    }
    NoTokens(left);
  }

  lemma {:induction false} NoTokens(cells: seq<Cell>)
    requires First(cells, null) == null
    ensures cells == [] && Tokens(cells) == []
  {
  }

  lemma {:induction false} ChildText(cells: seq<Cell>)
    requires cells != []
    ensures |Tokens(cells)| > 0 && Tokens(cells)[0].text == cells[0].node.text
    ensures Tokens(cells)[0].child == Tokens(cells[0].below)
  {
  }

  /** The loop over the keys of a payload. The weights are found, but not read. */
  method WalkKeys(first: Node?, ghost cells: seq<Cell>)
    returns (ok: bool, round: nat, weights: Node?, stats: Stats, ghost below: seq<Cell>)
    requires first == First(cells, null) && Linked(cells, null)
    requires forall k :: 0 <= k < |Tokens(cells)| ==> KeyOk(Tokens(cells)[k])
    ensures weights == First(below, null) && Linked(below, null)
    ensures Deserialize(Tokens(cells), BLANK) == if ok then Some(Payload(round, Tokens(below), stats)) else None
  {
    hide Linked, Tokens, ReadKey, KeyOk;
    var key := first;
    ghost var left := cells;
    ok, round, weights, stats, below := true, 0, null, BLANK.stats, [];
    NoLinks();
    while key != null
      invariant key == First(left, null) && Linked(left, null)
      invariant forall k :: 0 <= k < |Tokens(left)| ==> KeyOk(Tokens(left)[k])
      invariant weights == First(below, null) && Linked(below, null)
      invariant Deserialize(Tokens(left), Payload(round, Tokens(below), stats)) == Deserialize(Tokens(cells), BLANK)
      decreases |left|
    {
      ChainHead(left);
      assert KeyOk(Tokens(left)[0]);
      assert allocated(Foot(left)) && allocated(Foot(left[1..])) && allocated(Foot(below)) && allocated(Foot(cells));
      assert forall k :: 0 <= k < |Tokens(left)| - 1 ==> Tokens(left[1..])[k] == Tokens(left)[k + 1];
      ok, round, weights, stats, below := VisitKey(key, round, weights, stats, left[0], below);
      if !ok {
        return;
      }
      key, left := key.next, left[1..];
    }
    NoTokens(left);
  }

  lemma {:induction false} NoLinks()
    ensures Linked([], null) && Tokens([]) == []
  {
  }

  /** One turn of that loop. */
  method VisitKey(key: Node, round: nat, weights: Node?, stats: Stats, ghost cell: Cell, ghost below: seq<Cell>)
    returns (ok: bool, newRound: nat, newWeights: Node?, newStats: Stats, ghost newBelow: seq<Cell>)
    requires cell.node == key && key.child == First(cell.below, null) && Linked(cell.below, null)
    requires KeyOk(Token(key.kind, key.text, Tokens(cell.below)))
    requires weights == First(below, null) && Linked(below, null)
    ensures newWeights == First(newBelow, null) && Linked(newBelow, null)
    ensures ReadKey(Token(key.kind, key.text, Tokens(cell.below)), Payload(round, Tokens(below), stats)) ==
      if ok then Some(Payload(newRound, Tokens(newBelow), newStats)) else None
  {
    hide Linked, Tokens, ReadInt, Clamp, ReadStats;
    var name := key.text.value;
    TokenCount(cell.below);
    if cell.below != [] {
      ChildText(cell.below);
      ChainHead(cell.below);
    }
    assert allocated(Foot(cell.below)) && allocated(Foot(below));
    ok, newRound, newWeights, newStats, newBelow := true, round, weights, stats, below;
    if "round" <= name {
      newRound := Clamp(ReadInt(key.child.text.value)) % TWO_64;
      ok := newRound != 0;
    } else if "weights" <= name {
      newWeights := key.child.child;
      newBelow := cell.below[0].below;
    } else if "training_time" <= name {
      newStats := stats.(time := Clamp(ReadInt(key.child.text.value)));
    } else if "stats" <= name {
      assert forall k :: 0 <= k < |Tokens(cell.below)| - 1 ==> Tokens(cell.below[1..])[k] == Tokens(cell.below)[k + 1];
      newStats := WalkStats(key.child.next, stats, cell.below[1..]);
    }
  }

  /** A text in whose tokens the reader meets no null pointer where it looks. */
  ghost predicate Readable(text: string)
  {
    var scan := Scanner.ScanToken(text, 0);
    scan.Done? && forall k :: 0 <= k < |scan.link.next| ==> KeyOk(scan.link.next[k])
  }

  /** `deserialize_training_data`. The source follows pointers without looking, so the text has
      to be an object whose keys have the values that it looks for; every payload sent does. */
  method DeserializeTrainingData(data: string, memory: Memory)
    returns (ok: bool, json: Node, round: nat, weights: Node?, stats: Stats, ghost cells: seq<Cell>,
        ghost below: seq<Cell>)
    requires Readable(data)
    modifies memory`live
    ensures fresh(Foot(cells)) && Foot(cells) <= memory.live && old(memory.live) <= memory.live
    ensures Parser.Mirrors(json, cells, Scanner.ScanToken(data, 0).link)
    ensures weights == First(below, null) && Linked(below, null)
    ensures Deserialize(Scanner.ScanToken(data, 0).link.next, BLANK) ==
      if ok then Some(Payload(round, Tokens(below), stats)) else None
  {
    hide Linked, Tokens, Foot, KeyOk, Deserialize, Scanner.ScanToken;
    var c := new Cson(data, memory);
    var root;
    root, cells := c.ParseJson();
    json := root;
    ChainHead(cells);
    assert Tokens(cells)[1..] == Scanner.ScanToken(data, 0).link.next;
    assert allocated(Foot(cells)) && allocated(Foot(cells[1..]));
    ok, round, weights, stats, below := WalkKeys(json.next, cells[1..]);
  }

  // ---- every payload sent can be read ----

  lemma {:induction false} KeyTokensAt(entries: seq<Entry>, k: nat)
    requires k < |entries|
    ensures |KeyTokens(entries)| == |entries| && KeyTokens(entries)[k] == Reading.KeyToken(entries[k])
  {
    hide Reading.KeyToken, KeyTokens;
    KeyTokensSplit(entries);
    if k > 0 {
      KeyTokensAt(entries[1..], k - 1);
    } else {
      KeyTokensCount(entries[1..]);
    }
  }

  lemma {:induction false} KeyTokensCount(entries: seq<Entry>)
    ensures |KeyTokens(entries)| == |entries|
  {
    hide Reading.KeyToken, KeyTokens;
    KeyTokensSplit(entries);
    if entries != [] {
      KeyTokensCount(entries[1..]);
    }
  }

  lemma {:induction false} IntEntryOk(e: Entry, n: int)
    requires e.doc == IntDoc(n) && !("stats" <= e.key)
    ensures KeyOk(Reading.KeyToken(e)) && StatOk(Reading.KeyToken(e))
  {
  }

  lemma {:induction false} StatsEntriesOk(s: Stats)
    ensures var keys := KeyTokens(StatsEntries(s));
      |keys| == 4 && forall k :: 0 <= k < |keys| ==> StatOk(keys[k])
  {
    hide Reading.KeyToken, KeyTokens, IntDoc;
    var e := StatsEntries(s);
    KeyTokensCount(e);
    forall k | 0 <= k < 4 ensures StatOk(KeyTokens(e)[k]) {
      KeyTokensAt(e, k);
      NotPrefix("stats", "bytes_sent", 0);
      NotPrefix("stats", "bytes_recv", 0);
      NotPrefix("stats", "seg_dropped", 1);
      NotPrefix("stats", "seg_rexmit", 1);
      IntEntryOk(e[k], [AsSigned(s.sent), AsSigned(s.received), AsSigned(s.dropped), AsSigned(s.rexmit)][k]);
    }
  }

  lemma {:induction false} WeightsEntryOk(e: Entry, layers: seq<Layer>)
    requires e.key == "weights" && e.doc == LayersDoc(layers)
    ensures KeyOk(Reading.KeyToken(e))
  {
    hide LayerItems;
    NotPrefix("round", "weights", 0);
    NotPrefix("training_time", "weights", 0);
    NotPrefix("stats", "weights", 0);
  }

  lemma {:induction false} StatsEntryOk(e: Entry, s: Stats)
    requires e.key == "stats" && e.doc == DObject(" ", StatsEntries(s))
    ensures KeyOk(Reading.KeyToken(e))
  {
    hide StatsEntries, KeyTokens, StatOk;
    StatsEntriesOk(s);
    ObjectKey(e, " ", StatsEntries(s));
    NotPrefix("round", "stats", 0);
    NotPrefix("training_time", "stats", 0);
    var t := Reading.KeyToken(e);
    assert forall k :: 1 <= k < |t.child| ==> t.child[k] == t.child[1..][k - 1];
  }

  /** The reader may follow its pointers through every reply. */
  lemma {:induction false} ReplyKeysOk(round: nat, layers: seq<Layer>, s: Stats, arch: seq<nat>)
    requires Sized(layers, arch)
    ensures Readable(ReplyText(round, layers, s))
  {
    hide Reading.KeyToken, KeyTokens, IntDoc, LayersDoc, StatsEntries, KeyOk, Valid, Render, Scanner.ScanToken, Sized;
    var e := ReplyEntries(round, layers, s);
    ReplyValid(round, layers, s, arch);
    ObjectScanned(e);
    KeyTokensCount(e);
    NotPrefix("stats", "round", 0);
    NotPrefix("stats", "training_time", 0);
    IntEntryOk(e[0], round);
    IntEntryOk(e[1], s.time);
    WeightsEntryOk(e[2], layers);
    StatsEntryOk(e[3], s);
    forall k | 0 <= k < 4 ensures KeyOk(KeyTokens(e)[k]) {
      KeyTokensAt(e, k);
    }
  }

  /** The payload that the text of a scan amounts to. */
  function Content(text: string): Option<Payload>
    requires Scanner.ScanToken(text, 0).Done?
  {
    Deserialize(Scanner.ScanToken(text, 0).link.next, BLANK)
  }

  /** What the server does with the text of a reply: scans it, walks the keys, adds the weights
      to its buffers and frees the tokens. */
  method ReadReply(text: string, ws: seq<array2<real>>, bs: seq<array2<real>>, arch: seq<nat>, accum: bool,
      memory: Memory)
    returns (ok: bool, round: nat, stats: Stats)
    requires |arch| > 1 && Buffers(ws, bs, arch) && Readable(text)
    requires Content(text).Some? ==> HasLayers(Content(text).value.weights, arch)
    modifies ws, bs, memory`live
    ensures ok <==> Content(text).Some?
    ensures ok ==> round == Content(text).value.round && stats == Content(text).value.stats
    ensures ok && accum ==>
      Added(ws, bs, arch, old(LayersIn(ws, bs, arch)), LayersRead(Content(text).value.weights, arch), |ws|)
    ensures ok && !accum ==> LayersIn(ws, bs, arch) == LayersRead(Content(text).value.weights, arch)
    ensures !ok ==> LayersIn(ws, bs, arch) == old(LayersIn(ws, bs, arch))
  {
    ghost var start := LayersIn(ws, bs, arch);
    hide Linked, Tokens, Foot, Apart, First, LayersRead;
    hide LayersIn, HasLayers, KeyOk, Deserialize, Scanner.ScanToken, Added;
    var json, weights;
    ghost var cells, below;
    ok, json, round, weights, stats, cells, below := DeserializeTrainingData(text, memory);
    assert LayersIn(ws, bs, arch) == start;
    NotNodes(cells, ws, bs);
    assert allocated(Foot(cells));
    if ok {
      ParseWeights(weights, ws, bs, arch, accum, below, Tokens(below));
    }
    FreeTokens(memory, json, cells);
  }

  lemma {:induction false} PrintedSized(nn: T.NN)
    requires nn.Shaped() && |nn.arch| > 0 && forall l :: 0 <= l < |nn.ws| ==> nn.ws[l].Length0 > 0
    ensures Sized(Printed(Printing.Layers(nn)), nn.arch)
  {
  }

  lemma {:induction false} ReplyContent(round: nat, layers: seq<Layer>, s: Stats, arch: seq<nat>)
    requires Sized(layers, arch) && s.Fits()
    ensures var text := ReplyText(round, layers, s);
      && Readable(text) && (Content(text).Some? <==> round != 0)
      && (round != 0 ==>
            var p := Content(text).value;
            && p.round == Clamp(round) && p.stats == s
            && HasLayers(p.weights, arch) && LayersRead(p.weights, arch) == RoundedLayers(layers))
  {
    hide Scanner.ScanToken, Deserialize, HasLayers, LayersRead, RoundedLayers, Sized, Stats.Fits, ReplyText, KeyOk,
      Clamp;
    ReplyKeysOk(round, layers, s, arch);
    ReplyArrives(round, layers, s, arch);
  }

  /** One reply, all the way: a client prints its network, and the server scans the text, walks
      the keys, adds the weights to its buffers and frees the tokens. The buffers gain what was
      printed, rounded to six decimals. */
  method Deliver(round: nat, nn: T.NN, s: Stats, ws: seq<array2<real>>, bs: seq<array2<real>>, accum: bool,
      memory: Memory)
    returns (ok: bool, received: nat, stats: Stats)
    requires nn.Shaped() && |nn.arch| > 1 && (forall l :: 0 <= l < |nn.ws| ==> nn.ws[l].Length0 > 0) && s.Fits()
    requires Buffers(ws, bs, nn.arch)
    modifies ws, bs, memory`live
    ensures ok <==> round != 0
    ensures ok ==> received == Clamp(round) && stats == s
    ensures ok && accum ==>
      Added(ws, bs, nn.arch, old(LayersIn(ws, bs, nn.arch)), RoundedLayers(old(Printed(Printing.Layers(nn)))), |ws|)
    ensures ok && !accum ==> LayersIn(ws, bs, nn.arch) == RoundedLayers(old(Printed(Printing.Layers(nn))))
  {
    ghost var layers := Printed(Printing.Layers(nn));
    ghost var start := LayersIn(ws, bs, nn.arch);
    PrintedSized(nn);
    hide LayersRead, LayersIn, HasLayers, RoundedLayers, Printed, Content, Readable, Added, Sized, Clamp, Stats.Fits,
      ReplyText, Printing.Layers;
    var text := Printing.ReplyPayload(round, nn, s);
    ReplyContent(round, layers, s, nn.arch);
    assert LayersIn(ws, bs, nn.arch) == start;
    ok, received, stats := ReadReply(text, ws, bs, nn.arch, accum, memory);
  }

  // ---- requests ----

  lemma {:induction false} RequestKeysOk(round: nat, layers: seq<Layer>, arch: seq<nat>)
    requires Sized(layers, arch)
    ensures Readable(RequestText(round, layers))
  {
    hide Reading.KeyToken, KeyTokens, IntDoc, LayersDoc, KeyOk, Valid, Render, Scanner.ScanToken, Sized;
    var e := RequestEntries(round, layers);
    RequestValid(round, layers, arch);
    ObjectScanned(e);
    KeyTokensCount(e);
    NotPrefix("stats", "round", 0);
    IntEntryOk(e[0], round);
    WeightsEntryOk(e[1], layers);
    forall k | 0 <= k < 2 ensures KeyOk(KeyTokens(e)[k]) {
      KeyTokensAt(e, k);
    }
  }

  lemma {:induction false} RequestContent(round: nat, layers: seq<Layer>, arch: seq<nat>)
    requires Sized(layers, arch)
    ensures var text := RequestText(round, layers);
      && Readable(text) && (Content(text).Some? <==> round != 0)
      && (round != 0 ==>
            var p := Content(text).value;
            && p.round == Clamp(round)
            && HasLayers(p.weights, arch) && LayersRead(p.weights, arch) == RoundedLayers(layers))
  {
    hide Scanner.ScanToken, Deserialize, HasLayers, LayersRead, RoundedLayers, Sized, RequestText, KeyOk, Clamp;
    RequestKeysOk(round, layers, arch);
    RequestArrives(round, layers, arch);
  }

  lemma {:induction false} BuffersGrow(ws: seq<array2<real>>, bs: seq<array2<real>>, arch: seq<nat>, w: array2<real>,
      b: array2<real>, cols: nat)
    requires |arch| > 0 && Buffers(ws, bs, arch) && w != b && w !in ws && w !in bs && b !in ws && b !in bs
    requires w.Length0 == arch[|arch| - 1] && w.Length1 == b.Length1 == cols && b.Length0 == 1
    ensures Buffers(ws + [w], bs + [b], arch + [cols])
  {
    T.DistinctSnoc(ws, w);
    T.DistinctSnoc(bs, b);
    T.DisjointSnoc(ws, w, bs, b);
  }

  /** The buffers that `init_model` allocates. */
  method NewBuffers(arch: seq<nat>) returns (ws: seq<array2<real>>, bs: seq<array2<real>>)
    requires |arch| > 0
    ensures Buffers(ws, bs, arch) && fresh(ws) && fresh(bs)
  {
    ws, bs := [], [];
    for i := 1 to |arch|
      invariant Buffers(ws, bs, arch[..i]) && fresh(ws) && fresh(bs)
    {
      hide Buffers;
      var w, b := new real[arch[i - 1], arch[i]], new real[1, arch[i]];
      BuffersGrow(ws, bs, arch[..i], w, b, arch[i]);
      assert arch[..i + 1] == arch[..i] + [arch[i]];
      ws, bs := ws + [w], bs + [b];
    }
    assert arch[..|arch|] == arch;
  }

  /** `init_model` of the client: reads the weights into buffers of its own and copies them into
      the network. */
  method InitModel(first: Node?, nn: T.NN, ghost cells: seq<Cell>, ghost tokens: seq<Token>)
    requires nn.Valid() && |nn.arch| > 1
    requires first == First(cells, null) && Linked(cells, null) && Tokens(cells) == tokens && HasLayers(tokens, nn.arch)
    modifies nn.ws, nn.bs
    ensures Printing.Layers(nn) == LayersRead(tokens, nn.arch)
  {
    hide Linked, Tokens, Foot, LayersRead, HasLayers, LayersIn, Printing.Layers, Buffers, First;
    assert allocated(Foot(cells));
    var ws, bs := NewBuffers(nn.arch);
    FreshApart(nn, ws, bs);
    ParseWeights(first, ws, bs, nn.arch, false, cells, tokens);
    InsertWeights(nn, ws, bs);
  }

  lemma {:induction false} FreshApart(nn: T.NN, ws: seq<array2<real>>, bs: seq<array2<real>>)
    requires forall m :: m in nn.ws || m in nn.bs ==> m !in ws && m !in bs
    ensures T.Disjoint(nn.ws, ws) && T.Disjoint(nn.ws, bs) && T.Disjoint(nn.bs, ws) && T.Disjoint(nn.bs, bs)
  {
    T.DisjointIfNotIn(nn.ws, ws);
    T.DisjointIfNotIn(nn.ws, bs);
    T.DisjointIfNotIn(nn.bs, ws);
    T.DisjointIfNotIn(nn.bs, bs);
  }

  /** What a client does with the text of a request before it trains. The source does not look at
      the result of `deserialize_training_data`, so the text has to be accepted. */
  method ReadRequest(text: string, nn: T.NN, memory: Memory) returns (round: nat)
    requires nn.Valid() && |nn.arch| > 1 && Readable(text) && Content(text).Some?
    requires HasLayers(Content(text).value.weights, nn.arch)
    modifies nn.ws, nn.bs, memory`live
    ensures round == Content(text).value.round
    ensures Printing.Layers(nn) == LayersRead(Content(text).value.weights, nn.arch)
  {
    hide Linked, Tokens, Foot, Apart, LayersRead, HasLayers, KeyOk, Deserialize, Scanner.ScanToken, Printing.Layers;
    var ok, json, weights, stats;
    ghost var cells, below;
    ok, json, round, weights, stats, cells, below := DeserializeTrainingData(text, memory);
    NetworkNotNodes(cells, nn);
    assert allocated(Foot(cells));
    InitModel(weights, nn, below, Tokens(below));
    FreeTokens(memory, json, cells);
  }

  lemma {:induction false} NetworkNotNodes(cells: seq<Cell>, nn: T.NN)
    ensures forall n: Node, m: array2<real> :: n in Foot(cells) && (m in nn.ws || m in nn.bs) ==> (n as object) != m
  {
  }

  /** One request, all the way: the server prints its model, and the client that receives it trains
      from what was printed, rounded to six decimals. */
  method Broadcast(round: nat, model: T.NN, nn: T.NN, memory: Memory) returns (received: nat)
    requires round != 0 && model.Shaped() && |model.arch| > 1
    requires forall l :: 0 <= l < |model.ws| ==> model.ws[l].Length0 > 0
    requires nn.Valid() && nn.arch == model.arch
    modifies nn.ws, nn.bs, memory`live
    ensures received == Clamp(round)
    ensures Printing.Layers(nn) == RoundedLayers(old(Printed(Printing.Layers(model))))
  {
    ghost var layers := Printed(Printing.Layers(model));
    PrintedSized(model);
    hide LayersRead, HasLayers, RoundedLayers, Printed, Content, Readable, Sized, Clamp, RequestText, Printing.Layers;
    var text := Printing.RequestPayload(round, model);
    RequestContent(round, layers, model.arch);
    received := ReadRequest(text, nn, memory);
  }
}
