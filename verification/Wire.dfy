/** The payloads that server and clients exchange: their text, and what is read back from the
    tokens of it. */
module Wire {
  import opened Options
  import opened Buffers
  import opened Json
  import opened Scanner
  import opened Grammar
  import opened Decimal
  import Reading

  /** One layer: the rows of its weight matrix, and its bias row. */
  datatype Layer = Layer(w: seq<seq<real>>, b: seq<real>)

  predicate LayerSized(layer: Layer, rows: nat, cols: nat)
  {
    |layer.w| == rows && (forall j :: 0 <= j < rows ==> |layer.w[j]| == cols) && |layer.b| == cols
  }

  /** `arch` lists the sizes of the layers, inputs first. */
  predicate Sized(layers: seq<Layer>, arch: seq<nat>)
  {
    |layers| + 1 == |arch| && forall l :: 0 <= l < |layers| ==> LayerSized(layers[l], arch[l], arch[l + 1])
  }

  // ---- documents ----

  function Plain(d: Doc): Item
  {
    Item("", d, "")
  }

  function RealDoc(x: real): Doc
  {
    DNumber(x < 0.0, Whole(x), Some(Fraction(x)), None)
  }

  function IntDoc(n: int): Doc
  {
    DNumber(n < 0, Digits(Unsign(n)), None, None)
  }

  function RowItems(row: seq<real>): (items: seq<Item>)
    ensures |items| == |row|
  {
    seq(|row|, j requires 0 <= j < |row| => Plain(RealDoc(row[j])))
  }

  function RowDoc(row: seq<real>): Doc
  {
    DArray("", RowItems(row))
  }

  function MatrixItems(rows: seq<seq<real>>): (items: seq<Item>)
    ensures |items| == |rows|
  {
    seq(|rows|, j requires 0 <= j < |rows| => Plain(RowDoc(rows[j])))
  }

  function MatrixDoc(rows: seq<seq<real>>): Doc
  {
    DArray("", MatrixItems(rows))
  }

  /** Matrix and bias row in turn. */
  function LayerItems(layers: seq<Layer>): (items: seq<Item>)
    ensures |items| == 2 * |layers|
  {
    seq(2 * |layers|, k requires 0 <= k < 2 * |layers| =>
      Plain(if k % 2 == 0 then MatrixDoc(layers[k / 2].w) else RowDoc(layers[k / 2].b)))
  }

  function LayersDoc(layers: seq<Layer>): Doc
  {
    DArray("", LayerItems(layers))
  }

  /** What `weights_to_string` prints: in place of the biases, the first elements of the
      weight matrix (common.h:66, 68). */
  function Printed(layers: seq<Layer>): (p: seq<Layer>)
    requires forall l :: 0 <= l < |layers| ==> |layers[l].w| > 0
    ensures |p| == |layers|
  {
    seq(|layers|, l requires 0 <= l < |layers| => Layer(layers[l].w, layers[l].w[0]))
  }

  // ---- what is read from the tokens ----

  function NumberOf(t: Token): real
  {
    ReadReal(if t.text.Some? then t.text.value else "")
  }

  predicate HasRow(t: Token, cols: nat)
  {
    |t.child| >= cols && forall k :: 0 <= k < cols ==> t.child[k].text.Some?
  }

  predicate HasMatrix(t: Token, rows: nat, cols: nat)
  {
    |t.child| >= rows && forall j :: 0 <= j < rows ==> HasRow(t.child[j], cols)
  }

  /** Enough tokens for every element that `parse_weights_json` visits. */
  predicate HasLayers(chain: seq<Token>, arch: seq<nat>)
    requires |arch| > 0
  {
    && |chain| >= 2 * (|arch| - 1)
    && (forall l :: 0 <= l < |arch| - 1 ==>
          HasMatrix(chain[2 * l], arch[l], arch[l + 1]) && HasRow(chain[2 * l + 1], arch[l + 1]))
  }

  function RowRead(t: Token, cols: nat): (row: seq<real>)
    requires HasRow(t, cols)
    ensures |row| == cols
  {
    seq(cols, k requires 0 <= k < cols => NumberOf(t.child[k]))
  }

  function MatrixRead(t: Token, rows: nat, cols: nat): (w: seq<seq<real>>)
    requires HasMatrix(t, rows, cols)
    ensures |w| == rows
  {
    seq(rows, j requires 0 <= j < rows => RowRead(t.child[j], cols))
  }

  function LayersRead(chain: seq<Token>, arch: seq<nat>): (layers: seq<Layer>)
    requires |arch| > 0 && HasLayers(chain, arch)
    ensures |layers| == |arch| - 1
  {
    seq(|arch| - 1, l requires 0 <= l < |arch| - 1 =>
      Layer(MatrixRead(chain[2 * l], arch[l], arch[l + 1]), RowRead(chain[2 * l + 1], arch[l + 1])))
  }

  // ---- there and back: weights ----

  function RoundedRow(row: seq<real>): (r: seq<real>)
    ensures |r| == |row|
  {
    seq(|row|, k requires 0 <= k < |row| => Rounded(row[k]))
  }

  function RoundedRows(rows: seq<seq<real>>): (r: seq<seq<real>>)
    ensures |r| == |rows|
  {
    seq(|rows|, j requires 0 <= j < |rows| => RoundedRow(rows[j]))
  }

  function RoundedLayers(layers: seq<Layer>): (r: seq<Layer>)
    ensures |r| == |layers|
  {
    seq(|layers|, l requires 0 <= l < |layers| => Layer(RoundedRows(layers[l].w), RoundedRow(layers[l].b)))
  }

  /** The tokens below an array without objects, one an element. */
  lemma {:induction false} FlatItems(items: seq<Item>)
    requires forall k :: 0 <= k < |items| ==> !items[k].doc.DObject?
    ensures var chain := EncodeItems(ItemValues(items));
      |chain| == |items| && forall k :: 0 <= k < |items| ==> chain[k] == Encode(Meaning(items[k].doc)).head
  {
    hide Meaning, Encode;
    if items != [] {
      var v := Meaning(items[0].doc);
      assert !v.Object? by { MeaningKind(items[0].doc); }
      EncodeHead(v);
      FlatItems(items[1..]);
      assert ItemValues(items)[1..] == ItemValues(items[1..]);
      if |items| == 1 {
        assert EncodeItems(ItemValues(items)) == [Encode(v).head] + [];
      }
    }
  }

  lemma {:induction false} MeaningKind(d: Doc)
    ensures Meaning(d).Object? <==> d.DObject?
  {
  }

  lemma {:induction false} RealRead(x: real)
    ensures var t := Encode(Meaning(RealDoc(x))).head; NumberOf(t) == Rounded(x) && t.text.Some? && Valid(RealDoc(x))
  {
    ReadPrintedReal(x);
  }

  lemma {:induction false} RowReadBack(row: seq<real>)
    ensures var t := Encode(Meaning(RowDoc(row))).head;
      HasRow(t, |row|) && RowRead(t, |row|) == RoundedRow(row) && Valid(RowDoc(row))
  {
    hide NumberOf, Rounded, RealDoc;
    var items := RowItems(row);
    assert forall k :: 0 <= k < |items| ==> !items[k].doc.DObject? by { RealsFlat(row); }
    FlatItems(items);
    forall k | 0 <= k < |row|
      ensures NumberOf(Encode(Meaning(items[k].doc)).head) == Rounded(row[k]) && ValidItem(items[k])
      ensures Encode(Meaning(items[k].doc)).head.text.Some?
    {
      RealRead(row[k]);
    }
    AllValid(items);
  }

  lemma {:induction false} RealsFlat(row: seq<real>)
    ensures forall k :: 0 <= k < |row| ==> RowItems(row)[k].doc.DNumber?
  {
  }

  lemma {:induction false} AllValid(items: seq<Item>)
    requires forall k :: 0 <= k < |items| ==> ValidItem(items[k])
    ensures ValidItems(items)
  {
    hide Valid;
    if items != [] {
      AllValid(items[1..]);
    }
  }

  lemma {:induction false} MatrixReadBack(rows: seq<seq<real>>, cols: nat)
    requires forall j :: 0 <= j < |rows| ==> |rows[j]| == cols
    ensures var t := Encode(Meaning(MatrixDoc(rows))).head;
      HasMatrix(t, |rows|, cols) && MatrixRead(t, |rows|, cols) == RoundedRows(rows) && Valid(MatrixDoc(rows))
  {
    hide RowRead, RowDoc, RoundedRow;
    var items := MatrixItems(rows);
    assert forall k :: 0 <= k < |items| ==> !items[k].doc.DObject? by { RowsFlat(rows); }
    FlatItems(items);
    forall j | 0 <= j < |rows|
      ensures var t := Encode(Meaning(items[j].doc)).head;
        HasRow(t, cols) && RowRead(t, cols) == RoundedRow(rows[j]) && ValidItem(items[j])
    {
      RowReadBack(rows[j]);
    }
    AllValid(items);
  }

  lemma {:induction false} RowsFlat(rows: seq<seq<real>>)
    ensures forall k :: 0 <= k < |rows| ==> MatrixItems(rows)[k].doc.DArray?
  {
  }

  lemma {:induction false} LayersFlat(layers: seq<Layer>)
    ensures forall k :: 0 <= k < |LayerItems(layers)| ==> LayerItems(layers)[k].doc.DArray?
  {
  }

  /** The chain below the weights of a payload. */
  function LayerChain(layers: seq<Layer>): seq<Token>
  {
    EncodeItems(ItemValues(LayerItems(layers)))
  }

  lemma {:induction false} LayerAt(layers: seq<Layer>, l: nat)
    requires l < |layers|
    ensures LayerItems(layers)[2 * l] == Plain(MatrixDoc(layers[l].w))
    ensures LayerItems(layers)[2 * l + 1] == Plain(RowDoc(layers[l].b))
  {
    hide MatrixDoc, RowDoc;
  }

  lemma {:induction false} LayersValid(layers: seq<Layer>, arch: seq<nat>)
    requires Sized(layers, arch)
    ensures Valid(LayersDoc(layers))
  {
    hide MatrixDoc, RowDoc, LayerItems;
    var items := LayerItems(layers);
    forall k | 0 <= k < |items| ensures ValidItem(items[k]) {
      var l := k / 2;
      LayerAt(layers, l);
      MatrixReadBack(layers[l].w, arch[l + 1]);
      RowReadBack(layers[l].b);
    }
    AllValid(items);
  }

  /** The reader of the tokens gets every printed number, rounded to six decimals, in its place. */
  lemma {:induction false} LayersReadBack(layers: seq<Layer>, arch: seq<nat>)
    requires Sized(layers, arch)
    ensures HasLayers(LayerChain(layers), arch) && LayersRead(LayerChain(layers), arch) == RoundedLayers(layers)
  {
    hide MatrixDoc, RowDoc, LayerItems, MatrixRead, RowRead, HasMatrix, HasRow, RoundedRows, RoundedRow;
    LayersFlat(layers);
    FlatItems(LayerItems(layers));
    var chain := LayerChain(layers);
    forall l | 0 <= l < |layers|
      ensures HasMatrix(chain[2 * l], arch[l], arch[l + 1]) && HasRow(chain[2 * l + 1], arch[l + 1])
      ensures MatrixRead(chain[2 * l], arch[l], arch[l + 1]) == RoundedRows(layers[l].w)
      ensures RowRead(chain[2 * l + 1], arch[l + 1]) == RoundedRow(layers[l].b)
    {
      LayerAt(layers, l);
      MatrixReadBack(layers[l].w, arch[l + 1]);
      RowReadBack(layers[l].b);
    }
  }

  // ---- which networks survive ----

  predicate RowExact(row: seq<real>)
  {
    forall k :: 0 <= k < |row| ==> SixDecimals(row[k])
  }

  predicate RowsExact(rows: seq<seq<real>>)
  {
    forall j :: 0 <= j < |rows| ==> RowExact(rows[j])
  }

  lemma {:induction false} RowSurvives(row: seq<real>)
    ensures RoundedRow(row) == row <==> RowExact(row)
  {
    hide Rounded, SixDecimals;
    forall k | 0 <= k < |row| ensures RoundedRow(row)[k] == row[k] <==> SixDecimals(row[k]) {
      RoundedExact(row[k]);
    }
  }

  lemma {:induction false} RowsSurvive(rows: seq<seq<real>>)
    ensures RoundedRows(rows) == rows <==> RowsExact(rows)
  {
    hide RoundedRow, RowExact;
    forall j | 0 <= j < |rows| ensures RoundedRows(rows)[j] == rows[j] <==> RowExact(rows[j]) {
      RowSurvives(rows[j]);
    }
  }

  predicate LayerExact(layer: Layer)
  {
    RowsExact(layer.w) && RowExact(layer.b)
  }

  /** With the biases in their place, a network survives exactly when its numbers have at most
      six decimals. */
  lemma {:induction false} NetworkSurvives(layers: seq<Layer>)
    ensures RoundedLayers(layers) == layers <==> forall l :: 0 <= l < |layers| ==> LayerExact(layers[l])
  {
    hide RoundedRow, RoundedRows, RowExact, RowsExact;
    forall l | 0 <= l < |layers| ensures RoundedLayers(layers)[l] == layers[l] <==> LayerExact(layers[l]) {
      RowsSurvive(layers[l].w);
      RowSurvives(layers[l].b);
    }
  }

  /** As printed, it also has to have biases that repeat the first row of the weights. */
  lemma {:induction false} PrintedSurvives(layers: seq<Layer>)
    requires forall l :: 0 <= l < |layers| ==> |layers[l].w| > 0
    ensures RoundedLayers(Printed(layers)) == layers <==>
      forall l :: 0 <= l < |layers| ==> LayerExact(layers[l]) && layers[l].b == layers[l].w[0]
  {
    hide RoundedRow, RoundedRows, RowExact;
    forall l | 0 <= l < |layers|
      ensures RoundedLayers(Printed(layers))[l] == layers[l] <==> LayerExact(layers[l]) && layers[l].b == layers[l].w[0]
    {
      var w := layers[l].w;
      RowsSurvive(w);
      RowSurvives(w[0]);
      RowSurvives(layers[l].b);
      if RowsExact(w) {
        assert RowExact(w[0]);
      }
    }
  }

  // ---- payloads ----

  /** Counters of 32 bits, and the time the training took. */
  datatype Stats = Stats(sent: nat, received: nat, rexmit: nat, dropped: nat, time: int) {
    predicate Fits()
    {
      && sent < TWO_32 && received < TWO_32 && rexmit < TWO_32 && dropped < TWO_32
      && -LONG_MAX - 1 <= time <= LONG_MAX
    }
  }

  const TWO_32: nat := 0x1_0000_0000
  const TWO_64: nat := 0x1_0000_0000_0000_0000
  const LONG_MAX: int := 0x7fff_ffff_ffff_ffff

  /** A 32-bit counter as %d prints it. */
  function AsSigned(u: nat): int
  {
    if u < TWO_32 / 2 then u else u - TWO_32
  }

  /** A 32-bit `int` that holds `n` has the bits of the counter `u`. */
  predicate SameBits(u: nat, n: int)
  {
    -0x8000_0000 <= n < 0x8000_0000 && (n == u || n == u - 0x1_0000_0000)
  }

  lemma {:induction false} AsSignedIs(u: nat, n: int)
    requires u < 0x1_0000_0000
    ensures n == AsSigned(u) <==> SameBits(u, n)
    ensures -0x8000_0000 <= AsSigned(u) < 0x8000_0000
    ensures u < 0x8000_0000 ==> AsSigned(u) == u
  {
  }

  /** What `atoi` leaves in a 32-bit counter. */
  function AsUnsigned(n: int): nat
  {
    n % TWO_32
  }

  /** `atol` and `strtoll` stop at the ends of their range. */
  function Clamp(n: int): int
  {
    if n > LONG_MAX then LONG_MAX else if n < -LONG_MAX - 1 then -LONG_MAX - 1 else n
  }

  /** Whatever number stands in the text: the one of 64 bits nearest to it is taken, and of that the
      counter keeps the lowest 32 bits. */
  lemma {:induction false} CounterKept(n: int, m: int)
    requires -0x8000_0000_0000_0000 <= m < 0x8000_0000_0000_0000
    ensures -0x8000_0000_0000_0000 <= Clamp(n) < 0x8000_0000_0000_0000
    ensures n <= Clamp(n) <= m || m <= Clamp(n) <= n || Clamp(n) == n
    ensures AsUnsigned(n) < 0x1_0000_0000 && (n - AsUnsigned(n)) % 0x1_0000_0000 == 0
  {
  }

  function Field(pre: string, key: string, d: Doc, post: string): Entry
  {
    Entry(pre, key, "", " ", d, post)
  }

  function StatsEntries(s: Stats): seq<Entry>
  {
    [Field("", "bytes_sent", IntDoc(AsSigned(s.sent)), ""),
     Field(" ", "bytes_recv", IntDoc(AsSigned(s.received)), ""),
     Field(" ", "seg_dropped", IntDoc(AsSigned(s.dropped)), ""),
     Field(" ", "seg_rexmit", IntDoc(AsSigned(s.rexmit)), " ")]
  }

  /** What `send_weights` sends, the network being printed as `layers`. */
  function ReplyEntries(round: nat, layers: seq<Layer>, s: Stats): seq<Entry>
  {
    [Field("", "round", IntDoc(round), ""),
     Field(" ", "training_time", IntDoc(s.time), ""),
     Field(" ", "weights", LayersDoc(layers), ""),
     Field(" ", "stats", DObject(" ", StatsEntries(s)), "")]
  }

  /** What the server sends to open a round. */
  function RequestEntries(round: nat, layers: seq<Layer>): seq<Entry>
  {
    [Field("", "round", IntDoc(round), ""), Field(" ", "weights", LayersDoc(layers), "")]
  }

  // What is read back

  /** `weights` is the chain below the weights' token. */
  datatype Payload = Payload(round: nat, weights: seq<Token>, stats: Stats)

  const BLANK := Payload(0, [], Stats(0, 0, 0, 0, 0))

  function TextOf(t: Token): string
  {
    if t.text.Some? then t.text.value else ""
  }

  /** The text of a key's value. */
  function ValueText(key: Token): string
  {
    if key.child == [] then "" else TextOf(key.child[0])
  }

  /** Which counter a key stands for is told by how its name starts. */
  function SetStat(name: string, n: nat, s: Stats): Stats
  {
    if "bytes_sent" <= name then s.(sent := n)
    else if "bytes_recv" <= name then s.(received := n)
    else if "seg_dropped" <= name then s.(dropped := n)
    else if "seg_rexmit" <= name then s.(rexmit := n)
    else s
  }

  function ReadStat(key: Token, s: Stats): Stats
  {
    SetStat(TextOf(key), AsUnsigned(Clamp(ReadInt(ValueText(key)))), s)
  }

  function ReadStats(keys: seq<Token>, s: Stats): Stats
  {
    if keys == [] then s else ReadStats(keys[1..], ReadStat(keys[0], s))
  }

  /** One key of the payload; keys are told by how their names start. A round of 0 is refused. */
  function ReadKey(key: Token, p: Payload): Option<Payload>
  {
    var name := TextOf(key);
    if "round" <= name then
      var n := Clamp(ReadInt(ValueText(key))) % TWO_64;
      if n == 0 then None else Some(p.(round := n))
    else if "weights" <= name then Some(p.(weights := if key.child == [] then [] else key.child[0].child))
    else if "training_time" <= name then Some(p.(stats := p.stats.(time := Clamp(ReadInt(ValueText(key))))))
    else if "stats" <= name then
      Some(p.(stats := ReadStats(if key.child == [] then [] else key.child[1..], p.stats)))
    else Some(p)
  }

  /** `deserialize_training_data`, on the keys of the payload. */
  function Deserialize(keys: seq<Token>, p: Payload): Option<Payload>
  {
    if keys == [] then Some(p)
    else
      match ReadKey(keys[0], p)
      case None => None
      case Some(q) => Deserialize(keys[1..], q)
  }

  // ---- there and back: payloads ----

  lemma {:induction false} NotPrefix(a: string, b: string, k: nat)
    requires k < |a| && k < |b| && a[k] != b[k]
    ensures !(a <= b)
  {
  }

  /** How a name starts decides which key it is: what follows does not matter, and keys that start
      otherwise change nothing. */
  lemma {:induction false} StartDecides(more: string, child: seq<Token>, p: Payload)
    ensures ReadKey(Key("round" + more, child), p) == ReadKey(Key("round", child), p)
    ensures ReadKey(Key("weights" + more, child), p) == ReadKey(Key("weights", child), p)
    ensures ReadKey(Key("training_time" + more, child), p) == ReadKey(Key("training_time", child), p)
    ensures ReadKey(Key("stats" + more, child), p) == ReadKey(Key("stats", child), p)
    ensures !("round" <= more || "weights" <= more || "training_time" <= more || "stats" <= more) ==>
      ReadKey(Key(more, child), p) == Some(p)
  {
    hide Clamp, ReadInt, ReadStats, ReadKey;
    RoundStart(more, child, p);
    StartsApart("weights" + more, "training_time" + more, "stats" + more);
    StartsApart("weights", "training_time", "stats");
    LaterStart("weights" + more, "weights", child, p);
    LaterStart("training_time" + more, "training_time", child, p);
    LaterStart("stats" + more, "stats", child, p);
    if !("round" <= more || "weights" <= more || "training_time" <= more || "stats" <= more) {
      OtherStart(more, child, p);
    }
  }

  lemma {:induction false} RoundStart(more: string, child: seq<Token>, p: Payload)
    ensures ReadKey(Key("round" + more, child), p) == ReadKey(Key("round", child), p)
  {
    hide Clamp, ReadInt;
    assert "round" <= "round" + more;
  }

  lemma {:induction false} LaterStart(name: string, other: string, child: seq<Token>, p: Payload)
    requires !("round" <= name) && !("round" <= other)
    requires "weights" <= name <==> "weights" <= other
    requires "training_time" <= name <==> "training_time" <= other
    requires "stats" <= name <==> "stats" <= other
    ensures ReadKey(Key(name, child), p) == ReadKey(Key(other, child), p)
  {
    hide Clamp, ReadInt, ReadStats;
  }

  lemma {:induction false} OtherStart(name: string, child: seq<Token>, p: Payload)
    requires !("round" <= name || "weights" <= name || "training_time" <= name || "stats" <= name)
    ensures ReadKey(Key(name, child), p) == Some(p)
  {
  }

  function Key(name: string, child: seq<Token>): Token
  {
    Token(STRING, Some(name), child)
  }

  lemma {:induction false} StartsApart(w: string, t: string, s: string)
    requires "weights" <= w && "training_time" <= t && "stats" <= s
    ensures !("round" <= w) && !("round" <= t) && !("weights" <= t)
    ensures !("round" <= s) && !("weights" <= s) && !("training_time" <= s)
  {
    NotPrefix("round", w, 0);
    NotPrefix("round", t, 0);
    NotPrefix("weights", t, 0);
    NotPrefix("round", s, 0);
    NotPrefix("weights", s, 0);
    NotPrefix("training_time", s, 0);
  }

  /** The same for the keys of the statistics. */
  lemma {:induction false} StatStartDecides(more: string, n: nat, s: Stats)
    ensures SetStat("bytes_sent" + more, n, s) == s.(sent := n)
    ensures SetStat("bytes_recv" + more, n, s) == s.(received := n)
    ensures SetStat("seg_dropped" + more, n, s) == s.(dropped := n)
    ensures SetStat("seg_rexmit" + more, n, s) == s.(rexmit := n)
    ensures !("bytes_sent" <= more || "bytes_recv" <= more || "seg_dropped" <= more || "seg_rexmit" <= more) ==>
      SetStat(more, n, s) == s
  {
    NotPrefix("bytes_sent", "bytes_recv" + more, 6);
    NotPrefix("bytes_sent", "seg_dropped" + more, 0);
    NotPrefix("bytes_sent", "seg_rexmit" + more, 0);
    NotPrefix("bytes_recv", "seg_dropped" + more, 0);
    NotPrefix("bytes_recv", "seg_rexmit" + more, 0);
    NotPrefix("seg_dropped", "seg_rexmit" + more, 4);
    assert "bytes_sent" <= "bytes_sent" + more && "bytes_recv" <= "bytes_recv" + more;
    assert "seg_dropped" <= "seg_dropped" + more && "seg_rexmit" <= "seg_rexmit" + more;
  }

  lemma {:induction false} IntRead(e: Entry, n: int)
    requires e.doc == IntDoc(n)
    ensures ReadInt(ValueText(Reading.KeyToken(e))) == n && TextOf(Reading.KeyToken(e)) == e.key && Valid(e.doc)
  {
    ReadPrintedInt(n);
  }

  lemma {:induction false} Wraps(n: nat)
    requires n < TWO_32
    ensures AsUnsigned(Clamp(AsSigned(n))) == n
  {
  }

  lemma {:induction false} SetStatNamed(n: nat, s: Stats)
    ensures SetStat("bytes_sent", n, s) == s.(sent := n)
    ensures SetStat("bytes_recv", n, s) == s.(received := n)
    ensures SetStat("seg_dropped", n, s) == s.(dropped := n)
    ensures SetStat("seg_rexmit", n, s) == s.(rexmit := n)
  {
    NotPrefix("bytes_sent", "bytes_recv", 6);
    NotPrefix("bytes_sent", "seg_dropped", 0);
    NotPrefix("bytes_sent", "seg_rexmit", 0);
    NotPrefix("bytes_recv", "seg_dropped", 0);
    NotPrefix("bytes_recv", "seg_rexmit", 0);
    NotPrefix("seg_dropped", "seg_rexmit", 4);
  }

  lemma {:induction false} StatRead(e: Entry, n: nat, s: Stats)
    requires e.doc == IntDoc(AsSigned(n)) && n < TWO_32
    ensures ReadStat(Reading.KeyToken(e), s) == SetStat(e.key, n, s)
  {
    hide ReadInt, ValueText, Reading.KeyToken, IntDoc, TextOf, SetStat, AsUnsigned, Clamp, AsSigned;
    IntRead(e, AsSigned(n));
    Wraps(n);
  }

  /** The tokens of an object's keys. */
  function KeyTokens(entries: seq<Entry>): seq<Token>
  {
    EncodeMembers(EntryMembers(entries))
  }

  lemma {:induction false} KeyTokensSplit(entries: seq<Entry>)
    ensures entries == [] ==> KeyTokens(entries) == []
    ensures entries != [] ==> KeyTokens(entries) == [Reading.KeyToken(entries[0])] + KeyTokens(entries[1..])
  {
    hide Reading.KeyToken;
    if entries != [] {
      Reading.MembersSplit(entries, []);
      assert [] + KeyTokens(entries) == KeyTokens(entries);
      assert [] + [Reading.KeyToken(entries[0])] == [Reading.KeyToken(entries[0])];
    }
  }

  lemma {:induction false} ReadStatsCons(e: Entry, rest: seq<Entry>, s: Stats)
    ensures ReadStats(KeyTokens([e] + rest), s) == ReadStats(KeyTokens(rest), ReadStat(Reading.KeyToken(e), s))
  {
    hide KeyTokens, ReadStat;
    assert ([e] + rest)[1..] == rest;
    KeyTokensSplit([e] + rest);
    assert ([Reading.KeyToken(e)] + KeyTokens(rest))[1..] == KeyTokens(rest);
  }

  lemma {:induction false} StatsReadBack(s: Stats, blank: Stats)
    requires s.Fits()
    ensures ReadStats(KeyTokens(StatsEntries(s)), blank) == s.(time := blank.time)
  {
    hide KeyTokens, ReadStat, IntDoc, SetStat;
    var e := StatsEntries(s);
    assert e == [e[0]] + ([e[1]] + ([e[2]] + ([e[3]] + [])));
    ReadStatsCons(e[0], [e[1]] + ([e[2]] + ([e[3]] + [])), blank);
    StatRead(e[0], s.sent, blank);
    SetStatNamed(s.sent, blank);
    var s1 := blank.(sent := s.sent);
    ReadStatsCons(e[1], [e[2]] + ([e[3]] + []), s1);
    StatRead(e[1], s.received, s1);
    SetStatNamed(s.received, s1);
    var s2 := s1.(received := s.received);
    ReadStatsCons(e[2], [e[3]] + [], s2);
    StatRead(e[2], s.dropped, s2);
    SetStatNamed(s.dropped, s2);
    var s3 := s2.(dropped := s.dropped);
    ReadStatsCons(e[3], [], s3);
    StatRead(e[3], s.rexmit, s3);
    SetStatNamed(s.rexmit, s3);
    KeyTokensSplit([]);
  }

  lemma {:induction false} DeserializeCons(e: Entry, rest: seq<Entry>, p: Payload)
    ensures Deserialize(KeyTokens([e] + rest), p) ==
      match ReadKey(Reading.KeyToken(e), p)
      case None => None
      case Some(q) => Deserialize(KeyTokens(rest), q)
  {
    hide KeyTokens, ReadKey;
    assert ([e] + rest)[1..] == rest;
    KeyTokensSplit([e] + rest);
    assert ([Reading.KeyToken(e)] + KeyTokens(rest))[1..] == KeyTokens(rest);
  }

  lemma {:induction false} RoundKey(e: Entry, round: nat, p: Payload)
    requires e.key == "round" && e.doc == IntDoc(round)
    ensures ReadKey(Reading.KeyToken(e), p) ==
      if round == 0 then None else Some(p.(round := Clamp(round)))
  {
    hide Reading.KeyToken, ReadInt, ValueText, TextOf, IntDoc;
    IntRead(e, round);
  }

  lemma {:induction false} TimeKey(e: Entry, time: int, p: Payload)
    requires e.key == "training_time" && e.doc == IntDoc(time) && Clamp(time) == time
    ensures ReadKey(Reading.KeyToken(e), p) == Some(p.(stats := p.stats.(time := time)))
  {
    hide Reading.KeyToken, ReadInt, ValueText, TextOf, IntDoc, Clamp;
    IntRead(e, time);
    NotPrefix("round", "training_time", 0);
    NotPrefix("weights", "training_time", 0);
  }

  lemma {:induction false} ArrayKey(e: Entry, items: seq<Item>)
    requires e.doc == DArray("", items)
    ensures var t := Reading.KeyToken(e);
      TextOf(t) == e.key && t.child != [] && t.child[0].child == EncodeItems(ItemValues(items))
  {
    hide ItemValues, EncodeItems;
  }

  lemma {:induction false} WeightsKey(e: Entry, layers: seq<Layer>, p: Payload)
    requires e.key == "weights" && e.doc == LayersDoc(layers)
    ensures ReadKey(Reading.KeyToken(e), p) == Some(p.(weights := LayerChain(layers)))
  {
    hide Reading.KeyToken, TextOf, LayerItems, ItemValues, EncodeItems;
    ArrayKey(e, LayerItems(layers));
    NotPrefix("round", "weights", 0);
  }

  lemma {:induction false} ObjectKey(e: Entry, open: string, entries: seq<Entry>)
    requires e.doc == DObject(open, entries)
    ensures var t := Reading.KeyToken(e);
      TextOf(t) == e.key && t.child != [] && t.child[1..] == KeyTokens(entries)
  {
    hide EntryMembers, EncodeMembers;
  }

  lemma {:induction false} StatsKey(e: Entry, s: Stats, p: Payload)
    requires e.key == "stats" && e.doc == DObject(" ", StatsEntries(s)) && s.Fits()
    ensures ReadKey(Reading.KeyToken(e), p) == Some(p.(stats := s.(time := p.stats.time)))
  {
    hide Reading.KeyToken, TextOf, StatsEntries, KeyTokens, ReadStats;
    ObjectKey(e, " ", StatsEntries(s));
    StatsReadBack(s, p.stats);
    NotPrefix("round", "stats", 0);
    NotPrefix("weights", "stats", 0);
    NotPrefix("training_time", "stats", 0);
  }

  /** Reading the tokens of a reply gives back its round, its statistics and the chain of its
      weights. A round of 0 is refused, and one beyond the range of `long` is cut short. */
  lemma {:induction false} ReplyReadBack(round: nat, layers: seq<Layer>, s: Stats)
    requires s.Fits()
    ensures Deserialize(KeyTokens(ReplyEntries(round, layers, s)), BLANK) ==
      if round == 0 then None else Some(Payload(Clamp(round), LayerChain(layers), s))
  {
    hide KeyTokens, ReadKey, IntDoc, LayersDoc, StatsEntries, LayerChain;
    var e := ReplyEntries(round, layers, s);
    assert e == [e[0]] + ([e[1]] + ([e[2]] + ([e[3]] + [])));
    DeserializeCons(e[0], [e[1]] + ([e[2]] + ([e[3]] + [])), BLANK);
    RoundKey(e[0], round, BLANK);
    if round != 0 {
      var p1 := BLANK.(round := Clamp(round));
      DeserializeCons(e[1], [e[2]] + ([e[3]] + []), p1);
      TimeKey(e[1], s.time, p1);
      var p2 := p1.(stats := p1.stats.(time := s.time));
      DeserializeCons(e[2], [e[3]] + [], p2);
      WeightsKey(e[2], layers, p2);
      var p3 := p2.(weights := LayerChain(layers));
      DeserializeCons(e[3], [], p3);
      StatsKey(e[3], s, p3);
      KeyTokensSplit([]);
    }
  }

  lemma {:induction false} RequestReadBack(round: nat, layers: seq<Layer>)
    ensures Deserialize(KeyTokens(RequestEntries(round, layers)), BLANK) ==
      if round == 0 then None else Some(Payload(Clamp(round), LayerChain(layers), BLANK.stats))
  {
    hide KeyTokens, ReadKey, IntDoc, LayersDoc, LayerChain;
    var e := RequestEntries(round, layers);
    assert e == [e[0]] + ([e[1]] + []);
    DeserializeCons(e[0], [e[1]] + [], BLANK);
    RoundKey(e[0], round, BLANK);
    if round != 0 {
      var p1 := BLANK.(round := Clamp(round));
      DeserializeCons(e[1], [], p1);
      WeightsKey(e[1], layers, p1);
      KeyTokensSplit([]);
    }
  }

  // ---- the whole way ----

  function ReplyText(round: nat, layers: seq<Layer>, s: Stats): string
  {
    Render(DObject("", ReplyEntries(round, layers, s)))
  }

  function RequestText(round: nat, layers: seq<Layer>): string
  {
    Render(DObject("", RequestEntries(round, layers)))
  }

  lemma {:induction false} PlainBody(s: string)
    requires forall k :: 0 <= k < |s| ==> s[k] != '\\' && s[k] != '"' && s[k] != NUL
    ensures StringBody(s)
  {
    if s != "" {
      PlainBody(s[1..]);
    }
  }

  lemma {:induction false} FieldValid(pre: string, key: string, d: Doc, post: string)
    requires AllSpace(pre) && AllSpace(post) && Valid(d)
    requires forall k :: 0 <= k < |key| ==> key[k] != '\\' && key[k] != '"' && key[k] != NUL
    ensures ValidEntry(Field(pre, key, d, post))
  {
    PlainBody(key);
  }

  lemma {:induction false} AllEntriesValid(entries: seq<Entry>)
    requires forall k :: 0 <= k < |entries| ==> ValidEntry(entries[k])
    ensures ValidEntries(entries)
  {
    hide Valid, AllSpace, StringBody;
    if entries != [] {
      AllEntriesValid(entries[1..]);
    }
  }

  lemma {:induction false} IntValid(n: int)
    ensures Valid(IntDoc(n))
  {
    ReadPrintedInt(n);
  }

  lemma {:induction false} IntFieldValid(pre: string, key: string, n: int, post: string)
    requires AllSpace(pre) && AllSpace(post)
    requires forall k :: 0 <= k < |key| ==> key[k] != '\\' && key[k] != '"' && key[k] != NUL
    ensures ValidEntry(Field(pre, key, IntDoc(n), post))
  {
    hide IntDoc, ValidEntry, Valid, AllSpace;
    IntValid(n);
    FieldValid(pre, key, IntDoc(n), post);
  }

  lemma {:induction false} ObjectValid(open: string, entries: seq<Entry>)
    requires AllSpace(open) && forall k :: 0 <= k < |entries| ==> ValidEntry(entries[k])
    ensures Valid(DObject(open, entries))
  {
    hide ValidEntry, AllSpace, ValidEntries;
    AllEntriesValid(entries);
  }

  lemma {:induction false} StatsValid(s: Stats)
    ensures Valid(DObject(" ", StatsEntries(s)))
  {
    hide IntDoc, ValidEntry, Valid, AsSigned;
    IntFieldValid("", "bytes_sent", AsSigned(s.sent), "");
    IntFieldValid(" ", "bytes_recv", AsSigned(s.received), "");
    IntFieldValid(" ", "seg_dropped", AsSigned(s.dropped), "");
    IntFieldValid(" ", "seg_rexmit", AsSigned(s.rexmit), " ");
    ObjectValid(" ", StatsEntries(s));
  }

  lemma {:induction false} ReplyValid(round: nat, layers: seq<Layer>, s: Stats, arch: seq<nat>)
    requires Sized(layers, arch)
    ensures Valid(DObject("", ReplyEntries(round, layers, s)))
  {
    hide IntDoc, LayersDoc, StatsEntries, ValidEntry, Sized;
    IntValid(round);
    FieldValid("", "round", IntDoc(round), "");
    IntValid(s.time);
    FieldValid(" ", "training_time", IntDoc(s.time), "");
    LayersValid(layers, arch);
    FieldValid(" ", "weights", LayersDoc(layers), "");
    StatsValid(s);
    FieldValid(" ", "stats", DObject(" ", StatsEntries(s)), "");
    AllEntriesValid(ReplyEntries(round, layers, s));
  }

  lemma {:induction false} RequestValid(round: nat, layers: seq<Layer>, arch: seq<nat>)
    requires Sized(layers, arch)
    ensures Valid(DObject("", RequestEntries(round, layers)))
  {
    hide IntDoc, LayersDoc, ValidEntry, Sized;
    IntValid(round);
    FieldValid("", "round", IntDoc(round), "");
    LayersValid(layers, arch);
    FieldValid(" ", "weights", LayersDoc(layers), "");
    AllEntriesValid(RequestEntries(round, layers));
  }

  /** An object text is scanned to its end, and its keys hang on the object's own `next`. */
  lemma {:induction false} ObjectScanned(entries: seq<Entry>)
    requires Valid(DObject("", entries))
    ensures var text := Render(DObject("", entries));
      ScanToken(text, 0) == Done(Link(Token(OBJECT, None, []), KeyTokens(entries)), |text|)
  {
    hide ScanToken, Render, Valid, EntryMembers, EncodeMembers;
    var text := Render(DObject("", entries));
    Reading.ReadsText("", DObject("", entries), "");
    assert "" + text + "" == text;
  }

  /** A reply arrives: scanning its text, walking the keys and reading the weights gives back
      the round, the statistics, and every printed number rounded to six decimals. */
  lemma {:induction false} ReplyArrives(round: nat, layers: seq<Layer>, s: Stats, arch: seq<nat>)
    requires Sized(layers, arch) && s.Fits()
    ensures var text := ReplyText(round, layers, s);
      var scan := ScanToken(text, 0);
      && scan.Done? && scan.end == |text|
      && var p := Deserialize(scan.link.next, BLANK);
      && (p.Some? <==> round != 0)
      && (p.Some? ==>
            && p.value.round == Clamp(round) && p.value.stats == s
            && HasLayers(p.value.weights, arch) && LayersRead(p.value.weights, arch) == RoundedLayers(layers))
  {
    hide Render, ScanToken, Deserialize, ReplyEntries, KeyTokens, HasLayers;
    hide LayersRead, RoundedLayers, LayerChain, Sized, Stats.Fits, Valid;
    ReplyValid(round, layers, s, arch);
    ObjectScanned(ReplyEntries(round, layers, s));
    ReplyReadBack(round, layers, s);
    LayersReadBack(layers, arch);
  }

  lemma {:induction false} RequestArrives(round: nat, layers: seq<Layer>, arch: seq<nat>)
    requires Sized(layers, arch)
    ensures var text := RequestText(round, layers);
      var scan := ScanToken(text, 0);
      && scan.Done? && scan.end == |text|
      && var p := Deserialize(scan.link.next, BLANK);
      && (p.Some? <==> round != 0)
      && (p.Some? ==>
            && p.value.round == Clamp(round)
            && HasLayers(p.value.weights, arch) && LayersRead(p.value.weights, arch) == RoundedLayers(layers))
  {
    hide Render, ScanToken, Deserialize, RequestEntries, KeyTokens;
    hide HasLayers, LayersRead, RoundedLayers, LayerChain, Sized, Valid;
    RequestValid(round, layers, arch);
    ObjectScanned(RequestEntries(round, layers));
    RequestReadBack(round, layers);
    LayersReadBack(layers, arch);
  }

  /** What the reader of a text makes of its weights, if it accepts the text. */
  function Received(text: string, arch: seq<nat>): Option<seq<Layer>>
    requires |arch| > 0
  {
    match ScanToken(text, 0)
    case Fail => None
    case Done(link, _) =>
      match Deserialize(link.next, BLANK)
      case None => None
      case Some(p) => if HasLayers(p.weights, arch) then Some(LayersRead(p.weights, arch)) else None
  }

  /** Had the biases been printed, a network would survive the way exactly when its numbers
      have at most six decimals. As `weights_to_string` is written, its biases also have to
      repeat the first row of its weights. */
  lemma {:induction false} NetworkArrives(round: nat, layers: seq<Layer>, s: Stats, arch: seq<nat>)
    requires Sized(layers, arch) && s.Fits() && round != 0
    requires forall l :: 0 <= l < |layers| ==> |layers[l].w| > 0
    ensures Received(ReplyText(round, layers, s), arch) == Some(layers) <==>
      forall l :: 0 <= l < |layers| ==> LayerExact(layers[l])
    ensures Received(ReplyText(round, Printed(layers), s), arch) == Some(layers) <==>
      forall l :: 0 <= l < |layers| ==> LayerExact(layers[l]) && layers[l].b == layers[l].w[0]
  {
    hide ReplyText, ScanToken, Deserialize, HasLayers, LayersRead, RoundedLayers, Stats.Fits, LayerExact;
    assert Sized(Printed(layers), arch);
    ReplyArrives(round, layers, s, arch);
    NetworkSurvives(layers);
    ReplyArrives(round, Printed(layers), s, arch);
    PrintedSurvives(layers);
  }

  /** The layer with one number for all weights and one for all biases. */
  function UniformLayer(rows: nat, cols: nat, weight: real, bias: real): Layer
  {
    Layer(seq(rows, _ => seq(cols, _ => weight)), seq(cols, _ => bias))
  }

  /** The network of such layers. */
  function Uniform(arch: seq<nat>, weight: real, bias: real): (layers: seq<Layer>)
    requires |arch| > 0
    ensures |layers| == |arch| - 1
  {
    seq(|arch| - 1, l requires 0 <= l < |arch| - 1 => UniformLayer(arch[l], arch[l + 1], weight, bias))
  }

  lemma {:induction false} UniformRow(rows: nat, cols: nat, weight: real, bias: real)
    requires rows > 0
    ensures var layer := UniformLayer(rows, cols, weight, bias);
      && LayerSized(layer, rows, cols)
      && Layer(layer.w, layer.w[0]) == UniformLayer(rows, cols, weight, weight)
  {
    assert UniformLayer(rows, cols, weight, bias).w[0] == seq(cols, _ => weight);
  }

  lemma {:induction false} UniformPrinted(arch: seq<nat>, weight: real, bias: real)
    requires |arch| > 0 && forall l :: 0 <= l < |arch| ==> arch[l] > 0
    ensures Sized(Uniform(arch, weight, bias), arch)
    ensures forall l :: 0 <= l < |arch| - 1 ==> |Uniform(arch, weight, bias)[l].w| > 0
    ensures Printed(Uniform(arch, weight, bias)) == Uniform(arch, weight, weight)
  {
    hide UniformLayer;
    forall l | 0 <= l < |arch| - 1
      ensures var layer := UniformLayer(arch[l], arch[l + 1], weight, bias);
        && LayerSized(layer, arch[l], arch[l + 1])
        && Layer(layer.w, layer.w[0]) == UniformLayer(arch[l], arch[l + 1], weight, weight)
    {
      UniformRow(arch[l], arch[l + 1], weight, bias);
    }
  }

  lemma {:induction false} UniformExact(arch: seq<nat>, weight: real, bias: real)
    requires |arch| > 0 && Rounded(weight) == weight && Rounded(bias) == bias
    ensures forall l :: 0 <= l < |arch| - 1 ==> LayerExact(Uniform(arch, weight, bias)[l])
  {
    hide Rounded;
    RoundedExact(weight);
    RoundedExact(bias);
  }

  lemma {:induction false} Quarter()
    ensures Rounded(0.0) == 0.0 && Rounded(0.25) == 0.25
  {
    RoundedExact(0.0);
    RoundedExact(0.25);
  }

  /** Whatever the architecture, a network that does not survive although all its numbers have six
      decimals: weights 0 and biases 0.25 arrive as weights 0 and biases 0. */
  lemma {:induction false} BiasesLost(round: nat, s: Stats, arch: seq<nat>)
    requires s.Fits() && round != 0 && |arch| > 1 && forall l :: 0 <= l < |arch| ==> arch[l] > 0
    ensures var layers := Uniform(arch, 0.0, 0.25);
      && (forall l :: 0 <= l < |layers| ==> LayerExact(layers[l]) && |layers[l].w| > 0)
      && Received(ReplyText(round, Printed(layers), s), arch) == Some(Uniform(arch, 0.0, 0.0)) != Some(layers)
  {
    hide ReplyText, ScanToken, Deserialize, Received, Stats.Fits, Rounded, LayerExact, Printed, Sized;
    Quarter();
    UniformPrinted(arch, 0.0, 0.25);
    UniformPrinted(arch, 0.0, 0.0);
    UniformExact(arch, 0.0, 0.0);
    UniformExact(arch, 0.0, 0.25);
    NetworkArrives(round, Uniform(arch, 0.0, 0.0), s, arch);
    assert Uniform(arch, 0.0, 0.25)[0].b[0] == 0.25 && Uniform(arch, 0.0, 0.0)[0].b[0] == 0.0;
  }
}
