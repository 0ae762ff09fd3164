/** The code of common.h and zflclient that writes payloads. */
module Printing {
  import opened Grammar
  import opened Decimal
  import opened Matrices
  import opened Wire
  import T = Training

  class StringBuilder {
    var data: string

    constructor ()
      ensures data == ""
    {
      data := "";
    }

    method Append(s: string)
      modifies this
      ensures data == old(data) + s
    {
      data := data + s;
    }
  }

  /** Printing element `k`, with a comma unless it is the last one, leaves the rest to print. */
  lemma {:induction false} PrintOne(items: seq<Item>, k: nat, data: string, t: string)
    requires k < |items| && items[k].pre == "" == items[k].post && t == Render(items[k].doc)
    ensures data + RenderItems(items[k..])
         == data + (if k + 1 == |items| then t else t + ",") + RenderItems(items[k + 1..])
  {
    hide Render;
    var rest := items[k..];
    assert rest[1..] == items[k + 1..];
    assert "" + t + "" == t;
    if k + 1 == |items| {
      assert items[k + 1..] == [];
    } else {
      assert data + (t + "," + RenderItems(rest[1..])) == data + (t + ",") + RenderItems(rest[1..]);
    }
  }

  lemma {:induction false} PrintNone(items: seq<Item>, data: string)
    ensures items[0..] == items && data + RenderItems(items[|items|..]) == data
  {
  }

  /** Row `j` of a matrix, without the brackets. */
  method PrintRow(sb: StringBuilder, w: array2<real>, j: nat)
    requires j < w.Length0
    modifies sb
    ensures sb.data == old(sb.data) + RenderItems(RowItems(RowOf(w, j)))
  {
    hide RenderItems, PrintReal, Render, RowItems;
    ghost var items := RowItems(RowOf(w, j));
    ghost var whole := sb.data + RenderItems(items);
    PrintNone(items, sb.data);
    for k := 0 to w.Length1
      invariant sb.data + RenderItems(items[k..]) == whole
    {
      RowItem(RowOf(w, j), k);
      PrintOne(items, k, sb.data, PrintReal(w[j, k]));
      if k == w.Length1 - 1 {
        sb.Append(PrintReal(w[j, k]));
      } else {
        sb.Append(PrintReal(w[j, k]) + ",");
      }
    }
    PrintNone(items, sb.data);
  }

  lemma {:induction false} RowItem(row: seq<real>, k: nat)
    requires k < |row|
    ensures RowItems(row)[k].pre == "" == RowItems(row)[k].post && Render(RowItems(row)[k].doc) == PrintReal(row[k])
  {
  }

  /** The bias row as `weights_to_string` prints it: `b` gives the number of elements, but
      they are those of `w`, row after row (common.h:63-69). */
  method PrintBiases(sb: StringBuilder, w: array2<real>, b: array2<real>)
    requires w.Length0 > 0 && b.Length1 == w.Length1
    modifies sb
    ensures sb.data == old(sb.data) + RenderItems(RowItems(RowOf(w, 0)))
  {
    hide RenderItems, PrintReal, Render, RowItems;
    ghost var items := RowItems(RowOf(w, 0));
    ghost var whole := sb.data + RenderItems(items);
    PrintNone(items, sb.data);
    for j := 0 to b.Length1
      invariant sb.data + RenderItems(items[j..]) == whole
    {
      RowItem(RowOf(w, 0), j);
      Flat(j, w.Length1);
      var x := w[j / w.Length1, j % w.Length1];
      PrintOne(items, j, sb.data, PrintReal(x));
      if j == b.Length1 - 1 {
        sb.Append(PrintReal(x));
      } else {
        sb.Append(PrintReal(x) + ",");
      }
    }
    PrintNone(items, sb.data);
  }

  lemma {:induction false} Flat(j: nat, cols: nat)
    requires j < cols
    ensures j / cols == 0 && j % cols == j
  {
  }

  /** The rows of a matrix, without the brackets around them. */
  method PrintMatrix(sb: StringBuilder, w: array2<real>)
    modifies sb
    ensures sb.data == old(sb.data) + RenderItems(MatrixItems(Rows(w)))
  {
    hide RenderItems, Render, RowItems, MatrixItems;
    ghost var items := MatrixItems(Rows(w));
    ghost var whole := sb.data + RenderItems(items);
    PrintNone(items, sb.data);
    for j := 0 to w.Length0
      invariant sb.data + RenderItems(items[j..]) == whole
    {
      MatrixItem(Rows(w), j);
      ghost var t := "[" + RenderItems(RowItems(Rows(w)[j])) + "]";
      PrintOne(items, j, sb.data, t);
      ghost var before := sb.data;
      sb.Append("[");
      PrintRow(sb, w, j);
      if j == w.Length0 - 1 {
        sb.Append("]");
        assert sb.data == before + t;
      } else {
        sb.Append("],");
        assert sb.data == before + (t + ",");
      }
    }
    PrintNone(items, sb.data);
  }

  lemma {:induction false} MatrixItem(rows: seq<seq<real>>, j: nat)
    requires j < |rows|
    ensures var it := MatrixItems(rows)[j];
      it.pre == "" == it.post && Render(it.doc) == "[" + RenderItems(RowItems(rows[j])) + "]"
  {
    hide RowItems;
    assert "[" + "" + RenderItems(RowItems(rows[j])) == "[" + RenderItems(RowItems(rows[j]));
  }

  /** The weights and biases in the arrays of a network. */
  function Layers(nn: T.NN): (layers: seq<Layer>)
    requires nn.Shaped()
    reads nn.ws, nn.bs
    ensures |layers| == |nn.ws|
  {
    seq(|nn.ws|, l requires 0 <= l < |nn.ws| && nn.Shaped() reads nn.ws, nn.bs =>
      Layer(Rows(nn.ws[l]), RowOf(nn.bs[l], 0)))
  }

  /** The matrix and the biases of layer `i`, in brackets. */
  lemma {:induction false} LayerTexts(layers: seq<Layer>, i: nat)
    requires i < |layers|
    ensures var items := LayerItems(layers);
      var w, b := items[2 * i], items[2 * i + 1];
      && w.pre == "" == w.post && b.pre == "" == b.post
      && Render(w.doc) == "[" + RenderItems(MatrixItems(layers[i].w)) + "]"
      && Render(b.doc) == "[" + RenderItems(RowItems(layers[i].b)) + "]"
  {
    hide MatrixItems, RowItems, LayerItems;
    LayerAt(layers, i);
    assert "[" + "" == "[";
  }

  /** `weights_to_string`: what is printed for the biases is the first row of the weights. */
  method WeightsToString(sb: StringBuilder, nn: T.NN)
    requires nn.Shaped() && |nn.ws| > 0 && forall l :: 0 <= l < |nn.ws| ==> nn.ws[l].Length0 > 0
    modifies sb
    ensures sb.data == old(sb.data) + Render(LayersDoc(old(Printed(Layers(nn)))))
  {
    hide RenderItems, Render, RowItems, MatrixItems, LayerItems;
    ghost var layers := Printed(Layers(nn));
    ghost var items := LayerItems(layers);
    ghost var start := sb.data + "[";
    PrintNone(items, start);
    sb.Append("[");
    for i := 0 to |nn.ws|
      invariant sb.data + RenderItems(items[2 * i..]) == start + RenderItems(items)
    {
      LayerTexts(layers, i);
      PrintLayer(sb, nn, i, items, "[" + RenderItems(MatrixItems(layers[i].w)) + "]",
                 "[" + RenderItems(RowItems(layers[i].b)) + "]");
    }
    PrintNone(items, sb.data);
    sb.Append("]");
    LayersText(layers, start);
  }

  lemma {:induction false} LayersText(layers: seq<Layer>, start: string)
    ensures var t := RenderItems(LayerItems(layers));
      forall before :: start == before + "[" ==> start + t + "]" == before + Render(LayersDoc(layers))
  {
    hide LayerItems;
    var t := RenderItems(LayerItems(layers));
    assert "[" + "" + t + "]" == "[" + t + "]";
    forall before | start == before + "[" ensures start + t + "]" == before + Render(LayersDoc(layers)) {
      assert before + "[" + t + "]" == before + ("[" + t + "]");
    }
  }

  /** One turn of the loop of `weights_to_string`. */
  method PrintLayer(sb: StringBuilder, nn: T.NN, i: nat, ghost items: seq<Item>, ghost w: string, ghost b: string)
    requires nn.Shaped() && i < |nn.ws| && nn.ws[i].Length0 > 0 && |items| == 2 * |nn.ws|
    requires items[2 * i].pre == "" == items[2 * i].post && items[2 * i + 1].pre == "" == items[2 * i + 1].post
    requires Render(items[2 * i].doc) == w == "[" + RenderItems(MatrixItems(Rows(nn.ws[i]))) + "]"
    requires Render(items[2 * i + 1].doc) == b == "[" + RenderItems(RowItems(RowOf(nn.ws[i], 0))) + "]"
    modifies sb
    ensures sb.data + RenderItems(items[2 * i + 2..]) == old(sb.data) + RenderItems(items[2 * i..])
  {
    hide RenderItems, Render, RowItems, MatrixItems;
    ghost var before := sb.data;
    PrintOne(items, 2 * i, before, w);
    sb.Append("[");
    PrintMatrix(sb, nn.ws[i]);
    sb.Append("],");
    assert sb.data == before + (w + ",");
    ghost var between := sb.data;
    PrintOne(items, 2 * i + 1, between, b);
    sb.Append("[");
    PrintBiases(sb, nn.ws[i], nn.bs[i]);
    if i == |nn.ws| - 1 {
      sb.Append("]");
      assert sb.data == between + b;
    } else {
      sb.Append("],");
      assert sb.data == between + (b + ",");
    }
  }

  // ---- whole payloads ----

  /** A field and what follows it. */
  function FieldText(key: string, value: string): string
  {
    "\"" + key + "\": " + value
  }

  lemma {:induction false} EntriesCons(pre: string, key: string, d: Doc, post: string, rest: seq<Entry>)
    ensures RenderEntries([Field(pre, key, d, post)] + rest) ==
      pre + FieldText(key, Render(d)) + post + (if rest == [] then "" else "," + RenderEntries(rest))
  {
    hide Render;
    var e := Field(pre, key, d, post);
    assert ([e] + rest)[1..] == rest;
    assert e.pre + "\"" + e.key + "\"" + e.mid + ":" + e.gap + Render(d) + e.post == pre + FieldText(key, Render(d))
        + post;
    if rest == [] {
      assert pre + FieldText(key, Render(d)) + post + "" == pre + FieldText(key, Render(d)) + post;
    }
  }

  lemma {:induction false} IntText(n: int)
    ensures Render(IntDoc(n)) == PrintInt(n)
  {
  }

  /** The text of the statistics, without the key. */
  function StatsText(s: Stats): string
  {
    "{ " + FieldText("bytes_sent", PrintInt(AsSigned(s.sent)))
    + ", " + FieldText("bytes_recv", PrintInt(AsSigned(s.received)))
    + ", " + FieldText("seg_dropped", PrintInt(AsSigned(s.dropped)))
    + ", " + FieldText("seg_rexmit", PrintInt(AsSigned(s.rexmit))) + " }"
  }

  lemma {:induction false} FourEntries(a: Entry, b: Entry, c: Entry, d: Entry)
    ensures [a, b, c, d] == [a] + ([b] + ([c] + ([d] + [])))
  {
  }

  lemma {:induction false} StatsTextIs(s: Stats)
    ensures Render(DObject(" ", StatsEntries(s))) == StatsText(s)
  {
    hide PrintInt, FieldText, RenderEntries;
    var e := StatsEntries(s);
    var a, b, c, d := e[0], e[1], e[2], e[3];
    FourEntries(a, b, c, d);
    EntriesCons("", "bytes_sent", a.doc, "", [b] + ([c] + ([d] + [])));
    EntriesCons(" ", "bytes_recv", b.doc, "", [c] + ([d] + []));
    EntriesCons(" ", "seg_dropped", c.doc, "", [d] + []);
    EntriesCons(" ", "seg_rexmit", d.doc, " ", []);
    var p := FieldText("bytes_sent", PrintInt(AsSigned(s.sent)));
    var q := FieldText("bytes_recv", PrintInt(AsSigned(s.received)));
    var r := FieldText("seg_dropped", PrintInt(AsSigned(s.dropped)));
    var t := FieldText("seg_rexmit", PrintInt(AsSigned(s.rexmit)));
    IntText(AsSigned(s.sent));
    IntText(AsSigned(s.received));
    IntText(AsSigned(s.dropped));
    IntText(AsSigned(s.rexmit));
    assert RenderEntries(e)
        == "" + p + "" + ("," + (" " + q + "" + ("," + (" " + r + "" + ("," + (" " + t + " " + ""))))));
    Braces(p, q, r, t);
  }

  lemma {:induction false} Braces(p: string, q: string, r: string, t: string)
    ensures "{" + " "
              + ("" + p + "" + ("," + (" " + q + "" + ("," + (" " + r + "" + ("," + (" " + t + " " + ""))))))) + "}"
         == "{ " + p + ", " + q + ", " + r + ", " + t + " }"
  {
  }

  /** The text before the weights of a reply. */
  function ReplyHead(round: nat, time: int): string
  {
    "{" + FieldText("round", PrintInt(round)) + ", " + FieldText("training_time", PrintInt(time)) + ", \"weights\": "
  }

  lemma {:induction false} ReplyTextIs(round: nat, layers: seq<Layer>, s: Stats)
    ensures ReplyText(round, layers, s) ==
      ReplyHead(round, s.time) + Render(LayersDoc(layers)) + (", " + FieldText("stats", StatsText(s)) + "}")
  {
    hide PrintInt, RenderEntries, StatsText, StatsEntries, LayersDoc;
    var e := ReplyEntries(round, layers, s);
    var a, b, c, d := e[0], e[1], e[2], e[3];
    FourEntries(a, b, c, d);
    EntriesCons("", "round", a.doc, "", [b] + ([c] + ([d] + [])));
    EntriesCons(" ", "training_time", b.doc, "", [c] + ([d] + []));
    EntriesCons(" ", "weights", c.doc, "", [d] + []);
    EntriesCons(" ", "stats", d.doc, "", []);
    IntText(round);
    IntText(s.time);
    StatsTextIs(s);
    var p, q := FieldText("round", PrintInt(round)), FieldText("training_time", PrintInt(s.time));
    var w, t := Render(LayersDoc(layers)), FieldText("stats", StatsText(s));
    assert RenderEntries(e)
        == "" + p + ""
           + ("," + (" " + q + "" + ("," + (" " + FieldText("weights", w) + "" + ("," + (" " + t + "" + ""))))));
    Reply(p, q, w, t);
  }

  /** A reply spelled out: every counter is shown as the 32-bit `int` that has its bits. */
  lemma {:induction false} ReplyShows(round: nat, layers: seq<Layer>, s: Stats, sent: int, received: int,
      dropped: int, rexmit: int)
    requires s.Fits() && SameBits(s.sent, sent) && SameBits(s.received, received)
    requires SameBits(s.dropped, dropped) && SameBits(s.rexmit, rexmit)
    ensures ReplyText(round, layers, s) ==
      ("{\"round\": " + PrintInt(round) + ", \"training_time\": " + PrintInt(s.time) + ", \"weights\": ")
      + Render(LayersDoc(layers))
      + (", \"stats\": " + ("{ \"bytes_sent\": " + PrintInt(sent) + ", \"bytes_recv\": " + PrintInt(received)
         + ", \"seg_dropped\": " + PrintInt(dropped) + ", \"seg_rexmit\": " + PrintInt(rexmit) + " }") + "}")
  {
    hide PrintInt, Render, LayersDoc, ReplyText, AsSigned, SameBits, FieldText, ReplyHead, StatsText;
    AsSignedIs(s.sent, sent);
    AsSignedIs(s.received, received);
    AsSignedIs(s.dropped, dropped);
    AsSignedIs(s.rexmit, rexmit);
    ReplyTextIs(round, layers, s);
    HeadShows(round, s.time);
    TailShows(s);
    Quoted(StatsText(s));
  }

  lemma {:induction false} Quoted(value: string)
    ensures ", " + FieldText("stats", value) + "}" == ", \"stats\": " + value + "}"
  {
    hide FieldText;
    FieldNames(value);
    Onward("", ", ", "\"stats\": ", value);
    assert "" + ", " == ", " && "" + ", \"stats\": " == ", \"stats\": ";
    assert ", " + "\"stats\": " == ", \"stats\": ";
  }

  lemma {:induction false} HeadShows(round: nat, time: int)
    ensures ReplyHead(round, time) ==
      "{\"round\": " + PrintInt(round) + ", \"training_time\": " + PrintInt(time) + ", \"weights\": "
  {
    hide PrintInt, FieldText;
    FieldNames(PrintInt(round));
    FieldNames(PrintInt(time));
    var x := "{\"round\": " + PrintInt(round);
    Onward("", "{", "\"round\": ", PrintInt(round));
    Onward(x, ", ", "\"training_time\": ", PrintInt(time));
    assert "{" + "\"round\": " == "{\"round\": ";
    assert "" + "{" == "{" && "" + "{\"round\": " == "{\"round\": ";
    assert ", " + "\"training_time\": " == ", \"training_time\": ";
  }

  lemma {:induction false} TailShows(s: Stats)
    ensures StatsText(s) ==
      "{ \"bytes_sent\": " + PrintInt(AsSigned(s.sent)) + ", \"bytes_recv\": "
      + PrintInt(AsSigned(s.received)) + ", \"seg_dropped\": " + PrintInt(AsSigned(s.dropped))
      + ", \"seg_rexmit\": " + PrintInt(AsSigned(s.rexmit)) + " }"
  {
    hide PrintInt, FieldText, AsSigned;
    var a, b, c, d := PrintInt(AsSigned(s.sent)), PrintInt(AsSigned(s.received)), PrintInt(AsSigned(s.dropped)),
      PrintInt(AsSigned(s.rexmit));
    FieldNames(a);
    FieldNames(b);
    FieldNames(c);
    FieldNames(d);
    Joined("{ ", ", ", "\"bytes_sent\": ", a, "\"bytes_recv\": ", b, "\"seg_dropped\": ", c, "\"seg_rexmit\": ", d);
    assert "{ " + "\"bytes_sent\": " == "{ \"bytes_sent\": ";
    assert ", " + "\"bytes_recv\": " == ", \"bytes_recv\": ";
    assert ", " + "\"seg_dropped\": " == ", \"seg_dropped\": ";
    assert ", " + "\"seg_rexmit\": " == ", \"seg_rexmit\": ";
  }

  lemma {:induction false} Joined(open: string, sep: string, p: string, a: string, q: string, b: string, r: string,
      c: string, t: string, d: string)
    ensures open + (p + a) + sep + (q + b) + sep + (r + c) + sep + (t + d)
         == open + p + a + (sep + q) + b + (sep + r) + c + (sep + t) + d
  {
    assert open + (p + a) == open + p + a;
    var x := open + p + a;
    Onward(x, sep, q, b);
    var y := x + (sep + q) + b;
    Onward(y, sep, r, c);
    Onward(y + (sep + r) + c, sep, t, d);
  }

  lemma {:induction false} Onward(x: string, sep: string, name: string, value: string)
    ensures x + sep + (name + value) == x + (sep + name) + value
  {
  }

  lemma {:induction false} FieldNames(value: string)
    ensures FieldText("round", value) == "\"round\": " + value
    ensures FieldText("training_time", value) == "\"training_time\": " + value
    ensures FieldText("stats", value) == "\"stats\": " + value
    ensures FieldText("bytes_sent", value) == "\"bytes_sent\": " + value
    ensures FieldText("bytes_recv", value) == "\"bytes_recv\": " + value
    ensures FieldText("seg_dropped", value) == "\"seg_dropped\": " + value
    ensures FieldText("seg_rexmit", value) == "\"seg_rexmit\": " + value
  {
    assert "\"" + "round" + "\": " == "\"round\": ";
    assert "\"" + "training_time" + "\": " == "\"training_time\": ";
    assert "\"" + "stats" + "\": " == "\"stats\": ";
    assert "\"" + "bytes_sent" + "\": " == "\"bytes_sent\": ";
    assert "\"" + "bytes_recv" + "\": " == "\"bytes_recv\": ";
    assert "\"" + "seg_dropped" + "\": " == "\"seg_dropped\": ";
    assert "\"" + "seg_rexmit" + "\": " == "\"seg_rexmit\": ";
  }

  lemma {:induction false} Reply(p: string, q: string, w: string, t: string)
    ensures "{" + ""
              + ("" + p + ""
                 + ("," + (" " + q + "" + ("," + (" " + FieldText("weights", w) + "" + ("," + (" " + t + "" + "")))))))
              + "}"
         == "{" + p + ", " + q + ", \"weights\": " + w + ", " + t + "}"
  {
  }

  /** Head, weights and tail, one after another. */
  lemma {:induction false} Pieces(start: string, head: string, body: string, tail: string)
    requires start == ""
    ensures start + head + body + tail == head + body + tail
  {
    assert start + head == head;
  }

  /** A network printed between two texts. */
  method Around(head: string, nn: T.NN, tail: string, ghost layers: seq<Layer>) returns (text: string)
    requires nn.Shaped() && |nn.ws| > 0 && forall l :: 0 <= l < |nn.ws| ==> nn.ws[l].Length0 > 0
    requires layers == Printed(Layers(nn))
    ensures text == head + Render(LayersDoc(layers)) + tail
  {
    ghost var start := Layers(nn);
    assert Printed(start) == layers;
    hide Render, LayersDoc, Layers, Printed;
    var sb := new StringBuilder();
    sb.Append(head);
    assert Layers(nn) == start;
    WeightsToString(sb, nn);
    sb.Append(tail);
    text := sb.data;
    Pieces("", head, Render(LayersDoc(layers)), tail);
  }

  /** The payload that `send_weights` builds. */
  method ReplyPayload(round: nat, nn: T.NN, s: Stats) returns (text: string)
    requires nn.Shaped() && |nn.ws| > 0 && forall l :: 0 <= l < |nn.ws| ==> nn.ws[l].Length0 > 0
    ensures text == ReplyText(round, Printed(Layers(nn)), s)
  {
    ghost var layers := Printed(Layers(nn));
    hide *;
    text := Around(ReplyHead(round, s.time), nn, ", " + FieldText("stats", StatsText(s)) + "}", layers);
    ReplyTextIs(round, layers, s);
  }

  /** The text before the weights of a request. */
  function RequestHead(round: nat): string
  {
    "{" + FieldText("round", PrintInt(round)) + ", \"weights\": "
  }

  lemma {:induction false} RequestTextIs(round: nat, layers: seq<Layer>)
    ensures RequestText(round, layers) ==
      RequestHead(round) + Render(LayersDoc(layers)) + "}"
  {
    hide PrintInt, RenderEntries, LayersDoc;
    var e := RequestEntries(round, layers);
    var a, b := e[0], e[1];
    assert e == [a] + ([b] + []);
    EntriesCons("", "round", a.doc, "", [b] + []);
    EntriesCons(" ", "weights", b.doc, "", []);
    IntText(round);
    var p, w := FieldText("round", PrintInt(round)), Render(LayersDoc(layers));
    assert RenderEntries(e) == "" + p + "" + ("," + (" " + FieldText("weights", w) + "" + ""));
    Request(p, w);
  }

  lemma {:induction false} Request(p: string, w: string)
    ensures "{" + "" + ("" + p + "" + ("," + (" " + FieldText("weights", w) + "" + ""))) + "}"
         == "{" + p + ", \"weights\": " + w + "}"
  {
  }

  /** The body of the request that opens a round. */
  method RequestPayload(round: nat, nn: T.NN) returns (text: string)
    requires nn.Shaped() && |nn.ws| > 0 && forall l :: 0 <= l < |nn.ws| ==> nn.ws[l].Length0 > 0
    ensures text == RequestText(round, Printed(Layers(nn)))
  {
    ghost var layers := Printed(Layers(nn));
    hide *;
    text := Around(RequestHead(round), nn, "}", layers);
    RequestTextIs(round, layers);
  }
}
