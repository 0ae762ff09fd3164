/** Reading a request line that arrives in pieces, as http.h does. */
module Http {
  import opened Options
  import opened Buffers

  // ---- searching ----

  /** The first place at or after `i` where `c` stands, before any NUL. */
  function First(b: string, i: nat, c: string): (r: Option<nat>)
    ensures r.Some? ==> i <= r.value && At(b, r.value, c)
    decreases |b| - i
  {
    if At(b, i, c) then Some(i)
    else if Peek(b, i) == NUL then None
    else First(b, i + 1, c)
  }

  /** The first such place at or before `end`, the pattern being compared with whatever lies there. */
  function FirstUpTo(b: string, i: nat, end: nat, c: string): (r: Option<nat>)
    requires i <= end <= |b|
    ensures r.Some? ==> i <= r.value <= end && At(b, r.value, c)
    decreases end - i
  {
    if At(b, i, c) then Some(i)
    else if i == end || b[i] == NUL then None
    else FirstUpTo(b, i + 1, end, c)
  }

  /** Spelled out: the pattern stands at `r`, which is not beyond `end`, and before `r` there is neither a
      place where it stands nor a NUL. */
  lemma {:induction false} FirstUpToIs(b: string, i: nat, end: nat, c: string, r: nat)
    requires i <= end <= |b|
    ensures FirstUpTo(b, i, end, c) == Some(r) <==>
      && i <= r <= end && r + |c| <= |b| && b[r..r + |c|] == c
      && forall k :: i <= k < r ==> b[k] != NUL && !At(b, k, c)
    decreases end - i
  {
    if !At(b, i, c) && i < end && b[i] != NUL {
      FirstUpToIs(b, i + 1, end, c, r);
    }
  }

  /** When nothing lies beyond, it is the first place. */
  lemma {:induction false} UpToEnd(b: string, i: nat, c: string)
    requires i <= |b|
    ensures FirstUpTo(b, i, |b|, c) == First(b, i, c)
    decreases |b| - i
  {
    if !At(b, i, c) && i < |b| && b[i] != NUL {
      UpToEnd(b, i + 1, c);
    }
  }

  /** `find_first_match` on the `size` bytes from `p` on, in memory that may go on behind them. */
  method FindFirstMatch(b: string, p: nat, size: nat, c: string) returns (r: int)
    requires p + size <= |b| && c != ""
    ensures r >= -1 && FirstUpTo(b, p, p + size, c) == if r >= 0 then Some(p + r) else None
  {
    var processed := 0;
    while processed < size && b[p + processed] != NUL && !At(b, p + processed, c)
      invariant processed <= size && FirstUpTo(b, p, p + size, c) == FirstUpTo(b, p + processed, p + size, c)
    {
      processed := processed + 1;
    }
    r := if At(b, p + processed, c) then processed else -1;
  }

  lemma {:induction false} AtTake(b: string, i: nat, end: nat, c: string)
    requires end <= |b|
    ensures At(b[..end], i, c) <==> At(b, i, c) && i + |c| <= end
  {
    if i + |c| <= end {
      assert b[..end][i..i + |c|] == b[i..i + |c|];
    }
  }

  /** The memory behind the `size` bytes does not matter exactly when no match reaches into it. */
  lemma {:induction false} Overhang(b: string, i: nat, end: nat, c: string)
    requires i <= end <= |b| && c != ""
    ensures var r := FirstUpTo(b, i, end, c);
      First(b[..end], i, c) == r <==> (r.Some? ==> r.value + |c| <= end)
    decreases end - i
  {
    AtTake(b, i, end, c);
    if At(b, i, c) {
      if i + |c| > end {
        assert First(b[..end], i, c) != Some(i);
      }
    } else if i < end && b[i] != NUL {
      Overhang(b, i + 1, end, c);
    }
  }

  // ---- the request line ----

  /** Text before a delimiter: no NUL, and no earlier place where the delimiter stands. */
  predicate Before(s: string, c: string)
  {
    forall k :: 0 <= k < |s| ==> s[k] != NUL && !At(s + c, k, c)
  }

  /** Method, space, URL, space, anything, CRLF: section 3 of RFC 9112 with the version left open. */
  function Line(m: string, u: string, v: string): string
  {
    m + (" " + (u + (" " + (v + "\r\n"))))
  }

  predicate ValidLine(m: string, u: string, v: string)
  {
    m != "" && u != "" && Before(m, " ") && Before(u, " ") && Before(v, "\r\n")
  }

  datatype Parsed = Parsed(length: nat, verb: string, url: string)

  /** What `parse_required_req` makes of a buffer. */
  function Parse(b: string): (r: Option<Parsed>)
    ensures r.Some? ==> r.value.length <= |b|
  {
    var i := First(b, 0, " ");
    if i.None? || i.value == 0 then None
    else
      var j := First(b, i.value + 1, " ");
      if j.None? || j.value == i.value + 1 then None
      else
        var k := First(b, j.value + 1, "\r\n");
        if k.None? then None else Some(Parsed(k.value + 2, b[..i.value], b[i.value + 1..j.value]))
  }

  lemma {:induction false} AtShift(s: string, k: nat, c: string)
    requires s != ""
    ensures At(s, k + 1, c) == At(s[1..], k, c)
  {
    if k + 1 + |c| <= |s| {
      assert s[1..][k..k + |c|] == s[k + 1..k + 1 + |c|];
    }
  }

  lemma {:induction false} BeforeTail(s: string, c: string)
    requires s != "" && Before(s, c)
    ensures Before(s[1..], c) && (s + c)[1..] == s[1..] + c
  {
    assert (s + c)[1..] == s[1..] + c;
    forall k | 0 <= k < |s| - 1
      ensures s[1..][k] != NUL && !At(s[1..] + c, k, c)
    {
      AtShift(s + c, k, c);
      assert s[1..][k] == s[k + 1];
    }
  }

  lemma {:induction false} BeforeCons(s: string, c: string)
    requires s != "" && Before(s[1..], c) && s[0] != NUL && !At(s + c, 0, c)
    ensures Before(s, c)
  {
    assert (s + c)[1..] == s[1..] + c;
    forall k | 0 < k < |s|
      ensures s[k] != NUL && !At(s + c, k, c)
    {
      AtShift(s + c, k - 1, c);
      assert s[1..][k - 1] == s[k];
    }
  }

  lemma {:induction false} FirstAt(b: string, i: nat, s: string, c: string)
    requires c != "" && Before(s, c) && At(b, i, s + c)
    ensures First(b, i, c) == Some(i + |s|)
    decreases |s|
  {
    if s == "" {
      assert s + c == c;
    } else {
      AtStart(b, i, s + c, c);
      AtHead(b, i, s + c);
      BeforeTail(s, c);
      FirstAt(b, i + 1, s[1..], c);
    }
  }

  lemma {:induction false} FirstIs(b: string, i: nat, c: string)
    requires c != "" && First(b, i, c).Some?
    ensures var j := First(b, i, c).value; Before(b[i..j], c) && At(b, i, b[i..j] + c)
    decreases |b| - i
  {
    hide Before;
    var j := First(b, i, c).value;
    var s := b[i..j];
    assert b[i..j + |c|] == s + c;
    if i == j {
      NothingBefore(c);
    } else {
      FirstIs(b, i + 1, c);
      assert b[i + 1..j] == s[1..];
      AtStart(b, i, s + c, c);
      BeforeCons(s, c);
    }
  }

  lemma {:induction false} NothingBefore(c: string)
    ensures Before("", c)
  {
  }

  /** The parser finds every request line at the start of a buffer, whatever follows it. */
  lemma {:induction false} ParsesLine(b: string, m: string, u: string, v: string)
    requires ValidLine(m, u, v) && At(b, 0, Line(m, u, v))
    ensures Parse(b) == Some(Parsed(|Line(m, u, v)|, m, u))
  {
    hide First, Before;
    var t := v + "\r\n";
    var r := u + (" " + t);
    assert Line(m, u, v) == m + (" " + r) == (m + " ") + r;
    assert r == (u + " ") + t;
    AtSplit(b, 0, m + " ", r);
    FirstAt(b, 0, m, " ");
    AtSplit(b, 0, m, " ");
    AtSplit(b, |m| + 1, u + " ", t);
    FirstAt(b, |m| + 1, u, " ");
    AtSplit(b, |m| + 1, u, " ");
    FirstAt(b, |m| + 1 + |u| + 1, v, "\r\n");
  }

  lemma {:induction false} LineAt(b: string, m: string, u: string, v: string)
    requires At(b, 0, m + " ") && At(b, |m| + 1, u + " ") && At(b, |m| + 1 + |u| + 1, v + "\r\n")
    ensures At(b, 0, Line(m, u, v))
  {
    hide At;
    var tail := (u + " ") + (v + "\r\n");
    AtJoin(b, |m| + 1, u + " ", v + "\r\n");
    AtJoin(b, 0, m + " ", tail);
    assert Line(m, u, v) == (m + " ") + tail;
  }

  /** And it finds nothing else. */
  lemma {:induction false} OnlyLines(b: string)
    requires Parse(b).Some?
    ensures var p := Parse(b).value;
      exists v :: ValidLine(p.verb, p.url, v) && p.length == |Line(p.verb, p.url, v)|
        && At(b, 0, Line(p.verb, p.url, v))
  {
    hide First, Before, At, Line;
    var i := First(b, 0, " ").value;
    FirstIs(b, 0, " ");
    var j := First(b, i + 1, " ").value;
    FirstIs(b, i + 1, " ");
    var k := First(b, j + 1, "\r\n").value;
    FirstIs(b, j + 1, "\r\n");
    var m, u, v := b[0..i], b[i + 1..j], b[j + 1..k];
    assert b[..i] == m;
    LineAt(b, m, u, v);
    LineLength(m, u, v);
    assert ValidLine(m, u, v);
  }

  lemma {:induction false} LineLength(m: string, u: string, v: string)
    ensures |Line(m, u, v)| == |m| + |u| + |v| + 4
  {
  }

  // ---- receiving ----

  /** How many bytes are read, at most, in one call, and after how many reading stops. */
  const PIECE := 100
  const LIMIT := 256

  /** What successive reads from a connection deliver. */
  function Join(pieces: seq<string>): string
  {
    if pieces == [] then "" else pieces[0] + Join(pieces[1..])
  }

  predicate Cut(stream: string, pieces: seq<string>)
  {
    Join(pieces) == stream && forall k :: 0 <= k < |pieces| ==> 1 <= |pieces[k]| <= PIECE
  }

  /** What `recv_required_req` comes to: the buffer so far, the bytes counted, what is to come. A read
      of no bytes is the end. */
  function Receive(data: string, processed: nat, pieces: seq<string>): Option<Parsed>
    decreases |pieces|
  {
    if processed >= LIMIT then None
    else if Parse(data).Some? then Parse(data)
    else if pieces == [] || pieces[0] == "" then None
    else Receive(data + pieces[0], processed + |pieces[0]|, pieces[1..])
  }

  class Connection {
    var pieces: seq<string>
    var data: string
    var verb: string
    var url: string

    constructor (pieces: seq<string>)
      ensures this.pieces == pieces && data == ""
    {
      this.pieces, data, verb, url := pieces, "", "", "";
    }

    /** `parse_required_req`; on failure the fields may hold parts of the line. */
    method ParseRequired() returns (length: int)
      modifies this`verb, this`url
      ensures var p := Parse(data);
        if p.Some? then length == p.value.length && verb == p.value.verb && url == p.value.url else length == -1
    {
      hide First, FirstUpTo;
      UpToEnd(data, 0, " ");
      var i := FindFirstMatch(data, 0, |data|, " ");
      if i <= 0 {
        return -1;
      }
      verb := data[..i];
      UpToEnd(data, i + 1, " ");
      var j := FindFirstMatch(data, i + 1, |data| - (i + 1), " ");
      if j <= 0 {
        return -1;
      }
      url := data[i + 1..i + 1 + j];
      var p := i + 1 + j + 1;
      UpToEnd(data, p, "\r\n");
      var k := FindFirstMatch(data, p, |data| - p, "\r\n");
      if k == -1 {
        return -1;
      }
      length := p + k + 2;
    }

    /** One call of `recv`: the next piece, or none at the end of the stream. */
    method Recv() returns (piece: Option<string>)
      modifies this`pieces
      ensures if old(pieces) == [] then piece == None && pieces == []
              else piece == Some(old(pieces)[0]) && pieces == old(pieces)[1..]
    {
      if pieces == [] {
        return None;
      }
      piece := Some(pieces[0]);
      pieces := pieces[1..];
    }

    method RecvRequired() returns (length: int)
      modifies this
      ensures var p := Receive(old(data), 0, old(pieces));
        if p.Some? then length == p.value.length && verb == p.value.verb && url == p.value.url else length == -1
    {
      var processed: nat := 0;
      length := 0;
      while true
        invariant processed >= LIMIT ==> length == -1
        invariant Receive(old(data), 0, old(pieces)) == Receive(data, processed, pieces)
        decreases |pieces|
      {
        if processed >= LIMIT {
          return;
        }
        length := ParseRequired();
        if length > 0 {
          return;
        }
        var piece := Recv();
        if piece == None || piece.value == "" {
          return -1;
        }
        processed := processed + |piece.value|;
        data := data + piece.value;
      }
    }
  }

  // ---- which request lines get through ----

  /** The bytes received once the first `n` bytes are in. */
  function Reach(pieces: seq<string>, n: nat): nat
  {
    if n == 0 || pieces == [] then 0
    else
      var size := |pieces[0]|;
      size + Reach(pieces[1..], if n <= size then 0 else n - size)
  }

  /** A buffer holding the first `p` bytes of a stream that starts with a line of `n` bytes. */
  lemma {:induction false} ParsePrefix(stream: string, data: string, more: string, m: string, u: string, v: string)
    requires ValidLine(m, u, v) && At(stream, 0, Line(m, u, v)) && stream == data + more
    ensures var n := |Line(m, u, v)|;
      Parse(data) == if |data| >= n then Some(Parsed(n, m, u)) else None
  {
    hide Parse, ValidLine, Line;
    var n := |Line(m, u, v)|;
    if |data| >= n {
      assert data[0..n] == stream[0..n];
      ParsesLine(data, m, u, v);
    } else if Parse(data).Some? {
      OnlyLines(data);
      var p := Parse(data).value;
      var w :| ValidLine(p.verb, p.url, w) && p.length == |Line(p.verb, p.url, w)|
        && At(data, 0, Line(p.verb, p.url, w));
      assert data[0..p.length] == stream[0..p.length];
      ParsesLine(stream, p.verb, p.url, w);
      ParsesLine(stream, m, u, v);
      assert false;
    }
  }

  lemma {:induction false} ReceiveFrom(stream: string, data: string, pieces: seq<string>, m: string, u: string,
      v: string)
    requires ValidLine(m, u, v) && At(stream, 0, Line(m, u, v)) && stream == data + Join(pieces)
    requires "" !in pieces
    ensures var n := |Line(m, u, v)|;
      var reach := |data| + Reach(pieces, if |data| >= n then 0 else n - |data|);
      Receive(data, |data|, pieces) == if reach < LIMIT then Some(Parsed(n, m, u)) else None
    decreases |pieces|
  {
    hide Parse, ValidLine, Line;
    ParsePrefix(stream, data, Join(pieces), m, u, v);
    if |data| < |Line(m, u, v)| && pieces != [] {
      assert stream == (data + pieces[0]) + Join(pieces[1..]);
      ReceiveFrom(stream, data + pieces[0], pieces[1..], m, u, v);
    }
  }

  /** Which way of cutting the stream gets the line through: the piece that completes the
      line has to end before byte 256. */
  lemma {:induction false} GetsThrough(stream: string, pieces: seq<string>, m: string, u: string, v: string)
    requires ValidLine(m, u, v) && At(stream, 0, Line(m, u, v)) && Cut(stream, pieces)
    ensures var n := |Line(m, u, v)|;
      Receive("", 0, pieces) == if Reach(pieces, n) < LIMIT then Some(Parsed(n, m, u)) else None
  {
    hide Parse, ValidLine, Line, Receive;
    assert stream == "" + Join(pieces);
    ReceiveFrom(stream, "", pieces, m, u, v);
  }

  /** The parse is that of a request line at the start of the text. */
  ghost predicate LineOf(text: string, p: Parsed)
  {
    exists v :: ValidLine(p.verb, p.url, v) && p.length == |Line(p.verb, p.url, v)|
      && At(text, 0, Line(p.verb, p.url, v))
  }

  lemma {:induction false} LineBefore(data: string, more: string, p: Parsed)
    requires LineOf(data, p)
    ensures LineOf(data + more, p)
  {
    hide ValidLine, Line;
    var v :| ValidLine(p.verb, p.url, v) && p.length == |Line(p.verb, p.url, v)|
      && At(data, 0, Line(p.verb, p.url, v));
    assert (data + more)[0..p.length] == data[0..p.length];
  }

  lemma {:induction false} ReceivedLine(data: string, processed: nat, pieces: seq<string>)
    requires Receive(data, processed, pieces).Some?
    ensures LineOf(data + Join(pieces), Receive(data, processed, pieces).value)
    decreases |pieces|
  {
    hide Parse, ValidLine, Line, At;
    if Parse(data).Some? {
      OnlyLines(data);
      LineBefore(data, Join(pieces), Parse(data).value);
    } else {
      ReceivedLine(data + pieces[0], processed + |pieces[0]|, pieces[1..]);
      assert data + Join(pieces) == data + pieces[0] + Join(pieces[1..]);
    }
  }

  /** Nothing but a request line at the start of the stream gets through, and what is returned are its
      length, method and URL; a stream that ends before its line does, or starts otherwise, is refused. */
  lemma {:induction false} OnlyLinesGetThrough(pieces: seq<string>)
    requires Receive("", 0, pieces).Some?
    ensures var p := Receive("", 0, pieces).value;
      exists v :: ValidLine(p.verb, p.url, v) && p.length == |Line(p.verb, p.url, v)|
        && At(Join(pieces), 0, Line(p.verb, p.url, v))
  {
    hide Receive, ValidLine, Line, Join;
    ReceivedLine("", 0, pieces);
    assert "" + Join(pieces) == Join(pieces);
  }

  lemma {:induction false} ReachBounds(pieces: seq<string>, n: nat)
    requires forall k :: 0 <= k < |pieces| ==> 1 <= |pieces[k]| <= PIECE
    requires 0 < n <= |Join(pieces)|
    ensures n <= Reach(pieces, n) < n + PIECE && Reach(pieces, n) <= |Join(pieces)|
  {
    var size := |pieces[0]|;
    if n > size {
      ReachBounds(pieces[1..], n - size);
    }
  }

  /** The stream in full pieces, as far as it goes. */
  function Chop(s: string): (pieces: seq<string>)
    ensures Cut(s, pieces)
  {
    if s == "" then []
    else if |s| <= PIECE then
      assert Join([s]) == s + Join([]);
      [s]
    else
      var rest := Chop(s[PIECE..]);
      assert ([s[..PIECE]] + rest)[1..] == rest;
      [s[..PIECE]] + rest
  }

  /** The stream cut after 100 and 156 bytes, and then into full pieces. */
  lemma {:induction false} BadCut(s: string, n: nat) returns (pieces: seq<string>)
    requires |s| >= LIMIT && 156 < n <= |s|
    ensures Cut(s, pieces) && Reach(pieces, n) >= LIMIT
  {
    var rest := Chop(s[256..]);
    var c := [s[156..256]] + rest;
    assert c[1..] == rest;
    var b := [s[100..156]] + c;
    assert b[1..] == c;
    pieces := [s[..100]] + b;
    assert pieces[1..] == b;
    assert Join(c) == s[156..256] + s[256..] == s[156..];
    assert Join(b) == s[100..156] + s[156..] == s[100..];
    assert Join(pieces) == s[..100] + s[100..] == s;
    assert Reach(pieces, n) == 100 + Reach(b, n - 100) == 156 + Reach(c, n - 156) >= 256;
  }

  /** However the stream is cut, a request line of at most 156 bytes gets through; a longer
      one is sure to get through only if the whole stream is shorter than 256 bytes. */
  lemma {:induction false} AlwaysGetsThrough(stream: string, m: string, u: string, v: string)
    requires ValidLine(m, u, v) && At(stream, 0, Line(m, u, v))
    ensures var n := |Line(m, u, v)|;
      (forall pieces :: Cut(stream, pieces) ==> Receive("", 0, pieces) == Some(Parsed(n, m, u)))
      <==> n <= 156 || |stream| < LIMIT
  {
    hide Parse, ValidLine, Receive, At;
    var n := |Line(m, u, v)|;
    assert 0 < n <= |stream| by { AtFits(stream, 0, Line(m, u, v)); }
    if n <= 156 || |stream| < LIMIT {
      forall pieces | Cut(stream, pieces) ensures Receive("", 0, pieces) == Some(Parsed(n, m, u)) {
        GetsThrough(stream, pieces, m, u, v);
        ReachBounds(pieces, n);
      }
    } else {
      var pieces := BadCut(stream, n);
      GetsThrough(stream, pieces, m, u, v);
    }
  }

  lemma {:induction false} AtFits(b: string, i: nat, s: string)
    requires At(b, i, s)
    ensures i + |s| <= |b|
  {
  }
}
