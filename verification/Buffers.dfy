/** Byte buffers with a size, which read as NUL at and beyond it. */
module Buffers {

  const NUL: char := '\0'

  function Peek(b: string, i: nat): char
  {
    if i < |b| then b[i] else NUL
  }

  /** Text `s` stands at place `i` of the buffer. */
  predicate At(b: string, i: nat, s: string)
  {
    i + |s| <= |b| && b[i..i + |s|] == s
  }

  lemma {:induction false} AtSplit(b: string, i: nat, s: string, t: string)
    requires At(b, i, s + t)
    ensures At(b, i, s) && At(b, i + |s|, t)
  {
    var u := b[i..i + |s + t|];
    assert b[i..i + |s|] == u[..|s|];
    assert b[i + |s|..i + |s| + |t|] == u[|s|..];
  }

  lemma {:induction false} AtHead(b: string, i: nat, s: string)
    requires At(b, i, s) && s != ""
    ensures Peek(b, i) == s[0] && At(b, i + 1, s[1..])
  {
    assert s == [s[0]] + s[1..];
    AtSplit(b, i, [s[0]], s[1..]);
    assert b[i..i + 1][0] == b[i];
  }

  lemma {:induction false} AtJoin(b: string, i: nat, s: string, t: string)
    requires At(b, i, s) && At(b, i + |s|, t)
    ensures At(b, i, s + t)
  {
    assert b[i..i + |s + t|] == b[i..i + |s|] + b[i + |s|..i + |s| + |t|];
  }

  /** Where text `t` stands, a shorter text stands exactly when `t` starts with it. */
  lemma {:induction false} AtStart(b: string, i: nat, t: string, c: string)
    requires At(b, i, t) && |c| <= |t|
    ensures At(b, i, c) == At(t, 0, c)
  {
    assert b[i..i + |c|] == b[i..i + |t|][0..|c|];
  }
}
