/** JSON values, and the token trees that cson.h represents them by. */
module Json {
  import opened Options

  datatype Value =
    | Null
    | Bool(truth: bool)
    | Number(text: string)
    | Text(body: string)
    | Array(items: seq<Value>)
    | Object(members: seq<Member>)

  datatype Member = Member(key: string, value: Value)

  datatype Kind = NULL_VALUE | OBJECT | ARRAY | STRING | NUMBER | TRUE | FALSE

  /** A token with everything below it. `child` is the chain of tokens that starts at the
      token's `child` pointer and follows `next` pointers from there. */
  datatype Token = Token(kind: Kind, text: Option<string>, child: seq<Token>)

  /** A token with the chain that follows it through its own `next` pointer. */
  datatype Link = Link(head: Token, next: seq<Token>) {
    function Chain(): seq<Token>
    {
      [head] + next
    }
  }

  /** The tokens of a value. The keys of an object are chained on the object's own `next`. */
  function Encode(v: Value): Link
  {
    match v
    case Null => Link(Token(NULL_VALUE, Some("null"), []), [])
    case Bool(b) => Link(if b then Token(TRUE, Some("true"), []) else Token(FALSE, Some("false"), []), [])
    case Number(t) => Link(Token(NUMBER, Some(t), []), [])
    case Text(s) => Link(Token(STRING, Some(s), []), [])
    case Array(vs) => Link(Token(ARRAY, None, EncodeItems(vs)), [])
    case Object(ms) => Link(Token(OBJECT, None, []), EncodeMembers(ms))
  }

  /** The chain below an array. Linking an element to the next one overwrites the element's
      `next`, so only the last element keeps the chain it came with. */
  function EncodeItems(vs: seq<Value>): seq<Token>
  {
    if vs == [] then []
    else if |vs| == 1 then Encode(vs[0]).Chain()
    else [Encode(vs[0]).head] + EncodeItems(vs[1..])
  }

  function EncodeMembers(ms: seq<Member>): seq<Token>
  {
    if ms == [] then []
    else [Token(STRING, Some(ms[0].key), Encode(ms[0].value).Chain())] + EncodeMembers(ms[1..])
  }

  // Reading a token tree back

  /** A key is a string token with a value below it; a string value has nothing below. */
  predicate IsKey(t: Token)
  {
    t.kind == STRING && t.child != []
  }

  /** How many tokens at the start of a chain are keys. */
  function Keys(chain: seq<Token>): (n: nat)
    ensures n <= |chain|
    ensures forall k :: 0 <= k < n ==> IsKey(chain[k])
  {
    if chain == [] || !IsKey(chain[0]) then 0 else 1 + Keys(chain[1..])
  }

  /** The value whose token heads a nonempty chain. */
  function DecodeFirst(chain: seq<Token>): Value
    requires chain != []
    decreases chain, 0
  {
    var t := chain[0];
    match t.kind
    case NULL_VALUE => Null
    case TRUE => Bool(true)
    case FALSE => Bool(false)
    case NUMBER => Number(if t.text.Some? then t.text.value else "")
    case STRING => Text(if t.text.Some? then t.text.value else "")
    case ARRAY => Array(DecodeItems(t.child))
    case OBJECT => Object(DecodeMembers(chain[1..]))
  }

  function DecodeMembers(chain: seq<Token>): seq<Member>
    decreases chain, 1
  {
    if chain == [] || !IsKey(chain[0]) then []
    else
      var t := chain[0];
      [Member(if t.text.Some? then t.text.value else "", DecodeFirst(t.child))] + DecodeMembers(chain[1..])
  }

  function DecodeItems(chain: seq<Token>): seq<Value>
    decreases chain, 1
  {
    if chain == [] then []
    else
      var skip := if chain[0].kind == OBJECT then 1 + Keys(chain[1..]) else 1;
      [DecodeFirst(chain)] + DecodeItems(chain[skip..])
  }

  // What survives

  /** The value without the contents of the objects that another array element follows. */
  function Strip(v: Value): Value
  {
    match v
    case Array(vs) => Array(StripItems(vs))
    case Object(ms) => Object(StripMembers(ms))
    case _ => v
  }

  function StripItems(vs: seq<Value>): seq<Value>
  {
    if vs == [] then []
    else
      [if |vs| > 1 && vs[0].Object? then Object([]) else Strip(vs[0])] + StripItems(vs[1..])
  }

  function StripMembers(ms: seq<Member>): seq<Member>
  {
    if ms == [] then [] else [Member(ms[0].key, Strip(ms[0].value))] + StripMembers(ms[1..])
  }

  /** No array has an object with members before its last element. */
  predicate Intact(v: Value)
  {
    match v
    case Array(vs) => IntactItems(vs)
    case Object(ms) => forall k :: 0 <= k < |ms| ==> Intact(ms[k].value)
    case _ => true
  }

  predicate IntactItems(vs: seq<Value>)
  {
    forall k :: 0 <= k < |vs| ==>
      Intact(vs[k]) && (k + 1 < |vs| && vs[k].Object? ==> vs[k].members == [])
  }

  // ---- decoding undoes encoding, up to what is stripped ----

  lemma {:induction false} EncodeHead(v: Value)
    ensures !IsKey(Encode(v).head)
    ensures Encode(v).head.kind == OBJECT <==> v.Object?
    ensures !v.Object? ==> Encode(v).next == []
  {
  }

  lemma {:induction false} MembersAreKeys(ms: seq<Member>, rest: seq<Token>)
    requires rest != [] ==> !IsKey(rest[0])
    ensures Keys(EncodeMembers(ms) + rest) == |ms|
    ensures |EncodeMembers(ms)| == |ms|
  {
    hide Encode;
    if ms == [] {
      assert EncodeMembers(ms) + rest == rest;
    } else {
      hide EncodeMembers;
      MembersAreKeys(ms[1..], rest);
      KeysCons(Token(STRING, Some(ms[0].key), Encode(ms[0].value).Chain()), EncodeMembers(ms[1..]) + rest);
      EncodedMembersSplit(ms, rest);
    }
  }

  lemma {:induction false} KeysCons(t: Token, chain: seq<Token>)
    requires IsKey(t)
    ensures Keys([t] + chain) == 1 + Keys(chain)
  {
    assert ([t] + chain)[1..] == chain;
  }

  lemma {:induction false} ItemsHead(vs: seq<Value>)
    requires vs != []
    ensures EncodeItems(vs) != [] && EncodeItems(vs)[0] == Encode(vs[0]).head
  {
  }

  lemma {:induction false} DecodeKey(key: string, below: seq<Token>, rest: seq<Token>)
    requires below != []
    ensures DecodeMembers([Token(STRING, Some(key), below)] + rest)
         == [Member(key, DecodeFirst(below))] + DecodeMembers(rest)
  {
    hide DecodeFirst;
    assert ([Token(STRING, Some(key), below)] + rest)[1..] == rest;
  }

  lemma {:induction false} EncodedMembersSplit(ms: seq<Member>, rest: seq<Token>)
    requires ms != []
    ensures EncodeMembers(ms) + rest
         == [Token(STRING, Some(ms[0].key), Encode(ms[0].value).Chain())] + (EncodeMembers(ms[1..]) + rest)
  {
    hide Encode;
  }

  lemma {:induction false} DecodeEncodedMembers(ms: seq<Member>, rest: seq<Token>)
    requires rest != [] ==> !IsKey(rest[0])
    ensures DecodeMembers(EncodeMembers(ms) + rest) == StripMembers(ms)
    decreases ms, 1
  {
    if ms == [] {
      assert EncodeMembers(ms) + rest == rest;
    } else {
      hide Encode, Strip, DecodeFirst, DecodeMembers, EncodeMembers;
      var below := Encode(ms[0].value).Chain();
      DecodeEncoded(ms[0].value, []);
      assert below + [] == below;
      DecodeEncodedMembers(ms[1..], rest);
      EncodedMembersSplit(ms, rest);
      DecodeKey(ms[0].key, below, EncodeMembers(ms[1..]) + rest);
    }
  }

  lemma {:induction false} DecodeEncoded(v: Value, rest: seq<Token>)
    requires rest != [] ==> !IsKey(rest[0])
    ensures DecodeFirst(Encode(v).Chain() + rest) == Strip(v)
    decreases v, 0
  {
    var chain := Encode(v).Chain() + rest;
    match v
    case Array(vs) => DecodeEncodedItems(vs);
    case Object(ms) =>
      assert chain[1..] == EncodeMembers(ms) + rest;
      DecodeEncodedMembers(ms, rest);
    case _ =>
  }

  /** The last element of an array, with the keys that may follow it. */
  lemma {:induction false} DecodeLast(v: Value)
    requires DecodeFirst(Encode(v).Chain()) == Strip(v)
    ensures DecodeItems(Encode(v).Chain()) == [Strip(v)]
  {
    hide DecodeFirst, Strip, EncodeMembers, Keys;
    EncodeHead(v);
    var chain := Encode(v).Chain();
    if v.Object? {
      MembersAreKeys(v.members, []);
      assert chain[1..] == EncodeMembers(v.members) + [];
      assert chain[1 + Keys(chain[1..])..] == [];
    } else {
      assert chain[1..] == [];
    }
  }

  /** An element that another one follows: an object has lost its keys. */
  lemma {:induction false} DecodeInner(v: Value, more: seq<Token>)
    requires more != [] && !IsKey(more[0])
    requires DecodeFirst(Encode(v).Chain() + more) == Strip(v)
    ensures DecodeItems([Encode(v).head] + more) == [if v.Object? then Object([]) else Strip(v)] + DecodeItems(more)
  {
    hide Strip, EncodeMembers;
    EncodeHead(v);
    var chain := [Encode(v).head] + more;
    assert chain[1..] == more;
    if v.Object? {
      assert Keys(chain[1..]) == 0 && DecodeMembers(chain[1..]) == [];
    } else {
      assert Encode(v).Chain() + more == chain;
    }
  }

  lemma {:induction false} DecodeEncodedItems(vs: seq<Value>)
    ensures DecodeItems(EncodeItems(vs)) == StripItems(vs)
    decreases vs, 1
  {
    if vs != [] {
      if |vs| == 1 {
        DecodeEncoded(vs[0], []);
        assert Encode(vs[0]).Chain() + [] == Encode(vs[0]).Chain();
        DecodeLast(vs[0]);
      } else {
        hide DecodeItems, Encode, Strip, DecodeFirst;
        var more := EncodeItems(vs[1..]);
        ItemsHead(vs[1..]);
        EncodeHead(vs[1]);
        DecodeEncodedItems(vs[1..]);
        DecodeEncoded(vs[0], more);
        DecodeInner(vs[0], more);
      }
    }
  }

  /** What a reader of the token tree gets back from any value. */
  lemma {:induction false} ReadBack(v: Value)
    ensures DecodeFirst(Encode(v).Chain()) == Strip(v)
  {
    DecodeEncoded(v, []);
    assert Encode(v).Chain() + [] == Encode(v).Chain();
  }

  lemma {:induction false} StripIntact(v: Value)
    ensures Strip(v) == v <==> Intact(v)
    decreases v, 0
  {
    match v
    case Array(vs) => StripIntactItems(vs);
    case Object(ms) => StripIntactMembers(ms);
    case _ =>
  }

  lemma {:induction false} StripIntactItems(vs: seq<Value>)
    ensures StripItems(vs) == vs <==> IntactItems(vs)
    decreases vs, 1
  {
    if vs != [] {
      StripIntact(vs[0]);
      StripIntactItems(vs[1..]);
      assert vs == [vs[0]] + vs[1..];
      assert IntactItems(vs) ==> IntactItems(vs[1..]);
    }
  }

  lemma {:induction false} StripIntactMembers(ms: seq<Member>)
    ensures StripMembers(ms) == ms <==> forall k :: 0 <= k < |ms| ==> Intact(ms[k].value)
    decreases ms, 1
  {
    if ms != [] {
      StripIntact(ms[0].value);
      StripIntactMembers(ms[1..]);
      assert ms == [ms[0]] + ms[1..];
    }
  }

  /** `DecodeFirst`, which takes an object whose keys were overwritten for an empty one, gives the
      value itself exactly when no object with members is followed by another element. */
  lemma {:induction false} ReadBackExact(v: Value)
    ensures DecodeFirst(Encode(v).Chain()) == v <==> Intact(v)
  {
    ReadBack(v);
    StripIntact(v);
  }

  // ---- which trees determine their value ----

  lemma {:induction false} StripHead(v: Value)
    ensures Strip(v).Object? <==> v.Object?
    ensures Encode(Object([])) == Link(Token(OBJECT, None, []), [])
    ensures v.Object? ==> Encode(v).head == Token(OBJECT, None, [])
  {}

  /** What an object loses in an array was not in the tree. */
  lemma {:induction false} EncodeStripped(v: Value)
    ensures Encode(Strip(v)) == Encode(v)
    decreases v, 0
  {
    match v
    case Array(vs) => EncodeStrippedItems(vs);
    case Object(ms) => EncodeStrippedMembers(ms);
    case _ =>
  }

  lemma {:induction false} EncodeStrippedItems(vs: seq<Value>)
    ensures EncodeItems(StripItems(vs)) == EncodeItems(vs) && |StripItems(vs)| == |vs|
    decreases vs, 1
  {
    if vs != [] {
      hide Encode, Strip;
      var us := StripItems(vs);
      EncodeStrippedItems(vs[1..]);
      EncodeStripped(vs[0]);
      StripHead(vs[0]);
      assert us[1..] == StripItems(vs[1..]);
    }
  }

  lemma {:induction false} EncodeStrippedMembers(ms: seq<Member>)
    ensures EncodeMembers(StripMembers(ms)) == EncodeMembers(ms)
    decreases ms, 1
  {
    if ms != [] {
      hide Encode, Strip;
      EncodeStrippedMembers(ms[1..]);
      EncodeStripped(ms[0].value);
      assert StripMembers(ms)[1..] == StripMembers(ms[1..]);
    }
  }

  /** Two values share a tree exactly when they differ only in what is stripped. */
  lemma {:induction false} SameTree(u: Value, v: Value)
    ensures Encode(u) == Encode(v) <==> Strip(u) == Strip(v)
  {
    hide Encode, Strip, DecodeFirst;
    ReadBack(u);
    ReadBack(v);
    EncodeStripped(u);
    EncodeStripped(v);
  }

  /** No array has an object, empty or not, before its last element. */
  predicate Settled(v: Value)
  {
    match v
    case Array(vs) => SettledItems(vs)
    case Object(ms) => SettledMembers(ms)
    case _ => true
  }

  predicate SettledItems(vs: seq<Value>)
  {
    vs != [] ==> Settled(vs[0]) && SettledItems(vs[1..]) && (|vs| > 1 ==> !vs[0].Object?)
  }

  predicate SettledMembers(ms: seq<Member>)
  {
    ms != [] ==> Settled(ms[0].value) && SettledMembers(ms[1..])
  }

  /** The value with a member put into every object that another element follows. */
  function Fill(v: Value): Value
  {
    match v
    case Array(vs) => Array(FillItems(vs))
    case Object(ms) => Object(FillMembers(ms))
    case _ => v
  }

  function FillItems(vs: seq<Value>): seq<Value>
  {
    if vs == [] then []
    else
      [if |vs| > 1 && vs[0].Object? then Object([Member("a", Null)]) else Fill(vs[0])] + FillItems(vs[1..])
  }

  function FillMembers(ms: seq<Member>): seq<Member>
  {
    if ms == [] then [] else [Member(ms[0].key, Fill(ms[0].value))] + FillMembers(ms[1..])
  }

  lemma {:induction false} StripFill(v: Value)
    ensures Strip(Fill(v)) == Strip(v)
    decreases v, 0
  {
    match v
    case Array(vs) => StripFillItems(vs);
    case Object(ms) => StripFillMembers(ms);
    case _ =>
  }

  lemma {:induction false} FillHead(v: Value)
    ensures Fill(v).Object? <==> v.Object?
  {}

  lemma {:induction false} StripFillItems(vs: seq<Value>)
    ensures StripItems(FillItems(vs)) == StripItems(vs) && |FillItems(vs)| == |vs|
    decreases vs, 1
  {
    if vs != [] {
      hide Strip, Fill;
      StripFillItems(vs[1..]);
      StripFill(vs[0]);
      FillHead(vs[0]);
      assert FillItems(vs)[1..] == FillItems(vs[1..]);
    }
  }

  lemma {:induction false} StripFillMembers(ms: seq<Member>)
    ensures StripMembers(FillMembers(ms)) == StripMembers(ms)
    decreases ms, 1
  {
    if ms != [] {
      hide Strip, Fill;
      StripFillMembers(ms[1..]);
      StripFill(ms[0].value);
      assert FillMembers(ms)[1..] == FillMembers(ms[1..]);
    }
  }

  lemma {:induction false} Pinned(v: Value)
    requires Strip(v) == v && Fill(v) == v
    ensures Settled(v)
    decreases v, 0
  {
    match v
    case Array(vs) => PinnedItems(vs);
    case Object(ms) => PinnedMembers(ms);
    case _ =>
  }

  lemma {:induction false} PinnedItems(vs: seq<Value>)
    requires StripItems(vs) == vs && FillItems(vs) == vs
    ensures SettledItems(vs)
    decreases vs, 1
  {
    if vs != [] {
      hide Strip, Fill, Settled;
      assert StripItems(vs)[1..] == StripItems(vs[1..]) && FillItems(vs)[1..] == FillItems(vs[1..]);
      PinnedItems(vs[1..]);
      if |vs| > 1 && vs[0].Object? {
        assert StripItems(vs)[0] == Object([]) && FillItems(vs)[0] == Object([Member("a", Null)]);
      } else {
        assert StripItems(vs)[0] == Strip(vs[0]) && FillItems(vs)[0] == Fill(vs[0]);
        Pinned(vs[0]);
      }
    }
  }

  lemma {:induction false} PinnedMembers(ms: seq<Member>)
    requires StripMembers(ms) == ms && FillMembers(ms) == ms
    ensures SettledMembers(ms)
    decreases ms, 1
  {
    if ms != [] {
      hide Strip, Fill, Settled;
      assert StripMembers(ms)[1..] == StripMembers(ms[1..]) && FillMembers(ms)[1..] == FillMembers(ms[1..]);
      assert StripMembers(ms)[0].value == Strip(ms[0].value) && FillMembers(ms)[0].value == Fill(ms[0].value);
      PinnedMembers(ms[1..]);
      Pinned(ms[0].value);
    }
  }

  /** Nothing but itself is stripped to a settled value. */
  lemma {:induction false} OnlyItself(u: Value, v: Value)
    requires Strip(u) == v && Settled(v)
    ensures u == v
    decreases u, 0
  {
    match u
    case Array(us) => OnlyItselfItems(us, v.items);
    case Object(ms) => OnlyItselfMembers(ms, v.members);
    case _ =>
  }

  lemma {:induction false} OnlyItselfItems(us: seq<Value>, vs: seq<Value>)
    requires StripItems(us) == vs && SettledItems(vs)
    ensures us == vs
    decreases us, 1
  {
    if us != [] {
      hide Strip, Settled;
      StripLength(us);
      assert vs[1..] == StripItems(us[1..]);
      OnlyItselfItems(us[1..], vs[1..]);
      OnlyItself(us[0], vs[0]);
      assert us == [us[0]] + us[1..];
      assert vs == [vs[0]] + vs[1..];
    }
  }

  lemma {:induction false} StripLength(vs: seq<Value>)
    ensures |StripItems(vs)| == |vs|
  {
    if vs != [] {
      StripLength(vs[1..]);
    }
  }

  lemma {:induction false} OnlyItselfMembers(ms: seq<Member>, ns: seq<Member>)
    requires StripMembers(ms) == ns && SettledMembers(ns)
    ensures ms == ns
    decreases ms, 1
  {
    if ms != [] {
      hide Strip, Settled;
      assert ns[1..] == StripMembers(ms[1..]);
      OnlyItselfMembers(ms[1..], ns[1..]);
      OnlyItself(ms[0].value, ns[0].value);
      assert ms == [ms[0]] + ms[1..];
      assert ns == [ns[0]] + ns[1..];
    }
  }

  /** No other value has the same tree. */
  ghost predicate Determined(v: Value)
  {
    forall u :: Encode(u) == Encode(v) ==> u == v
  }

  /** A tree determines its value exactly when no object stands before the last element of an array. */
  lemma {:induction false} TreeDetermines(v: Value)
    ensures Determined(v) <==> Settled(v)
  {
    hide Encode, Strip, Fill, Settled;
    if Settled(v) {
      forall u | Encode(u) == Encode(v) ensures u == v {
        SameTree(u, v);
        SettledStrips(v);
        OnlyItself(u, v);
      }
    } else {
      SameTree(Strip(v), v);
      SameTree(Fill(v), v);
      EncodeStripped(v);
      StripFill(v);
      if Strip(v) == v && Fill(v) == v {
        Pinned(v);
      }
    }
  }

  lemma {:induction false} SettledStrips(v: Value)
    requires Settled(v)
    ensures Strip(v) == v
    decreases v, 0
  {
    match v
    case Array(vs) => SettledStripsItems(vs);
    case Object(ms) => SettledStripsMembers(ms);
    case _ =>
  }

  lemma {:induction false} SettledStripsItems(vs: seq<Value>)
    requires SettledItems(vs)
    ensures StripItems(vs) == vs
    decreases vs, 1
  {
    if vs != [] {
      hide Strip, Settled;
      SettledStripsItems(vs[1..]);
      SettledStrips(vs[0]);
      assert vs == [vs[0]] + vs[1..];
    }
  }

  lemma {:induction false} SettledStripsMembers(ms: seq<Member>)
    requires SettledMembers(ms)
    ensures StripMembers(ms) == ms
    decreases ms, 1
  {
    if ms != [] {
      hide Strip, Settled;
      SettledStripsMembers(ms[1..]);
      SettledStrips(ms[0].value);
      assert ms == [ms[0]] + ms[1..];
    }
  }

  /** An array whose first object is empty shares its tree with one whose first object is not. */
  lemma {:induction false} TreeShared()
    ensures var u, v := Array([Object([]), Null]), Array([Object([Member("a", Null)]), Null]);
      Intact(u) && u != v && Encode(u) == Encode(v)
  {
    var u, v := Array([Object([]), Null]), Array([Object([Member("a", Null)]), Null]);
    assert Strip(u) == u && Strip(v) == u by {
      assert [Object([]), Null][1..] == [Null] && [Object([Member("a", Null)]), Null][1..] == [Null];
      assert StripItems([Null]) == [Null];
    }
    SameTree(u, v);
    StripIntact(u);
  }
}
