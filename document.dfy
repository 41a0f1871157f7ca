/** The project document as an abstract tree. The XML text itself, and how
    pugixml reads and writes it, are not modelled: a node has a tag, its
    attributes, its character data and its element children in order. The
    string conversions pugixml performs (`as_int`, `as_bool`, `set(...)`, and
    the `std::stoi`/`std::stof` calls of the parser) are taken as given
    through the `Conv` record. */
module Document {
  import opened Common

  datatype Node = Node(tag: string, attrs: map<string, string>, text: string, children: seq<Node>)

  /** pugixml's null node: what `child(name)` returns when there is no such
      child. It has no attributes, no text and no children. */
  const Null: Node := Node("", map[], "", [])

  /** `attribute(key).as_string()`: the text, or "" when the attribute is missing. */
  function AttrText(n: Node, key: string): string
  {
    if key in n.attrs then n.attrs[key] else ""
  }

  /** The element children with the given tag, in document order
      (`children(tag)`). */
  function Named(kids: seq<Node>, tag: string): (r: seq<Node>)
    ensures |r| <= |kids|
    ensures forall i :: 0 <= i < |r| ==> r[i].tag == tag && r[i] in kids
    ensures forall c :: c in kids && c.tag == tag ==> c in r
    decreases |kids|
  {
    if kids == [] then []
    else if kids[|kids| - 1].tag == tag then Named(kids[..|kids| - 1], tag) + [kids[|kids| - 1]]
    else Named(kids[..|kids| - 1], tag)
  }

  function ChildrenNamed(n: Node, tag: string): seq<Node>
  {
    Named(n.children, tag)
  }

  /** `child(tag)`: the first child with the tag, or the null node. */
  function Child(n: Node, tag: string): (c: Node)
    ensures c == Null || (c in n.children && c.tag == tag)
    ensures c != Null ==> forall j :: 0 <= j < |n.children| && n.children[j].tag == tag ==> n.children[j] == c || exists i :: 0 <= i < j && n.children[i] == c
  {
    FirstNamed(n.children, tag)
  }

  function FirstNamed(kids: seq<Node>, tag: string): (c: Node)
    ensures c == Null || (c in kids && c.tag == tag)
    ensures (forall i :: 0 <= i < |kids| ==> kids[i].tag != tag) ==> c == Null
    ensures c != Null ==> forall j :: 0 <= j < |kids| && kids[j].tag == tag ==> kids[j] == c || exists i :: 0 <= i < j && kids[i] == c
    decreases |kids|
  {
    if kids == [] then Null
    else if kids[0].tag == tag then kids[0]
    else
      var c := FirstNamed(kids[1..], tag);
      assert forall i :: 0 < i < |kids| ==> kids[i] == kids[1..][i - 1];
      c
  }

  /** Selecting children by tag distributes over concatenation. */
  lemma {:induction false} NamedAppend(a: seq<Node>, b: seq<Node>, tag: string)
    ensures Named(a + b, tag) == Named(a, tag) + Named(b, tag)
    decreases |b|
  {
    if b == [] {
      assert a + b == a;
    } else {
      assert (a + b)[..|a + b| - 1] == a + b[..|b| - 1];
      NamedAppend(a, b[..|b| - 1], tag);
    }
  }

  /** No child with the tag, nothing selected. */
  lemma {:induction false} NamedNone(kids: seq<Node>, tag: string)
    requires forall i :: 0 <= i < |kids| ==> kids[i].tag != tag
    ensures Named(kids, tag) == []
    decreases |kids|
  {
    if kids != [] {
      NamedNone(kids[..|kids| - 1], tag);
    }
  }

  /** The first child with a tag lies past a run without it. */
  lemma {:induction false} FirstNamedSkip(a: seq<Node>, b: seq<Node>, tag: string)
    requires forall i :: 0 <= i < |a| ==> a[i].tag != tag
    ensures FirstNamed(a + b, tag) == FirstNamed(b, tag)
    decreases |a|
  {
    if a == [] {
      assert a + b == b;
    } else {
      assert (a + b)[0] == a[0] && (a + b)[1..] == a[1..] + b;
      FirstNamedSkip(a[1..], b, tag);
    }
  }

  /** The string conversions of pugixml and of the C++ library that the
      parser relies on. A `None` from `parseInt`/`parseFloat` stands for the
      exception `std::stoi`/`std::stof` throw on text that is not a number. */
  datatype Conv = Conv(
    asInt: string -> int,
    asUint: string -> nat,
    asBool: string -> bool,
    asFloat: string -> Scalar,
    uintAsFloat: string -> Scalar,   // `as_uint()` stored into a float field
    byteAsColor: string -> Scalar,   // `as_int() / 255.0f`
    intText: int -> string,
    boolText: bool -> string,
    floatText: Scalar -> string,
    parseInt: string -> Option<int>,
    parseFloat: string -> Option<Scalar>)

  /** What writing a value and reading it back must give: the identity. */
  ghost predicate Coherent(cv: Conv)
  {
    && (forall i :: cv.asInt(cv.intText(i)) == i)
    && (forall n: nat :: cv.asUint(cv.intText(n)) == n)
    && (forall b :: cv.asBool(cv.boolText(b)) == b)
    && (forall x :: cv.asFloat(cv.floatText(x)) == x)
  }

  /** `attribute(key).as_int()`: 0 when the attribute is missing. */
  function AttrInt(cv: Conv, n: Node, key: string): int
  {
    if key in n.attrs then cv.asInt(n.attrs[key]) else 0
  }

  /** `attribute(key).as_bool()`: false when the attribute is missing. */
  function AttrBool(cv: Conv, n: Node, key: string): bool
  {
    if key in n.attrs then cv.asBool(n.attrs[key]) else false
  }

  /** `attribute(key).as_float()`: 0 when the attribute is missing. */
  function AttrFloat(cv: Conv, n: Node, key: string): Scalar
  {
    if key in n.attrs then cv.asFloat(n.attrs[key]) else Zero
  }

  /** A child element holding only character data, as the writer appends
      with `append_child(tag).text().set(...)`. */
  function TextNode(tag: string, text: string): (n: Node)
    ensures n.tag == tag && n.text == text && n.children == []
  {
    Node(tag, map[], text, [])
  }

  /** The effect of a loop `for (child : node.children()) s = step(s, child)`. */
  function Fold<S>(s: S, kids: seq<Node>, step: (S, Node) -> S): S
    decreases |kids|
  {
    if kids == [] then s else step(Fold(s, kids[..|kids| - 1], step), kids[|kids| - 1])
  }

  lemma {:induction false} FoldAppend<S>(s: S, a: seq<Node>, b: seq<Node>, step: (S, Node) -> S)
    ensures Fold(s, a + b, step) == Fold(Fold(s, a, step), b, step)
    decreases |b|
  {
    if b == [] {
      assert a + b == a;
    } else {
      var b' := b[..|b| - 1];
      assert (a + b)[..|a + b| - 1] == a + b';
      FoldAppend(s, a, b', step);
    }
  }

  lemma FoldOne<S>(s: S, n: Node, step: (S, Node) -> S)
    ensures Fold(s, [n], step) == step(s, n)
  {
    assert [n][..0] == [];
  }

  /** The reading loop over the children of an element. */
  method ReadChildren<S>(s0: S, kids: seq<Node>, step: (S, Node) -> S) returns (s: S)
    ensures s == Fold(s0, kids, step)
  {
    s := s0;
    var i := 0;
    while i < |kids|
      invariant 0 <= i <= |kids|
      invariant s == Fold(s0, kids[..i], step)
    {
      assert kids[..i + 1][..i] == kids[..i];
      s := step(s, kids[i]);
      i := i + 1;
    }
    assert kids[..i] == kids;
  }

  /** A child `<tag>text</tag>` the writer appends when `present` holds:
      `if (present) node.append_child(tag).text().set(text)`. */
  datatype Entry = Entry(present: bool, tag: string, text: string)

  /** The children a run of such appends leaves, in order. */
  function Emit(es: seq<Entry>): (r: seq<Node>)
    ensures |r| <= |es|
    decreases |es|
  {
    if es == [] then []
    else
      var e := es[|es| - 1];
      var prefix := Emit(es[..|es| - 1]);
      if e.present then prefix + [TextNode(e.tag, e.text)] else prefix
  }

  /** The reading loop's step over one entry: nothing when it was not written. */
  function Do<S>(s: S, e: Entry, step: (S, Node) -> S): S
  {
    if e.present then step(s, TextNode(e.tag, e.text)) else s
  }

  /** The reading loop run over what `Emit(es)` produced, entry by entry. */
  function Replay<S>(s: S, es: seq<Entry>, step: (S, Node) -> S): S
    decreases |es|
  {
    if es == [] then s else Do(Replay(s, es[..|es| - 1], step), es[|es| - 1], step)
  }

  lemma {:induction false} FoldEmit<S>(s: S, es: seq<Entry>, step: (S, Node) -> S)
    ensures Fold(s, Emit(es), step) == Replay(s, es, step)
    decreases |es|
  {
    if es != [] {
      var e := es[|es| - 1];
      var prefix := Emit(es[..|es| - 1]);
      FoldEmit(s, es[..|es| - 1], step);
      if e.present {
        assert (prefix + [TextNode(e.tag, e.text)])[..|prefix|] == prefix;
      }
    }
  }

  /** One more entry of a replay. */
  lemma ReplayPrefix<S>(s: S, es: seq<Entry>, k: nat, step: (S, Node) -> S)
    requires k < |es|
    ensures Replay(s, es[..k + 1], step) == Do(Replay(s, es[..k], step), es[k], step)
  {
    assert es[..k + 1][..k] == es[..k];
  }

  /** Replaying two runs of entries is replaying the first, then the second. */
  lemma {:induction false} ReplayAppend<S>(s: S, a: seq<Entry>, b: seq<Entry>, step: (S, Node) -> S)
    ensures Replay(s, a + b, step) == Replay(Replay(s, a, step), b, step)
    decreases |b|
  {
    if b == [] {
      assert a + b == a;
    } else {
      assert (a + b)[..|a + b| - 1] == a + b[..|b| - 1];
      ReplayAppend(s, a, b[..|b| - 1], step);
    }
  }

  lemma Replay3<S>(s: S, e0: Entry, e1: Entry, e2: Entry, step: (S, Node) -> S)
    ensures Replay(s, [e0, e1, e2], step) == Do(Do(Do(s, e0, step), e1, step), e2, step)
  {
    var es := [e0, e1, e2];
    assert es[..0] == [];
    ReplayPrefix(s, es, 0, step);
    ReplayPrefix(s, es, 1, step);
    ReplayPrefix(s, es, 2, step);
    assert es[..3] == es;
  }

  lemma Replay4<S>(s: S, e0: Entry, e1: Entry, e2: Entry, e3: Entry, step: (S, Node) -> S)
    ensures Replay(s, [e0, e1, e2, e3], step) == Do(Do(Do(Do(s, e0, step), e1, step), e2, step), e3, step)
  {
    var es := [e0, e1, e2, e3];
    assert es[..3] == [e0, e1, e2];
    Replay3(s, e0, e1, e2, step);
    ReplayPrefix(s, es, 3, step);
    assert es[..4] == es;
  }

  lemma Replay5<S>(s: S, e0: Entry, e1: Entry, e2: Entry, e3: Entry, e4: Entry, step: (S, Node) -> S)
    ensures Replay(s, [e0, e1, e2, e3, e4], step) == Do(Do(Do(Do(Do(s, e0, step), e1, step), e2, step), e3, step), e4, step)
  {
    var es := [e0, e1, e2, e3, e4];
    assert es[..4] == [e0, e1, e2, e3];
    Replay4(s, e0, e1, e2, e3, step);
    ReplayPrefix(s, es, 4, step);
    assert es[..5] == es;
  }

  lemma {:induction false} EmitAppend(a: seq<Entry>, b: seq<Entry>)
    ensures Emit(a + b) == Emit(a) + Emit(b)
    decreases |b|
  {
    if b == [] {
      assert a + b == a;
    } else {
      assert (a + b)[..|a + b| - 1] == a + b[..|b| - 1];
      EmitAppend(a, b[..|b| - 1]);
    }
  }

  /** Nothing is written when no entry is present. */
  lemma {:induction false} EmitNone(es: seq<Entry>)
    requires forall k :: 0 <= k < |es| ==> !es[k].present
    ensures Emit(es) == []
    decreases |es|
  {
    if es != [] {
      EmitNone(es[..|es| - 1]);
    }
  }

  /** A property every step keeps holds after the whole reading loop. */
  lemma {:induction false} FoldPreserves<S>(s: S, kids: seq<Node>, step: (S, Node) -> S, inv: S -> bool)
    requires inv(s)
    requires forall t: S, n: Node :: inv(t) ==> inv(step(t, n))
    ensures inv(Fold(s, kids, step))
    decreases |kids|
  {
    if kids != [] {
      FoldPreserves(s, kids[..|kids| - 1], step, inv);
    }
  }
}
