/** Owner paths of documents a parser can deliver: element names are names, and only namespace names and
    identifiers are free text. Exactly which bases can then be confused with a longer path. */
module XmlNames {
  import opened Options
  import opened XmlPaths

  // ---- Legal names (section 2.3 of XML 1.0, without the colon that namespaces reserve) ----

  predicate NameStart(c: char) {
    || 'A' <= c <= 'Z' || 'a' <= c <= 'z' || c == '_' || '\U{C0}' <= c <= '\U{D6}' || '\U{D8}' <= c <= '\U{F6}'
    || '\U{F8}' <= c <= '\U{2FF}' || '\U{370}' <= c <= '\U{37D}' || '\U{37F}' <= c <= '\U{1FFF}'
    || '\U{200C}' <= c <= '\U{200D}'
    || '\U{2070}' <= c <= '\U{218F}' || '\U{2C00}' <= c <= '\U{2FEF}' || '\U{3001}' <= c <= '\U{D7FF}'
    || '\U{F900}' <= c <= '\U{FDCF}' || '\U{FDF0}' <= c <= '\U{FFFD}' || '\U{10000}' <= c <= '\U{EFFFF}'
  }

  predicate NameChar(c: char) {
    || NameStart(c) || c == '-' || c == '.' || '0' <= c <= '9' || c == '\U{B7}' || '\U{300}' <= c <= '\U{36F}'
    || '\U{203F}' <= c <= '\U{2040}'
  }

  predicate LocalName(s: string) {
    s != "" && NameStart(s[0]) && forall i :: 0 <= i < |s| ==> NameChar(s[i])
  }

  /** The local name after the brace at `i` that ends a namespace name. The parser separates the two by that brace and
      refuses a namespace name that contains one. */
  predicate QualifiedAt(tag: string, i: nat) {
    2 <= i < |tag| && tag[0] == '{' && '}' !in tag[..i] && tag[i] == '}' && LocalName(tag[i + 1..])
  }

  /** An ElementTree tag: `local` or `{namespace}local`. */
  ghost predicate LegalTag(tag: string) { LocalName(tag) || exists i :: QualifiedAt(tag, i) }

  ghost predicate Legal(node: Node)
    decreases node
  {
    LegalTag(node.tag) && forall i :: 0 <= i < |node.children| ==> Legal(node.children[i])
  }

  /** What a base is made of. */
  datatype Shape = Shape(tag: string, identifier: Option<string>)

  function Spelled(shape: Shape): string {
    shape.tag + if shape.identifier.Some? then "=" + shape.identifier.value else ""
  }

  ghost predicate BaseShaped(b: string) { exists shape: Shape :: LegalTag(shape.tag) && Spelled(shape) == b }

  lemma {:induction false} BaseIsShaped(node: Node)
    requires LegalTag(node.tag)
    ensures BaseShaped(Base(node))
  {
    assert Spelled(Shape(node.tag, Identifier(node))) == Base(node);
  }

  // ---- Reading a base as a path ----

  /** A text cut at seams into pieces that are bases; the last piece is a base, or begins a namespace name. */
  datatype Split = Whole(base: string) | Opening(text: string) | Piece(base: string, index: nat, rest: Split)

  ghost predicate Valid(split: Split) {
    match split
    case Whole(base) => BaseShaped(base)
    case Opening(text) => text != "" && text[0] == '{' && '}' !in text
    case Piece(base, _, rest) => BaseShaped(base) && Valid(rest)
  }

  function Text(split: Split): string {
    match split
    case Whole(base) => base
    case Opening(text) => text
    case Piece(base, index, rest) => base + Seam(index) + Text(rest)
  }

  /** The base can be cut into two or more pieces. */
  ghost predicate Fragile(b: string) { exists split: Split :: split.Piece? && Valid(split) && Text(split) == b }

  lemma {:induction false} FragileBreaks(b: string)
    requires Fragile(b)
    ensures Breaks(b) && '[' in b
  {
    var split: Split :| split.Piece? && Valid(split) && Text(split) == b;
    assert b[|split.base|..|split.base| + |Seam(split.index)|] == Seam(split.index);
    assert BreaksAt(b, |split.base|, split.index);
    SeamNeedsBracket(b);
  }

  /** A path below a node, step by step. */
  datatype PathStep = PathStep(base: string, index: nat)

  function Spell(trail: seq<PathStep>): string {
    if trail == [] then "" else "/" + (Segment(trail[0].base, trail[0].index) + Spell(trail[1..]))
  }

  ghost predicate Shaped(trail: seq<PathStep>) { forall i :: 0 <= i < |trail| ==> BaseShaped(trail[i].base) }

  lemma {:induction false} SpellCons(step: PathStep, below: seq<PathStep>)
    ensures Spell([step] + below) == "/" + (Segment(step.base, step.index) + Spell(below))
  {
    assert ([step] + below)[1..] == below;
  }

  lemma {:induction false} ListingTrail(node: Node, key: string, k: nat) returns (trail: seq<PathStep>)
    requires Legal(node) && k < |Listing(node, key)|
    ensures Shaped(trail) && Listing(node, key)[k].key == key + Spell(trail)
    decreases node
  {
    if k == 0 {
      trail := [];
    } else {
      var j, l := EntryOfChild(node.children, 0, key, k - 1);
      trail := ChildTrail(node, key, j, l);
      BelowChild(node, key, k - 1);
    }
  }

  lemma {:induction false} ChildTrail(node: Node, key: string, j: nat, l: nat) returns (trail: seq<PathStep>)
    requires Legal(node) && j < |node.children| && l < |Listing(node.children[j], ChildKey(node.children, j, key))|
    ensures trail != []
    ensures trail[0] == PathStep(Base(node.children[j]), Earlier(node.children, Base(node.children[j]), j))
    ensures Shaped(trail) && Listing(node.children[j], ChildKey(node.children, j, key))[l].key == key + Spell(trail)
    decreases node, 0
  {
    var child := node.children[j];
    var step := PathStep(Base(child), Earlier(node.children, Base(child), j));
    var below := ListingTrail(child, ChildKey(node.children, j, key), l);
    trail := [step] + below;
    BaseIsShaped(child);
    SpellCons(step, below);
    Joined(key, Segment(step.base, step.index), Spell(below));
  }

  lemma {:induction false} Joined(key: string, segment: string, below: string)
    ensures key + "/" + segment + below == key + ("/" + (segment + below))
  {
  }

  lemma {:induction false} SpellIsTail(trail: seq<PathStep>)
    ensures Tail(Spell(trail))
  {
  }

  /** The tag of a base has no opening bracket outside its namespace name: none at all in `head`, or none after the
      brace. */
  lemma {:induction false} BracketAfterTag(tag: string, head: string)
    requires LegalTag(tag) && (head == "" || head[0] != '{' || '}' in head) && |head| < |tag| && head <= tag
    ensures tag[|head|] != '['
  {
    if !LocalName(tag) {
      var i: nat :| QualifiedAt(tag, i);
      assert head == tag[..|head|];
      assert forall k :: 0 <= k < i && k < |head| ==> tag[..i][k] == head[k] != '}';
      if i < |head| {
        assert tag[i + 1..][|head| - i - 1] == tag[|head|];
      }
    }
  }

  /** A text before a seam inside a base, when it does not stop within a namespace name, is a base itself. */
  lemma {:induction false} HeadShaped(b: string, head: string, n: nat)
    requires BaseShaped(b) && head + Seam(n) <= b && (head == "" || head[0] != '{' || '}' in head)
    ensures BaseShaped(head)
  {
    var shape: Shape :| LegalTag(shape.tag) && Spelled(shape) == b;
    var tag := shape.tag;
    assert Seam(n)[0] == '[' && b[|head|] == (head + Seam(n))[|head|] == '[';
    assert head == b[..|head|] && tag == b[..|tag|];
    if |head| < |tag| {
      assert head == tag[..|head|];
      BracketAfterTag(tag, head);
    }
    assert |tag| < |head| && shape.identifier.Some? by {
      assert |tag| <= |head| && (shape.identifier.Some? ==> b[|tag|] == '=');
    }
    CutIdentifier(tag, shape.identifier.value, head);
  }

  lemma {:induction false} CutIdentifier(tag: string, identifier: string, head: string)
    requires LegalTag(tag) && |tag| < |head| && head <= tag + "=" + identifier
    ensures BaseShaped(head)
  {
    var kept := identifier[..|head| - |tag| - 1];
    assert head == tag + "=" + kept;
    assert Spelled(Shape(tag, Some(kept))) == head;
  }

  /** Where a segment with what follows reads as a shorter segment with what follows, the longer base is fragile. */
  lemma {:induction false} OverlapSplits(b: string, m: nat, t: seq<PathStep>, c: string, n: nat, u: seq<PathStep>)
      returns (split: Split)
    requires BaseShaped(b) && Shaped(t) && Shaped(u)
    requires Segment(b, m) + Spell(t) == Segment(c, n) + Spell(u) && |Segment(b, m)| < |Segment(c, n)|
    ensures split.Piece? && Valid(split) && Text(split) == c && |b| < |c|
    decreases |c|, 0
  {
    var rest := OverlapRest(b, m, t, c, n, u);
    var tail := RestSplits(t[0].base, t[0].index, t[1..], rest, n, u);
    split := Piece(b, m, tail);
  }

  lemma {:induction false} Cancel(s: string, x: string, y: string)
    requires s + x == s + y
    ensures x == y
  {
    assert x == (s + x)[|s|..] && y == (s + y)[|s|..];
  }

  lemma {:induction false} SegmentAfter(head: string, rest: string, n: nat)
    ensures Segment(head + rest, n) == head + Segment(rest, n)
  {
  }

  lemma {:induction false} Peeled(b: string, m: nat, x: string, c: string, n: nat, y: string) returns (rest: string)
    requires Tail(x) && Segment(b, m) + x == Segment(c, n) + y && |Segment(b, m)| < |Segment(c, n)|
    ensures c == b + Seam(m) + rest && x == "/" + (Segment(rest, n) + y)
  {
    var head := b + Seam(m);
    assert head <= c by { OverlapBreaks(b, m, x, c, n, y); }
    rest := c[|head|..];
    assert c == head + rest;
    SegmentAfter(head, rest, n);
    assert head == Segment(b, m) + "/";
    PeelOff(Segment(b, m), x, Segment(rest, n), y);
  }

  lemma {:induction false} PeelOff(s: string, x: string, r: string, y: string)
    requires s + x == s + "/" + r + y
    ensures x == "/" + (r + y)
  {
    assert s + "/" + r + y == s + ("/" + (r + y));
    Cancel(s, x, "/" + (r + y));
  }

  /** What the longer base leaves after the shorter segment is read on along the other path. */
  lemma {:induction false} OverlapRest(b: string, m: nat, t: seq<PathStep>, c: string, n: nat, u: seq<PathStep>)
      returns (rest: string)
    requires Segment(b, m) + Spell(t) == Segment(c, n) + Spell(u) && |Segment(b, m)| < |Segment(c, n)|
    ensures c == b + Seam(m) + rest && t != []
    ensures Segment(t[0].base, t[0].index) + Spell(t[1..]) == Segment(rest, n) + Spell(u)
  {
    SpellIsTail(t);
    rest := Peeled(b, m, Spell(t), c, n, Spell(u));
    assert t != [];
    Cancel("/", Segment(t[0].base, t[0].index) + Spell(t[1..]), Segment(rest, n) + Spell(u));
  }

  lemma {:induction false} RestSplits(b: string, m: nat, t: seq<PathStep>, rest: string, n: nat, u: seq<PathStep>)
      returns (split: Split)
    requires BaseShaped(b) && Shaped(t) && Shaped(u)
    requires Segment(b, m) + Spell(t) == Segment(rest, n) + Spell(u)
    ensures Valid(split) && Text(split) == rest
    decreases |rest|, 1
  {
    var s, r := Segment(b, m), Segment(rest, n);
    if |s| == |r| {
      assert s == (s + Spell(t))[..|s|] && r == (r + Spell(u))[..|s|];
      SegmentInjective(b, m, rest, n);
      split := Whole(rest);
    } else if |s| < |r| {
      split := OverlapSplits(b, m, t, rest, n, u);
    } else {
      SpellIsTail(u);
      OverlapBreaks(rest, n, Spell(u), b, m, Spell(t));
      if rest != "" && rest[0] == '{' && '}' !in rest {
        split := Opening(rest);
      } else {
        HeadShaped(b, rest, n);
        split := Whole(rest);
      }
    }
  }

  // ---- No collision without a fragile base ----

  ghost predicate Solid(node: Node)
    decreases node
  {
    forall i :: 0 <= i < |node.children| ==> !Fragile(Base(node.children[i])) && Solid(node.children[i])
  }

  /** The entry `k` of child `i` and the entry `l` of child `j` have the same path. */
  ghost predicate Collide(node: Node, key: string, i: nat, j: nat, k: nat, l: nat) {
    && i < |node.children| && j < |node.children|
    && k < |Listing(node.children[i], ChildKey(node.children, i, key))|
    && l < |Listing(node.children[j], ChildKey(node.children, j, key))|
    && Listing(node.children[i], ChildKey(node.children, i, key))[k].key
       == Listing(node.children[j], ChildKey(node.children, j, key))[l].key
  }

  /** One string read in two ways: as a segment with a path below it, twice. */
  datatype Reading = Reading(b: string, m: nat, t: seq<PathStep>, c: string, n: nat, u: seq<PathStep>)

  ghost predicate Reads(r: Reading) {
    && BaseShaped(r.b) && BaseShaped(r.c) && Shaped(r.t) && Shaped(r.u)
    && Segment(r.b, r.m) + Spell(r.t) == Segment(r.c, r.n) + Spell(r.u)
  }

  /** Two siblings with a common path read one string in two ways from their parent on. */
  lemma {:induction false} CollisionReads(node: Node, key: string, i: nat, j: nat, k: nat, l: nat) returns (r: Reading)
    requires Legal(node) && Collide(node, key, i, j, k, l)
    ensures r.b == Base(node.children[i]) && r.m == Earlier(node.children, r.b, i)
    ensures r.c == Base(node.children[j]) && r.n == Earlier(node.children, r.c, j)
    ensures Reads(r)
  {
    var x := ChildTrail(node, key, i, k);
    var y := ChildTrail(node, key, j, l);
    r := Reading(x[0].base, x[0].index, x[1..], y[0].base, y[0].index, y[1..]);
    Cancel(key, Spell(x), Spell(y));
    Cancel("/", Segment(r.b, r.m) + Spell(r.t), Segment(r.c, r.n) + Spell(r.u));
  }

  /** If the segments read differ, the longer base is fragile and longer than the other. */
  lemma {:induction false} ReadingSplits(r: Reading)
    requires Reads(r)
    ensures || (r.b == r.c && r.m == r.n) || (Fragile(r.c) && |r.b| < |r.c|) || (Fragile(r.b) && |r.c| < |r.b|)
  {
    var s, q := Segment(r.b, r.m), Segment(r.c, r.n);
    if |s| == |q| {
      assert s == (s + Spell(r.t))[..|s|] && q == (q + Spell(r.u))[..|s|];
      SegmentInjective(r.b, r.m, r.c, r.n);
    } else if |s| < |q| {
      var split := OverlapSplits(r.b, r.m, r.t, r.c, r.n, r.u);
    } else {
      var split := OverlapSplits(r.c, r.n, r.u, r.b, r.m, r.t);
    }
  }

  lemma {:induction false} CollisionNeedsFragile(node: Node, key: string, i: nat, j: nat, k: nat, l: nat)
    requires Legal(node) && i < j && Collide(node, key, i, j, k, l)
    ensures Fragile(Base(node.children[i])) || Fragile(Base(node.children[j]))
  {
    var r := CollisionReads(node, key, i, j, k, l);
    ReadingSplits(r);
    if r.b == r.c {
      EarlierGrows(node.children, r.b, i, j);
    }
  }

  lemma {:induction false} SolidApart(node: Node, key: string)
    requires Legal(node) && Solid(node)
    ensures Apart(node, key)
    decreases node
  {
    var children := node.children;
    forall i, j | 0 <= i < j < |children| ensures Disjoint(children, i, j, key) {
      var a, b := Listing(children[i], ChildKey(children, i, key)), Listing(children[j], ChildKey(children, j, key));
      forall k, l | 0 <= k < |a| && 0 <= l < |b| ensures a[k].key != b[l].key {
        if a[k].key == b[l].key {
          CollisionNeedsFragile(node, key, i, j, k, l);
        }
      }
    }
    forall i | 0 <= i < |children| ensures Apart(children[i], ChildKey(children, i, key)) {
      SolidApart(children[i], ChildKey(children, i, key));
    }
  }

  /** In every document without a fragile base all owner paths differ. */
  lemma {:induction false} LegalPathsDistinct(node: Node, key: string)
    requires Legal(node) && Solid(node)
    ensures Distinct(Listing(node, key))
  {
    SolidApart(node, key);
    ApartDistinct(node, key);
  }

  // ---- Every fragile base does collide ----

  /** A node with the given base. */
  ghost function Dress(b: string, children: seq<Node>): (node: Node)
    requires BaseShaped(b)
    ensures LegalTag(node.tag) && Base(node) == b && node.children == children
  {
    var shape: Shape :| LegalTag(shape.tag) && Spelled(shape) == b;
    Node(shape.tag, if shape.identifier.Some? then map["name" := shape.identifier.value] else map[], None, children)
  }

  /** The child that completes a namespace name cut at a seam, and what it adds to the path. */
  const CLOSING := "q=}l"

  lemma {:induction false} ClosingShaped()
    ensures BaseShaped(CLOSING)
  {
    assert LocalName("q");
    assert Spelled(Shape("q", Some("}l"))) == CLOSING;
  }

  /** A text that begins a namespace name becomes a tag when the seam and the closing child are read into it. */
  lemma {:induction false} OpeningShaped(text: string)
    requires text != "" && text[0] == '{' && '}' !in text
    ensures BaseShaped(text + Seam(0) + CLOSING)
  {
    var tag := text + Seam(0) + CLOSING;
    var i := |tag| - 2;
    assert tag[i..] == CLOSING[2..] == "}l";
    assert tag[i] == '}' && tag[i + 1..] == "l";
    assert tag[..i] == text + Seam(0) + "q=" && '}' !in tag[..i];
    assert LocalName("l");
    assert QualifiedAt(tag, i);
    assert Spelled(Shape(tag, None)) == tag;
  }

  /** The children that spell a split text below a node. */
  ghost function Grow(split: Split): (children: seq<Node>)
    requires Valid(split)
    ensures split.Piece? ==> |children| == split.index + 1
  {
    match split
    case Whole(base) => [Dress(base, [])]
    case Opening(text) => OpeningShaped(text); [Dress(text + Seam(0) + CLOSING, [])]
    case Piece(base, index, rest) => seq(index, _ => Dress(base, [])) + [Dress(base, Grow(rest))]
  }

  predicate Opens(split: Split) {
    match split
    case Whole(_) => false
    case Opening(_) => true
    case Piece(_, _, rest) => Opens(rest)
  }

  /** The path those children spell: the text as one segment, and below it the closing child where one is needed. */
  function Spelling(split: Split): string {
    Segment(Text(split), 0) + if Opens(split) then "/" + Segment(CLOSING, 0) else ""
  }

  lemma {:induction false} GrowLegal(split: Split)
    requires Valid(split)
    ensures forall i :: 0 <= i < |Grow(split)| ==> Legal(Grow(split)[i])
  {
    match split
    case Whole(_) =>
    case Opening(_) =>
    case Piece(base, index, rest) =>
      GrowLegal(rest);
      forall i | 0 <= i < |Grow(split)| ensures Legal(Grow(split)[i]) {
        if i < index {
          assert Grow(split)[i] == Dress(base, []);
        }
      }
  }

  lemma {:induction false} EarlierRun(children: seq<Node>, base: string, from: nat, n: nat)
    requires from + n <= |children|
    requires forall i :: 0 <= i < from ==> Base(children[i]) != base
    requires forall i :: from <= i < from + n ==> Base(children[i]) == base
    ensures Earlier(children, base, from + n) == n
    decreases from + n
  {
    if n > 0 {
      EarlierRun(children, base, from, n - 1);
    } else if from > 0 {
      EarlierRun(children, base, from - 1, 0);
    }
  }

  lemma {:induction false} PieceSpelling(key: string, base: string, index: nat, rest: Split)
    ensures key + "/" + Spelling(Piece(base, index, rest)) == key + "/" + Segment(base, index) + "/" + Spelling(rest)
  {
    var split, tail := Piece(base, index, rest), if Opens(rest) then "/" + Segment(CLOSING, 0) else "";
    assert Text(split) == (base + Seam(index)) + Text(rest);
    SegmentAfter(base + Seam(index), Text(rest), 0);
    assert base + Seam(index) == Segment(base, index) + "/";
  }

  lemma {:induction false} PieceKey(before: seq<Node>, split: Split, key: string)
    requires Valid(split) && split.Piece? && forall i :: 0 <= i < |before| ==> Base(before[i]) != split.base
    ensures var children := before + Grow(split);
            var last := |before| + split.index;
            && |children| == last + 1 && children[last] == Dress(split.base, Grow(split.rest))
            && ChildKey(children, last, key) == key + "/" + Segment(split.base, split.index)
  {
    var children := before + Grow(split);
    forall i | |before| <= i < |before| + split.index ensures Base(children[i]) == split.base {
      assert children[i] == Dress(split.base, []);
    }
    EarlierRun(children, split.base, |before|, split.index);
  }

  lemma {:induction false} BelowChild(node: Node, key: string, k: nat)
    requires k < |ListingFrom(node.children, 0, key)|
    ensures k + 1 < |Listing(node, key)| && Listing(node, key)[k + 1] == ListingFrom(node.children, 0, key)[k]
  {
  }

  /** After siblings with other bases, the last of the grown children has the split's path. */
  lemma {:induction false} PieceGrows(before: seq<Node>, split: Split, children: seq<Node>, key: string)
      returns (l: nat)
    requires Valid(split) && split.Piece? && forall i :: 0 <= i < |before| ==> Base(before[i]) != split.base
    requires children == before + Grow(split)
    ensures var last := |before| + split.index;
            && |children| == last + 1 && l < |Listing(children[last], ChildKey(children, last, key))|
            && Listing(children[last], ChildKey(children, last, key))[l].key == key + "/" + Spelling(split)
    decreases split, 0
  {
    var below, node := key + "/" + Segment(split.base, split.index), Dress(split.base, Grow(split.rest));
    var k := Grows(split.rest, below);
    BelowChild(node, below, k);
    PieceSpelling(key, split.base, split.index, split.rest);
    PieceKey(before, split, key);
    l := k + 1;
  }

  lemma {:induction false} Grows(split: Split, key: string) returns (k: nat)
    requires Valid(split)
    ensures k < |ListingFrom(Grow(split), 0, key)|
    ensures ListingFrom(Grow(split), 0, key)[k].key == key + "/" + Spelling(split)
    decreases split, 1
  {
    if split.Piece? {
      var l := PieceGrows([], split, Grow(split), key);
      k := ChildListed(Grow(split), 0, split.index, key, l);
    } else {
      k := LastGrows(split, key);
    }
  }

  lemma {:induction false} LastGrows(split: Split, key: string) returns (k: nat)
    requires Valid(split) && !split.Piece?
    ensures k < |ListingFrom(Grow(split), 0, key)|
    ensures ListingFrom(Grow(split), 0, key)[k].key == key + "/" + Spelling(split)
  {
    LastPieceKey(split, key);
    k := ChildListed(Grow(split), 0, 0, key, 0);
  }

  lemma {:induction false} LastPieceKey(split: Split, key: string)
    requires Valid(split) && !split.Piece?
    ensures |Grow(split)| == 1 && ChildKey(Grow(split), 0, key) == key + "/" + Spelling(split)
  {
    if split.Opening? {
      SegmentAfter(split.text + Seam(0), CLOSING, 0);
      assert split.text + Seam(0) == Segment(split.text, 0) + "/";
    }
  }

  /** In some legal document a child with base `c` and a sibling with a shorter base share a path, and `xml_nodes`
      raises. */
  ghost predicate Collides(c: string) {
    exists root: Node, i, j, k, l :: Blames(root, i, j, k, l, c) && Insert(map[], Listing(root, root.tag)).None?
  }

  ghost predicate Blames(root: Node, i: nat, j: nat, k: nat, l: nat, c: string) {
    && Legal(root) && Collide(root, root.tag, i, j, k, l)
    && Base(root.children[i]) == c && |Base(root.children[j])| < |c|
  }

  lemma {:induction false} BlamedIsFragile(root: Node, i: nat, j: nat, k: nat, l: nat, c: string)
    requires Blames(root, i, j, k, l, c)
    ensures Fragile(c)
  {
    var r := CollisionReads(root, root.tag, i, j, k, l);
    ReadingSplits(r);
  }

  ghost function Culprit(split: Split): (node: Node)
    requires BaseShaped(Text(split))
    ensures Legal(node) && Base(node) == Text(split)
  {
    ClosingShaped();
    Dress(Text(split), if Opens(split) then [Dress(CLOSING, [])] else [])
  }

  lemma {:induction false} LegalRoot(culprit: Node, split: Split)
    requires Legal(culprit) && Valid(split)
    ensures Legal(Node("r", map[], None, [culprit] + Grow(split)))
  {
    GrowLegal(split);
    assert LocalName("r");
  }

  lemma {:induction false} FragileIsBlamed(c: string) returns (root: Node, j: nat, k: nat, l: nat)
    requires BaseShaped(c) && Fragile(c)
    ensures Blames(root, 0, j, k, l, c)
  {
    var split: Split :| split.Piece? && Valid(split) && Text(split) == c;
    var culprit := Culprit(split);
    root, j := Node("r", map[], None, [culprit] + Grow(split)), 1 + split.index;
    LegalRoot(culprit, split);
    l := PieceGrows([culprit], split, root.children, "r");
    ClosingShaped();
    k := CulpritSpells(root.children, culprit, split, "r");
    assert Base(root.children[j]) == split.base by { PieceKey([culprit], split, "r"); }
  }

  /** The culprit, or its closing child, has the split's path. */
  lemma {:induction false} CulpritSpells(children: seq<Node>, culprit: Node, split: Split, key: string) returns (k: nat)
    requires children != [] && children[0] == culprit && Base(culprit) == Text(split)
    requires BaseShaped(CLOSING) && culprit.children == if Opens(split) then [Dress(CLOSING, [])] else []
    ensures k < |Listing(culprit, ChildKey(children, 0, key))|
    ensures Listing(culprit, ChildKey(children, 0, key))[k].key == key + "/" + Spelling(split)
  {
    var own := ChildKey(children, 0, key);
    assert own == key + "/" + Segment(Text(split), 0);
    if Opens(split) {
      var l := ChildListed(culprit.children, 0, 0, own, 0);
      assert ChildKey(culprit.children, 0, own) == own + "/" + Segment(CLOSING, 0);
      k := l + 1;
      assert Listing(culprit, own)[k] == ListingFrom(culprit.children, 0, own)[l];
    } else {
      k := 0;
    }
  }

  /** A base can collide with a shorter sibling, in some legal document, exactly when it can be cut at seams into two or
      more pieces that are bases, the last of which may also begin a namespace name. */
  lemma {:induction false} UnsafeExactly(c: string)
    requires BaseShaped(c)
    ensures Collides(c) <==> Fragile(c)
  {
    if Collides(c) {
      var root: Node, i: nat, j: nat, k: nat, l: nat :|
        Blames(root, i, j, k, l, c) && Insert(map[], Listing(root, root.tag)).None?;
      BlamedIsFragile(root, i, j, k, l, c);
    }
    if Fragile(c) {
      var root, j, k, l := FragileIsBlamed(c);
      BlamedRaises(root, 0, j, k, l, c);
    }
  }

  // ---- What the collision does to `xml_nodes` ----

  lemma {:induction false} DistinctParts(a: seq<Entry>, b: seq<Entry>)
    requires Distinct(a + b)
    ensures Distinct(b) && Separate(a, b)
  {
    var whole := a + b;
    assert forall k :: 0 <= k < |a| ==> whole[k] == a[k];
    assert forall k :: 0 <= k < |b| ==> whole[|a| + k] == b[k];
  }

  lemma {:induction false} DistinctSeparates(children: seq<Node>, m: nat, i: nat, j: nat, key: string)
    requires m <= i < j < |children| && Distinct(ListingFrom(children, m, key))
    ensures Disjoint(children, i, j, key)
    decreases i - m
  {
    DistinctParts(Listing(children[m], ChildKey(children, m, key)), ListingFrom(children, m + 1, key));
    if m < i {
      DistinctSeparates(children, m + 1, i, j, key);
    } else {
      RestSeparate(children, i, j, key);
    }
  }

  lemma {:induction false} RestSeparate(children: seq<Node>, i: nat, j: nat, key: string)
    requires i < j < |children|
    requires Separate(Listing(children[i], ChildKey(children, i, key)), ListingFrom(children, i + 1, key))
    ensures Disjoint(children, i, j, key)
  {
    EntriesOf(children, i + 1, j, key);
    var first := Listing(children[i], ChildKey(children, i, key));
    var other := Listing(children[j], ChildKey(children, j, key));
    SeparatePart(first, ListingFrom(children, i + 1, key), other);
  }

  ghost predicate PartOf(part: seq<Entry>, whole: seq<Entry>) { forall l :: 0 <= l < |part| ==> part[l] in whole }

  lemma {:induction false} EntriesOf(children: seq<Node>, i: nat, j: nat, key: string)
    requires i <= j < |children|
    ensures PartOf(Listing(children[j], ChildKey(children, j, key)), ListingFrom(children, i, key))
  {
    forall l | 0 <= l < |Listing(children[j], ChildKey(children, j, key))|
      ensures Listing(children[j], ChildKey(children, j, key))[l] in ListingFrom(children, i, key)
    {
      var n := ChildListed(children, i, j, key, l);
    }
  }

  lemma {:induction false} SeparatePart(a: seq<Entry>, whole: seq<Entry>, part: seq<Entry>)
    requires Separate(a, whole) && PartOf(part, whole)
    ensures Separate(a, part)
  {
  }

  /** Siblings with a common path make `xml_nodes` raise. */
  lemma {:induction false} CollisionRaises(root: Node, i: nat, j: nat, k: nat, l: nat)
    requires Collide(root, root.tag, i, j, k, l) && i != j
    ensures Insert(map[], Listing(root, root.tag)).None?
  {
    var entries, below := Listing(root, root.tag), ListingFrom(root.children, 0, root.tag);
    if Insert(map[], entries).Some? {
      InsertNeedsDistinct(map[], entries);
      assert forall n :: 0 <= n < |below| ==> entries[n + 1] == below[n];
      if i < j {
        DistinctSeparates(root.children, 0, i, j, root.tag);
      } else {
        DistinctSeparates(root.children, 0, j, i, root.tag);
      }
    }
  }

  /** The path of the first child of child `i`. */
  lemma {:induction false} FirstGrandchild(children: seq<Node>, i: nat, key: string, own: string, full: string)
      returns (l: nat)
    requires i < |children| && children[i].children != []
    requires ChildKey(children, i, key) == own && ChildKey(children[i].children, 0, own) == full
    ensures l < |Listing(children[i], own)| && Listing(children[i], own)[l].key == full
  {
    var k := ChildListed(children[i].children, 0, 0, own, 0);
    BelowChild(children[i], own, k);
    l := k + 1;
  }

  lemma {:induction false} FirstKey(node: Node, key: string, base: string)
    requires node.children != [] && Base(node.children[0]) == base
    ensures ChildKey(node.children, 0, key) == key + "/" + base + "[0]"
  {
    assert Decimal(0) == "0";
  }

  lemma {:induction false} SecondKey(node: Node, key: string, base: string)
    requires |node.children| == 2 && Base(node.children[1]) == base && Base(node.children[0]) != base
    ensures ChildKey(node.children, 1, key) == key + "/" + base + "[0]"
  {
    assert Decimal(0) == "0";
    assert Earlier(node.children, base, 0) == 0 && Earlier(node.children, base, 1) == 0;
  }

  /** A node with a single leaf below it. */
  ghost predicate Stalk(node: Node) { |node.children| == 1 && node.children[0].children == [] }

  lemma {:induction false} StalksLegal(root: Node)
    requires |root.children| == 2 && LegalTag(root.tag)
    requires forall i :: 0 <= i < 2 ==>
               Stalk(root.children[i]) && LegalTag(root.children[i].tag) && LegalTag(root.children[i].children[0].tag)
    ensures Legal(root)
  {
    forall i | 0 <= i < 2 ensures Legal(root.children[i]) {
      assert Legal(root.children[i].children[0]);
    }
  }

  lemma {:induction false} StalksCollide(root: Node, a: string, x: string, b: string, y: string)
    requires |root.children| == 2 && Stalk(root.children[0]) && Stalk(root.children[1]) && a != b
    requires Base(root.children[0]) == a && Base(root.children[0].children[0]) == x
    requires Base(root.children[1]) == b && Base(root.children[1].children[0]) == y
    requires a + "[0]/" + x == b + "[0]/" + y
    ensures Insert(map[], Listing(root, root.tag)).None?
  {
    var key := root.tag;
    var own, other := key + "/" + a + "[0]", key + "/" + b + "[0]";
    FirstKey(root, key, a);
    SecondKey(root, key, b);
    FirstKey(root.children[0], own, x);
    FirstKey(root.children[1], other, y);
    var full := own + "/" + x + "[0]";
    assert full == key + "/" + (a + "[0]/" + x) + "[0]" == key + "/" + (b + "[0]/" + y) + "[0]"
      == other + "/" + y + "[0]";
    var k := FirstGrandchild(root.children, 0, key, own, full);
    var l := FirstGrandchild(root.children, 1, key, other, full);
    CollisionRaises(root, 0, 1, k, l);
  }

  function Named(tag: string, name: string, children: seq<Node>): (node: Node)
    ensures Base(node) == tag + "=" + name && node.tag == tag && node.children == children
  {
    Node(tag, map["name" := name], None, children)
  }

  /** `<t name="x[0]/u=y"/>` beside `<t name="x"><u name="y"/></t>`: the seam is in the identifier. */
  function SeamInIdentifier(t: string, x: string, u: string, y: string): Node {
    Node(t, map[], None, [Named(t, x + "[0]/" + (u + "=" + y), []), Named(t, x, [Named(u, y, [])])])
  }

  lemma {:induction false} IdentifierSpelled(key: string, t: string, x: string, rest: string)
    ensures key + "/" + (t + "=" + (x + "[0]/" + rest)) + "[0]"
            == (key + "/" + (t + "=" + x) + "[0]") + "/" + rest + "[0]"
  {
  }

  lemma {:induction false} IdentifierCollides(t: string, x: string, u: string, y: string)
    requires LocalName(t) && LocalName(u)
    ensures var root := SeamInIdentifier(t, x, u, y); Legal(root) && Insert(map[], Listing(root, t)).None?
  {
    var root := SeamInIdentifier(t, x, u, y);
    var a, b := root.children[0], root.children[1];
    assert Legal(a) && Legal(b.children[0]) && Legal(b);
    var own := t + "/" + Base(b) + "[0]";
    var full := own + "/" + (u + "=" + y) + "[0]";
    assert ChildKey(root.children, 0, t) == full by {
      FirstKey(root, t, Base(a));
      IdentifierSpelled(t, t, x, u + "=" + y);
    }
    assert ChildKey(root.children, 1, t) == own by { SecondKey(root, t, Base(b)); }
    assert ChildKey(b.children, 0, own) == full by { FirstKey(b, own, u + "=" + y); }
    var l := FirstGrandchild(root.children, 1, t, own, full);
    CollisionRaises(root, 0, 1, 0, l);
  }

  /** `<t name="x[0]/{a"><q name="z}l"/></t>` beside `<t name="x">` with a child of local name `l` in the namespace
      `a[0]/q=z`: the second seam is in a namespace name, and the first base does not consist of bases only. */
  function SeamInNamespace(t: string, x: string, a: string, q: string, z: string, l: string): Node {
    Node(t, map[], None, [Named(t, x + "[0]/{" + a, [Named(q, z + "}" + l, [])]),
      Named(t, x, [Leaf(CutTag(a, q, z, l))])])
  }

  function CutTag(a: string, q: string, z: string, l: string): string { "{" + (a + "[0]/" + q + "=" + z) + "}" + l }

  function Leaf(tag: string): (node: Node)
    ensures Base(node) == tag && node.tag == tag && node.children == []
  {
    Node(tag, map[], None, [])
  }

  lemma {:induction false} NamespaceTagLegal(uri: string, l: string)
    requires uri != "" && '}' !in uri && LocalName(l)
    ensures LegalTag("{" + uri + "}" + l)
  {
    var tag := "{" + uri + "}" + l;
    assert tag[|uri| + 2..] == l && tag[|uri| + 1] == '}';
    assert tag[..|uri| + 1] == "{" + uri;
    assert QualifiedAt(tag, |uri| + 1);
  }

  lemma {:induction false} CutTagSpelled(t: string, x: string, a: string, q: string, z: string, l: string)
    ensures (t + "=" + (x + "[0]/{" + a)) + "[0]/" + (q + "=" + (z + "}" + l))
            == (t + "=" + x) + "[0]/" + CutTag(a, q, z, l)
  {
    var rest := q + "=" + (z + "}" + l);
    assert CutTag(a, q, z, l) == "{" + a + "[0]/" + rest;
  }

  lemma {:induction false} NamespaceCollides(t: string, x: string, a: string, q: string, z: string, l: string)
    requires LocalName(t) && LocalName(q) && LocalName(l) && '}' !in a && '}' !in z
    ensures var root := SeamInNamespace(t, x, a, q, z, l); Legal(root) && Insert(map[], Listing(root, t)).None?
  {
    var root, tag := SeamInNamespace(t, x, a, q, z, l), CutTag(a, q, z, l);
    assert '}' !in q;
    assert LegalTag(tag) by { NamespaceTagLegal(a + "[0]/" + q + "=" + z, l); }
    StalksLegal(root);
    CutTagSpelled(t, x, a, q, z, l);
    StalksCollide(root, Base(root.children[0]), Base(root.children[0].children[0]), Base(root.children[1]), tag);
  }

  lemma {:induction false} BlamedRaises(root: Node, i: nat, j: nat, k: nat, l: nat, c: string)
    requires Blames(root, i, j, k, l, c)
    ensures Insert(map[], Listing(root, root.tag)).None?
  {
    CollisionRaises(root, i, j, k, l);
  }
}
