/** Owner paths of XML nodes (`xml_nodes` in scripts/probes/lib/gir-material-candidate.py): when two
    nodes of one tree can get the same path string, and that they otherwise never do. */
module XmlPaths {
  import opened Options

  datatype Node = Node(tag: string, attributes: map<string, string>, text: Option<string>, children: seq<Node>)

  datatype Entry = Entry(key: string, node: Node)

  const CTYPE := "{http://www.gtk.org/introspection/c/1.0}"

  function Identifier(node: Node): Option<string> {
    if "name" in node.attributes then Some(node.attributes["name"])
    else if CTYPE + "identifier" in node.attributes then Some(node.attributes[CTYPE + "identifier"])
    else None
  }

  function Base(node: Node): string {
    node.tag + if Identifier(node).Some? then "=" + Identifier(node).value else ""
  }

  /** The base is the tag with the `name`, failing that with the C identifier, failing both alone. */
  lemma BaseExactly(node: Node)
    ensures "name" in node.attributes ==> Base(node) == node.tag + "=" + node.attributes["name"]
    ensures var c := "{http://www.gtk.org/introspection/c/1.0}identifier";
            "name" !in node.attributes ==>
              Base(node) == if c in node.attributes then node.tag + "=" + node.attributes[c] else node.tag
  {
    assert CTYPE + "identifier" == "{http://www.gtk.org/introspection/c/1.0}identifier";
  }

  // ---- Decimal numerals ----

  function Digit(d: nat): char
    requires d < 10
  {
    "0123456789"[d]
  }

  function Decimal(n: nat): (s: string)
    ensures |s| > 0 && forall i :: 0 <= i < |s| ==> '0' <= s[i] <= '9'
  {
    if n < 10 then [Digit(n)] else Decimal(n / 10) + [Digit(n % 10)]
  }

  function Value(s: string): int {
    if s == "" then 0 else Value(s[..|s| - 1]) * 10 + (s[|s| - 1] as int - '0' as int)
  }

  lemma {:induction false} DecimalRoundTrip(n: nat)
    ensures Value(Decimal(n)) == n
  {
    var s := Decimal(n);
    if n < 10 {
      assert s[..|s| - 1] == "" && s[|s| - 1] as int - '0' as int == n;
    } else {
      DecimalRoundTrip(n / 10);
      assert s[..|s| - 1] == Decimal(n / 10);
      assert s[|s| - 1] as int - '0' as int == n % 10;
    }
  }

  // ---- Keys ----

  function Segment(base: string, index: nat): string { base + "[" + Decimal(index) + "]" }

  /** How many earlier siblings share the base of child `i`: the value of the counter there. */
  function Earlier(children: seq<Node>, base: string, i: nat): nat
    requires i <= |children|
  {
    if i == 0 then 0 else Earlier(children, base, i - 1) + if Base(children[i - 1]) == base then 1 else 0
  }

  function Below(key: string, base: string, index: nat): string { key + "/" + Segment(base, index) }

  function ChildKey(children: seq<Node>, i: nat, key: string): string
    requires i < |children|
  {
    Below(key, Base(children[i]), Earlier(children, Base(children[i]), i))
  }

  /** The entries `walk` makes for a subtree, in the order it makes them. */
  function Listing(node: Node, key: string): seq<Entry>
    decreases node, 0
  {
    [Entry(key, node)] + ListingFrom(node.children, 0, key)
  }

  function ListingFrom(children: seq<Node>, i: nat, key: string): seq<Entry>
    requires i <= |children|
    decreases children, |children| - i
  {
    if i == |children| then []
    else Listing(children[i], ChildKey(children, i, key)) + ListingFrom(children, i + 1, key)
  }

  function Size(node: Node): nat
    decreases node, 0
  {
    1 + SizeFrom(node.children, 0)
  }

  function SizeFrom(children: seq<Node>, i: nat): nat
    requires i <= |children|
    decreases children, |children| - i
  {
    if i == |children| then 0 else Size(children[i]) + SizeFrom(children, i + 1)
  }

  lemma ListingSize(node: Node, key: string)
    ensures |Listing(node, key)| == Size(node)
    decreases node, 0
  {
    ListingFromSize(node.children, 0, key);
  }

  lemma ListingFromSize(children: seq<Node>, i: nat, key: string)
    requires i <= |children|
    ensures |ListingFrom(children, i, key)| == SizeFrom(children, i)
    decreases children, |children| - i
  {
    if i < |children| {
      ListingSize(children[i], ChildKey(children, i, key));
      ListingFromSize(children, i + 1, key);
    }
  }

  // ---- The exact condition on bases ----

  /** The base contains a numeral in brackets followed by a slash, the text that ends one segment and starts the
      next. */
  ghost predicate Breaks(base: string) { exists p, n :: BreaksAt(base, p, n) }

  ghost predicate BreaksAt(base: string, p: nat, n: nat) {
    p + |Seam(n)| <= |base| && base[p..p + |Seam(n)|] == Seam(n)
  }

  function Seam(n: nat): string { "[" + Decimal(n) + "]/" }

  ghost predicate Sound(node: Node)
    decreases node
  {
    forall i :: 0 <= i < |node.children| ==> !Breaks(Base(node.children[i])) && Sound(node.children[i])
  }

  /** What may follow a segment: the end of the path, or the next segment's slash. */
  predicate Tail(t: string) { t == "" || t[0] == '/' }

  /** Where one segment reads as a proper part of another, the other's base contains a seam. */
  lemma {:induction false} OverlapBreaks(b: string, m: nat, t: string, c: string, n: nat, u: string)
    requires Tail(t) && Segment(b, m) + t == Segment(c, n) + u && |Segment(b, m)| < |Segment(c, n)|
    ensures b + Seam(m) <= c && Breaks(c)
  {
    var s, r, whole := Segment(b, m), Segment(c, n), Segment(b, m) + t;
    assert whole[|s|] == '/' && whole[|s|] == r[|s|];
    assert |s| < |c|;
    assert c[..|s| + 1] == whole[..|s| + 1] == s + "/";
    assert c[|b|..|b| + |Seam(m)|] == Seam(m);
    assert BreaksAt(c, |b|, m);
  }

  lemma {:induction false} SegmentsAgree(b: string, m: nat, t: string, c: string, n: nat, u: string)
    requires !Breaks(b) && !Breaks(c) && Tail(t) && Tail(u)
    requires Segment(b, m) + t == Segment(c, n) + u
    ensures b == c && m == n
  {
    var s, r := Segment(b, m), Segment(c, n);
    assert |s| == |r| by {
      if |s| < |r| {
        OverlapBreaks(b, m, t, c, n, u);
      } else if |r| < |s| {
        OverlapBreaks(c, n, u, b, m, t);
      }
    }
    assert s == (s + t)[..|s|] && r == (r + u)[..|r|];
    SegmentInjective(b, m, c, n);
  }

  lemma SegmentInjective(b: string, m: nat, c: string, n: nat)
    requires Segment(b, m) == Segment(c, n)
    ensures b == c && m == n
  {
    var s := Segment(b, m);
    assert s[|b|] == '[' && s[|c|] == '[';
    assert forall i :: |b| < i < |s| ==> s[i] != '[';
    assert forall i :: |c| < i < |s| ==> s[i] != '[';
    assert b == s[..|b|] && c == s[..|c|];
    assert Decimal(m) == s[|b| + 1..|s| - 1];
    DecimalRoundTrip(m);
    DecimalRoundTrip(n);
  }

  // ---- No collision in a tree of sound bases ----

  ghost predicate Distinct(entries: seq<Entry>) {
    forall i, j :: 0 <= i < j < |entries| ==> entries[i].key != entries[j].key
  }

  /** `full` is `key` or a path below it. */
  ghost predicate Under(key: string, full: string) {
    |key| <= |full| && full[..|key|] == key && Tail(full[|key|..])
  }

  lemma {:induction false} ListingUnder(node: Node, key: string, k: nat)
    requires k < |Listing(node, key)|
    ensures Under(key, Listing(node, key)[k].key)
    ensures k > 0 ==> |Listing(node, key)[k].key| > |key|
    decreases node, 0
  {
    if k > 0 {
      var j, l := EntryOfChild(node.children, 0, key, k - 1);
      var child, full := ChildKey(node.children, j, key), Listing(node, key)[k].key;
      ListingUnder(node.children[j], child, l);
      assert full[..|key|] == child[..|key|] == key;
      assert full[|key|] == child[|key|] == '/';
    }
  }

  /** Every entry made for the children from `i` on is an entry of one of them. */
  lemma {:induction false} EntryOfChild(children: seq<Node>, i: nat, key: string, k: nat) returns (j: nat, l: nat)
    requires i <= |children| && k < |ListingFrom(children, i, key)|
    ensures i <= j < |children| && l < |Listing(children[j], ChildKey(children, j, key))|
    ensures ListingFrom(children, i, key)[k] == Listing(children[j], ChildKey(children, j, key))[l]
    decreases |children| - i
  {
    var first := Listing(children[i], ChildKey(children, i, key));
    if k < |first| {
      j, l := i, k;
    } else {
      j, l := EntryOfChild(children, i + 1, key, k - |first|);
    }
  }

  lemma {:induction false} EarlierGrows(children: seq<Node>, base: string, i: nat, j: nat)
    requires i < j <= |children| && Base(children[i]) == base
    ensures Earlier(children, base, i) < Earlier(children, base, j)
    decreases j
  {
    if i + 1 < j {
      EarlierGrows(children, base, i, j - 1);
    }
  }

  /** Different siblings share no path. */
  lemma {:induction false} SiblingsApart(children: seq<Node>, i: nat, j: nat, key: string, full: string)
    requires i < |children| && j < |children|
    requires !Breaks(Base(children[i])) && !Breaks(Base(children[j]))
    requires Under(ChildKey(children, i, key), full) && Under(ChildKey(children, j, key), full)
    ensures i == j
  {
    var b, c := Base(children[i]), Base(children[j]);
    var m, n := Earlier(children, b, i), Earlier(children, c, j);
    var x, y := ChildKey(children, i, key), ChildKey(children, j, key);
    var t, u := full[|x|..], full[|y|..];
    assert full == x + t && full == y + u;
    assert full[|key| + 1..] == Segment(b, m) + t;
    assert full[|key| + 1..] == Segment(c, n) + u;
    SegmentsAgree(b, m, t, c, n, u);
    if i < j {
      EarlierGrows(children, b, i, j);
    } else if j < i {
      EarlierGrows(children, b, j, i);
    }
  }

  /** No two siblings, here or below, share a path. */
  ghost predicate Apart(node: Node, key: string)
    decreases node
  {
    var children := node.children;
    && (forall i, j :: 0 <= i < j < |children| ==> Disjoint(children, i, j, key))
    && (forall i :: 0 <= i < |children| ==> Apart(children[i], ChildKey(children, i, key)))
  }

  ghost predicate Disjoint(children: seq<Node>, i: nat, j: nat, key: string)
    requires i < |children| && j < |children|
  {
    Separate(Listing(children[i], ChildKey(children, i, key)), Listing(children[j], ChildKey(children, j, key)))
  }

  lemma {:induction false} ApartDistinct(node: Node, key: string)
    requires Apart(node, key)
    ensures Distinct(Listing(node, key))
    decreases node
  {
    var children, below := node.children, ListingFrom(node.children, 0, key);
    forall i | 0 <= i < |children| ensures ChildDistinct(children, i, key) {
      ApartDistinct(children[i], ChildKey(children, i, key));
    }
    ChildrenDistinct(children, 0, key);
    forall i | 0 <= i < |below| ensures below[i].key != key {
      ListingUnder(node, key, i + 1);
      assert Listing(node, key)[i + 1] == below[i];
    }
    DistinctTogether([Entry(key, node)], below);
  }

  ghost predicate Separate(a: seq<Entry>, b: seq<Entry>) {
    forall k, l :: 0 <= k < |a| && 0 <= l < |b| ==> a[k].key != b[l].key
  }

  ghost predicate ChildDistinct(children: seq<Node>, i: nat, key: string)
    requires i < |children|
  {
    Distinct(Listing(children[i], ChildKey(children, i, key)))
  }

  lemma ChildApartFromRest(children: seq<Node>, i: nat, key: string)
    requires i < |children| && forall j :: i < j < |children| ==> Disjoint(children, i, j, key)
    ensures Separate(Listing(children[i], ChildKey(children, i, key)), ListingFrom(children, i + 1, key))
  {
    var first, rest := Listing(children[i], ChildKey(children, i, key)), ListingFrom(children, i + 1, key);
    forall k, l | 0 <= k < |first| && 0 <= l < |rest| ensures first[k].key != rest[l].key {
      var j, m := EntryOfChild(children, i + 1, key, l);
      assert Disjoint(children, i, j, key);
    }
  }

  lemma {:induction false} ChildrenDistinct(children: seq<Node>, i: nat, key: string)
    requires i <= |children| && forall j :: 0 <= j < |children| ==> ChildDistinct(children, j, key)
    requires forall j, k :: 0 <= j < k < |children| ==> Disjoint(children, j, k, key)
    ensures Distinct(ListingFrom(children, i, key))
    decreases |children| - i
  {
    if i < |children| {
      ChildrenDistinct(children, i + 1, key);
      ChildApartFromRest(children, i, key);
      assert ChildDistinct(children, i, key);
      DistinctTogether(Listing(children[i], ChildKey(children, i, key)), ListingFrom(children, i + 1, key));
    }
  }

  lemma DistinctTogether(a: seq<Entry>, b: seq<Entry>)
    requires Distinct(a) && Distinct(b) && Separate(a, b)
    ensures Distinct(a + b)
  {
  }

  lemma {:induction false} SoundApart(node: Node, key: string)
    requires Sound(node)
    ensures Apart(node, key)
    decreases node
  {
    var children := node.children;
    forall i, j | 0 <= i < j < |children| ensures Disjoint(children, i, j, key) {
      var x, y := ChildKey(children, i, key), ChildKey(children, j, key);
      var a, b := Listing(children[i], x), Listing(children[j], y);
      forall k, l | 0 <= k < |a| && 0 <= l < |b| ensures a[k].key != b[l].key {
        ListingUnder(children[i], x, k);
        ListingUnder(children[j], y, l);
        if a[k].key == b[l].key {
          SiblingsApart(children, i, j, key, a[k].key);
        }
      }
    }
    forall i | 0 <= i < |children| ensures Apart(children[i], ChildKey(children, i, key)) {
      SoundApart(children[i], ChildKey(children, i, key));
    }
  }

  /** In every tree whose bases contain no seam, the paths are pairwise distinct. */
  lemma PathsDistinct(node: Node, key: string)
    requires Sound(node)
    ensures Distinct(Listing(node, key))
  {
    SoundApart(node, key);
    ApartDistinct(node, key);
  }

  /** An entry of a child is an entry of the list of children. */
  lemma {:induction false} ChildListed(children: seq<Node>, i: nat, j: nat, key: string, k: nat) returns (l: nat)
    requires i <= j < |children| && k < |Listing(children[j], ChildKey(children, j, key))|
    ensures l < |ListingFrom(children, i, key)|
    ensures ListingFrom(children, i, key)[l] == Listing(children[j], ChildKey(children, j, key))[k]
    decreases j - i
  {
    if i == j {
      l := k;
    } else {
      var rest := ChildListed(children, i + 1, j, key, k);
      l := |Listing(children[i], ChildKey(children, i, key))| + rest;
    }
  }

  /** A base with a seam has an opening bracket. */
  lemma SeamNeedsBracket(b: string)
    requires Breaks(b)
    ensures '[' in b
  {
    var p: nat, n: nat :| BreaksAt(b, p, n);
    assert b[p..p + |Seam(n)|][0] == '[';
  }

  // ---- The walk itself ----

  /** Filling a dictionary entry by entry, refusing a key that is already there. */
  function Insert(result: map<string, Node>, entries: seq<Entry>): Option<map<string, Node>>
    decreases |entries|
  {
    if entries == [] then Some(result)
    else if entries[0].key in result then None
    else Insert(result[entries[0].key := entries[0].node], entries[1..])
  }

  lemma {:induction false} InsertAppend(result: map<string, Node>, a: seq<Entry>, b: seq<Entry>)
    ensures Insert(result, a + b) == if Insert(result, a).Some? then Insert(Insert(result, a).value, b) else None
    decreases |a|
  {
    if a == [] {
      assert a + b == b;
    } else {
      assert (a + b)[0] == a[0] && (a + b)[1..] == a[1..] + b;
      if a[0].key !in result {
        InsertAppend(result[a[0].key := a[0].node], a[1..], b);
      }
    }
  }

  /** Distinct new keys all go in, each with its own node, and nothing else does. */
  lemma {:induction false} InsertDistinct(result: map<string, Node>, entries: seq<Entry>)
    requires Distinct(entries) && forall i :: 0 <= i < |entries| ==> entries[i].key !in result
    ensures var filled := Insert(result, entries);
            && filled.Some? && |filled.value| == |result| + |entries|
            && (forall i :: 0 <= i < |entries| ==>
                 entries[i].key in filled.value && filled.value[entries[i].key] == entries[i].node)
            && (forall key :: key in result ==> key in filled.value && filled.value[key] == result[key])
    decreases |entries|
  {
    if entries != [] {
      var next := result[entries[0].key := entries[0].node];
      InsertDistinct(next, entries[1..]);
      var filled := Insert(next, entries[1..]).value;
      assert Insert(result, entries).value == filled;
      forall i | 0 <= i < |entries| ensures entries[i].key in filled && filled[entries[i].key] == entries[i].node {
        if i > 0 {
          assert entries[i] == entries[1..][i - 1];
        }
      }
    }
  }

  /** A repeated key is refused, so only distinct keys can all go in. */
  lemma {:induction false} InsertNeedsDistinct(result: map<string, Node>, entries: seq<Entry>)
    requires Insert(result, entries).Some?
    ensures Distinct(entries) && forall i :: 0 <= i < |entries| ==> entries[i].key !in result
    decreases |entries|
  {
    if entries != [] {
      var next, rest := result[entries[0].key := entries[0].node], entries[1..];
      InsertNeedsDistinct(next, rest);
      assert forall i :: 0 < i < |entries| ==> entries[i] == rest[i - 1];
    }
  }

  function Counted(counts: map<string, nat>, base: string): nat { if base in counts then counts[base] else 0 }

  /** The counter after the first `i` children. */
  ghost predicate Counts(counts: map<string, nat>, children: seq<Node>, i: nat)
    requires i <= |children|
  {
    forall base :: Counted(counts, base) == Earlier(children, base, i)
  }

  lemma CountsNext(counts: map<string, nat>, children: seq<Node>, i: nat)
    requires i < |children| && Counts(counts, children, i)
    ensures var base := Base(children[i]); Counts(counts[base := Counted(counts, base) + 1], children, i + 1)
  {
    var base := Base(children[i]);
    var next := counts[base := Counted(counts, base) + 1];
    forall other ensures Counted(next, other) == Earlier(children, other, i + 1) {
      assert Counted(counts, other) == Earlier(children, other, i);
    }
  }

  lemma InsertNextChild(result: map<string, Node>, children: seq<Node>, i: nat, key: string)
    requires i < |children|
    ensures var first := Insert(result, Listing(children[i], ChildKey(children, i, key)));
            Insert(result, ListingFrom(children, i, key)) ==
              if first.Some? then Insert(first.value, ListingFrom(children, i + 1, key)) else None
  {
    InsertAppend(result, Listing(children[i], ChildKey(children, i, key)), ListingFrom(children, i + 1, key));
  }

  /** One round of the loop on child `i`: its key, the counter after it, and what it leaves to insert. */
  lemma {:induction false} WalkStep(counts: map<string, nat>, result: map<string, Node>, children: seq<Node>, i: nat,
      key: string)
    requires i < |children| && Counts(counts, children, i)
    ensures var base := Base(children[i]);
            && Counts(counts[base := Counted(counts, base) + 1], children, i + 1)
            && ChildKey(children, i, key) == Below(key, base, Counted(counts, base))
    ensures var first := Insert(result, Listing(children[i], ChildKey(children, i, key)));
            Insert(result, ListingFrom(children, i, key)) ==
              if first.Some? then Insert(first.value, ListingFrom(children, i + 1, key)) else None
  {
    assert Counted(counts, Base(children[i])) == Earlier(children, Base(children[i]), i);
    CountsNext(counts, children, i);
    InsertNextChild(result, children, i, key);
  }

  lemma InsertFirst(result: map<string, Node>, node: Node, key: string)
    ensures Insert(result, Listing(node, key)) ==
              if key in result then None else Insert(result[key := node], ListingFrom(node.children, 0, key))
  {
    assert Listing(node, key)[1..] == ListingFrom(node.children, 0, key);
  }

  /** The closure of `xml_nodes`: `walk` fills `result` and stops at the first collision. */
  class XmlNodes {
    var result: map<string, Node>

    constructor ()
      ensures result == map[]
    {
      result := map[];
    }

    method Walk(node: Node, key: string) returns (ok: bool)
      modifies this
      ensures (if ok then Some(result) else None) == Insert(old(result), Listing(node, key))
      decreases node, 1
    {
      ghost var filled := Insert(result, Listing(node, key));
      InsertFirst(result, node, key);
      if key in result { return false; }
      result := result[key := node];
      var counts: map<string, nat> := map[];
      for i := 0 to |node.children|
        invariant Counts(counts, node.children, i)
        invariant filled == Insert(result, ListingFrom(node.children, i, key))
      {
        ok, counts := WalkChild(node, i, key, counts);
        if !ok { return; }
      }
      ok := true;
    }

    /** The body of the loop over the children. */
    method WalkChild(node: Node, i: nat, key: string, counts: map<string, nat>)
        returns (ok: bool, after: map<string, nat>)
      requires i < |node.children| && Counts(counts, node.children, i)
      modifies this
      ensures Counts(after, node.children, i + 1)
      ensures Insert(old(result), ListingFrom(node.children, i, key))
           == if ok then Insert(result, ListingFrom(node.children, i + 1, key)) else None
      decreases node, 0
    {
      WalkStep(counts, result, node.children, i, key);
      var base := Base(node.children[i]);
      var index := Counted(counts, base);
      after := counts[base := index + 1];
      ok := Walk(node.children[i], Below(key, base, index));
    }
  }

  /** `xml_nodes` on a whole document: it succeeds exactly when all paths differ, and its dictionary then has
      exactly one entry per node, each under that node's path. */
  method NodesOf(root: Node) returns (nodes: Option<map<string, Node>>)
    ensures nodes == Insert(map[], Listing(root, root.tag))
    ensures nodes.Some? <==> Distinct(Listing(root, root.tag))
    ensures Sound(root) ==> nodes.Some?
    ensures nodes.Some? ==>
              && |nodes.value| == Size(root)
              && forall i :: 0 <= i < |Listing(root, root.tag)| ==>
                   var entry := Listing(root, root.tag)[i];
                   entry.key in nodes.value && nodes.value[entry.key] == entry.node
  {
    var walker := new XmlNodes();
    var ok := walker.Walk(root, root.tag);
    nodes := if ok then Some(walker.result) else None;
    ListingSize(root, root.tag);
    if Sound(root) {
      PathsDistinct(root, root.tag);
    }
    if ok {
      InsertNeedsDistinct(map[], Listing(root, root.tag));
    }
    if Distinct(Listing(root, root.tag)) {
      InsertDistinct(map[], Listing(root, root.tag));
    }
  }
}
