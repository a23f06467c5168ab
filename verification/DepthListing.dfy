/** Rebuilding paths from a listing of names and depths (`FilesTab` in
    prototypes/src/prototypes/ReadingRoomCoder.tsx). */
module DepthListing {
  datatype Tree = Tree(name: string, dir: bool, children: seq<Tree>)
  datatype Row = Row(name: string, depth: nat, dir: bool)

  /** `parts.join("/")`. */
  function Join(parts: seq<string>): string {
    if parts == [] then "" else if |parts| == 1 then parts[0] else Join(parts[..|parts| - 1]) + "/" + parts[|parts| - 1]
  }

  /** Assigning an array's length: it cuts, or extends with holes, which `join` prints as nothing. */
  function SetLength(stack: seq<string>, length: nat): seq<string> {
    if length <= |stack| then stack[..length] else stack + seq(length - |stack|, _ => "")
  }

  // ---- The forest behind a listing ----

  /** Only directories, and nodes without a name, have children. */
  ghost predicate OnlyDirsHaveChildren(forest: seq<Tree>) {
    forall i :: 0 <= i < |forest| ==>
      (forest[i].children != [] ==> forest[i].dir || forest[i].name == "") && OnlyDirsHaveChildren(forest[i].children)
  }

  /** The preorder listing of a forest whose roots are at the given depth. */
  function Flatten(forest: seq<Tree>, depth: nat): seq<Row> {
    if forest == [] then []
    else
      [Row(forest[0].name, depth, forest[0].dir)] + Flatten(forest[0].children, depth + 1) + Flatten(forest[1..], depth)
  }

  /** The path of every node, by its true ancestors, in the same order. */
  function TruePaths(forest: seq<Tree>, ancestors: seq<string>): seq<string> {
    if forest == [] then []
    else
      [Join(ancestors + [forest[0].name])] + TruePaths(forest[0].children, ancestors + [forest[0].name])
      + TruePaths(forest[1..], ancestors)
  }

  // ---- The pass over a listing ----

  function After(stack: seq<string>, row: Row): seq<string> {
    SetLength(stack, row.depth) + if row.dir then [row.name] else []
  }

  function Stack(stack: seq<string>, rows: seq<Row>): seq<string>
    decreases |rows|
  {
    if rows == [] then stack else Stack(After(stack, rows[0]), rows[1..])
  }

  function Paths(stack: seq<string>, rows: seq<Row>): seq<string>
    decreases |rows|
  {
    if rows == [] then []
    else [Join(SetLength(stack, rows[0].depth) + [rows[0].name])] + Paths(After(stack, rows[0]), rows[1..])
  }

  lemma {:induction false} StackAppend(stack: seq<string>, a: seq<Row>, b: seq<Row>)
    ensures Stack(stack, a + b) == Stack(Stack(stack, a), b)
    decreases |a|
  {
    if a == [] {
      assert a + b == b;
    } else {
      assert (a + b)[0] == a[0] && (a + b)[1..] == a[1..] + b;
      StackAppend(After(stack, a[0]), a[1..], b);
    }
  }

  lemma {:induction false} PathsAppend(stack: seq<string>, a: seq<Row>, b: seq<Row>)
    ensures Paths(stack, a + b) == Paths(stack, a) + Paths(Stack(stack, a), b)
    decreases |a|
  {
    if a == [] {
      assert a + b == b;
    } else {
      var next := After(stack, a[0]);
      var first := [Join(SetLength(stack, a[0].depth) + [a[0].name])];
      assert (a + b)[0] == a[0] && (a + b)[1..] == a[1..] + b;
      PathsAppend(next, a[1..], b);
      var x, y := Paths(next, a[1..]), Paths(Stack(next, a[1..]), b);
      assert Paths(stack, a + b) == first + (x + y);
      assert first + (x + y) == (first + x) + y;
    }
  }

  lemma PassStep(stack: seq<string>, row: Row, below: seq<Row>, rest: seq<Row>)
    ensures var entered := After(stack, row);
            && Paths(stack, [row] + below + rest)
               == [Join(SetLength(stack, row.depth) + [row.name])] + Paths(entered, below)
                 + Paths(Stack(entered, below), rest)
            && Stack(stack, [row] + below + rest) == Stack(Stack(entered, below), rest)
  {
    var rows := [row] + below + rest;
    assert rows[0] == row && rows[1..] == below + rest;
    StackAppend(After(stack, row), below, rest);
    PathsAppend(After(stack, row), below, rest);
  }

  /** The paths with every ancestor that is not a directory blanked out. */
  function ShownPaths(forest: seq<Tree>, ancestors: seq<string>): seq<string> {
    if forest == [] then []
    else
      [Join(ancestors + [forest[0].name])]
      + ShownPaths(forest[0].children, ancestors + [if forest[0].dir then forest[0].name else ""])
      + ShownPaths(forest[1..], ancestors)
  }

  /** Whatever an earlier subtree left above the ancestors is cut off again, and the ancestors stay. */
  lemma {:induction false} PassShows(forest: seq<Tree>, ancestors: seq<string>, stack: seq<string>)
    requires SetLength(stack, |ancestors|) == ancestors
    ensures Paths(stack, Flatten(forest, |ancestors|)) == ShownPaths(forest, ancestors)
    ensures SetLength(Stack(stack, Flatten(forest, |ancestors|)), |ancestors|) == ancestors
  {
    if forest != [] {
      var tree, d := forest[0], |ancestors|;
      var row, below, rest := Row(tree.name, d, tree.dir), Flatten(tree.children, d + 1), Flatten(forest[1..], d);
      var entered, inside := After(stack, row), ancestors + [if tree.dir then tree.name else ""];
      PassStep(stack, row, below, rest);
      assert SetLength(entered, d + 1) == inside;
      PassShows(tree.children, inside, entered);
      assert SetLength(Stack(entered, below), d) == ancestors by { CutTwice(Stack(entered, below), ancestors, inside); }
      PassShows(forest[1..], ancestors, Stack(entered, below));
    }
  }

  lemma CutTwice(stack: seq<string>, shorter: seq<string>, longer: seq<string>)
    requires |longer| == |shorter| + 1 && shorter <= longer && SetLength(stack, |longer|) == longer
    ensures SetLength(stack, |shorter|) == shorter
  {
    var cut := SetLength(stack, |longer|);
    assert forall i :: 0 <= i < |shorter| ==> cut[i] == shorter[i];
  }

  lemma {:induction false} SameLength(forest: seq<Tree>, a: seq<string>, b: seq<string>)
    ensures |ShownPaths(forest, a)| == |TruePaths(forest, b)|
  {
    if forest != [] {
      var tree := forest[0];
      SameLength(tree.children, a + [if tree.dir then tree.name else ""], b + [tree.name]);
      SameLength(forest[1..], a, b);
    }
  }

  lemma JoinLength(parts: seq<string>, last: string)
    requires parts != []
    ensures |Join(parts + [last])| == |Join(parts)| + 1 + |last|
  {
    var longer := parts + [last];
    assert longer[..|longer| - 1] == parts;
  }

  /** Blanking a named parent shortens the path of its child. */
  lemma BlankedDiffers(ancestors: seq<string>, name: string, child: string)
    requires name != ""
    ensures Join(ancestors + [""] + [child]) != Join(ancestors + [name] + [child])
  {
    JoinLength(ancestors + [""], child);
    JoinLength(ancestors + [name], child);
    if ancestors != [] {
      JoinLength(ancestors, "");
      JoinLength(ancestors, name);
    }
  }

  lemma {:induction false} ShownTrueExactly(forest: seq<Tree>, ancestors: seq<string>)
    ensures ShownPaths(forest, ancestors) == TruePaths(forest, ancestors) <==> OnlyDirsHaveChildren(forest)
  {
    if forest != [] {
      var tree, rest := forest[0], forest[1..];
      var inside, truly := ancestors + [if tree.dir then tree.name else ""], ancestors + [tree.name];
      SameLength(tree.children, inside, truly);
      var head := [Join(ancestors + [tree.name])];
      SplitEqual(head + ShownPaths(tree.children, inside), ShownPaths(rest, ancestors),
                 head + TruePaths(tree.children, truly), TruePaths(rest, ancestors));
      SplitEqual(head, ShownPaths(tree.children, inside), head, TruePaths(tree.children, truly));
      ShownTrueExactly(rest, ancestors);
      assert OnlyDirsHaveChildren(forest) <==>
        ((tree.children != [] ==> tree.dir || tree.name == "") && OnlyDirsHaveChildren(tree.children))
          && OnlyDirsHaveChildren(rest) by {
        HeadAndRest(forest);
      }
      if tree.dir || tree.name == "" {
        ShownTrueExactly(tree.children, truly);
      } else if tree.children != [] {
        BlankedDiffers(ancestors, tree.name, tree.children[0].name);
        assert ShownPaths(tree.children, inside)[0] != TruePaths(tree.children, truly)[0];
      }
    }
  }

  lemma HeadAndRest(forest: seq<Tree>)
    requires forest != []
    ensures var tree := forest[0];
            OnlyDirsHaveChildren(forest) <==>
              ((tree.children != [] ==> tree.dir || tree.name == "") && OnlyDirsHaveChildren(tree.children))
                && OnlyDirsHaveChildren(forest[1..])
  {
    var tree, rest := forest[0], forest[1..];
    assert forall i :: 0 <= i < |rest| ==> rest[i] == forest[i + 1];
    assert forall i :: 1 <= i < |forest| ==> forest[i] == rest[i - 1];
  }

  lemma SplitEqual(a: seq<string>, b: seq<string>, c: seq<string>, d: seq<string>)
    requires |a| == |c|
    ensures a + b == c + d <==> a == c && b == d
  {
    if a + b == c + d {
      assert a == (a + b)[..|a|] && c == (c + d)[..|a|];
      assert b == (a + b)[|a|..] && d == (c + d)[|a|..];
    }
  }

  /** The loop: one mutable stack while mapping over the rows. */
  method RebuildPaths(rows: seq<Row>) returns (paths: seq<string>)
    ensures paths == Paths([], rows)
  {
    var stack: seq<string> := [];
    paths := [];
    for i := 0 to |rows|
      invariant paths + Paths(stack, rows[i..]) == Paths([], rows)
    {
      var row := rows[i];
      ghost var before, rest := stack, rows[i..];
      assert rest[0] == row && rest[1..] == rows[i + 1..];
      stack := SetLength(stack, row.depth);
      ghost var head := [Join(stack + [row.name])];
      assert paths + Paths(before, rest) == (paths + head) + Paths(After(before, row), rest[1..]);
      paths := paths + [Join(stack + [row.name])];
      if row.dir { stack := stack + [row.name]; }
      assert stack == After(before, row);
    }
  }

  /** Flattening a forest and rebuilding gives every node its true path exactly when only directories (or nameless
      nodes) have children. */
  lemma ListingRoundTrip(forest: seq<Tree>)
    ensures Paths([], Flatten(forest, 0)) == TruePaths(forest, []) <==> OnlyDirsHaveChildren(forest)
  {
    PassShows(forest, [], []);
    ShownTrueExactly(forest, []);
  }
}
