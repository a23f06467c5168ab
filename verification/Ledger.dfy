/** The documentation ledger (`documentation` in scripts/probes/lib/gir-material-candidate.py): which sources each
    documentation node is bound to, how sources are interned, and what the ledger conserves. */
module Ledger {
  import opened Options

  datatype Result<+T> = Ok(value: T) | Err(error: string)

  /** A reviewed projection for a node; `agrees` when its digest and its projected lines match. */
  datatype Projection = Projection(member: string, relation: string, agrees: bool)

  /** A node of the raw tree under its owner path, with its normalised prose and the file names it or an owner
      declares. */
  datatype Node = Node(key: string, tag: string, text: Option<string>, prose: string, references: seq<string>,
                       projection: Option<Projection>)

  /** The files of one source project: names in order, and their cleaned text. */
  datatype Files = Files(names: seq<string>, clean: map<string, string>)

  datatype Supply = Supply(gir: string, project: string, files: Files, raw: seq<Node>, candidate: map<string, Node>)

  datatype Source = Source(project: string, member: string)
  datatype Row = Row(gir: string, owner: string, kind: string, text: Option<string>, sourceIds: seq<nat>,
    relation: string)

  datatype Book = Book(table: seq<Source>, ids: map<string, nat>, rows: seq<Row>, removed: seq<Row>,
                       counts: map<string, nat>, referenced: set<Source>)

  const Blank: Book := Book([], map[], [], [], map[], {})

  const CORE := "{http://www.gtk.org/introspection/core/1.0}"
  const DOC_TAGS := {CORE + "doc", CORE + "doc-deprecated", CORE + "doc-version"}
  const DECLARED := "DECLARED_OR_OWNER_SOURCE_EXACT_PROSE"
  const PACKAGE := "PACKAGE_SOURCE_EXACT_PROSE_ALL_MATCHES_RETAINED"

  // ---- Which sources a node matches ----

  predicate OccursAt(text: string, part: string, i: int) { 0 <= i <= |text| - |part| && text[i..i + |part|] == part }

  predicate Contains(text: string, part: string) { exists i :: 0 <= i <= |text| && OccursAt(text, part, i) }

  predicate Holds(files: Files, member: string, prose: string) {
    member in files.clean && Contains(files.clean[member], prose)
  }

  predicate Distinct(names: seq<string>) { forall i, j :: 0 <= i < j < |names| ==> names[i] != names[j] }

  /** `dict.fromkeys`. */
  function Unique(names: seq<string>): (unique: seq<string>)
    ensures Distinct(unique) && forall name :: name in unique <==> name in names
  {
    if names == [] then []
    else
      var last := |names| - 1;
      var before := Unique(names[..last]);
      assert names == names[..last] + [names[last]];
      if names[last] in before then before else before + [names[last]]
  }

  function Matches(files: Files, names: seq<string>, prose: string): (matches: seq<string>)
    ensures forall name :: name in matches <==> name in names && Holds(files, name, prose)
    ensures Distinct(names) ==> Distinct(matches)
  {
    if names == [] then []
    else
      var last := |names| - 1;
      var before := Matches(files, names[..last], prose);
      assert names == names[..last] + [names[last]];
      if Holds(files, names[last], prose) then before + [names[last]] else before
  }

  datatype Binding = Binding(members: seq<string>, relation: string)

  function Resolve(files: Files, node: Node): Result<Binding> {
    var declared := Matches(files, Unique(node.references), node.prose);
    var package := if node.prose == "" then [] else Matches(files, files.names, node.prose);
    if declared != [] then Ok(Binding(declared, DECLARED))
    else if package != [] then Ok(Binding(package, PACKAGE))
    else if node.projection.None? then Err("GIR_CANDIDATE_DOCUMENT_SOURCE_UNRESOLVED")
    else if node.projection.value.member !in files.clean then Err("KeyError")
    else if !node.projection.value.agrees then Err("GIR_CANDIDATE_DOC_PROJECTION_DRIFT")
    else Ok(Binding([node.projection.value.member], node.projection.value.relation))
  }

  ghost predicate DeclaredMatch(files: Files, node: Node, member: string) {
    member in node.references && Holds(files, member, node.prose)
  }

  ghost predicate PackageMatch(files: Files, node: Node, member: string) {
    node.prose != "" && member in files.names && Holds(files, member, node.prose)
  }

  /** A node is bound to every declared file that holds its prose; failing that, to every file of the package that
      does; failing that, to its reviewed projection. No source is named twice. */
  lemma ResolveIsComplete(files: Files, node: Node)
    requires Resolve(files, node).Ok? && Distinct(files.names)
    ensures var b := Resolve(files, node).value;
            && b.members != [] && Distinct(b.members) && (forall m :: m in b.members ==> m in files.clean)
            && if exists m :: DeclaredMatch(files, node, m) then
                 b.relation == DECLARED && forall m :: m in b.members <==> DeclaredMatch(files, node, m)
               else if exists m :: PackageMatch(files, node, m) then
                 b.relation == PACKAGE && forall m :: m in b.members <==> PackageMatch(files, node, m)
               else
                 node.projection.Some? && node.projection.value.agrees
                   && b == Binding([node.projection.value.member], node.projection.value.relation)
  {
    var declared := Matches(files, Unique(node.references), node.prose);
    var package := if node.prose == "" then [] else Matches(files, files.names, node.prose);
    assert forall m :: m in declared <==> DeclaredMatch(files, node, m);
    assert forall m :: m in package <==> PackageMatch(files, node, m);
    if declared != [] {
      assert DeclaredMatch(files, node, declared[0]);
    } else if package != [] {
      assert PackageMatch(files, node, package[0]);
    }
  }

  // ---- The fold ----

  function KeyOf(source: Source): string { source.project + ":" + source.member }

  function Intern(b: Book, source: Source): Book {
    var seen := b.(referenced := b.referenced + {source});
    if KeyOf(source) in b.ids then seen
    else seen.(ids := b.ids[KeyOf(source) := |b.table|], table := b.table + [source])
  }

  function InternFirst(b: Book, project: string, members: seq<string>, n: nat): (after: Book)
    requires n <= |members|
    ensures forall k :: 0 <= k < n ==> KeyOf(Source(project, members[k])) in after.ids
    ensures forall key :: key in b.ids ==> key in after.ids && after.ids[key] == b.ids[key]
    ensures after.rows == b.rows && after.removed == b.removed && after.counts == b.counts
  {
    if n == 0 then b else Intern(InternFirst(b, project, members, n - 1), Source(project, members[n - 1]))
  }

  function IdsOf(ids: map<string, nat>, project: string, members: seq<string>): seq<nat>
    requires forall k :: 0 <= k < |members| ==> KeyOf(Source(project, members[k])) in ids
  {
    seq(|members|, k requires 0 <= k < |members| => ids[KeyOf(Source(project, members[k]))])
  }

  function Counted(counts: map<string, nat>, relation: string): nat {
    if relation in counts then counts[relation] else 0
  }

  predicate Drifts(supply: Supply, node: Node) {
    && node.key in supply.candidate
    && (supply.candidate[node.key].tag != node.tag || supply.candidate[node.key].text != node.text)
  }

  /** A node of the raw tree of a supply. */
  datatype Doc = Doc(supply: Supply, node: Node)

  function RowOf(doc: Doc, binding: Binding, ids: seq<nat>): Row {
    Row(doc.supply.gir, doc.node.key, doc.node.tag, doc.node.text, ids, binding.relation)
  }

  /** The book with one more row: removed if the candidate no longer has the owner path, else kept and counted. */
  function WithRow(b: Book, doc: Doc, row: Row): Book {
    if doc.node.key !in doc.supply.candidate then b.(removed := b.removed + [row])
    else b.(rows := b.rows + [row], counts := b.counts[row.relation := Counted(b.counts, row.relation) + 1])
  }

  function Record(b: Book, doc: Doc, binding: Binding): Book {
    var interned := InternFirst(b, doc.supply.project, binding.members, |binding.members|);
    WithRow(interned, doc, RowOf(doc, binding, IdsOf(interned.ids, doc.supply.project, binding.members)))
  }

  function Note(b: Book, supply: Supply, node: Node): Result<Book> {
    if node.tag !in DOC_TAGS then Ok(b) else
    match Resolve(supply.files, node)
    case Err(error) => Err(error)
    case Ok(binding) =>
      if Drifts(supply, node) then Err("GIR_CANDIDATE_DOCUMENT_CONTENT_DRIFT")
      else Ok(Record(b, Doc(supply, node), binding))
  }

  function NoteFirst(b: Book, supply: Supply, n: nat): Result<Book>
    requires n <= |supply.raw|
  {
    if n == 0 then Ok(b) else
    match NoteFirst(b, supply, n - 1)
    case Err(error) => Err(error)
    case Ok(before) => Note(before, supply, supply.raw[n - 1])
  }

  /** A documentation node of the candidate that the raw tree does not have. */
  predicate Unbound(supply: Supply, key: string) {
    && key in supply.candidate && supply.candidate[key].tag in DOC_TAGS
    && forall i :: 0 <= i < |supply.raw| ==> supply.raw[i].key != key
  }

  predicate AnyUnbound(supply: Supply) { exists key :: key in supply.candidate && Unbound(supply, key) }

  function Enter(b: Book, supply: Supply): Result<Book> {
    match NoteFirst(b, supply, |supply.raw|)
    case Err(error) => Err(error)
    case Ok(after) => if AnyUnbound(supply) then Err("GIR_CANDIDATE_UNBOUND_DOCUMENT") else Ok(after)
  }

  function LedgerOf(supplies: seq<Supply>, n: nat): Result<Book>
    requires n <= |supplies|
  {
    if n == 0 then Ok(Blank) else
    match LedgerOf(supplies, n - 1)
    case Err(error) => Err(error)
    case Ok(before) => Enter(before, supplies[n - 1])
  }

  // ---- What the ledger is about ----

  ghost function DocsOfFirst(supply: Supply, n: nat): seq<Doc>
    requires n <= |supply.raw|
  {
    if n == 0 then []
    else DocsOfFirst(supply, n - 1) + if supply.raw[n - 1].tag in DOC_TAGS then [Doc(supply, supply.raw[n - 1])] else []
  }

  /** Every documentation node of every raw tree, in order. */
  ghost function Docs(supplies: seq<Supply>, n: nat): seq<Doc>
    requires n <= |supplies|
  {
    if n == 0 then [] else Docs(supplies, n - 1) + DocsOfFirst(supplies[n - 1], |supplies[n - 1].raw|)
  }

  /** The documents whose owner path the candidate still has, or no longer has, in order. */
  ghost function Kept(docs: seq<Doc>, kept: bool): seq<Doc> {
    if docs == [] then []
    else
      var last := docs[|docs| - 1];
      Kept(docs[..|docs| - 1], kept) + if (last.node.key in last.supply.candidate) == kept then [last] else []
  }

  lemma {:induction false} KeptSplits(docs: seq<Doc>)
    ensures |Kept(docs, true)| + |Kept(docs, false)| == |docs|
    ensures multiset(docs) == multiset(Kept(docs, true)) + multiset(Kept(docs, false))
  {
    if docs != [] {
      assert docs == docs[..|docs| - 1] + [docs[|docs| - 1]];
      KeptSplits(docs[..|docs| - 1]);
    }
  }

  /** The row is about the document: its own content, and one identity per bound source, each leading to that
      source's key. */
  ghost predicate Describes(row: Row, doc: Doc, table: seq<Source>) {
    && row.gir == doc.supply.gir && row.owner == doc.node.key && row.kind == doc.node.tag && row.text == doc.node.text
    && Resolve(doc.supply.files, doc.node).Ok?
    && var binding := Resolve(doc.supply.files, doc.node).value;
       && row.relation == binding.relation && |row.sourceIds| == |binding.members|
       && forall k :: 0 <= k < |row.sourceIds| ==>
            row.sourceIds[k] < |table|
              && KeyOf(table[row.sourceIds[k]]) == KeyOf(Source(doc.supply.project, binding.members[k]))
  }

  ghost predicate DescribesAll(rows: seq<Row>, docs: seq<Doc>, table: seq<Source>) {
    |rows| == |docs| && forall i :: 0 <= i < |rows| ==> Describes(rows[i], docs[i], table)
  }

  /** `source_ids` and `source_table` are inverse to each other, and the table holds referenced sources only. */
  ghost predicate Interned(table: seq<Source>, ids: map<string, nat>, referenced: set<Source>) {
    && (forall key :: key in ids ==> ids[key] < |table| && KeyOf(table[ids[key]]) == key)
    && (forall i :: 0 <= i < |table| ==> KeyOf(table[i]) in ids && ids[KeyOf(table[i])] == i && table[i] in referenced)
    && (forall source :: source in referenced ==> KeyOf(source) in ids)
  }

  ghost predicate TableInv(b: Book) { Interned(b.table, b.ids, b.referenced) }

  function Tally(rows: seq<Row>, relation: string): nat {
    if rows == [] then 0
    else Tally(rows[..|rows| - 1], relation) + if rows[|rows| - 1].relation == relation then 1 else 0
  }

  ghost function Total(counts: map<string, nat>): nat {
    if counts == map[] then 0
    else
      var relation :| relation in counts;
      counts[relation] + Total(counts - {relation})
  }

  ghost predicate Counts(rows: seq<Row>, counts: map<string, nat>) {
    Total(counts) == |rows| && forall relation :: Counted(counts, relation) == Tally(rows, relation)
  }

  /** The rows are those of the kept documents, and counted. */
  ghost predicate RowsInv(rows: seq<Row>, counts: map<string, nat>, kept: seq<Doc>, table: seq<Source>) {
    Counts(rows, counts) && DescribesAll(rows, kept, table)
  }

  ghost predicate BookInv(b: Book, docs: seq<Doc>) {
    && TableInv(b) && RowsInv(b.rows, b.counts, Kept(docs, true), b.table)
    && DescribesAll(b.removed, Kept(docs, false), b.table)
  }

  lemma {:induction false} TotalWithout(counts: map<string, nat>, relation: string)
    requires relation in counts
    ensures Total(counts) == counts[relation] + Total(counts - {relation})
    decreases |counts|
  {
    var chosen :| chosen in counts && Total(counts) == counts[chosen] + Total(counts - {chosen});
    if chosen != relation {
      TotalWithout(counts - {chosen}, relation);
      TotalWithout(counts - {relation}, chosen);
      assert counts - {chosen} - {relation} == counts - {relation} - {chosen};
    }
  }

  lemma TotalIncrement(counts: map<string, nat>, relation: string)
    ensures Total(counts[relation := Counted(counts, relation) + 1]) == Total(counts) + 1
  {
    var after := counts[relation := Counted(counts, relation) + 1];
    TotalWithout(after, relation);
    if relation in counts {
      TotalWithout(counts, relation);
      assert after - {relation} == counts - {relation};
    } else {
      assert after - {relation} == counts;
    }
  }

  lemma InternKeeps(b: Book, source: Source)
    requires TableInv(b)
    ensures TableInv(Intern(b, source)) && b.table <= Intern(b, source).table
  {
  }

  lemma {:induction false} InternFirstKeeps(b: Book, project: string, members: seq<string>, n: nat)
    requires TableInv(b) && n <= |members|
    ensures TableInv(InternFirst(b, project, members, n)) && b.table <= InternFirst(b, project, members, n).table
  {
    if n > 0 {
      InternFirstKeeps(b, project, members, n - 1);
      InternKeeps(InternFirst(b, project, members, n - 1), Source(project, members[n - 1]));
    }
  }

  lemma DescribesGrows(rows: seq<Row>, docs: seq<Doc>, table: seq<Source>, longer: seq<Source>)
    requires DescribesAll(rows, docs, table) && table <= longer
    ensures DescribesAll(rows, docs, longer)
  {
  }

  lemma CountsAppend(rows: seq<Row>, counts: map<string, nat>, row: Row)
    requires Counts(rows, counts)
    ensures Counts(rows + [row], counts[row.relation := Counted(counts, row.relation) + 1])
  {
    TotalIncrement(counts, row.relation);
    var longer := rows + [row];
    assert longer[..|longer| - 1] == rows;
    forall relation
      ensures Counted(counts[row.relation := Counted(counts, row.relation) + 1], relation) == Tally(longer, relation)
    {
      assert Counted(counts, relation) == Tally(rows, relation);
    }
  }

  lemma KeptAppend(docs: seq<Doc>, doc: Doc, kept: bool)
    ensures var added := if (doc.node.key in doc.supply.candidate) == kept then [doc] else [];
            Kept(docs + [doc], kept) == Kept(docs, kept) + added
  {
    var longer := docs + [doc];
    assert longer[..|longer| - 1] == docs;
  }

  lemma BoundRowDescribes(b: Book, doc: Doc, binding: Binding)
    requires TableInv(b) && Resolve(doc.supply.files, doc.node) == Ok(binding)
    ensures var after := InternFirst(b, doc.supply.project, binding.members, |binding.members|);
            Describes(RowOf(doc, binding, IdsOf(after.ids, doc.supply.project, binding.members)), doc, after.table)
  {
    InternFirstKeeps(b, doc.supply.project, binding.members, |binding.members|);
  }

  /** Interning alone keeps everything. */
  lemma InterningKeeps(b: Book, docs: seq<Doc>, project: string, members: seq<string>)
    requires BookInv(b, docs)
    ensures BookInv(InternFirst(b, project, members, |members|), docs)
  {
    var after := InternFirst(b, project, members, |members|);
    InternFirstKeeps(b, project, members, |members|);
    DescribesGrows(b.rows, Kept(docs, true), b.table, after.table);
    DescribesGrows(b.removed, Kept(docs, false), b.table, after.table);
  }

  lemma {:induction false} DescribesAppend(rows: seq<Row>, docs: seq<Doc>, table: seq<Source>, row: Row, doc: Doc)
    requires DescribesAll(rows, docs, table) && Describes(row, doc, table)
    ensures DescribesAll(rows + [row], docs + [doc], table)
  {
  }

  lemma KeptRowKeeps(b: Book, docs: seq<Doc>, doc: Doc, row: Row)
    requires BookInv(b, docs) && Describes(row, doc, b.table) && doc.node.key in doc.supply.candidate
    ensures BookInv(WithRow(b, doc, row), docs + [doc])
  {
    var kept, removed := Kept(docs, true), Kept(docs, false);
    assert Kept(docs + [doc], false) == removed by { KeptAppend(docs, doc, false); }
    assert Kept(docs + [doc], true) == kept + [doc] by { KeptAppend(docs, doc, true); }
    RowsAppend(b.rows, b.counts, kept, b.table, row, doc);
  }

  lemma {:induction false} RowsAppend(rows: seq<Row>, counts: map<string, nat>, kept: seq<Doc>, table: seq<Source>,
      row: Row, doc: Doc)
    requires RowsInv(rows, counts, kept, table) && Describes(row, doc, table)
    ensures RowsInv(rows + [row], counts[row.relation := Counted(counts, row.relation) + 1], kept + [doc], table)
  {
    CountsAppend(rows, counts, row);
    DescribesAppend(rows, kept, table, row, doc);
  }

  lemma RemovedRowKeeps(b: Book, docs: seq<Doc>, doc: Doc, row: Row)
    requires BookInv(b, docs) && Describes(row, doc, b.table) && doc.node.key !in doc.supply.candidate
    ensures BookInv(WithRow(b, doc, row), docs + [doc])
  {
    var kept, removed := Kept(docs, true), Kept(docs, false);
    assert Kept(docs + [doc], true) == kept by { KeptAppend(docs, doc, true); }
    assert Kept(docs + [doc], false) == removed + [doc] by { KeptAppend(docs, doc, false); }
    DescribesAppend(b.removed, removed, b.table, row, doc);
  }

  lemma RecordKeeps(b: Book, docs: seq<Doc>, doc: Doc, binding: Binding)
    requires BookInv(b, docs) && Resolve(doc.supply.files, doc.node) == Ok(binding)
    ensures BookInv(Record(b, doc, binding), docs + [doc])
  {
    var interned := InternFirst(b, doc.supply.project, binding.members, |binding.members|);
    var row := RowOf(doc, binding, IdsOf(interned.ids, doc.supply.project, binding.members));
    assert BookInv(interned, docs) by { InterningKeeps(b, docs, doc.supply.project, binding.members); }
    assert Describes(row, doc, interned.table) by { BoundRowDescribes(b, doc, binding); }
    if doc.node.key in doc.supply.candidate {
      KeptRowKeeps(interned, docs, doc, row);
    } else {
      RemovedRowKeeps(interned, docs, doc, row);
    }
  }

  lemma NoteKeeps(b: Book, docs: seq<Doc>, supply: Supply, node: Node)
    requires BookInv(b, docs) && node.tag in DOC_TAGS && Note(b, supply, node).Ok?
    ensures BookInv(Note(b, supply, node).value, docs + [Doc(supply, node)])
  {
    RecordKeeps(b, docs, Doc(supply, node), Resolve(supply.files, node).value);
  }

  lemma {:induction false} NoteFirstKeeps(b: Book, docs: seq<Doc>, supply: Supply, n: nat)
    requires BookInv(b, docs) && n <= |supply.raw| && NoteFirst(b, supply, n).Ok?
    ensures BookInv(NoteFirst(b, supply, n).value, docs + DocsOfFirst(supply, n))
  {
    if n == 0 {
      assert docs + [] == docs;
    } else {
      NoteFirstKeeps(b, docs, supply, n - 1);
      DocsNext(docs, supply, n);
      if supply.raw[n - 1].tag in DOC_TAGS {
        NoteKeeps(NoteFirst(b, supply, n - 1).value, docs + DocsOfFirst(supply, n - 1), supply, supply.raw[n - 1]);
      }
    }
  }

  lemma DocsNext(docs: seq<Doc>, supply: Supply, n: nat)
    requires 0 < n <= |supply.raw|
    ensures var before, node := docs + DocsOfFirst(supply, n - 1), supply.raw[n - 1];
            docs + DocsOfFirst(supply, n) == if node.tag in DOC_TAGS then before + [Doc(supply, node)] else before
  {
  }

  lemma {:induction false} LedgerKeeps(supplies: seq<Supply>, n: nat)
    requires n <= |supplies| && LedgerOf(supplies, n).Ok?
    ensures BookInv(LedgerOf(supplies, n).value, Docs(supplies, n))
  {
    if n > 0 {
      LedgerKeeps(supplies, n - 1);
      NoteFirstKeeps(LedgerOf(supplies, n - 1).value, Docs(supplies, n - 1), supplies[n - 1], |supplies[n - 1].raw|);
    }
  }

  /** On success every raw documentation node has exactly one row, in order, in `rows` if the candidate keeps its
      owner path and in `removed` otherwise; the counts are those of the rows and add up to their number; and
      `source_ids` is a bijection onto the table indices. */
  lemma LedgerConserves(supplies: seq<Supply>)
    requires LedgerOf(supplies, |supplies|).Ok?
    ensures var b, docs := LedgerOf(supplies, |supplies|).value, Docs(supplies, |supplies|);
            && |b.rows| + |b.removed| == |docs|
            && DescribesAll(b.rows, Kept(docs, true), b.table) && DescribesAll(b.removed, Kept(docs, false), b.table)
            && multiset(docs) == multiset(Kept(docs, true)) + multiset(Kept(docs, false))
            && Total(b.counts) == |b.rows|
            && (forall relation :: Counted(b.counts, relation) == Tally(b.rows, relation))
            && Interned(b.table, b.ids, b.referenced)
  {
    LedgerKeeps(supplies, |supplies|);
    KeptSplits(Docs(supplies, |supplies|));
  }

  // ---- When the ledger is made ----

  /** A node resolves exactly if a declared file or a file of the package holds its prose, or a reviewed projection of a
      file of the package agrees with it. */
  lemma ResolvesExactly(files: Files, node: Node)
    ensures Resolve(files, node).Ok? <==>
              (exists m :: DeclaredMatch(files, node, m)) || (exists m :: PackageMatch(files, node, m))
              || (node.projection.Some? && node.projection.value.member in files.clean && node.projection.value.agrees)
  {
    var declared := Matches(files, Unique(node.references), node.prose);
    var package := if node.prose == "" then [] else Matches(files, files.names, node.prose);
    assert forall m :: m in declared <==> DeclaredMatch(files, node, m);
    assert forall m :: m in package <==> PackageMatch(files, node, m);
    if declared != [] {
      assert DeclaredMatch(files, node, declared[0]);
    } else if package != [] {
      assert PackageMatch(files, node, package[0]);
    }
  }

  /** A documentation node resolves, and the candidate holds it unchanged or not at all. */
  ghost predicate NodeFits(supply: Supply, node: Node) {
    node.tag in {CORE + "doc", CORE + "doc-deprecated", CORE + "doc-version"} ==>
      && Resolve(supply.files, node).Ok?
      && (node.key in supply.candidate ==>
            supply.candidate[node.key].tag == node.tag && supply.candidate[node.key].text == node.text)
  }

  /** Every raw node fits, and every documentation node of the candidate has a raw node under its path. */
  ghost predicate SupplyFits(supply: Supply) {
    && (forall i :: 0 <= i < |supply.raw| ==> NodeFits(supply, supply.raw[i]))
    && forall key :: key in supply.candidate && supply.candidate[key].tag in DOC_TAGS ==>
         exists i :: 0 <= i < |supply.raw| && supply.raw[i].key == key
  }

  lemma {:induction false} NotesExactly(b: Book, supply: Supply, n: nat)
    requires n <= |supply.raw|
    ensures NoteFirst(b, supply, n).Ok? <==> forall i :: 0 <= i < n ==> NodeFits(supply, supply.raw[i])
  {
    if n > 0 {
      NotesExactly(b, supply, n - 1);
      var before := NoteFirst(b, supply, n - 1);
      if before.Ok? {
        assert Note(before.value, supply, supply.raw[n - 1]).Ok? <==> NodeFits(supply, supply.raw[n - 1]);
      }
    }
  }

  lemma EntersExactly(b: Book, supply: Supply)
    ensures Enter(b, supply).Ok? <==> SupplyFits(supply)
  {
    NotesExactly(b, supply, |supply.raw|);
    assert AnyUnbound(supply) <==>
      exists key :: key in supply.candidate && supply.candidate[key].tag in DOC_TAGS
                    && forall i :: 0 <= i < |supply.raw| ==> supply.raw[i].key != key;
  }

  /** The ledger is made exactly when every documentation node of every raw tree resolves and is unchanged in, or
      gone from, its candidate, and no candidate has a documentation node the raw tree does not have. */
  lemma {:induction false} LedgerSucceedsExactly(supplies: seq<Supply>, n: nat)
    requires n <= |supplies|
    ensures LedgerOf(supplies, n).Ok? <==> forall i :: 0 <= i < n ==> SupplyFits(supplies[i])
  {
    if n > 0 {
      LedgerSucceedsExactly(supplies, n - 1);
      var before := LedgerOf(supplies, n - 1);
      if before.Ok? {
        EntersExactly(before.value, supplies[n - 1]);
      }
    }
  }

  // ---- When an identity leads to its own source ----

  /** `longer` is `shorter` followed by a colon and a rest. */
  predicate Nests(shorter: string, longer: string) { shorter + ":" <= longer }

  /** No project name is another one followed by a colon and a rest. */
  predicate Unnested(names: set<string>) { forall p, q :: p in names && q in names ==> !Nests(p, q) }

  ghost predicate KeysInjective(names: set<string>) {
    forall x: Source, y: Source :: x.project in names && y.project in names && KeyOf(x) == KeyOf(y) ==> x == y
  }

  lemma KeyDecides(x: Source, y: Source)
    requires KeyOf(x) == KeyOf(y) && |x.project| <= |y.project|
    ensures x == y || Nests(x.project, y.project)
  {
    var key, i, j := KeyOf(x), |x.project|, |y.project|;
    assert x.project == key[..i] && y.project == key[..j] && x.member == key[i + 1..] && y.member == key[j + 1..];
    if i < j {
      assert key[..i + 1] == x.project + ":" && key[..i + 1] == y.project[..i + 1];
    }
  }

  /** Keys tell all sources of the given projects apart exactly when no project name nests in another. */
  lemma KeysInjectiveExactly(names: set<string>)
    ensures KeysInjective(names) <==> Unnested(names)
  {
    if Unnested(names) {
      forall x: Source, y: Source | x.project in names && y.project in names && KeyOf(x) == KeyOf(y) ensures x == y {
        if |x.project| <= |y.project| {
          KeyDecides(x, y);
        } else {
          KeyDecides(y, x);
        }
      }
    } else {
      var p, q :| p in names && q in names && Nests(p, q);
      NestedCollide(p, q, "m");
    }
  }

  /** The member of the shorter project that has the key of `member` of the longer one. */
  function Twin(p: string, q: string, member: string): string
    requires Nests(p, q)
  {
    q[|p| + 1..] + ":" + member
  }

  lemma NestedCollide(p: string, q: string, member: string)
    requires Nests(p, q)
    ensures KeyOf(Source(p, Twin(p, q, member))) == KeyOf(Source(q, member)) && p != q
  {
    assert q == p + ":" + q[|p| + 1..];
  }

  ghost predicate ProjectsIn(supplies: seq<Supply>, names: set<string>) {
    forall i :: 0 <= i < |supplies| ==> supplies[i].project in names
  }

  ghost predicate SourcesIn(table: seq<Source>, names: set<string>) {
    forall i :: 0 <= i < |table| ==> table[i].project in names
  }

  lemma {:induction false} InternFirstIn(b: Book, project: string, members: seq<string>, n: nat, names: set<string>)
    requires SourcesIn(b.table, names) && project in names && n <= |members|
    ensures SourcesIn(InternFirst(b, project, members, n).table, names)
  {
    if n > 0 {
      InternFirstIn(b, project, members, n - 1, names);
    }
  }

  lemma {:induction false} NoteFirstIn(b: Book, supply: Supply, n: nat, names: set<string>)
    requires SourcesIn(b.table, names) && supply.project in names && n <= |supply.raw| && NoteFirst(b, supply, n).Ok?
    ensures SourcesIn(NoteFirst(b, supply, n).value.table, names)
  {
    if n > 0 {
      NoteFirstIn(b, supply, n - 1, names);
      var before, node := NoteFirst(b, supply, n - 1).value, supply.raw[n - 1];
      if node.tag in DOC_TAGS {
        var members := Resolve(supply.files, node).value.members;
        InternFirstIn(before, supply.project, members, |members|, names);
      }
    }
  }

  lemma {:induction false} LedgerIn(supplies: seq<Supply>, n: nat, names: set<string>)
    requires n <= |supplies| && LedgerOf(supplies, n).Ok? && ProjectsIn(supplies, names)
    ensures SourcesIn(LedgerOf(supplies, n).value.table, names)
    ensures forall d :: d in Docs(supplies, n) ==> d.supply.project in names
  {
    if n > 0 {
      LedgerIn(supplies, n - 1, names);
      NoteFirstIn(LedgerOf(supplies, n - 1).value, supplies[n - 1], |supplies[n - 1].raw|, names);
      DocsOfSupply(supplies[n - 1], |supplies[n - 1].raw|);
    }
  }

  lemma {:induction false} DocsOfSupply(supply: Supply, n: nat)
    requires n <= |supply.raw|
    ensures forall d :: d in DocsOfFirst(supply, n) ==> d.supply == supply
  {
    if n > 0 {
      DocsOfSupply(supply, n - 1);
    }
  }

  lemma {:induction false} KeptFrom(docs: seq<Doc>, kept: bool)
    ensures forall d :: d in Kept(docs, kept) ==> d in docs
  {
    if docs != [] {
      KeptFrom(docs[..|docs| - 1], kept);
    }
  }

  /** The row's identities lead to the very sources its document was bound to. */
  ghost predicate LeadsToOwn(row: Row, doc: Doc, table: seq<Source>) {
    && Describes(row, doc, table)
    && forall k :: 0 <= k < |row.sourceIds| ==>
         table[row.sourceIds[k]] == Source(doc.supply.project, Resolve(doc.supply.files, doc.node).value.members[k])
  }

  ghost predicate AllLeadToOwn(rows: seq<Row>, docs: seq<Doc>, table: seq<Source>) {
    |rows| == |docs| && forall i :: 0 <= i < |rows| ==> LeadsToOwn(rows[i], docs[i], table)
  }

  ghost predicate OwnSources(supplies: seq<Supply>)
    requires LedgerOf(supplies, |supplies|).Ok?
  {
    var b, docs := LedgerOf(supplies, |supplies|).value, Docs(supplies, |supplies|);
    AllLeadToOwn(b.rows, Kept(docs, true), b.table) && AllLeadToOwn(b.removed, Kept(docs, false), b.table)
  }

  lemma RowsLeadToOwn(rows: seq<Row>, docs: seq<Doc>, table: seq<Source>, names: set<string>)
    requires DescribesAll(rows, docs, table) && SourcesIn(table, names) && KeysInjective(names)
    requires forall d :: d in docs ==> d.supply.project in names
    ensures AllLeadToOwn(rows, docs, table)
  {
    forall i | 0 <= i < |rows| ensures LeadsToOwn(rows[i], docs[i], table) {
      assert Describes(rows[i], docs[i], table) && docs[i] in docs;
    }
  }

  /** Without nested project names every identity in every row leads to the very source the row was bound to. */
  lemma UnnestedLeadsToOwn(supplies: seq<Supply>, names: set<string>)
    requires Unnested(names) && ProjectsIn(supplies, names) && LedgerOf(supplies, |supplies|).Ok?
    ensures OwnSources(supplies)
  {
    var b, docs := LedgerOf(supplies, |supplies|).value, Docs(supplies, |supplies|);
    LedgerKeeps(supplies, |supplies|);
    LedgerIn(supplies, |supplies|, names);
    KeysInjectiveExactly(names);
    KeptFrom(docs, true);
    KeptFrom(docs, false);
    RowsLeadToOwn(b.rows, Kept(docs, true), b.table, names);
    RowsLeadToOwn(b.removed, Kept(docs, false), b.table, names);
  }

  /** A project with one file, and one documentation node found in it. */
  function OneDoc(project: string, member: string): Supply {
    var node := Node("k", CORE + "doc", None, "", [member], None);
    Supply("g", project, Files([member], map[member := ""]), [node], map["k" := node])
  }

  lemma OneDocResolves(project: string, member: string)
    ensures var supply := OneDoc(project, member);
            Resolve(supply.files, supply.raw[0]) == Ok(Binding([member], DECLARED))
  {
    var supply := OneDoc(project, member);
    assert OccursAt("", "", 0);
    assert Unique([member]) == [member] by { assert [member][..0] == [] && Unique([]) == []; }
    assert Matches(supply.files, [member], "") == [member] by {
      assert [member][..0] == [] && Matches(supply.files, [], "") == [];
      assert Holds(supply.files, member, "");
    }
  }

  /** The book after the one document of `OneDoc`. */
  ghost function WithDoc(b: Book, project: string, member: string): Book {
    var supply := OneDoc(project, member);
    Record(b, Doc(supply, supply.raw[0]), Binding([member], DECLARED))
  }

  lemma OneDocRecorded(b: Book, project: string, member: string)
    ensures var interned, next := Intern(b, Source(project, member)), WithDoc(b, project, member);
            && next.table == interned.table && next.ids == interned.ids && |next.rows| == |b.rows| + 1
            && next.rows[|b.rows|].sourceIds == [interned.ids[KeyOf(Source(project, member))]]
  {
    assert InternFirst(b, project, [member], 0) == b;
    assert InternFirst(b, project, [member], 1) == Intern(b, Source(project, member));
  }

  lemma OneDocEnters(b: Book, project: string, member: string)
    ensures Enter(b, OneDoc(project, member)) == Ok(WithDoc(b, project, member))
  {
    var supply := OneDoc(project, member);
    OneDocResolves(project, member);
    assert NoteFirst(b, supply, 0) == Ok(b);
    assert NoteFirst(b, supply, 1) == Note(b, supply, supply.raw[0]);
    assert !AnyUnbound(supply) by { assert supply.raw[0].key == "k"; }
  }

  lemma TwoDocs(first: Source, second: Source)
    requires KeyOf(first) == KeyOf(second)
    ensures var supplies := [OneDoc(first.project, first.member), OneDoc(second.project, second.member)];
            && LedgerOf(supplies, 2).Ok?
            && var b := LedgerOf(supplies, 2).value; b.table == [first] && |b.rows| == 2 && b.rows[1].sourceIds == [0]
  {
    var supplies := [OneDoc(first.project, first.member), OneDoc(second.project, second.member)];
    OneDocEnters(Blank, first.project, first.member);
    OneDocRecorded(Blank, first.project, first.member);
    assert LedgerOf(supplies, 0) == Ok(Blank);
    assert LedgerOf(supplies, 1) == Enter(Blank, supplies[0]);
    var one := LedgerOf(supplies, 1).value;
    OneDocEnters(one, second.project, second.member);
    OneDocRecorded(one, second.project, second.member);
    assert LedgerOf(supplies, 2) == Enter(one, supplies[1]);
  }

  /** With nested names two supplies suffice to record one source as another. */
  lemma NestedMisleads(p: string, q: string)
    requires Nests(p, q)
    ensures var supplies := [OneDoc(q, "m"), OneDoc(p, Twin(p, q, "m"))];
            LedgerOf(supplies, 2).Ok? && !OwnSources(supplies)
  {
    var supplies, second := [OneDoc(q, "m"), OneDoc(p, Twin(p, q, "m"))], Source(p, Twin(p, q, "m"));
    NestedCollide(p, q, "m");
    TwoDocs(Source(q, "m"), second);
    var b, docs := LedgerOf(supplies, 2).value, Kept(Docs(supplies, 2), true);
    assert docs != [] && docs[|docs| - 1] == Doc(supplies[1], supplies[1].raw[0]) by { LastDoc(supplies, 1); }
    assert Resolve(supplies[1].files, supplies[1].raw[0]) == Ok(Binding([second.member], DECLARED)) by {
      OneDocResolves(p, second.member);
    }
    WrongSource(b.rows[1], docs[|docs| - 1], b.table, second, DECLARED);
    assert |docs| == 2 ==> docs[1] == docs[|docs| - 1];
  }

  lemma {:induction false} WrongSource(row: Row, doc: Doc, table: seq<Source>, right: Source, relation: string)
    requires doc.supply.project == right.project
    requires Resolve(doc.supply.files, doc.node) == Ok(Binding([right.member], relation))
    requires row.sourceIds == [0] && table != [] && table[0] != right
    ensures !LeadsToOwn(row, doc, table)
  {
    assert row.sourceIds[0] == 0;
  }

  /** The last document of supplies that end with a kept one-document supply. */
  lemma LastDoc(supplies: seq<Supply>, n: nat)
    requires n < |supplies| && exists project, member :: supplies[n] == OneDoc(project, member)
    ensures var docs := Kept(Docs(supplies, n + 1), true);
            docs != [] && docs[|docs| - 1] == Doc(supplies[n], supplies[n].raw[0])
  {
    var doc := Doc(supplies[n], supplies[n].raw[0]);
    assert DocsOfFirst(supplies[n], 1) == DocsOfFirst(supplies[n], 0) + [doc];
    assert Docs(supplies, n + 1) == Docs(supplies, n) + [doc];
    KeptAppend(Docs(supplies, n), doc, true);
  }

  lemma SomeMislead(names: set<string>)
    requires !Unnested(names)
    ensures exists supplies ::
              ProjectsIn(supplies, names) && LedgerOf(supplies, |supplies|).Ok? && !OwnSources(supplies)
  {
    var p, q :| p in names && q in names && Nests(p, q);
    NestedMisleads(p, q);
    var first, second := OneDoc(q, "m"), OneDoc(p, Twin(p, q, "m"));
    var supplies := [first, second];
    assert first.project == q && second.project == p;
    assert ProjectsIn(supplies, names);
  }

  /** In every ledger over the given projects each recorded identity leads to its own source, exactly when no
      project name is another one followed by a colon and a rest. */
  lemma OwnSourceExactly(names: set<string>)
    ensures Unnested(names) <==>
            forall supplies :: ProjectsIn(supplies, names) && LedgerOf(supplies, |supplies|).Ok? ==>
              OwnSources(supplies)
  {
    if Unnested(names) {
      forall supplies | ProjectsIn(supplies, names) && LedgerOf(supplies, |supplies|).Ok? ensures OwnSources(supplies) {
        UnnestedLeadsToOwn(supplies, names);
      }
    } else {
      SomeMislead(names);
    }
  }

  // ---- The loops ----

  method BindSources(b: Book, project: string, members: seq<string>) returns (after: Book, ids: seq<nat>)
    ensures after == InternFirst(b, project, members, |members|)
    ensures ids == IdsOf(after.ids, project, members)
  {
    after, ids := b, [];
    for k := 0 to |members|
      invariant after == InternFirst(b, project, members, k)
      invariant |ids| == k
      invariant forall j :: 0 <= j < k ==> ids[j] == after.ids[KeyOf(Source(project, members[j]))]
    {
      var source := Source(project, members[k]);
      if KeyOf(source) !in after.ids {
        after := after.(ids := after.ids[KeyOf(source) := |after.table|], table := after.table + [source]);
      }
      ids := ids + [after.ids[KeyOf(source)]];
      after := after.(referenced := after.referenced + {source});
    }
  }

  method Documentation(supplies: seq<Supply>) returns (result: Result<Book>)
    ensures result == LedgerOf(supplies, |supplies|)
  {
    var book := Blank;
    for s := 0 to |supplies|
      invariant LedgerOf(supplies, s) == Ok(book)
    {
      result := EnterSupply(book, supplies[s]);
      if result.Err? {
        ErrorStays(supplies, s + 1, |supplies|);
        return;
      }
      book := result.value;
    }
    result := Ok(book);
  }

  lemma {:induction false} ErrorStays(supplies: seq<Supply>, s: nat, n: nat)
    requires s <= n <= |supplies| && LedgerOf(supplies, s).Err?
    ensures LedgerOf(supplies, n) == LedgerOf(supplies, s)
  {
    if s < n {
      ErrorStays(supplies, s, n - 1);
    }
  }

  lemma {:induction false} NoteErrorStays(b: Book, supply: Supply, i: nat, n: nat)
    requires i <= n <= |supply.raw| && NoteFirst(b, supply, i).Err?
    ensures NoteFirst(b, supply, n) == NoteFirst(b, supply, i)
  {
    if i < n {
      NoteErrorStays(b, supply, i, n - 1);
    }
  }

  method EnterSupply(b: Book, supply: Supply) returns (result: Result<Book>)
    ensures result == Enter(b, supply)
  {
    var book := b;
    for i := 0 to |supply.raw|
      invariant NoteFirst(b, supply, i) == Ok(book)
    {
      result := NoteNode(book, supply, supply.raw[i]);
      if result.Err? {
        NoteErrorStays(b, supply, i + 1, |supply.raw|);
        return;
      }
      book := result.value;
    }
    result := if AnyUnbound(supply) then Err("GIR_CANDIDATE_UNBOUND_DOCUMENT") else Ok(book);
  }

  method NoteNode(b: Book, supply: Supply, node: Node) returns (result: Result<Book>)
    ensures result == Note(b, supply, node)
  {
    if node.tag !in DOC_TAGS { return Ok(b); }
    var binding := Resolve(supply.files, node);
    if binding.Err? { return Err(binding.error); }
    var relation := binding.value.relation;
    var book, ids := BindSources(b, supply.project, binding.value.members);
    var row := Row(supply.gir, node.key, node.tag, node.text, ids, relation);
    if node.key !in supply.candidate { return Ok(book.(removed := book.removed + [row])); }
    if Drifts(supply, node) { return Err("GIR_CANDIDATE_DOCUMENT_CONTENT_DRIFT"); }
    return Ok(book.(rows := book.rows + [row], counts := book.counts[relation := Counted(book.counts, relation) + 1]));
  }
}
