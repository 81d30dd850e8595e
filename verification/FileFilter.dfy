/** The search over the file tree (`filterNodes` in nuxt-ui/pages/code.vue). */
module FileFilter {
  import opened Sequences
  import opened Texts

  datatype Node = File(name: string, path: string) | Dir(name: string, path: string, children: Listing)

  datatype Listing = Missing | Listed(nodes: seq<Node>)

  /** A normal query is its own normal form: lower-casing twice is lower-casing once, and makes no white
      space. */
  ghost predicate LowersCase(lower: string -> string) {
    forall s :: Normal(lower, Normal(lower, s)) == Normal(lower, s)
  }

  predicate NameMatches(lower: string -> string, needle: string, node: Node) {
    Includes(lower(node.name), needle)
  }

  predicate FileMatches(lower: string -> string, needle: string, node: Node) {
    Includes(lower(node.path), needle) || NameMatches(lower, needle, node)
  }

  // ----- the source's recursion -----

  /** `filterNodes`; the recursive calls normalise the needle again. */
  function FilterNodes(lower: string -> string, nodes: seq<Node>, query: string): seq<Node>
    decreases nodes, 1
  {
    var needle := Normal(lower, query);
    if needle == "" then nodes else FlatMapNodes(lower, nodes, needle)
  }

  function FlatMapNodes(lower: string -> string, nodes: seq<Node>, needle: string): seq<Node>
    decreases nodes, 0
  {
    if nodes == [] then [] else FilterNode(lower, nodes[0], needle) + FlatMapNodes(lower, nodes[1..], needle)
  }

  function FilterNode(lower: string -> string, node: Node, needle: string): seq<Node>
    decreases node, 0
  {
    match node
    case File(_, _) => if FileMatches(lower, needle, node) then [node] else []
    case Dir(name, path, listing) =>
      var children := match listing case Missing => [] case Listed(nodes) => FilterNodes(lower, nodes, needle);
      if children != [] || NameMatches(lower, needle, node) then [Dir(name, path, Listed(children))] else []
  }

  // ----- the search for a needle that is normal -----

  function Keep(lower: string -> string, nodes: seq<Node>, needle: string): seq<Node>
    decreases nodes
  {
    if nodes == [] then [] else KeepNode(lower, nodes[0], needle) + Keep(lower, nodes[1..], needle)
  }

  function KeepNode(lower: string -> string, node: Node, needle: string): seq<Node>
    decreases node
  {
    match node
    case File(_, _) => if FileMatches(lower, needle, node) then [node] else []
    case Dir(name, path, listing) =>
      var children := match listing case Missing => [] case Listed(nodes) => Keep(lower, nodes, needle);
      if children != [] || NameMatches(lower, needle, node) then [Dir(name, path, Listed(children))] else []
  }

  lemma {:induction false} FlatMapKeeps(lower: string -> string, nodes: seq<Node>, needle: string)
    requires Normal(lower, needle) == needle != ""
    ensures FlatMapNodes(lower, nodes, needle) == Keep(lower, nodes, needle)
    decreases nodes
  {
    if nodes != [] {
      hide FileMatches, NameMatches, Normal;
      if nodes[0].Dir? && nodes[0].children.Listed? {
        FlatMapKeeps(lower, nodes[0].children.nodes, needle);
        Unfold(lower, nodes[0].children.nodes, needle);
      }
      FlatMapKeeps(lower, nodes[1..], needle);
    }
  }

  lemma Unfold(lower: string -> string, nodes: seq<Node>, needle: string)
    requires Normal(lower, needle) == needle != ""
    ensures FilterNodes(lower, nodes, needle) == FlatMapNodes(lower, nodes, needle)
  {
  }

  /** Normalising again on the way down changes nothing. */
  lemma FilterKeeps(lower: string -> string, nodes: seq<Node>, query: string)
    requires LowersCase(lower)
    ensures FilterNodes(lower, nodes, query)
         == if Normal(lower, query) == "" then nodes else Keep(lower, nodes, Normal(lower, query))
  {
    if Normal(lower, query) != "" {
      FlatMapKeeps(lower, nodes, Normal(lower, query));
    }
  }

  // ----- incremental search -----

  lemma IncludesTransitive(a: string, b: string, c: string)
    requires Includes(a, b) && Includes(b, c)
    ensures Includes(a, c)
  {
    var i :| 0 <= i <= |a| && OccursAt(a, b, i);
    var j :| 0 <= j <= |b| && OccursAt(b, c, j);
    forall k | 0 <= k < |c| ensures a[i + j + k] == c[k] {
      assert a[i..i + |b|][j + k] == b[j + k] && b[j..j + |c|][k] == c[k];
    }
    assert OccursAt(a, c, i + j);
  }

  lemma MatchesNarrow(lower: string -> string, node: Node, needle: string, longer: string)
    requires Includes(longer, needle)
    ensures NameMatches(lower, longer, node) ==> NameMatches(lower, needle, node)
    ensures FileMatches(lower, longer, node) ==> FileMatches(lower, needle, node)
  {
    hide Includes;
    if Includes(lower(node.name), longer) {
      IncludesTransitive(lower(node.name), longer, needle);
    }
    if Includes(lower(node.path), longer) {
      IncludesTransitive(lower(node.path), longer, needle);
    }
  }

  lemma KeepFirst(lower: string -> string, nodes: seq<Node>, needle: string)
    requires nodes != []
    ensures Keep(lower, nodes, needle) == KeepNode(lower, nodes[0], needle) + Keep(lower, nodes[1..], needle)
  {
    hide KeepNode;
  }

  lemma {:induction false} KeepConcat(lower: string -> string, a: seq<Node>, b: seq<Node>, needle: string)
    ensures Keep(lower, a + b, needle) == Keep(lower, a, needle) + Keep(lower, b, needle)
  {
    hide KeepNode, Keep;
    if a == [] {
      assert a + b == b;
      KeepNone(lower, needle);
    } else {
      KeepConcat(lower, a[1..], b, needle);
      KeepFirst(lower, a, needle);
      KeepFirst(lower, a + b, needle);
      assert (a + b)[1..] == a[1..] + b;
    }
  }

  lemma KeepOne(lower: string -> string, node: Node, needle: string)
    ensures Keep(lower, [node], needle) == KeepNode(lower, node, needle)
  {
  }

  lemma {:induction false} KeepTwice(lower: string -> string, nodes: seq<Node>, needle: string, longer: string)
    requires Includes(longer, needle)
    ensures Keep(lower, Keep(lower, nodes, needle), longer) == Keep(lower, nodes, longer)
    decreases nodes, 1
  {
    hide KeepNode, Includes;
    if nodes != [] {
      KeepNodeTwice(lower, nodes[0], needle, longer);
      KeepTwice(lower, nodes[1..], needle, longer);
      KeepConcat(lower, KeepNode(lower, nodes[0], needle), Keep(lower, nodes[1..], needle), longer);
    }
  }

  lemma {:induction false} KeepNodeTwice(lower: string -> string, node: Node, needle: string, longer: string)
    requires Includes(longer, needle)
    ensures Keep(lower, KeepNode(lower, node, needle), longer) == KeepNode(lower, node, longer)
    decreases node, 0
  {
    hide Includes, FileMatches, NameMatches, Keep;
    MatchesNarrow(lower, node, needle, longer);
    var kept := KeepNode(lower, node, needle);
    if kept != [] {
      KeepOne(lower, kept[0], longer);
    }
    KeepNone(lower, longer);
    match node
    case File(_, _) =>
    case Dir(name, path, listing) =>
      if listing.Listed? {
        KeepTwice(lower, listing.nodes, needle, longer);
      }
      if kept != [] {
        SameName(lower, node, kept[0], longer);
      }
  }

  lemma KeepNone(lower: string -> string, needle: string)
    ensures Keep(lower, [], needle) == []
  {
  }

  lemma SameName(lower: string -> string, a: Node, b: Node, needle: string)
    requires a.name == b.name
    ensures NameMatches(lower, needle, a) == NameMatches(lower, needle, b)
  {
  }

  lemma EmptyIncludesEmpty(part: string)
    ensures Includes("", part) ==> part == ""
  {
  }

  /** Typing on narrows the result already shown to what a search from scratch would give. */
  lemma IncrementalSearch(lower: string -> string, nodes: seq<Node>, query: string, longer: string)
    requires LowersCase(lower) && Includes(Normal(lower, longer), Normal(lower, query))
    ensures FilterNodes(lower, FilterNodes(lower, nodes, query), longer) == FilterNodes(lower, nodes, longer)
  {
    hide FilterNodes, LowersCase, Normal;
    FilterKeeps(lower, nodes, query);
    FilterKeeps(lower, nodes, longer);
    FilterKeeps(lower, FilterNodes(lower, nodes, query), longer);
    EmptyIncludesEmpty(Normal(lower, query));
    if Normal(lower, query) != "" {
      KeepTwice(lower, nodes, Normal(lower, query), Normal(lower, longer));
    }
  }

  lemma SearchIdempotent(lower: string -> string, nodes: seq<Node>, query: string)
    requires LowersCase(lower)
    ensures FilterNodes(lower, FilterNodes(lower, nodes, query), query) == FilterNodes(lower, nodes, query)
  {
    var needle := Normal(lower, query);
    assert OccursAt(needle, needle, 0);
    IncrementalSearch(lower, nodes, query, query);
  }

  // ----- what is found -----

  /** The files of a forest, in order. */
  function Files(nodes: seq<Node>): seq<Node>
    decreases nodes
  {
    if nodes == [] then [] else FilesIn(nodes[0]) + Files(nodes[1..])
  }

  function FilesIn(node: Node): seq<Node>
    decreases node
  {
    match node
    case File(_, _) => [node]
    case Dir(_, _, listing) => if listing.Listed? then Files(listing.nodes) else []
  }

  lemma {:induction false} FilesConcat(a: seq<Node>, b: seq<Node>)
    ensures Files(a + b) == Files(a) + Files(b)
  {
    hide FilesIn;
    if a == [] {
      assert a + b == b;
    } else {
      FilesConcat(a[1..], b);
      assert (a + b)[0] == a[0] && (a + b)[1..] == a[1..] + b;
      assert Files(a + b) == FilesIn(a[0]) + Files(a[1..] + b);
    }
  }

  function Matching(lower: string -> string, needle: string): Node -> bool {
    (node: Node) => FileMatches(lower, needle, node)
  }

  lemma {:induction false} FilesKept(lower: string -> string, nodes: seq<Node>, needle: string)
    ensures Files(Keep(lower, nodes, needle)) == Filter(Files(nodes), Matching(lower, needle))
    decreases nodes
  {
    if nodes != [] {
      hide FileMatches, NameMatches;
      var first := nodes[0];
      if first.Dir? && first.children.Listed? {
        FilesKept(lower, first.children.nodes, needle);
      }
      FilesKept(lower, nodes[1..], needle);
      FilesKeptNode(lower, first, needle);
      FilesConcat(KeepNode(lower, first, needle), Keep(lower, nodes[1..], needle));
      FilesConcat([first], nodes[1..]);
      assert nodes == [first] + nodes[1..];
      FilterConcat(Files([first]), Files(nodes[1..]), Matching(lower, needle));
    }
  }

  lemma {:induction false} FilesKeptNode(lower: string -> string, node: Node, needle: string)
    requires node.Dir? && node.children.Listed? ==>
      Files(Keep(lower, node.children.nodes, needle)) == Filter(Files(node.children.nodes), Matching(lower, needle))
    ensures Files(KeepNode(lower, node, needle)) == Filter(Files([node]), Matching(lower, needle))
  {
    hide FileMatches, NameMatches, Keep;
    var kept := KeepNode(lower, node, needle);
    match node
    case File(_, _) => assert DropLast([node]) == [];
    case Dir(_, _, listing) =>
      assert Files([]) == [];
      assert Files([node]) == if listing.Listed? then Files(listing.nodes) else [];
      if kept != [] {
        assert Files([kept[0]]) == Files(kept[0].children.nodes);
      }
  }

  /** The files found are exactly the matching files, in their order; with a blank query all of them. */
  lemma FilesFound(lower: string -> string, nodes: seq<Node>, query: string)
    requires LowersCase(lower)
    ensures Files(FilterNodes(lower, nodes, query))
         == if Normal(lower, query) == "" then Files(nodes)
            else Filter(Files(nodes), Matching(lower, Normal(lower, query)))
  {
    hide FilterNodes, Normal, LowersCase, Files;
    FilterKeeps(lower, nodes, query);
    FilesKept(lower, nodes, Normal(lower, query));
  }

  /** A file is found exactly when it is there and its path or its name, in lower case, has the query in it,
      trimmed and in lower case. */
  lemma FoundIff(lower: string -> string, nodes: seq<Node>, query: string, file: Node)
    requires LowersCase(lower) && file.File?
    ensures var needle := lower(Trim(query));
            file in Files(FilterNodes(lower, nodes, query)) <==>
              && file in Files(nodes)
              && (needle == "" || Includes(lower(file.path), needle) || Includes(lower(file.name), needle))
  {
    hide FilterNodes, LowersCase, Files, Includes;
    FilesFound(lower, nodes, query);
    FilterMember(Files(nodes), Matching(lower, Normal(lower, query)), file);
  }

  /** Something in the node matches: a file by path or name, a directory by its name or by something in it. */
  predicate Hit(lower: string -> string, node: Node, needle: string)
    decreases node, 1
  {
    match node
    case File(_, _) => FileMatches(lower, needle, node)
    case Dir(_, _, listing) =>
      NameMatches(lower, needle, node) || (listing.Listed? && AnyHit(lower, listing.nodes, needle))
  }

  predicate AnyHit(lower: string -> string, nodes: seq<Node>, needle: string)
    decreases nodes, 0
  {
    nodes != [] && (Hit(lower, nodes[0], needle) || AnyHit(lower, nodes[1..], needle))
  }

  /** A node stays exactly when something in it matches; so no directory stays for nothing. */
  lemma {:induction false} KeptIffHit(lower: string -> string, node: Node, needle: string)
    ensures KeepNode(lower, node, needle) != [] <==> Hit(lower, node, needle)
    decreases node, 1
  {
    hide FileMatches, NameMatches;
    if node.Dir? && node.children.Listed? {
      AnyKeptIffHit(lower, node.children.nodes, needle);
    }
  }

  lemma {:induction false} AnyKeptIffHit(lower: string -> string, nodes: seq<Node>, needle: string)
    ensures Keep(lower, nodes, needle) != [] <==> AnyHit(lower, nodes, needle)
    decreases nodes, 0
  {
    if nodes != [] {
      hide KeepNode, Hit;
      KeptIffHit(lower, nodes[0], needle);
      AnyKeptIffHit(lower, nodes[1..], needle);
    }
  }
}
