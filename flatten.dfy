/** The query flattener: inlines fragments whose type condition is the type of
    the node they sit in (or every fragment, when asked to remove fragments),
    merges sibling fields that share a storage key and sibling fragments that
    share a type condition, and collapses nodes left without content. */
module FlattenRelayQuery {
  import opened Wrappers
  import opened RelayQuery

  datatype Options = Options(shouldRemoveFragments: bool, preserveEmptyNodes: bool)

  /** `flattenRelayQuery(node)` with no options given. */
  const DefaultOptions: Options := Options(false, false)

  /** A fragment that dissolves into the node of type `ctx` it sits in. */
  predicate Inlined(opts: Options, ctx: string, s: Selection) {
    s.Fragment? && (opts.shouldRemoveFragments || s.typeCondition == ctx)
  }

  /** The selections that end up directly under a node of type `ctx`, in the
      order they are met: every inlined fragment is replaced by its own
      (expanded) children. */
  function Expand(opts: Options, ctx: string, kids: seq<Selection>): seq<Selection>
    decreases kids
  {
    if kids == [] then []
    else
      var head := if Inlined(opts, ctx, kids[0]) then Expand(opts, ctx, kids[0].children) else [kids[0]];
      head + Expand(opts, ctx, kids[1..])
  }

  /** No inlinable fragment survives expansion, and expansion never deepens. */
  lemma {:induction false} ExpandShape(opts: Options, ctx: string, kids: seq<Selection>)
    ensures forall i :: 0 <= i < |Expand(opts, ctx, kids)| ==> !Inlined(opts, ctx, Expand(opts, ctx, kids)[i])
    ensures HeightSeq(Expand(opts, ctx, kids)) <= HeightSeq(kids)
    decreases kids
  {
    if kids != [] {
      var k := kids[0];
      var head := if Inlined(opts, ctx, k) then Expand(opts, ctx, k.children) else [k];
      if Inlined(opts, ctx, k) { ExpandShape(opts, ctx, k.children); }
      ExpandShape(opts, ctx, kids[1..]);
      HeightSeqAppend(head, Expand(opts, ctx, kids[1..]));
    }
  }

  // ---------------------------------------------------------------------------
  // Grouping siblings by key, in first-seen order

  /** The position of the first selection with key `k`, or -1. */
  function IndexOfKey(ss: seq<Selection>, k: Key): int {
    if ss == [] then -1
    else if KeyOf(ss[0]) == k then 0
    else
      var j := IndexOfKey(ss[1..], k);
      if j < 0 then -1 else j + 1
  }

  lemma {:induction false} IndexOfKeySpec(ss: seq<Selection>, k: Key)
    ensures -1 <= IndexOfKey(ss, k) < |ss|
    ensures 0 <= IndexOfKey(ss, k) ==> KeyOf(ss[IndexOfKey(ss, k)]) == k
    ensures forall j :: 0 <= j < |ss| && (IndexOfKey(ss, k) < 0 || j < IndexOfKey(ss, k)) ==> KeyOf(ss[j]) != k
  {
    if ss != [] && KeyOf(ss[0]) != k {
      IndexOfKeySpec(ss[1..], k);
    }
  }

  /** Adds one selection to the groups built so far: into the group with its
      key, whose children it extends, or as a new last group. */
  function Absorb(groups: seq<Selection>, s: Selection): seq<Selection> {
    var i := IndexOfKey(groups, KeyOf(s));
    IndexOfKeySpec(groups, KeyOf(s));
    if i < 0 then groups + [s]
    else groups[i := WithChildren(groups[i], groups[i].children + s.children)]
  }

  /** One group per distinct key among `items`, built left to right. */
  function Group(items: seq<Selection>): seq<Selection> {
    GroupFrom([], items)
  }

  function GroupFrom(groups: seq<Selection>, items: seq<Selection>): seq<Selection>
    decreases items
  {
    if items == [] then groups else GroupFrom(Absorb(groups, items[0]), items[1..])
  }

  /** One step of grouping, for computing a grouping of known siblings. */
  lemma GroupFromStep(groups: seq<Selection>, items: seq<Selection>, next: seq<Selection>)
    requires items != [] && Absorb(groups, items[0]) == next
    ensures GroupFrom(groups, items) == GroupFrom(next, items[1..])
  {
  }

  lemma {:induction false} GroupFromSnoc(groups: seq<Selection>, items: seq<Selection>, s: Selection)
    decreases items
    ensures GroupFrom(groups, items + [s]) == Absorb(GroupFrom(groups, items), s)
  {
    if items != [] {
      assert (items + [s])[1..] == items[1..] + [s];
      GroupFromSnoc(Absorb(groups, items[0]), items[1..], s);
    }
  }

  /** Grouping one more selection absorbs it into what was grouped so far. */
  lemma GroupSnoc(items: seq<Selection>)
    requires items != []
    ensures Group(items) == Absorb(Group(items[..|items| - 1]), items[|items| - 1])
  {
    assert items == items[..|items| - 1] + [items[|items| - 1]];
    GroupFromSnoc([], items[..|items| - 1], items[|items| - 1]);
  }

  lemma {:induction false} GroupHeight(items: seq<Selection>)
    ensures HeightSeq(Group(items)) <= HeightSeq(items)
    decreases |items|
  {
    if items != [] {
      var p, s := items[..|items| - 1], items[|items| - 1];
      assert items == p + [s];
      var g := Group(p);
      GroupSnoc(items);
      GroupHeight(p);
      HeightSeqAppend(p, [s]);
      var h := HeightSeq(items);
      assert Height(s) <= h;
      var i := IndexOfKey(g, KeyOf(s));
      IndexOfKeySpec(g, KeyOf(s));
      var r := Absorb(g, s);
      forall j | 0 <= j < |r| ensures Height(r[j]) <= h {
        if j < |g| { HeightSeqAt(g, j); }
        if j == i {
          HeightSeqAppend(g[i].children, s.children);
        }
      }
      HeightSeqBound(r, h);
    }
  }

  /** The selections of one kind (fields, or fragments), in order. */
  function Part(gs: seq<Selection>, fields: bool): seq<Selection> {
    if gs == [] then []
    else (if gs[0].Field? == fields then [gs[0]] else []) + Part(gs[1..], fields)
  }

  lemma {:induction false} PartSpec(gs: seq<Selection>, fields: bool)
    ensures HeightSeq(Part(gs, fields)) <= HeightSeq(gs)
    ensures forall x :: x in Part(gs, fields) <==> x in gs && x.Field? == fields
  {
    if gs != [] {
      PartSpec(gs[1..], fields);
      HeightSeqAppend(if gs[0].Field? == fields then [gs[0]] else [], Part(gs[1..], fields));
      assert gs == [gs[0]] + gs[1..];
    }
  }

  // ---------------------------------------------------------------------------
  // Flattening

  /** The flattened children of a node of type `ctx`: merged fields first, in
      first-seen order, then the fragments that keep their own type condition;
      selections that flatten to nothing are left out. */
  function FlattenChildren(opts: Options, ctx: string, kids: seq<Selection>): seq<Selection>
    decreases HeightSeq(kids), 2, 0
  {
    var items := Expand(opts, ctx, kids);
    var groups := Group(items);
    ExpandShape(opts, ctx, kids);
    GroupHeight(items);
    PartSpec(groups, true);
    PartSpec(groups, false);
    FlattenEach(opts, Part(groups, true)) + FlattenEach(opts, Part(groups, false))
  }

  function FlattenEach(opts: Options, gs: seq<Selection>): seq<Selection>
    decreases HeightSeq(gs), 1, |gs|
  {
    if gs == [] then []
    else
      (match FlattenSelection(opts, gs[0]) case Some(x) => [x] case None => []) + FlattenEach(opts, gs[1..])
  }

  /** A scalar field stays a leaf. A composite field or a fragment keeps its
      flattened children and is absent when there are none, except that
      `preserveEmptyNodes` keeps a composite field without children. */
  function FlattenSelection(opts: Options, s: Selection): Option<Selection>
    decreases Height(s), 0, 0
  {
    match s
    case Field(n, a, t, composite, kids) =>
      if !composite then Some(Field(n, a, t, false, []))
      else
        var ks := FlattenChildren(opts, t, kids);
        if ks == [] && !opts.preserveEmptyNodes then None else Some(Field(n, a, t, true, ks))
    case Fragment(t, kids) =>
      var ks := FlattenChildren(opts, t, kids);
      if ks == [] then None else Some(Fragment(t, ks))
  }

  /** `flattenRelayQuery(node, options)`: the flattened node, or None for a
      node whose content is vacuous. */
  function Flatten(opts: Options, node: Node): Option<Node> {
    match node
    case Root(n, a, t, kids) =>
      var ks := FlattenChildren(opts, t, kids);
      if ks == [] then None else Some(Root(n, a, t, ks))
    case Child(s) =>
      match FlattenSelection(opts, s)
      case Some(x) => Some(Child(x))
      case None => None
  }

  // ---------------------------------------------------------------------------
  // What grouping computes

  /** The children of every selection with key `k`, concatenated in order. */
  function MergedChildren(items: seq<Selection>, k: Key): seq<Selection>
    decreases |items|
  {
    if items == [] then []
    else
      var last := items[|items| - 1];
      MergedChildren(items[..|items| - 1], k) + (if KeyOf(last) == k then last.children else [])
  }

  /** The first selection with key `k`, carrying the children of all of them. */
  function Merged(items: seq<Selection>, k: Key): Selection
    requires 0 <= IndexOfKey(items, k)
  {
    IndexOfKeySpec(items, k);
    WithChildren(items[IndexOfKey(items, k)], MergedChildren(items, k))
  }

  predicate DistinctKeys(ss: seq<Selection>) {
    forall i, j :: 0 <= i < j < |ss| ==> KeyOf(ss[i]) != KeyOf(ss[j])
  }

  /** Every key among `items` has a group in `g`. */
  predicate Covers(items: seq<Selection>, g: seq<Selection>) {
    forall x :: 0 <= x < |items| ==> 0 <= IndexOfKey(g, KeyOf(items[x]))
  }

  /** Every group is the merge of the items sharing its key. */
  predicate MergesOf(items: seq<Selection>, g: seq<Selection>) {
    forall i :: 0 <= i < |g| ==> 0 <= IndexOfKey(items, KeyOf(g[i])) && g[i] == Merged(items, KeyOf(g[i]))
  }

  /** Groups come in the order their keys first occur among `items`. */
  predicate FirstSeenOrder(items: seq<Selection>, g: seq<Selection>) {
    forall i, j :: 0 <= i < j < |g| ==> IndexOfKey(items, KeyOf(g[i])) < IndexOfKey(items, KeyOf(g[j]))
  }

  predicate GroupsOf(items: seq<Selection>, g: seq<Selection>) {
    DistinctKeys(g) && Covers(items, g) && MergesOf(items, g) && FirstSeenOrder(items, g)
  }

  lemma {:induction false} IndexOfKeySnoc(p: seq<Selection>, s: Selection, k: Key)
    ensures IndexOfKey(p + [s], k) ==
      if 0 <= IndexOfKey(p, k) then IndexOfKey(p, k) else if KeyOf(s) == k then |p| else -1
  {
    if p != [] {
      assert (p + [s])[0] == p[0];
      assert (p + [s])[1..] == p[1..] + [s];
      IndexOfKeySnoc(p[1..], s, k);
    }
  }

  lemma {:induction false} IndexOfKeyUpdate(g: seq<Selection>, i: int, y: Selection, k: Key)
    requires 0 <= i < |g| && KeyOf(y) == KeyOf(g[i])
    ensures IndexOfKey(g[i := y], k) == IndexOfKey(g, k)
  {
    if i > 0 {
      assert g[i := y][1..] == g[1..][i - 1 := y];
      IndexOfKeyUpdate(g[1..], i - 1, y, k);
    }
  }

  lemma {:induction false} MergedChildrenAbsent(items: seq<Selection>, k: Key)
    requires IndexOfKey(items, k) < 0
    ensures MergedChildren(items, k) == []
    decreases |items|
  {
    if items != [] {
      var p := items[..|items| - 1];
      assert items == p + [items[|items| - 1]];
      IndexOfKeySnoc(p, items[|items| - 1], k);
      MergedChildrenAbsent(p, k);
    }
  }

  lemma MergedSnoc(p: seq<Selection>, s: Selection, k: Key)
    requires 0 <= IndexOfKey(p, k)
    ensures 0 <= IndexOfKey(p + [s], k)
    ensures Merged(p + [s], k) ==
      WithChildren(Merged(p, k), Merged(p, k).children + if KeyOf(s) == k then s.children else [])
  {
    IndexOfKeySnoc(p, s, k);
    IndexOfKeySpec(p, k);
    assert (p + [s])[..|p|] == p;
    assert (p + [s])[IndexOfKey(p, k)] == p[IndexOfKey(p, k)];
  }

  /** Grouping merges siblings by key: the groups have distinct keys, there is
      one for every key among the items, each is the first item with that key
      carrying the children of all items with that key, and the groups come in
      the order their keys are first seen. */
  lemma {:induction false} GroupMergesByKey(items: seq<Selection>)
    ensures GroupsOf(items, Group(items))
    decreases |items|
  {
    if items != [] {
      var p, s := items[..|items| - 1], items[|items| - 1];
      assert items == p + [s];
      GroupSnoc(items);
      GroupMergesByKey(p);
      AbsorbKeepsGroups(p, Group(p), s);
    }
  }

  lemma AbsorbKeepsGroups(p: seq<Selection>, g: seq<Selection>, s: Selection)
    requires GroupsOf(p, g)
    ensures GroupsOf(p + [s], Absorb(g, s))
  {
    IndexOfKeySpec(g, KeyOf(s));
    if IndexOfKey(g, KeyOf(s)) < 0 {
      AbsorbNewKey(p, g, s);
    } else {
      AbsorbOldKey(p, g, s);
    }
  }

  /** Neither `p` nor its groups `g` has the key of `s`. */
  lemma NewKeyAbsent(p: seq<Selection>, g: seq<Selection>, s: Selection)
    requires Covers(p, g) && IndexOfKey(g, KeyOf(s)) < 0
    ensures IndexOfKey(p, KeyOf(s)) < 0
  {
    IndexOfKeySpec(g, KeyOf(s));
    IndexOfKeySpec(p, KeyOf(s));
    assert forall x :: 0 <= x < |p| ==> KeyOf(p[x]) != KeyOf(s);
  }

  lemma AbsorbNewKey(p: seq<Selection>, g: seq<Selection>, s: Selection)
    requires GroupsOf(p, g) && IndexOfKey(g, KeyOf(s)) < 0
    ensures GroupsOf(p + [s], g + [s])
  {
    NewKeyAbsent(p, g, s);
    IndexOfKeySpec(g, KeyOf(s));
    assert DistinctKeys(g + [s]);
    NewKeyCovers(p, g, s);
    NewKeyMerges(p, g, s);
    NewKeyOrder(p, g, s);
  }

  lemma NewKeyCovers(p: seq<Selection>, g: seq<Selection>, s: Selection)
    requires Covers(p, g)
    ensures Covers(p + [s], g + [s])
  {
    var items, r := p + [s], g + [s];
    forall x | 0 <= x < |items| ensures 0 <= IndexOfKey(r, KeyOf(items[x])) {
      IndexOfKeySnoc(g, s, KeyOf(items[x]));
      if x < |p| { assert items[x] == p[x]; }
    }
  }

  lemma NewKeyMerges(p: seq<Selection>, g: seq<Selection>, s: Selection)
    requires MergesOf(p, g) && IndexOfKey(p, KeyOf(s)) < 0
    ensures MergesOf(p + [s], g + [s])
  {
    var items, r := p + [s], g + [s];
    forall i | 0 <= i < |r| ensures 0 <= IndexOfKey(items, KeyOf(r[i])) && r[i] == Merged(items, KeyOf(r[i])) {
      if i < |g| {
        assert r[i] == g[i];
        MergedSnoc(p, s, KeyOf(g[i]));
        IndexOfKeySpec(p, KeyOf(g[i]));
      } else {
        IndexOfKeySnoc(p, s, KeyOf(s));
        MergedChildrenAbsent(p, KeyOf(s));
        assert items[..|items| - 1] == p;
      }
    }
  }

  lemma NewKeyOrder(p: seq<Selection>, g: seq<Selection>, s: Selection)
    requires MergesOf(p, g) && FirstSeenOrder(p, g) && IndexOfKey(p, KeyOf(s)) < 0
    ensures FirstSeenOrder(p + [s], g + [s])
  {
    var items, r := p + [s], g + [s];
    forall i, j | 0 <= i < j < |r| ensures IndexOfKey(items, KeyOf(r[i])) < IndexOfKey(items, KeyOf(r[j])) {
      assert r[i] == g[i];
      IndexOfKeySnoc(p, s, KeyOf(r[i]));
      IndexOfKeySnoc(p, s, KeyOf(r[j]));
      IndexOfKeySpec(p, KeyOf(r[i]));
      if j < |g| { assert r[j] == g[j]; }
    }
  }

  lemma AbsorbOldKey(p: seq<Selection>, g: seq<Selection>, s: Selection)
    requires GroupsOf(p, g) && 0 <= IndexOfKey(g, KeyOf(s))
    ensures GroupsOf(p + [s], Absorb(g, s))
  {
    IndexOfKeySpec(g, KeyOf(s));
    var n := IndexOfKey(g, KeyOf(s));
    var y := WithChildren(g[n], g[n].children + s.children);
    assert Absorb(g, s) == g[n := y];
    OldKeySameKeys(g, n, y);
    OldKeyCovers(p, g, n, y, s);
    OldKeyMerges(p, g, s);
    OldKeyOrder(p, g, n, y, s);
  }

  lemma OldKeySameKeys(g: seq<Selection>, n: int, y: Selection)
    requires 0 <= n < |g| && KeyOf(y) == KeyOf(g[n]) && DistinctKeys(g)
    ensures DistinctKeys(g[n := y])
    ensures forall i :: 0 <= i < |g| ==> KeyOf(g[n := y][i]) == KeyOf(g[i])
  {
  }

  lemma OldKeyCovers(p: seq<Selection>, g: seq<Selection>, n: int, y: Selection, s: Selection)
    requires 0 <= n < |g| && KeyOf(y) == KeyOf(g[n]) == KeyOf(s) && Covers(p, g)
    ensures Covers(p + [s], g[n := y])
  {
    var items, r := p + [s], g[n := y];
    forall x | 0 <= x < |items| ensures 0 <= IndexOfKey(r, KeyOf(items[x])) {
      IndexOfKeyUpdate(g, n, y, KeyOf(items[x]));
      IndexOfKeySpec(g, KeyOf(s));
      if x < |p| { assert items[x] == p[x]; }
    }
  }

  lemma OldKeyMerges(p: seq<Selection>, g: seq<Selection>, s: Selection)
    requires MergesOf(p, g) && DistinctKeys(g) && 0 <= IndexOfKey(g, KeyOf(s))
    ensures MergesOf(p + [s], Absorb(g, s))
  {
    IndexOfKeySpec(g, KeyOf(s));
    var n := IndexOfKey(g, KeyOf(s));
    var y := WithChildren(g[n], g[n].children + s.children);
    var items, r := p + [s], g[n := y];
    assert Absorb(g, s) == r;
    OldKeySameKeys(g, n, y);
    forall i | 0 <= i < |r| ensures 0 <= IndexOfKey(items, KeyOf(r[i])) && r[i] == Merged(items, KeyOf(r[i])) {
      MergedSnoc(p, s, KeyOf(g[i]));
      if i != n {
        assert KeyOf(g[i]) != KeyOf(g[n]);
      }
    }
  }

  lemma OldKeyOrder(p: seq<Selection>, g: seq<Selection>, n: int, y: Selection, s: Selection)
    requires 0 <= n < |g| && KeyOf(y) == KeyOf(g[n]) && MergesOf(p, g) && FirstSeenOrder(p, g)
    ensures FirstSeenOrder(p + [s], g[n := y])
  {
    var items, r := p + [s], g[n := y];
    forall i, j | 0 <= i < j < |r| ensures IndexOfKey(items, KeyOf(r[i])) < IndexOfKey(items, KeyOf(r[j])) {
      assert KeyOf(r[i]) == KeyOf(g[i]) && KeyOf(r[j]) == KeyOf(g[j]);
      IndexOfKeySnoc(p, s, KeyOf(g[i]));
      IndexOfKeySnoc(p, s, KeyOf(g[j]));
    }
  }

  // ---------------------------------------------------------------------------
  // The shape of a flattened sequence of siblings

  /** Fields come before fragments. */
  predicate FieldsFirst(ss: seq<Selection>) {
    forall i, j :: 0 <= i < j < |ss| && ss[j].Field? ==> ss[i].Field?
  }

  /** The normal form the flattener produces for the children of a node of
      type `ctx`: distinct keys, fields first, no fragment left to inline, and
      every child itself flat. */
  predicate FlatSeq(opts: Options, ctx: string, ss: seq<Selection>)
    decreases ss
  {
    && DistinctKeys(ss)
    && FieldsFirst(ss)
    && forall i :: 0 <= i < |ss| ==> !Inlined(opts, ctx, ss[i]) && FlatSel(opts, ss[i])
  }

  /** A flat selection: a scalar field without children, or a composite field
      or fragment with flat children, which are present unless the node is a
      composite field kept by `preserveEmptyNodes`. */
  predicate FlatSel(opts: Options, s: Selection)
    decreases s
  {
    match s
    case Field(_, _, t, composite, kids) =>
      if composite then (kids != [] || opts.preserveEmptyNodes) && FlatSeq(opts, t, kids) else kids == []
    case Fragment(t, kids) => kids != [] && FlatSeq(opts, t, kids)
  }

  /** Whether a selection is inlined depends only on its key. */
  lemma InlinedByKey(opts: Options, ctx: string, a: Selection, b: Selection)
    requires KeyOf(a) == KeyOf(b)
    ensures Inlined(opts, ctx, a) == Inlined(opts, ctx, b)
    ensures a.Field? == b.Field?
  {
  }

  /** Flattening a selection keeps its storage key and its kind. */
  lemma FlattenSelectionKey(opts: Options, s: Selection)
    ensures FlattenSelection(opts, s).Some? ==>
      KeyOf(FlattenSelection(opts, s).value) == KeyOf(s) && FlattenSelection(opts, s).value.Field? == s.Field?
  {
  }

  lemma {:induction false} FlattenEachMembers(opts: Options, gs: seq<Selection>)
    ensures forall o :: o in FlattenEach(opts, gs) <==> exists i :: 0 <= i < |gs| && FlattenSelection(opts, gs[i]) == Some(o)
    decreases |gs|
  {
    if gs != [] {
      FlattenEachMembers(opts, gs[1..]);
      forall o ensures o in FlattenEach(opts, gs) <==> exists i :: 0 <= i < |gs| && FlattenSelection(opts, gs[i]) == Some(o) {
        if o in FlattenEach(opts, gs[1..]) {
          var i :| 0 <= i < |gs[1..]| && FlattenSelection(opts, gs[1..][i]) == Some(o);
          assert FlattenSelection(opts, gs[i + 1]) == Some(o);
        }
        if i :| 0 <= i < |gs| && FlattenSelection(opts, gs[i]) == Some(o) {
          if i > 0 { assert FlattenSelection(opts, gs[1..][i - 1]) == Some(o); }
        }
      }
    }
  }

  lemma {:induction false} FlattenEachDistinct(opts: Options, gs: seq<Selection>)
    requires DistinctKeys(gs)
    ensures DistinctKeys(FlattenEach(opts, gs))
    decreases |gs|
  {
    if gs != [] {
      var rest := FlattenEach(opts, gs[1..]);
      FlattenEachDistinct(opts, gs[1..]);
      FlattenEachMembers(opts, gs[1..]);
      FlattenSelectionKey(opts, gs[0]);
      forall o | o in rest ensures KeyOf(o) != KeyOf(gs[0]) {
        var i :| 0 <= i < |gs[1..]| && FlattenSelection(opts, gs[1..][i]) == Some(o);
        FlattenSelectionKey(opts, gs[1..][i]);
        assert gs[1..][i] == gs[i + 1];
      }
    }
  }

  lemma {:induction false} PartDistinct(gs: seq<Selection>, fields: bool)
    requires DistinctKeys(gs)
    ensures DistinctKeys(Part(gs, fields))
    decreases |gs|
  {
    if gs != [] {
      PartDistinct(gs[1..], fields);
      PartSpec(gs[1..], fields);
      forall o | o in Part(gs[1..], fields) ensures KeyOf(o) != KeyOf(gs[0]) {
        var i :| 0 <= i < |gs[1..]| && gs[1..][i] == o;
        assert o == gs[i + 1];
      }
    }
  }

  /** The flattened fields of `g` followed by its flattened fragments. */
  function Arranged(opts: Options, g: seq<Selection>): seq<Selection> {
    FlattenEach(opts, Part(g, true)) + FlattenEach(opts, Part(g, false))
  }

  lemma ArrangedMembers(opts: Options, g: seq<Selection>)
    ensures forall o :: o in Arranged(opts, g) <==> exists i :: 0 <= i < |g| && FlattenSelection(opts, g[i]) == Some(o)
  {
    var fs, frs := Part(g, true), Part(g, false);
    PartSpec(g, true);
    PartSpec(g, false);
    FlattenEachMembers(opts, fs);
    FlattenEachMembers(opts, frs);
    forall o | o in Arranged(opts, g) ensures exists i :: 0 <= i < |g| && FlattenSelection(opts, g[i]) == Some(o) {
      var x: Selection;
      if o in FlattenEach(opts, fs) {
        var i :| 0 <= i < |fs| && FlattenSelection(opts, fs[i]) == Some(o);
        x := fs[i];
      } else {
        var i :| 0 <= i < |frs| && FlattenSelection(opts, frs[i]) == Some(o);
        x := frs[i];
      }
      assert x in g;
      var j :| 0 <= j < |g| && g[j] == x;
    }
    forall o | exists i :: 0 <= i < |g| && FlattenSelection(opts, g[i]) == Some(o) ensures o in Arranged(opts, g) {
      var i :| 0 <= i < |g| && FlattenSelection(opts, g[i]) == Some(o);
      assert g[i] in (if g[i].Field? then fs else frs);
    }
  }

  lemma ArrangedKinds(opts: Options, g: seq<Selection>)
    ensures forall o :: o in FlattenEach(opts, Part(g, true)) ==> o.Field?
    ensures forall o :: o in FlattenEach(opts, Part(g, false)) ==> o.Fragment?
  {
    var fs, frs := Part(g, true), Part(g, false);
    PartSpec(g, true);
    PartSpec(g, false);
    FlattenEachMembers(opts, fs);
    FlattenEachMembers(opts, frs);
    forall o | o in FlattenEach(opts, fs) ensures o.Field? {
      var j :| 0 <= j < |fs| && FlattenSelection(opts, fs[j]) == Some(o);
      FlattenSelectionKey(opts, fs[j]);
    }
    forall o | o in FlattenEach(opts, frs) ensures o.Fragment? {
      var j :| 0 <= j < |frs| && FlattenSelection(opts, frs[j]) == Some(o);
      FlattenSelectionKey(opts, frs[j]);
    }
  }

  lemma ArrangedDistinct(opts: Options, g: seq<Selection>)
    requires DistinctKeys(g)
    ensures DistinctKeys(Arranged(opts, g)) && FieldsFirst(Arranged(opts, g))
  {
    var a, b := FlattenEach(opts, Part(g, true)), FlattenEach(opts, Part(g, false));
    var out := Arranged(opts, g);
    ArrangedKinds(opts, g);
    PartDistinct(g, true);
    PartDistinct(g, false);
    FlattenEachDistinct(opts, Part(g, true));
    FlattenEachDistinct(opts, Part(g, false));
    forall i, j | 0 <= i < j < |out| ensures KeyOf(out[i]) != KeyOf(out[j]) {
      if j < |a| {
        assert out[i] == a[i] && out[j] == a[j];
      } else if i >= |a| {
        assert out[i] == b[i - |a|] && out[j] == b[j - |a|];
      } else {
        assert out[i] == a[i] && out[j] == b[j - |a|];
        assert out[i] in a && out[j] in b;
      }
    }
    forall i, j | 0 <= i < j < |out| && out[j].Field? ensures out[i].Field? {
      assert i < |a| ==> out[i] in a;
      assert j >= |a| ==> out[j] in b;
    }
  }

  lemma ArrangedUninlined(opts: Options, ctx: string, g: seq<Selection>)
    requires forall i :: 0 <= i < |g| ==> !Inlined(opts, ctx, g[i])
    ensures forall i :: 0 <= i < |Arranged(opts, g)| ==> !Inlined(opts, ctx, Arranged(opts, g)[i])
  {
    ArrangedMembers(opts, g);
    forall k | 0 <= k < |Arranged(opts, g)| ensures !Inlined(opts, ctx, Arranged(opts, g)[k]) {
      var o := Arranged(opts, g)[k];
      var i :| 0 <= i < |g| && FlattenSelection(opts, g[i]) == Some(o);
      FlattenSelectionKey(opts, g[i]);
      InlinedByKey(opts, ctx, o, g[i]);
    }
  }

  /** Each group has the key, hence the kind and the inlining, of an item. */
  lemma GroupUninlined(opts: Options, ctx: string, items: seq<Selection>)
    requires forall i :: 0 <= i < |items| ==> !Inlined(opts, ctx, items[i])
    ensures forall i :: 0 <= i < |Group(items)| ==> !Inlined(opts, ctx, Group(items)[i])
  {
    var g := Group(items);
    GroupMergesByKey(items);
    forall i | 0 <= i < |g| ensures !Inlined(opts, ctx, g[i]) {
      var k := KeyOf(g[i]);
      IndexOfKeySpec(items, k);
      InlinedByKey(opts, ctx, g[i], items[IndexOfKey(items, k)]);
    }
  }

  /** What the children of a node flatten to: the flattened groups of the
      expanded children, one per distinct key, with distinct keys, fields
      first and no fragment left to inline. */
  lemma FlattenChildrenShape(opts: Options, ctx: string, kids: seq<Selection>)
    ensures var g, out := Group(Expand(opts, ctx, kids)), FlattenChildren(opts, ctx, kids);
      && (forall o :: o in out <==> exists i :: 0 <= i < |g| && FlattenSelection(opts, g[i]) == Some(o))
      && DistinctKeys(out)
      && FieldsFirst(out)
      && (forall i :: 0 <= i < |out| ==> !Inlined(opts, ctx, out[i]))
  {
    var items := Expand(opts, ctx, kids);
    var g := Group(items);
    assert FlattenChildren(opts, ctx, kids) == Arranged(opts, g);
    ExpandShape(opts, ctx, kids);
    GroupMergesByKey(items);
    GroupUninlined(opts, ctx, items);
    ArrangedMembers(opts, g);
    ArrangedDistinct(opts, g);
    ArrangedUninlined(opts, ctx, g);
  }

  // ---------------------------------------------------------------------------
  // Flattening produces the normal form, which it leaves alone

  lemma {:induction false} FlattenSelectionFlat(opts: Options, s: Selection)
    ensures FlattenSelection(opts, s).Some? ==> FlatSel(opts, FlattenSelection(opts, s).value)
    decreases Height(s), 0, 0
  {
    match s
    case Field(_, _, t, composite, kids) =>
      if composite { FlattenChildrenFlat(opts, t, kids); }
    case Fragment(t, kids) =>
      FlattenChildrenFlat(opts, t, kids);
  }

  lemma {:induction false} FlattenChildrenFlat(opts: Options, ctx: string, kids: seq<Selection>)
    ensures FlatSeq(opts, ctx, FlattenChildren(opts, ctx, kids))
    decreases HeightSeq(kids), 2, 0
  {
    var items := Expand(opts, ctx, kids);
    var g := Group(items);
    ExpandShape(opts, ctx, kids);
    GroupHeight(items);
    PartSpec(g, true);
    PartSpec(g, false);
    FlattenChildrenShape(opts, ctx, kids);
    FlattenEachFlat(opts, Part(g, true));
    FlattenEachFlat(opts, Part(g, false));
    var out := FlattenChildren(opts, ctx, kids);
    assert out == FlattenEach(opts, Part(g, true)) + FlattenEach(opts, Part(g, false));
    assert forall i :: 0 <= i < |out| ==> out[i] in FlattenEach(opts, Part(g, true)) || out[i] in FlattenEach(opts, Part(g, false));
  }

  lemma {:induction false} FlattenEachFlat(opts: Options, gs: seq<Selection>)
    ensures forall o :: o in FlattenEach(opts, gs) ==> FlatSel(opts, o)
    decreases HeightSeq(gs), 1, |gs|
  {
    if gs != [] {
      HeightSeqAt(gs, 0);
      FlattenSelectionFlat(opts, gs[0]);
      FlattenEachFlat(opts, gs[1..]);
    }
  }

  lemma {:induction false} ExpandIdentity(opts: Options, ctx: string, ss: seq<Selection>)
    requires forall i :: 0 <= i < |ss| ==> !Inlined(opts, ctx, ss[i])
    ensures Expand(opts, ctx, ss) == ss
    decreases ss
  {
    if ss != [] {
      ExpandIdentity(opts, ctx, ss[1..]);
      assert ss == [ss[0]] + ss[1..];
    }
  }

  /** Siblings with distinct keys are left as they are by grouping. */
  lemma {:induction false} GroupDistinct(items: seq<Selection>)
    requires DistinctKeys(items)
    ensures Group(items) == items
    decreases |items|
  {
    if items != [] {
      var p, s := items[..|items| - 1], items[|items| - 1];
      assert items == p + [s];
      GroupSnoc(items);
      GroupDistinct(p);
      IndexOfKeySpec(p, KeyOf(s));
      assert forall j :: 0 <= j < |p| ==> p[j] == items[j];
    }
  }

  lemma {:induction false} PartFragments(ss: seq<Selection>)
    requires forall i :: 0 <= i < |ss| ==> ss[i].Fragment?
    ensures Part(ss, true) == [] && Part(ss, false) == ss
    decreases |ss|
  {
    if ss != [] {
      PartFragments(ss[1..]);
      assert ss == [ss[0]] + ss[1..];
    }
  }

  lemma {:induction false} PartFieldsFirst(ss: seq<Selection>)
    requires FieldsFirst(ss)
    ensures Part(ss, true) + Part(ss, false) == ss
    decreases |ss|
  {
    if ss != [] {
      assert ss == [ss[0]] + ss[1..];
      if ss[0].Field? {
        PartFieldsFirst(ss[1..]);
      } else {
        PartFragments(ss);
      }
    }
  }

  lemma {:induction false} FlatSelectionFixed(opts: Options, s: Selection)
    requires FlatSel(opts, s)
    ensures FlattenSelection(opts, s) == Some(s)
    decreases Height(s), 0, 0
  {
    match s
    case Field(_, _, t, composite, kids) =>
      if composite { FlatChildrenFixed(opts, t, kids); }
    case Fragment(t, kids) =>
      FlatChildrenFixed(opts, t, kids);
  }

  lemma {:induction false} FlatChildrenFixed(opts: Options, ctx: string, kids: seq<Selection>)
    requires FlatSeq(opts, ctx, kids)
    ensures FlattenChildren(opts, ctx, kids) == kids
    decreases HeightSeq(kids), 3, 0
  {
    ExpandIdentity(opts, ctx, kids);
    GroupDistinct(kids);
    ArrangedFlat(opts, ctx, kids);
  }

  /** Arranging flat siblings leaves them as they are. */
  lemma {:induction false} ArrangedFlat(opts: Options, ctx: string, g: seq<Selection>)
    requires FlatSeq(opts, ctx, g)
    ensures Arranged(opts, g) == g
    decreases HeightSeq(g), 2, 0
  {
    PartSpec(g, true);
    PartSpec(g, false);
    FlatEachFixed(opts, Part(g, true));
    FlatEachFixed(opts, Part(g, false));
    PartFieldsFirst(g);
  }

  lemma {:induction false} FlatEachFixed(opts: Options, gs: seq<Selection>)
    requires forall o :: o in gs ==> FlatSel(opts, o)
    ensures FlattenEach(opts, gs) == gs
    decreases HeightSeq(gs), 1, |gs|
  {
    if gs != [] {
      HeightSeqAt(gs, 0);
      FlatSelectionFixed(opts, gs[0]);
      FlatEachFixed(opts, gs[1..]);
      assert gs == [gs[0]] + gs[1..];
    }
  }

  /** Flattening a flattened node changes nothing. */
  lemma FlattenIdempotent(opts: Options, node: Node)
    requires Flatten(opts, node).Some?
    ensures Flatten(opts, Flatten(opts, node).value) == Flatten(opts, node)
  {
    match node
    case Root(_, _, t, kids) =>
      FlattenChildrenFlat(opts, t, kids);
      FlatChildrenFixed(opts, t, FlattenChildren(opts, t, kids));
    case Child(s) =>
      FlattenSelectionFlat(opts, s);
      FlatSelectionFixed(opts, FlattenSelection(opts, s).value);
  }

  // ---------------------------------------------------------------------------
  // Merging, stated on the children as written

  /** Every child of an item with key `k` is among the merged children. */
  lemma {:induction false} MergedChildrenIncludes(items: seq<Selection>, x: int, k: Key)
    requires 0 <= x < |items| && KeyOf(items[x]) == k
    ensures forall c :: c in items[x].children ==> c in MergedChildren(items, k)
    decreases |items|
  {
    var p := items[..|items| - 1];
    if x < |p| {
      assert items[x] == p[x];
      MergedChildrenIncludes(p, x, k);
    }
  }

  /** Every merged child is a child of an item. */
  lemma {:induction false} MergedChildrenFrom(items: seq<Selection>, k: Key)
    ensures forall c :: c in MergedChildren(items, k) ==> exists x :: 0 <= x < |items| && c in items[x].children
    decreases |items|
  {
    if items != [] {
      var p := items[..|items| - 1];
      MergedChildrenFrom(p, k);
      forall c | c in MergedChildren(p, k) ensures exists x :: 0 <= x < |items| && c in items[x].children {
        var x :| 0 <= x < |p| && c in p[x].children;
        assert items[x] == p[x];
      }
    }
  }

  lemma GroupsByFirstItems(opts: Options, items: seq<Selection>, g: seq<Selection>, out: seq<Selection>)
    requires GroupsOf(items, g)
    requires forall o :: o in out <==> exists i :: 0 <= i < |g| && FlattenSelection(opts, g[i]) == Some(o)
    ensures forall o :: o in out <==> exists x :: 0 <= x < |items| && IndexOfKey(items, KeyOf(items[x])) == x
                                         && FlattenSelection(opts, Merged(items, KeyOf(items[x]))) == Some(o)
  {
    forall o | o in out ensures exists x :: 0 <= x < |items| && IndexOfKey(items, KeyOf(items[x])) == x
                                   && FlattenSelection(opts, Merged(items, KeyOf(items[x]))) == Some(o) {
      var i :| 0 <= i < |g| && FlattenSelection(opts, g[i]) == Some(o);
      var k := KeyOf(g[i]);
      IndexOfKeySpec(items, k);
      var x := IndexOfKey(items, k);
      assert KeyOf(items[x]) == k;
    }
    forall o | exists x :: 0 <= x < |items| && IndexOfKey(items, KeyOf(items[x])) == x
                  && FlattenSelection(opts, Merged(items, KeyOf(items[x]))) == Some(o) ensures o in out {
      var x :| 0 <= x < |items| && IndexOfKey(items, KeyOf(items[x])) == x
               && FlattenSelection(opts, Merged(items, KeyOf(items[x]))) == Some(o);
      var k := KeyOf(items[x]);
      IndexOfKeySpec(g, k);
      var j := IndexOfKey(g, k);
      assert g[j] == Merged(items, k);
    }
  }

  /** The flattened children of a node are, one per distinct key among the
      expanded children and nothing else, the first child with that key
      carrying the children of all of them, flattened. */
  lemma FlattenChildrenMerges(opts: Options, ctx: string, kids: seq<Selection>)
    ensures var items, out := Expand(opts, ctx, kids), FlattenChildren(opts, ctx, kids);
      forall o :: o in out <==> exists x :: 0 <= x < |items| && IndexOfKey(items, KeyOf(items[x])) == x
                                   && FlattenSelection(opts, Merged(items, KeyOf(items[x]))) == Some(o)
  {
    var items := Expand(opts, ctx, kids);
    FlattenChildrenShape(opts, ctx, kids);
    GroupMergesByKey(items);
    GroupsByFirstItems(opts, items, Group(items), FlattenChildren(opts, ctx, kids));
  }

  /** The first group is the one of the first item. */
  lemma FirstGroup(items: seq<Selection>, g: seq<Selection>)
    requires GroupsOf(items, g) && |items| > 0
    ensures |g| > 0 && g[0] == Merged(items, KeyOf(items[0]))
  {
    var k := KeyOf(items[0]);
    IndexOfKeySpec(g, k);
    var j := IndexOfKey(g, k);
    assert IndexOfKey(items, k) == 0;
  }

  lemma ArrangedFirstLeaf(opts: Options, g: seq<Selection>)
    requires |g| > 0 && g[0].Field? && !g[0].composite
    ensures |Arranged(opts, g)| > 0 && Arranged(opts, g)[0] == Field(g[0].name, g[0].args, g[0].typ, false, [])
  {
    assert Part(g, true) == [g[0]] + Part(g[1..], true);
    assert FlattenEach(opts, Part(g, true)) == [Field(g[0].name, g[0].args, g[0].typ, false, [])] + FlattenEach(opts, Part(g[1..], true));
  }

  /** A scalar field written first among the children of a node is, as a
      leaf, the first child of the flattened node. */
  lemma FirstScalarStaysFirst(opts: Options, ctx: string, kids: seq<Selection>)
    requires |kids| > 0 && kids[0].Field? && !kids[0].composite
    ensures var out := FlattenChildren(opts, ctx, kids);
      |out| > 0 && out[0] == Field(kids[0].name, kids[0].args, kids[0].typ, false, [])
  {
    var items := Expand(opts, ctx, kids);
    assert items == [kids[0]] + Expand(opts, ctx, kids[1..]);
    var g := Group(items);
    GroupMergesByKey(items);
    FirstGroup(items, g);
    IndexOfKeySpec(items, KeyOf(kids[0]));
    assert g[0] == WithChildren(kids[0], MergedChildren(items, KeyOf(kids[0])));
    ArrangedFirstLeaf(opts, g);
    assert FlattenChildren(opts, ctx, kids) == Arranged(opts, g);
  }

  // ---------------------------------------------------------------------------
  // Empty content collapses

  /** Whether a selection holds content that survives flattening: a scalar
      field, a composite field kept by `preserveEmptyNodes`, or a node with a
      child holding content. */
  predicate HasContent(opts: Options, s: Selection)
    decreases s
  {
    match s
    case Field(_, _, _, composite, kids) =>
      !composite || opts.preserveEmptyNodes || exists i :: 0 <= i < |kids| && HasContent(opts, kids[i])
    case Fragment(_, kids) =>
      exists i :: 0 <= i < |kids| && HasContent(opts, kids[i])
  }

  predicate NoContent(opts: Options, ss: seq<Selection>) {
    forall i :: 0 <= i < |ss| ==> !HasContent(opts, ss[i])
  }

  lemma {:induction false} ExpandNoContent(opts: Options, ctx: string, kids: seq<Selection>)
    requires NoContent(opts, kids)
    ensures NoContent(opts, Expand(opts, ctx, kids))
    decreases kids
  {
    if kids != [] {
      if Inlined(opts, ctx, kids[0]) { ExpandNoContent(opts, ctx, kids[0].children); }
      ExpandNoContent(opts, ctx, kids[1..]);
      var head := if Inlined(opts, ctx, kids[0]) then Expand(opts, ctx, kids[0].children) else [kids[0]];
      assert Expand(opts, ctx, kids) == head + Expand(opts, ctx, kids[1..]);
    }
  }

  lemma GroupNoContent(opts: Options, items: seq<Selection>)
    requires NoContent(opts, items)
    ensures NoContent(opts, Group(items))
  {
    var g := Group(items);
    GroupMergesByKey(items);
    forall i | 0 <= i < |g| ensures !HasContent(opts, g[i]) {
      var k := KeyOf(g[i]);
      IndexOfKeySpec(items, k);
      MergedChildrenFrom(items, k);
      var cs := MergedChildren(items, k);
      forall c | c in cs ensures !HasContent(opts, c) {
        var x :| 0 <= x < |items| && c in items[x].children;
        assert !HasContent(opts, items[x]);
      }
    }
  }

  lemma {:induction false} NoContentSelection(opts: Options, s: Selection)
    requires !HasContent(opts, s)
    ensures FlattenSelection(opts, s) == None
    decreases Height(s), 0, 0
  {
    NoContentChildren(opts, if s.Field? then s.typ else s.typeCondition, s.children);
  }

  lemma {:induction false} NoContentChildren(opts: Options, ctx: string, kids: seq<Selection>)
    requires NoContent(opts, kids)
    ensures FlattenChildren(opts, ctx, kids) == []
    decreases HeightSeq(kids), 2, 0
  {
    var items := Expand(opts, ctx, kids);
    var g := Group(items);
    ExpandShape(opts, ctx, kids);
    GroupHeight(items);
    PartSpec(g, true);
    PartSpec(g, false);
    ExpandNoContent(opts, ctx, kids);
    GroupNoContent(opts, items);
    NoContentEach(opts, Part(g, true));
    NoContentEach(opts, Part(g, false));
  }

  lemma {:induction false} NoContentEach(opts: Options, gs: seq<Selection>)
    requires forall o :: o in gs ==> !HasContent(opts, o)
    ensures FlattenEach(opts, gs) == []
    decreases HeightSeq(gs), 1, |gs|
  {
    if gs != [] {
      HeightSeqAt(gs, 0);
      NoContentSelection(opts, gs[0]);
      NoContentEach(opts, gs[1..]);
    }
  }

  /** Every field of a given name is scalar, or every one is composite, as in
      a query checked against a schema. Merging keeps the first field's kind,
      so content survives only where the kinds agree. */
  predicate Uniform(kind: string -> bool, s: Selection)
    decreases s
  {
    && (s.Field? ==> s.composite == kind(s.name))
    && forall i :: 0 <= i < |s.children| ==> Uniform(kind, s.children[i])
  }

  predicate AllUniform(kind: string -> bool, ss: seq<Selection>) {
    forall i :: 0 <= i < |ss| ==> Uniform(kind, ss[i])
  }

  lemma {:induction false} ExpandContent(opts: Options, kind: string -> bool, ctx: string, kids: seq<Selection>)
    requires AllUniform(kind, kids)
    ensures AllUniform(kind, Expand(opts, ctx, kids))
    ensures !NoContent(opts, kids) ==> !NoContent(opts, Expand(opts, ctx, kids))
    decreases kids
  {
    if kids != [] {
      var head := if Inlined(opts, ctx, kids[0]) then Expand(opts, ctx, kids[0].children) else [kids[0]];
      var rest := Expand(opts, ctx, kids[1..]);
      assert Expand(opts, ctx, kids) == head + rest;
      if Inlined(opts, ctx, kids[0]) { ExpandContent(opts, kind, ctx, kids[0].children); }
      ExpandContent(opts, kind, ctx, kids[1..]);
      if !NoContent(opts, kids) {
        var i :| 0 <= i < |kids| && HasContent(opts, kids[i]);
        if i == 0 {
          assert !NoContent(opts, head);
          var j :| 0 <= j < |head| && HasContent(opts, head[j]);
          assert (head + rest)[j] == head[j];
        } else {
          assert kids[1..][i - 1] == kids[i];
          var j :| 0 <= j < |rest| && HasContent(opts, rest[j]);
          assert (head + rest)[|head| + j] == rest[j];
        }
      }
    }
  }

  lemma GroupUniform(kind: string -> bool, items: seq<Selection>, g: seq<Selection>)
    requires MergesOf(items, g) && AllUniform(kind, items)
    ensures AllUniform(kind, g)
  {
    forall i | 0 <= i < |g| ensures Uniform(kind, g[i]) {
      var k := KeyOf(g[i]);
      IndexOfKeySpec(items, k);
      MergedChildrenFrom(items, k);
      forall c | c in MergedChildren(items, k) ensures Uniform(kind, c) {
        var x :| 0 <= x < |items| && c in items[x].children;
        assert Uniform(kind, items[x]);
      }
    }
  }

  lemma GroupContent(opts: Options, kind: string -> bool, items: seq<Selection>, g: seq<Selection>)
    requires Covers(items, g) && MergesOf(items, g) && AllUniform(kind, items) && !NoContent(opts, items)
    ensures !NoContent(opts, g)
  {
    var x :| 0 <= x < |items| && HasContent(opts, items[x]);
    var k := KeyOf(items[x]);
    IndexOfKeySpec(g, k);
    IndexOfKeySpec(items, k);
    var j, f := IndexOfKey(g, k), IndexOfKey(items, k);
    var m := g[j];
    assert m == WithChildren(items[f], MergedChildren(items, k));
    MergedChildrenIncludes(items, x, k);
    assert Uniform(kind, items[x]) && Uniform(kind, items[f]);
    if (items[x].Field? && items[x].composite && !opts.preserveEmptyNodes) || items[x].Fragment? {
      var i :| 0 <= i < |items[x].children| && HasContent(opts, items[x].children[i]);
      var c := items[x].children[i];
      assert c in m.children;
      var i' :| 0 <= i' < |m.children| && m.children[i'] == c;
    }
    assert HasContent(opts, m);
  }

  lemma {:induction false} ContentSelection(opts: Options, kind: string -> bool, s: Selection)
    requires Uniform(kind, s) && HasContent(opts, s)
    ensures FlattenSelection(opts, s).Some?
    decreases Height(s), 0, 0
  {
    match s
    case Field(_, _, t, composite, kids) =>
      if composite && !opts.preserveEmptyNodes { ContentChildren(opts, kind, t, kids); }
    case Fragment(t, kids) =>
      ContentChildren(opts, kind, t, kids);
  }

  lemma {:induction false} ContentChildren(opts: Options, kind: string -> bool, ctx: string, kids: seq<Selection>)
    requires AllUniform(kind, kids) && !NoContent(opts, kids)
    ensures FlattenChildren(opts, ctx, kids) != []
    decreases HeightSeq(kids), 1, 0
  {
    var items := Expand(opts, ctx, kids);
    var g := Group(items);
    ExpandShape(opts, ctx, kids);
    GroupHeight(items);
    ExpandContent(opts, kind, ctx, kids);
    GroupMergesByKey(items);
    GroupUniform(kind, items, g);
    GroupContent(opts, kind, items, g);
    var j :| 0 <= j < |g| && HasContent(opts, g[j]);
    HeightSeqAt(g, j);
    ContentSelection(opts, kind, g[j]);
    FlattenChildrenShape(opts, ctx, kids);
    assert FlattenSelection(opts, g[j]).value in FlattenChildren(opts, ctx, kids);
  }

  predicate NodeHasContent(opts: Options, node: Node) {
    match node
    case Root(_, _, _, kids) => !NoContent(opts, kids)
    case Child(s) => HasContent(opts, s)
  }

  predicate NodeUniform(kind: string -> bool, node: Node) {
    match node
    case Root(_, _, _, kids) => AllUniform(kind, kids)
    case Child(s) => Uniform(kind, s)
  }

  /** A node without content flattens to nothing. */
  lemma FlattenVacuous(opts: Options, node: Node)
    requires !NodeHasContent(opts, node)
    ensures Flatten(opts, node) == None
  {
    match node
    case Root(_, _, t, kids) => NoContentChildren(opts, t, kids);
    case Child(s) => NoContentSelection(opts, s);
  }

  /** For a query whose fields have consistent kinds, flattening yields
      nothing exactly when the node has no content. */
  lemma FlattenNoneIff(opts: Options, kind: string -> bool, node: Node)
    requires NodeUniform(kind, node)
    ensures Flatten(opts, node) == None <==> !NodeHasContent(opts, node)
  {
    if NodeHasContent(opts, node) {
      match node
      case Root(_, _, t, kids) => ContentChildren(opts, kind, t, kids);
      case Child(s) => ContentSelection(opts, kind, s);
    } else {
      FlattenVacuous(opts, node);
    }
  }

  /** Flattening a field node yields a field node with the same storage key;
      a root keeps its name, arguments and type. */
  lemma FlattenKeepsIdentity(opts: Options, node: Node)
    ensures Flatten(opts, node).Some? ==> match node
      case Root(n, a, t, _) => Flatten(opts, node).value.Root? && Flatten(opts, node).value.name == n
                               && Flatten(opts, node).value.args == a && Flatten(opts, node).value.typ == t
      case Child(s) => Flatten(opts, node).value.Child?
                       && KeyOf(Flatten(opts, node).value.selection) == KeyOf(s)
                       && Flatten(opts, node).value.selection.Field? == s.Field?
  {
    if node.Child? { FlattenSelectionKey(opts, node.selection); }
  }
}
