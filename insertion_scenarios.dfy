/** The behaviour asserted for edge insertion, for the tracked connections
    of each test. The fat query and the range behaviours are those the tests
    share: `''` and `'orderby(toplevel)'` prepend. */
module RelayEdgeInsertionScenarios {
  import opened Wrappers
  import opened RelayQuery
  import opened FlattenRelayQuery
  import opened IntersectRelayQuery
  import opened RelayMutationQuery
  import opened FlattenRelayQueryScenarios
  import opened RelayMutationQueryScenarios

  /** The fat query of the edge-insertion tests. */
  function InsertionFat(comments: Selection, topLevelComments: Selection, comment: Selection,
                        cursor: Selection, node: Selection, source: Selection): FatQuery {
    FatQuery("CommentCreateResponsePayload",
             [Composite("feedback", "Feedback", [comments, topLevelComments]), comment,
              Composite("feedbackCommentEdge", "CommentsEdge", [cursor, node, source])])
  }

  function Behaviors(): map<string, RangeBehavior> {
    map["" := Prepend, "orderby(toplevel)" := Prepend]
  }

  /** A connection `comments` with the given arguments. */
  function Comments(args: seq<Arg>, kids: seq<Selection>): Selection {
    Field("comments", args, "CommentsConnection", true, kids)
  }

  /** `edges { node { <kids> } }` */
  function EdgesOf(kids: seq<Selection>): Selection {
    Composite("edges", "CommentsEdge", [Composite("node", "Comment", kids)])
  }

  /** The generated edge children with one flat `node` between them are
      already flat. */
  lemma EdgeKidsFlat(node: Selection)
    requires node.Field? && node.name == "node" && node.args == [] && node.composite && FlatSel(DefaultOptions, node)
    ensures FlatSeq(DefaultOptions, EdgeType, [TypenameField, CursorField, node, SourceField])
  {
    var o := DefaultOptions;
    var kids := [TypenameField, CursorField, node, SourceField];
    assert FlatSeq(o, "Node", [IdField]) by {
      assert FlatSel(o, IdField);
    }
    assert FlatSel(o, SourceField);
    assert forall i :: 0 <= i < 4 ==> KeyOf(kids[i]) == FieldKey(kids[i].name, []);
    assert DistinctKeys(kids);
    assert forall i :: 0 <= i < 4 ==> kids[i].Field? && FlatSel(o, kids[i]);
  }

  /** The new edge for the single tracked edge child `node`, already flat and
      without `id`: `__typename`, `cursor`, `node` with `id`, `source { id }`. */
  lemma EdgeOfOneNode(edgeName: string, node: Selection)
    requires node.Field? && node.name == "node" && node.args == [] && node.composite
    requires FlatSel(DefaultOptions, node) && !HasIdChild(node.children)
    ensures EdgeField(edgeName, [node])
      == Field(edgeName, [], EdgeType, true,
               [TypenameField, CursorField, Field("node", [], node.typ, true, node.children + [IdField]), SourceField])
  {
    var kids := [TypenameField, CursorField, node, SourceField];
    assert [TypenameField, CursorField] + [node] + [SourceField] == kids;
    EdgeKidsFlat(node);
    FlatChildrenFixed(DefaultOptions, EdgeType, kids);
    AddNodeIdOfEdge(node);
  }

  lemma AddNodeIdOfEdge(node: Selection)
    requires node.Field? && node.name == "node"
    ensures AddNodeId([TypenameField, CursorField, node, SourceField]) == [TypenameField, CursorField, WithId(node), SourceField]
  {
    var kids := [TypenameField, CursorField, node, SourceField];
    assert kids[1..] == [CursorField, node, SourceField];
    assert kids[1..][1..] == [node, SourceField];
    assert kids[1..][1..][1..] == [SourceField];
    assert AddNodeId([SourceField]) == [SourceField];
    assert AddNodeId([node, SourceField]) == [WithId(node)] + [SourceField];
    assert AddNodeId([CursorField, node, SourceField]) == [CursorField] + [WithId(node), SourceField];
    assert AddNodeId(kids) == [TypenameField] + [CursorField, WithId(node), SourceField];
  }

  /** Grouping the generated edge children with two tracked `node`s merges
      the two into one. */
  lemma EdgeKidsGroup(n1: Selection, n2: Selection, m: Selection)
    requires n1.Field? && n1.name == "node" && n1.args == [] && n1.composite
    requires n2.Field? && n2.name == "node" && n2.args == []
    requires m == Field("node", [], n1.typ, true, n1.children + n2.children)
    ensures Group([TypenameField, CursorField, n1, n2, SourceField]) == [TypenameField, CursorField, m, SourceField]
  {
    var t, c, s := TypenameField, CursorField, SourceField;
    var items := [t, c, n1, n2, s];
    GroupFromStep([], items, [t]);
    assert items[1..] == [c, n1, n2, s];
    assert IndexOfKey([t], KeyOf(c)) == -1;
    GroupFromStep([t], [c, n1, n2, s], [t, c]);
    assert IndexOfKey([c], KeyOf(n1)) == -1;
    assert IndexOfKey([t, c], KeyOf(n1)) == -1;
    GroupFromStep([t, c], [n1, n2, s], [t, c, n1]);
    assert [t, c, n1][1..][1..] == [n1];
    assert KeyOf(n1) == KeyOf(n2);
    assert IndexOfKey([n1], KeyOf(n2)) == 0;
    assert IndexOfKey([c, n1], KeyOf(n2)) == 1;
    assert IndexOfKey([t, c, n1], KeyOf(n2)) == 2;
    assert [t, c, n1][2 := WithChildren(n1, n1.children + n2.children)] == [t, c, m];
    GroupFromStep([t, c, n1], [n2, s], [t, c, m]);
    assert [t, c, m][1..][1..] == [m];
    assert IndexOfKey([m], KeyOf(s)) == -1;
    assert IndexOfKey([c, m], KeyOf(s)) == -1;
    assert IndexOfKey([t, c, m], KeyOf(s)) == -1;
    GroupFromStep([t, c, m], [s], [t, c, m, s]);
  }

  /** The new edge for two tracked edge children `node`: one `node`, holding
      the children of both, with `id`. */
  lemma EdgeOfTwoNodes(edgeName: string, n1: Selection, n2: Selection, m: Selection)
    requires n1.Field? && n1.name == "node" && n1.args == [] && n1.composite
    requires n2.Field? && n2.name == "node" && n2.args == []
    requires m == Field("node", [], n1.typ, true, n1.children + n2.children)
    requires FlatSel(DefaultOptions, m) && !HasIdChild(m.children)
    ensures EdgeField(edgeName, [n1, n2])
      == Field(edgeName, [], EdgeType, true,
               [TypenameField, CursorField, Field("node", [], n1.typ, true, m.children + [IdField]), SourceField])
  {
    var o := DefaultOptions;
    var kids := [TypenameField, CursorField, n1, n2, SourceField];
    assert [TypenameField, CursorField] + [n1, n2] + [SourceField] == kids;
    ExpandIdentity(o, EdgeType, kids);
    EdgeKidsGroup(n1, n2, m);
    var g := [TypenameField, CursorField, m, SourceField];
    FlattenVia(o, EdgeType, kids, g);
    EdgeKidsFlat(m);
    ArrangedFlat(o, EdgeType, g);
    AddNodeIdOfEdge(m);
  }

  /** `body { text }` on a comment. */
  lemma BodyFlat(text: Selection)
    requires Scalar(text, "text")
    ensures FlatSel(DefaultOptions, Composite("node", "Comment", [Composite("body", "Text", [text])]))
  {
    var o := DefaultOptions;
    assert FlatSeq(o, "Text", [text]);
    assert FlatSel(o, Composite("body", "Text", [text]));
    assert FlatSeq(o, "Comment", [Composite("body", "Text", [text])]);
  }

  /** The call-filter keys the tests' connection arguments give. */
  lemma BehaviorKeys()
    ensures CallFilterKey([Arg("orderby", "toplevel"), Arg("first", "10")], PaginationArgs) == "orderby(toplevel)"
    ensures CallFilterKey([Arg("orderby", "ranked_threaded"), Arg("first", "10")], PaginationArgs) == "orderby(ranked_threaded)"
    ensures CallFilterKey([Arg("first", "10")], PaginationArgs) == ""
    ensures CallFilterKey([Arg("last", "10")], PaginationArgs) == ""
    ensures CallFilterKey([], PaginationArgs) == ""
  {
    var a, b := Arg("orderby", "toplevel"), Arg("orderby", "ranked_threaded");
    assert FilterArgs([Arg("first", "10")], PaginationArgs) == [];
    assert FilterArgs([a, Arg("first", "10")], PaginationArgs) == [a];
    assert FilterArgs([b, Arg("first", "10")], PaginationArgs) == [b];
    assert FilterArgs([Arg("last", "10")], PaginationArgs) == [];
    assert SortArgs([a]) == [a] && SortArgs([b]) == [b];
  }

  // ---------------------------------------------------------------------------
  // 'includes edge fields for connections with range config'

  /** Without a parent name, only the new edge is requested, with the tracked
      edge's `node { body { text } }`. */
  lemma InsertionIncludesEdgeFields(comments: Selection, topLevelComments: Selection, comment: Selection,
                                    cursor: Selection, node: Selection, source: Selection, text: Selection,
                                    tracker: Tracker)
    requires Scalar(text, "text")
    requires tracker("123") == [Comments([Arg("orderby", "toplevel"), Arg("first", "10")], [EdgesOf([Composite("body", "Text", [text])])])]
    ensures BuildFragmentForEdgeInsertion(InsertionFat(comments, topLevelComments, comment, cursor, node, source),
                                          tracker, "comments", "123", "feedbackCommentEdge", None, Behaviors())
      == Ok(Built(Fragment("CommentCreateResponsePayload",
                           [Field("feedbackCommentEdge", [], EdgeType, true,
                                  [TypenameField, CursorField, Composite("node", "Comment", [Composite("body", "Text", [text]), IdField]),
                                   SourceField])]),
                  ["123"]))
  {
    var fat := InsertionFat(comments, topLevelComments, comment, cursor, node, source);
    var body := Composite("body", "Text", [text]);
    var e := EdgesOf([body]);
    var c := Comments([Arg("orderby", "toplevel"), Arg("first", "10")], [e]);
    var n := Composite("node", "Comment", [body]);
    BehaviorKeys();
    assert Surface([c]) == [c];
    assert FieldsNamed([c], "comments") == [c];
    assert Surface([e]) == [e];
    assert FieldsNamed([e], "edges") == [e];
    assert Edges(c) == [e];
    assert Spliced(c, Behaviors());
    assert ChildrenOf([e]) == [n];
    assert SplicedEdgeChildren([c], Behaviors()) == [n];
    EdgeInsertionSpec(fat, tracker, "comments", "123", "feedbackCommentEdge", None, Behaviors());
    BodyFlat(text);
    EdgeOfOneNode("feedbackCommentEdge", n);
    assert [body] + [IdField] == [body, IdField];
    assert InsertionParent(fat, tracker, "comments", "123", None, Behaviors()) == [];
    var r := BuildFragmentForEdgeInsertion(fat, tracker, "comments", "123", "feedbackCommentEdge", None, Behaviors());
    assert r.Ok? && r.value.queried == ["123"];
    assert r.value.fragment.children == [EdgeField("feedbackCommentEdge", [n])];
  }

  /** Edge insertion once the tracked connections, the edge children and the
      parent part are known. */
  lemma InsertionAssembled(fat: FatQuery, tracker: Tracker, connectionName: string, parentID: string, edgeName: string,
                           parentName: Option<string>, behaviors: map<string, RangeBehavior>,
                           conns: seq<Selection>, kids: seq<Selection>, parentPart: seq<Selection>)
    requires parentName.Some? ==> FindField(fat.children, parentName.value).Some?
    requires FieldsNamed(Surface(tracker(parentID)), connectionName) == conns && conns != []
    requires SplicedEdgeChildren(conns, behaviors) == kids
    requires InsertionParent(fat, tracker, connectionName, parentID, parentName, behaviors) == parentPart
    ensures BuildFragmentForEdgeInsertion(fat, tracker, connectionName, parentID, edgeName, parentName, behaviors)
      == Ok(Built(Fragment(fat.typ, parentPart + (if kids == [] then [] else [EdgeField(edgeName, kids)])), [parentID]))
  {
    if parentName.Some? {
      FindFieldSpec(fat.children, parentName.value);
    }
    EdgeInsertionSpec(fat, tracker, connectionName, parentID, edgeName, parentName, behaviors);
  }

  /** `edges` is the one `edges` field among `kids`, its only composite field. */
  lemma EdgesFound(c: Selection, pre: seq<Selection>, e: Selection)
    requires c.Field? && c.children == pre + [e] && e.Field? && e.name == "edges"
    requires forall i :: 0 <= i < |pre| ==> pre[i].Field? && pre[i].name != "edges"
    requires |pre| <= 1
    ensures Edges(c) == [e]
  {
    assert Surface([e]) == [e];
    assert FieldsNamed([e], "edges") == [e];
    if |pre| == 1 {
      assert Surface(pre + [e]) == [pre[0], e];
      assert FieldsNamed([pre[0], e], "edges") == [e];
    } else {
      assert pre + [e] == [e];
    }
  }

  lemma ChildrenOfOne(e: Selection)
    ensures ChildrenOf([e]) == e.children
  {
    assert [e][1..] == [];
  }

  /** Two tracked connections named `comments`. */
  lemma TwoConnections(c1: Selection, c2: Selection)
    requires c1.Field? && c1.name == "comments" && c2.Field? && c2.name == "comments"
    ensures FieldsNamed(Surface([c1, c2]), "comments") == [c1, c2]
  {
    assert Surface([c2]) == [c2];
    assert Surface([c1, c2]) == [c1, c2];
    assert FieldsNamed([c2], "comments") == [c2];
  }

  lemma MergesConnections(count: Selection, text: Selection, name: Selection)
    requires Scalar(count, "count")
    ensures var c1 := Comments([Arg("first", "10")], [count, EdgesOf([Composite("body", "Text", [text])])]);
      var c2 := Comments([Arg("last", "10")], [EdgesOf([Composite("author", "User", [name])])]);
      && FieldsNamed(Surface([c1, c2]), "comments") == [c1, c2]
      && SplicedEdgeChildren([c1, c2], Behaviors())
         == [Composite("node", "Comment", [Composite("body", "Text", [text])]), Composite("node", "Comment", [Composite("author", "User", [name])])]
  {
    var body, author := Composite("body", "Text", [text]), Composite("author", "User", [name]);
    var e1, e2 := EdgesOf([body]), EdgesOf([author]);
    var c1, c2 := Comments([Arg("first", "10")], [count, e1]), Comments([Arg("last", "10")], [e2]);
    TwoConnections(c1, c2);
    BehaviorKeys();
    EdgesFound(c1, [count], e1);
    EdgesFound(c2, [], e2);
    assert Spliced(c1, Behaviors()) && Spliced(c2, Behaviors());
    ChildrenOfOne(e1);
    ChildrenOfOne(e2);
    assert SplicedEdgeChildren([c2], Behaviors()) == e2.children;
  }

  // ---------------------------------------------------------------------------
  // 'includes fields from multiple tracked edges'

  /** The two tracked `node`s merge into one flat `node`. */
  lemma MergedEdgeOf(text: Selection, name: Selection)
    requires Scalar(text, "text") && Scalar(name, "name")
    ensures EdgeField("feedbackCommentEdge", [Composite("node", "Comment", [Composite("body", "Text", [text])]),
                                              Composite("node", "Comment", [Composite("author", "User", [name])])])
      == Field("feedbackCommentEdge", [], EdgeType, true,
               [TypenameField, CursorField,
                Composite("node", "Comment", [Composite("body", "Text", [text]), Composite("author", "User", [name]), IdField]),
                SourceField])
  {
    var o := DefaultOptions;
    var body, author := Composite("body", "Text", [text]), Composite("author", "User", [name]);
    var m := Composite("node", "Comment", [body, author]);
    assert [body] + [author] == [body, author];
    assert FlatSeq(o, "Text", [text]) && FlatSeq(o, "User", [name]);
    assert FlatSel(o, body) && FlatSel(o, author);
    assert DistinctKeys([body, author]);
    assert FlatSeq(o, "Comment", [body, author]);
    EdgeOfTwoNodes("feedbackCommentEdge", Composite("node", "Comment", [body]), Composite("node", "Comment", [author]), m);
    assert [body, author] + [IdField] == [body, author, IdField];
  }

  /** Both `comments(first: "10")` and `comments(last: 10)` have the call
      filter `''`, which prepends: the edge children of both are merged into
      one `node`. */
  lemma InsertionMergesTrackedEdges(comments: Selection, topLevelComments: Selection, comment: Selection,
                                    cursor: Selection, node: Selection, source: Selection,
                                    count: Selection, text: Selection, name: Selection, tracker: Tracker)
    requires Scalar(count, "count") && Scalar(text, "text") && Scalar(name, "name")
    requires tracker("123") == [Comments([Arg("first", "10")], [count, EdgesOf([Composite("body", "Text", [text])])]),
                                Comments([Arg("last", "10")], [EdgesOf([Composite("author", "User", [name])])])]
    ensures BuildFragmentForEdgeInsertion(InsertionFat(comments, topLevelComments, comment, cursor, node, source),
                                          tracker, "comments", "123", "feedbackCommentEdge", None, Behaviors())
      == Ok(Built(Fragment("CommentCreateResponsePayload",
                           [Field("feedbackCommentEdge", [], EdgeType, true,
                                  [TypenameField, CursorField,
                                   Composite("node", "Comment", [Composite("body", "Text", [text]), Composite("author", "User", [name]), IdField]),
                                   SourceField])]),
                  ["123"]))
  {
    var fat := InsertionFat(comments, topLevelComments, comment, cursor, node, source);
    var n1 := Composite("node", "Comment", [Composite("body", "Text", [text])]);
    var n2 := Composite("node", "Comment", [Composite("author", "User", [name])]);
    MergesConnections(count, text, name);
    MergedEdgeOf(text, name);
    assert InsertionParent(fat, tracker, "comments", "123", None, Behaviors()) == [];
    InsertionAssembled(fat, tracker, "comments", "123", "feedbackCommentEdge", None, Behaviors(), tracker("123"), [n1, n2], []);
    assert [] + [EdgeField("feedbackCommentEdge", [n1, n2])] == [EdgeField("feedbackCommentEdge", [n1, n2])];
  }

  // ---------------------------------------------------------------------------
  // 'excludes fields from tracked edges with different filters'

  lemma ExcludesConnections(count: Selection, text: Selection, name: Selection)
    requires Scalar(count, "count")
    ensures var c1 := Comments([Arg("first", "10")], [count, EdgesOf([Composite("body", "Text", [text])])]);
      var c2 := Comments([Arg("orderby", "ranked_threaded"), Arg("first", "10")], [EdgesOf([Composite("author", "User", [name])])]);
      && FieldsNamed(Surface([c1, c2]), "comments") == [c1, c2]
      && SplicedEdgeChildren([c1, c2], Behaviors()) == [Composite("node", "Comment", [Composite("body", "Text", [text])])]
  {
    var body, author := Composite("body", "Text", [text]), Composite("author", "User", [name]);
    var e1, e2 := EdgesOf([body]), EdgesOf([author]);
    var c1, c2 := Comments([Arg("first", "10")], [count, e1]), Comments([Arg("orderby", "ranked_threaded"), Arg("first", "10")], [e2]);
    TwoConnections(c1, c2);
    BehaviorKeys();
    EdgesFound(c1, [count], e1);
    assert Spliced(c1, Behaviors()) && !Spliced(c2, Behaviors());
    ChildrenOfOne(e1);
    assert SplicedEdgeChildren([c2], Behaviors()) == [];
  }

  /** `comments(orderby: "ranked_threaded", first: "10")` has no range
      behaviour: its edge children are left out of the new edge. */
  lemma InsertionExcludesOtherFilters(comments: Selection, topLevelComments: Selection, comment: Selection,
                                      cursor: Selection, node: Selection, source: Selection,
                                      count: Selection, text: Selection, name: Selection, tracker: Tracker)
    requires Scalar(count, "count") && Scalar(text, "text") && Scalar(name, "name")
    requires tracker("123") == [Comments([Arg("first", "10")], [count, EdgesOf([Composite("body", "Text", [text])])]),
                                Comments([Arg("orderby", "ranked_threaded"), Arg("first", "10")],
                                         [EdgesOf([Composite("author", "User", [name])])])]
    ensures BuildFragmentForEdgeInsertion(InsertionFat(comments, topLevelComments, comment, cursor, node, source),
                                          tracker, "comments", "123", "feedbackCommentEdge", None, Behaviors())
      == Ok(Built(Fragment("CommentCreateResponsePayload",
                           [Field("feedbackCommentEdge", [], EdgeType, true,
                                  [TypenameField, CursorField, Composite("node", "Comment", [Composite("body", "Text", [text]), IdField]),
                                   SourceField])]),
                  ["123"]))
  {
    var fat := InsertionFat(comments, topLevelComments, comment, cursor, node, source);
    var body := Composite("body", "Text", [text]);
    var n1 := Composite("node", "Comment", [body]);
    ExcludesConnections(count, text, name);
    BodyFlat(text);
    EdgeOfOneNode("feedbackCommentEdge", n1);
    assert [body] + [IdField] == [body, IdField];
    InsertionAssembled(fat, tracker, "comments", "123", "feedbackCommentEdge", None, Behaviors(), tracker("123"), [n1], []);
    assert [] + [EdgeField("feedbackCommentEdge", [n1])] == [EdgeField("feedbackCommentEdge", [n1])];
  }

  /** The parent `feedback` cut down to its one tracked connection `c`, which
      survives whole: it is refetched, or all it holds is metadata. */
  lemma ParentKeepsConnection(comments: Selection, topLevelComments: Selection, c: Selection, strip: Selection -> bool)
    requires Bare(comments, "comments") && Bare(topLevelComments, "topLevelComments")
    requires c.Field? && c.name == "comments" && !HasIdChild([c])
    requires strip(c) ==> NonRange(c.children) == c.children != []
    ensures MutatedField(Composite("feedback", "Feedback", [comments, topLevelComments]), [c], strip)
      == [Composite("feedback", "Feedback", [c, IdField])]
  {
    var feedback := Composite("feedback", "Feedback", [comments, topLevelComments]);
    assert PatternField(feedback.children, "comments") == Some(comments);
    if strip(c) {
      assert WithChildren(c, c.children) == c;
    }
    assert IntersectChildren([c], feedback.children, strip) == [c];
    MutatedVia(feedback, [c], strip, [c]);
    assert [c] + [IdField] == [c, IdField];
  }

  // ---------------------------------------------------------------------------
  // 'refetches connections in the absence of a range config'

  lemma RefetchedConnection(text: Selection)
    ensures var c := Comments([Arg("orderby", "ranked_threaded"), Arg("first", "10")], [EdgesOf([Composite("body", "Text", [text])])]);
      && FieldsNamed(Surface([c]), "comments") == [c]
      && SplicedEdgeChildren([c], Behaviors()) == []
      && RefetchKeys([c], Behaviors()) == [KeyOf(c)]
  {
    var e := EdgesOf([Composite("body", "Text", [text])]);
    var c := Comments([Arg("orderby", "ranked_threaded"), Arg("first", "10")], [e]);
    BehaviorKeys();
    assert Surface([c]) == [c];
    EdgesFound(c, [], e);
    assert Refetched(c, Behaviors());
  }

  /** The connection, with edges but no range behaviour, is refetched whole
      under the parent `feedback`, and no new edge is requested. */
  lemma InsertionRefetchesWithoutRangeConfig(comments: Selection, topLevelComments: Selection, comment: Selection,
                                             cursor: Selection, node: Selection, source: Selection,
                                             text: Selection, tracker: Tracker)
    requires Bare(comments, "comments") && Bare(topLevelComments, "topLevelComments") && Scalar(text, "text")
    requires tracker("123") == [Comments([Arg("orderby", "ranked_threaded"), Arg("first", "10")],
                                         [EdgesOf([Composite("body", "Text", [text])])])]
    ensures BuildFragmentForEdgeInsertion(InsertionFat(comments, topLevelComments, comment, cursor, node, source),
                                          tracker, "comments", "123", "feedbackCommentEdge", Some("feedback"), Behaviors())
      == Ok(Built(Fragment("CommentCreateResponsePayload",
                           [Composite("feedback", "Feedback",
                                      [Comments([Arg("orderby", "ranked_threaded"), Arg("first", "10")],
                                                [EdgesOf([Composite("body", "Text", [text])])]),
                                       IdField])]),
                  ["123"]))
  {
    var fat := InsertionFat(comments, topLevelComments, comment, cursor, node, source);
    var feedback := fat.children[0];
    var c := tracker("123")[0];
    RefetchedConnection(text);
    assert FindField(fat.children, "feedback") == Some(feedback);
    var strip := ConnectionNotRefetched("comments", [KeyOf(c)]);
    assert !strip(c);
    ParentKeepsConnection(comments, topLevelComments, c, strip);
    var part := [Composite("feedback", "Feedback", [c, IdField])];
    assert InsertionParent(fat, tracker, "comments", "123", Some("feedback"), Behaviors()) == part;
    InsertionAssembled(fat, tracker, "comments", "123", "feedbackCommentEdge", Some("feedback"), Behaviors(), [c], [], part);
    assert part + [] == part;
  }

  // ---------------------------------------------------------------------------
  // 'includes non-edge fields for connections'

  lemma MetadataConnection(count: Selection)
    requires Scalar(count, "count")
    ensures var c := Comments([], [count]);
      && FieldsNamed(Surface([c]), "comments") == [c]
      && SplicedEdgeChildren([c], Behaviors()) == []
      && RefetchKeys([c], Behaviors()) == []
  {
    var c := Comments([], [count]);
    assert Surface([c]) == [c];
    assert Surface([count]) == [count];
    assert FieldsNamed([count], "edges") == [];
    assert Edges(c) == [];
  }

  /** A tracked connection without edges is neither spliced nor refetched:
      it is requested under the parent with its metadata, `count`. */
  lemma InsertionIncludesNonEdgeFields(comments: Selection, topLevelComments: Selection, comment: Selection,
                                       cursor: Selection, node: Selection, source: Selection,
                                       count: Selection, tracker: Tracker)
    requires Bare(comments, "comments") && Bare(topLevelComments, "topLevelComments") && Scalar(count, "count")
    requires tracker("123") == [Comments([], [count])]
    ensures BuildFragmentForEdgeInsertion(InsertionFat(comments, topLevelComments, comment, cursor, node, source),
                                          tracker, "comments", "123", "feedbackCommentEdge", Some("feedback"), Behaviors())
      == Ok(Built(Fragment("CommentCreateResponsePayload",
                           [Composite("feedback", "Feedback", [Comments([], [count]), IdField])]),
                  ["123"]))
  {
    var fat := InsertionFat(comments, topLevelComments, comment, cursor, node, source);
    var feedback := fat.children[0];
    var c := Comments([], [count]);
    MetadataConnection(count);
    assert FindField(fat.children, "feedback") == Some(feedback);
    var strip := ConnectionNotRefetched("comments", []);
    assert NonRange([count]) == [count];
    ParentKeepsConnection(comments, topLevelComments, c, strip);
    var part := [Composite("feedback", "Feedback", [c, IdField])];
    assert InsertionParent(fat, tracker, "comments", "123", Some("feedback"), Behaviors()) == part;
    InsertionAssembled(fat, tracker, "comments", "123", "feedbackCommentEdge", Some("feedback"), Behaviors(), [c], [], part);
    assert part + [] == part;
  }

  // ---------------------------------------------------------------------------
  // 'throws for invalid parent name'

  lemma InsertionThrowsForInvalidParent(comments: Selection, topLevelComments: Selection, comment: Selection,
                                        cursor: Selection, node: Selection, source: Selection, tracker: Tracker)
    requires Bare(comment, "comment")
    ensures var r := BuildFragmentForEdgeInsertion(InsertionFat(comments, topLevelComments, comment, cursor, node, source),
                                                   tracker, "comments", "123", "feedbackCommentEdge", Some("story"), Behaviors());
      r.Err? && Message(r.error) == "RelayMutationQuery: Invalid field name on fat query, `story`."
  {
    var fat := InsertionFat(comments, topLevelComments, comment, cursor, node, source);
    assert KeyOf(fat.children[2]) == FieldKey("feedbackCommentEdge", []);
    assert FindField(fat.children[2..], "story") == None;
    assert fat.children[1..][1..] == fat.children[2..];
    assert FindField(fat.children[1..], "story") == None;
    assert FindField(fat.children, "story") == None;
  }
}
