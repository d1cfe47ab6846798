/** The behaviour asserted for `buildQuery`: for each config kind, the root
    field of the mutation with `clientMutationId` first and then what the
    config adds. */
module RelayBuildQueryScenarios {
  import opened Wrappers
  import opened RelayQuery
  import opened FlattenRelayQuery
  import opened IntersectRelayQuery
  import opened RelayMutationQuery
  import opened FlattenRelayQueryScenarios
  import opened RelayMutationQueryScenarios
  import opened RelayEdgeInsertionScenarios

  /** The root field `name(input: $input)` of a mutation on `typ`. */
  function MutationRoot(name: string, typ: string, kids: seq<Selection>): Node {
    Root(name, [Arg("input", "$input")], typ, [ClientMutationIdField] + kids)
  }

  lemma BuildQueryOne(fat: FatQuery, tracker: Tracker, c: Config, mutationName: string, rootField: string, p: Parts)
    requires ConfigParts(fat, tracker, mutationName, c) == Ok(p)
    ensures BuildQuery(fat, tracker, [c], mutationName, rootField) == Ok(Query(MutationRoot(rootField, fat.typ, p.fields), p.queried))
  {
    assert [c][1..] == [];
    assert ConfigsParts(fat, tracker, mutationName, [c][1..]) == Ok(Parts([], []));
    assert p.fields + [] == p.fields && p.queried + [] == p.queried;
    assert ConfigsParts(fat, tracker, mutationName, [c]) == Ok(p);
  }

  lemma BuildQueryTwo(fat: FatQuery, tracker: Tracker, c1: Config, c2: Config, mutationName: string, rootField: string,
                      p1: Parts, p2: Parts)
    requires ConfigParts(fat, tracker, mutationName, c1) == Ok(p1) && ConfigParts(fat, tracker, mutationName, c2) == Ok(p2)
    ensures BuildQuery(fat, tracker, [c1, c2], mutationName, rootField)
      == Ok(Query(MutationRoot(rootField, fat.typ, p1.fields + p2.fields), p1.queried + p2.queried))
  {
    assert [c1, c2][1..] == [c2];
    assert [c2][1..] == [];
    assert ConfigsParts(fat, tracker, mutationName, [c2][1..]) == Ok(Parts([], []));
    assert p2.fields + [] == p2.fields && p2.queried + [] == p2.queried;
    assert ConfigsParts(fat, tracker, mutationName, [c2]) == Ok(p2);
    assert ConfigsParts(fat, tracker, mutationName, [c1, c2]) == Ok(Parts(p1.fields + p2.fields, p1.queried + p2.queried));
  }

  lemma RangeAddParts(fat: FatQuery, tracker: Tracker, mutationName: string, parentName: Option<string>, parentID: string,
                      connectionName: string, edgeName: string, behaviors: map<string, RangeBehavior>, b: Built)
    requires BuildFragmentForEdgeInsertion(fat, tracker, connectionName, parentID, edgeName, parentName, behaviors) == Ok(b)
    ensures ConfigParts(fat, tracker, mutationName, RangeAdd(parentName, parentID, connectionName, edgeName, behaviors))
      == Ok(Parts([b.fragment], b.queried))
  {
  }

  lemma FieldsChangeParts(fat: FatQuery, tracker: Tracker, mutationName: string, fieldIDs: seq<(string, IDs)>, b: Built)
    requires BuildFragmentForFields(fat, tracker, fieldIDs) == Ok(b)
    ensures ConfigParts(fat, tracker, mutationName, FieldsChange(fieldIDs)) == Ok(Parts([b.fragment], b.queried))
  {
  }

  /** Only the default call filter prepends. */
  function PrependDefault(): map<string, RangeBehavior> {
    map["" := Prepend]
  }

  /** The fat query of the RANGE_ADD queries. */
  function AddFat(parentKids: seq<Selection>, comment: Selection, cursor: Selection, node: Selection, source: Selection): FatQuery {
    FatQuery("CommentCreateResponsePayload",
             [Composite("feedback", "Feedback", parentKids), comment,
              Composite("feedbackCommentEdge", "CommentsEdge", [cursor, node, source])])
  }

  /** The connection `comments(first: "10")` with one edge holding `body { text }`. */
  function FirstTen(text: Selection): Selection {
    Comments([Arg("first", "10")], [EdgesOf([Composite("body", "Text", [text])])])
  }

  /** The new edge the RANGE_ADD queries request. */
  function NewEdge(text: Selection): Selection {
    Field("feedbackCommentEdge", [], EdgeType, true,
          [TypenameField, CursorField, Composite("node", "Comment", [Composite("body", "Text", [text]), IdField]), SourceField])
  }

  /** `comments(first: "10")` is spliced, with the edge child `node { body { text } }`. */
  lemma FirstTenSpliced(text: Selection)
    ensures FieldsNamed(Surface([FirstTen(text)]), "comments") == [FirstTen(text)]
    ensures SplicedEdgeChildren([FirstTen(text)], PrependDefault()) == [Composite("node", "Comment", [Composite("body", "Text", [text])])]
    ensures RefetchKeys([FirstTen(text)], PrependDefault()) == []
    ensures NonRange(FirstTen(text).children) == []
  {
    var e := EdgesOf([Composite("body", "Text", [text])]);
    var c := FirstTen(text);
    BehaviorKeys();
    assert Surface([c]) == [c];
    EdgesFound(c, [], e);
    assert Spliced(c, PrependDefault());
    ChildrenOfOne(e);
  }

  lemma NewEdgeOf(text: Selection)
    requires Scalar(text, "text")
    ensures EdgeField("feedbackCommentEdge", [Composite("node", "Comment", [Composite("body", "Text", [text])])]) == NewEdge(text)
  {
    var body := Composite("body", "Text", [text]);
    BodyFlat(text);
    EdgeOfOneNode("feedbackCommentEdge", Composite("node", "Comment", [body]));
    assert [body] + [IdField] == [body, IdField];
  }

  /** The RANGE_ADD fragment of 'creates a query for RANGE_ADD': the tracked
      connection is spliced, so `feedback` keeps only its `id`, and the new
      edge follows. */
  lemma RangeAddFragment(comments: Selection, comment: Selection, cursor: Selection, node: Selection, source: Selection,
                         text: Selection, tracker: Tracker)
    requires Bare(comments, "comments") && Scalar(text, "text")
    requires tracker("123") == [Fragment("Feedback", [FirstTen(text)])]
    ensures BuildFragmentForEdgeInsertion(AddFat([comments], comment, cursor, node, source), tracker, "comments", "123",
                                          "feedbackCommentEdge", Some("feedback"), PrependDefault())
      == Ok(Built(Fragment("CommentCreateResponsePayload", [Composite("feedback", "Feedback", [IdField]), NewEdge(text)]), ["123"]))
  {
    var fat := AddFat([comments], comment, cursor, node, source);
    var feedback := fat.children[0];
    var c := FirstTen(text);
    var frag := Fragment("Feedback", [c]);
    FirstTenSpliced(text);
    assert Surface([frag]) == Surface([c]);
    assert FindField(fat.children, "feedback") == Some(feedback);
    var strip := ConnectionNotRefetched("comments", []);
    assert strip(c);
    assert PatternField(feedback.children, "comments") == Some(comments);
    assert IntersectChildren([c], feedback.children, strip) == [];
    assert IntersectChildren([frag], feedback.children, strip) == [];
    MutatedVia(feedback, [frag], strip, []);
    assert [] + [IdField] == [IdField];
    assert FieldsNamed(Surface(tracker("123")), "comments") == [c];
    var part := [Composite("feedback", "Feedback", [IdField])];
    assert InsertionParent(fat, tracker, "comments", "123", Some("feedback"), PrependDefault()) == part;
    var n := Composite("node", "Comment", [Composite("body", "Text", [text])]);
    InsertionAssembled(fat, tracker, "comments", "123", "feedbackCommentEdge", Some("feedback"), PrependDefault(), [c], [n], part);
    NewEdgeOf(text);
    assert part + [NewEdge(text)] == [Composite("feedback", "Feedback", [IdField]), NewEdge(text)];
  }

  // ---------------------------------------------------------------------------
  // 'creates a query for RANGE_ADD'

  lemma QueryForRangeAdd(comments: Selection, comment: Selection, cursor: Selection, node: Selection, source: Selection,
                         text: Selection, tracker: Tracker)
    requires Bare(comments, "comments") && Scalar(text, "text")
    requires tracker("123") == [Fragment("Feedback", [FirstTen(text)])]
    ensures BuildQuery(AddFat([comments], comment, cursor, node, source), tracker,
                       [RangeAdd(Some("feedback"), "123", "comments", "feedbackCommentEdge", PrependDefault())],
                       "CommentAddMutation", "commentCreate")
      == Ok(Query(MutationRoot("commentCreate", "CommentCreateResponsePayload",
                               [Fragment("CommentCreateResponsePayload", [Composite("feedback", "Feedback", [IdField]), NewEdge(text)])]),
                  ["123"]))
  {
    var fat := AddFat([comments], comment, cursor, node, source);
    RangeAddFragment(comments, comment, cursor, node, source, text, tracker);
    var c := RangeAdd(Some("feedback"), "123", "comments", "feedbackCommentEdge", PrependDefault());
    BuildQueryOne(fat, tracker, c, "CommentAddMutation", "commentCreate",
                  Parts([Fragment("CommentCreateResponsePayload", [Composite("feedback", "Feedback", [IdField]), NewEdge(text)])], ["123"]));
  }

  // ---------------------------------------------------------------------------
  // 'creates a query for NODE_DELETE' and for RANGE_DELETE

  /** Deleting from the tracked `comments(first: "10")`, of which only edges
      were fetched, leaves `feedback` with its `id` alone. */
  lemma DeletionFragment(comments: Selection, topLevelComments: Selection, text: Selection, tracker: Tracker)
    requires Bare(comments, "comments") && Bare(topLevelComments, "topLevelComments")
    requires tracker("123") == [FirstTen(text)]
    ensures BuildFragmentForEdgeDeletion(DeletionFat(comments, topLevelComments), tracker, "comments", "123", "feedback")
      == Ok(Built(Fragment("CommentDeleteResponsePayload", [Composite("feedback", "Feedback", [IdField])]), ["123"]))
  {
    var fat := DeletionFat(comments, topLevelComments);
    var feedback := fat.children[0];
    var c := FirstTen(text);
    FirstTenSpliced(text);
    assert FatField(fat, "feedback") == Ok(feedback);
    var strip := ConnectionNamed("comments");
    assert PatternField(feedback.children, "comments") == Some(comments);
    assert IntersectChildren([c], feedback.children, strip) == [];
    MutatedVia(feedback, [c], strip, []);
    assert [] + [IdField] == [IdField];
  }

  lemma QueryForNodeDelete(comments: Selection, topLevelComments: Selection, text: Selection, tracker: Tracker)
    requires Bare(comments, "comments") && Bare(topLevelComments, "topLevelComments")
    requires tracker("123") == [FirstTen(text)]
    ensures BuildQuery(DeletionFat(comments, topLevelComments), tracker,
                       [NodeDelete("feedback", "123", "comments", "deletedCommentId")], "CommentDeleteMutation", "commentDelete")
      == Ok(Query(MutationRoot("commentDelete", "CommentDeleteResponsePayload",
                               [Field("deletedCommentId", [], "ID", false, []),
                                Fragment("CommentDeleteResponsePayload", [Composite("feedback", "Feedback", [IdField])])]),
                  ["123"]))
  {
    DeletionFragment(comments, topLevelComments, text, tracker);
    BuildQueryOne(DeletionFat(comments, topLevelComments), tracker, NodeDelete("feedback", "123", "comments", "deletedCommentId"),
                  "CommentDeleteMutation", "commentDelete",
                  Parts([Field("deletedCommentId", [], "ID", false, []),
                         Fragment("CommentDeleteResponsePayload", [Composite("feedback", "Feedback", [IdField])])], ["123"]));
  }

  lemma QueryForShallowRangeDelete(comments: Selection, topLevelComments: Selection, text: Selection, tracker: Tracker)
    requires Bare(comments, "comments") && Bare(topLevelComments, "topLevelComments")
    requires tracker("123") == [FirstTen(text)]
    ensures BuildQuery(DeletionFat(comments, topLevelComments), tracker,
                       [RangeDelete("feedback", "123", "comments", Shallow("deletedCommentId"))], "CommentDeleteMutation", "commentDelete")
      == Ok(Query(MutationRoot("commentDelete", "CommentDeleteResponsePayload",
                               [Field("deletedCommentId", [], "ID", false, []),
                                Fragment("CommentDeleteResponsePayload", [Composite("feedback", "Feedback", [IdField])])]),
                  ["123"]))
  {
    DeletionFragment(comments, topLevelComments, text, tracker);
    BuildQueryOne(DeletionFat(comments, topLevelComments), tracker, RangeDelete("feedback", "123", "comments", Shallow("deletedCommentId")),
                  "CommentDeleteMutation", "commentDelete",
                  Parts([Field("deletedCommentId", [], "ID", false, []),
                         Fragment("CommentDeleteResponsePayload", [Composite("feedback", "Feedback", [IdField])])], ["123"]));
  }

  /** The deleted ID is read from `formerFriend { id }`. */
  lemma QueryForDeepRangeDelete(friends: Selection, clientMutationId: Selection, name: Selection, tracker: Tracker)
    requires Bare(friends, "friends") && Scalar(clientMutationId, "clientMutationId")
    requires tracker("123") == [Field("friends", [Arg("first", "10")], "FriendsConnection", true,
                                      [Composite("edges", "FriendsEdge", [Composite("node", "User", [name])])])]
    ensures BuildQuery(FatQuery("UnfriendResponsePayload", [Composite("actor", "Actor", [friends]), clientMutationId]), tracker,
                       [RangeDelete("actor", "123", "friends", Path(["formerFriend"]))], "UnfriendMutation", "unfriend")
      == Ok(Query(MutationRoot("unfriend", "UnfriendResponsePayload",
                               [Composite("formerFriend", "Node", [IdField]),
                                Fragment("UnfriendResponsePayload", [Composite("actor", "Actor", [IdField])])]),
                  ["123"]))
  {
    var actor := Composite("actor", "Actor", [friends]);
    var fat := FatQuery("UnfriendResponsePayload", [actor, clientMutationId]);
    var e := Composite("edges", "FriendsEdge", [Composite("node", "User", [name])]);
    var c := tracker("123")[0];
    assert FatField(fat, "actor") == Ok(actor);
    var strip := ConnectionNamed("friends");
    assert PatternField(actor.children, "friends") == Some(friends);
    assert NonRange([e]) == [];
    assert IntersectChildren([c], actor.children, strip) == [];
    MutatedVia(actor, [c], strip, []);
    assert [] + [IdField] == [IdField];
    assert BuildFragmentForEdgeDeletion(fat, tracker, "friends", "123", "actor")
      == Ok(Built(Fragment("UnfriendResponsePayload", [Composite("actor", "Actor", [IdField])]), ["123"]));
    assert ["formerFriend"][1..] == [];
    assert DeletedIdSelection(Path(["formerFriend"])) == Composite("formerFriend", "Node", [IdField]);
    BuildQueryOne(fat, tracker, RangeDelete("actor", "123", "friends", Path(["formerFriend"])), "UnfriendMutation", "unfriend",
                  Parts([Composite("formerFriend", "Node", [IdField]),
                         Fragment("UnfriendResponsePayload", [Composite("actor", "Actor", [IdField])])], ["123"]));
  }

  // ---------------------------------------------------------------------------
  // 'creates a query for FIELDS_CHANGE'

  lemma QueryForFieldsChange(doesViewerLike: Selection, likers: Selection, trackedLikers: Selection, url: Selection,
                             tracker: Tracker)
    requires Scalar(doesViewerLike, "doesViewerLike") && Scalar(likers, "likers")
    requires Scalar(trackedLikers, "likers") && Scalar(url, "url")
    requires tracker("123") == [trackedLikers, url]
    ensures BuildQuery(FatQuery("FeedbackLikeResponsePayload", [Composite("feedback", "Feedback", [doesViewerLike, likers])]), tracker,
                       [FieldsChange([("feedback", Single("123"))])], "FeedbackLikeMutation", "feedbackLike")
      == Ok(Query(MutationRoot("feedbackLike", "FeedbackLikeResponsePayload",
                               [Fragment("FeedbackLikeResponsePayload", [Composite("feedback", "Feedback", [trackedLikers, IdField])])]),
                  ["123"]))
  {
    FieldsMapsSingleId(doesViewerLike, likers, trackedLikers, url, tracker);
    BuildQueryOne(FatQuery("FeedbackLikeResponsePayload", [Composite("feedback", "Feedback", [doesViewerLike, likers])]), tracker,
                  FieldsChange([("feedback", Single("123"))]), "FeedbackLikeMutation", "feedbackLike",
                  Parts([Fragment("FeedbackLikeResponsePayload", [Composite("feedback", "Feedback", [trackedLikers, IdField])])], ["123"]));
  }

  // ---------------------------------------------------------------------------
  // 'creates a query with additional required fragments'

  /** The required fragment follows the RANGE_ADD fragment as it is given. */
  lemma QueryWithRequiredChildren(comments: Selection, comment: Selection, cursor: Selection, node: Selection, source: Selection,
                                  text: Selection, doesViewerLike: Selection, tracker: Tracker)
    requires Bare(comments, "comments") && Scalar(text, "text")
    requires tracker("123") == [Fragment("Feedback", [FirstTen(text)])]
    ensures var required := Fragment("CommentCreateResponsePayload", [Composite("feedback", "Feedback", [doesViewerLike])]);
      BuildQuery(AddFat([comments], comment, cursor, node, source), tracker,
                 [RangeAdd(Some("feedback"), "123", "comments", "feedbackCommentEdge", PrependDefault()), RequiredChildren([required])],
                 "CommentAddMutation", "commentCreate")
      == Ok(Query(MutationRoot("commentCreate", "CommentCreateResponsePayload",
                               [Fragment("CommentCreateResponsePayload", [Composite("feedback", "Feedback", [IdField]), NewEdge(text)]),
                                required]),
                  ["123"]))
  {
    var fat := AddFat([comments], comment, cursor, node, source);
    var required := Fragment("CommentCreateResponsePayload", [Composite("feedback", "Feedback", [doesViewerLike])]);
    RangeAddFragment(comments, comment, cursor, node, source, text, tracker);
    var p1 := Parts([Fragment("CommentCreateResponsePayload", [Composite("feedback", "Feedback", [IdField]), NewEdge(text)])], ["123"]);
    BuildQueryTwo(fat, tracker, RangeAdd(Some("feedback"), "123", "comments", "feedbackCommentEdge", PrependDefault()),
                  RequiredChildren([required]), "CommentAddMutation", "commentCreate", p1, Parts([required], []));
    assert p1.fields + [required] == [p1.fields[0], required];
    assert p1.queried + [] == ["123"];
  }

  // ---------------------------------------------------------------------------
  // 'creates a query for RANGE_ADD and FIELDS_CHANGE'

  /** What the two configs intersect: the tracked `comments`, `likers` and
      `url` against `feedback { comments, doesViewerLike, likers }`. */
  lemma AddAndChangeIntersections(comments: Selection, doesViewerLike: Selection, likers: Selection,
                                  text: Selection, trackedLikers: Selection, url: Selection)
    requires Bare(comments, "comments") && Scalar(doesViewerLike, "doesViewerLike") && Scalar(likers, "likers")
    requires Scalar(trackedLikers, "likers") && Scalar(url, "url")
    ensures var pat := [comments, doesViewerLike, likers];
      var tracked := [FirstTen(text), trackedLikers, url];
      && IntersectChildren(tracked, pat, ConnectionNotRefetched("comments", [])) == [trackedLikers]
      && IntersectChildren(tracked, pat, NoStrip()) == [FirstTen(text), trackedLikers]
  {
    var pat := [comments, doesViewerLike, likers];
    var c := FirstTen(text);
    FirstTenSpliced(text);
    assert pat[1..] == [doesViewerLike, likers] && pat[1..][1..] == [likers];
    assert PatternField([likers], "url") == None;
    assert PatternField(pat, "url") == None;
    assert PatternField(pat[1..], "likers") == Some(likers);
    assert PatternField(pat, "likers") == Some(likers);
    assert PatternField(pat, "comments") == Some(comments);
    var tracked := [c, trackedLikers, url];
    assert tracked[1..] == [trackedLikers, url] && tracked[1..][1..] == [url];
    assert IntersectChildren([url], pat, NoStrip()) == [];
    assert IntersectChildren([url], pat, ConnectionNotRefetched("comments", [])) == [];
    assert IntersectChildren([trackedLikers, url], pat, NoStrip()) == [trackedLikers];
    assert IntersectChildren([trackedLikers, url], pat, ConnectionNotRefetched("comments", [])) == [trackedLikers];
  }

  /** The parent part of the RANGE_ADD fragment of the combined mutation. */
  lemma AddAndChangeParent(comments: Selection, doesViewerLike: Selection, likers: Selection, comment: Selection,
                           cursor: Selection, node: Selection, source: Selection,
                           text: Selection, trackedLikers: Selection, url: Selection, tracker: Tracker)
    requires Bare(comments, "comments") && Scalar(doesViewerLike, "doesViewerLike") && Scalar(likers, "likers")
    requires Scalar(trackedLikers, "likers") && Scalar(url, "url") && Scalar(text, "text")
    requires tracker("123") == [FirstTen(text), trackedLikers, url]
    ensures FieldsNamed(Surface(tracker("123")), "comments") == [FirstTen(text)]
    ensures InsertionParent(AddFat([comments, doesViewerLike, likers], comment, cursor, node, source),
                            tracker, "comments", "123", Some("feedback"), PrependDefault())
      == [Composite("feedback", "Feedback", [trackedLikers, IdField])]
  {
    var fat := AddFat([comments, doesViewerLike, likers], comment, cursor, node, source);
    var feedback := fat.children[0];
    var c := FirstTen(text);
    var tracked := [c, trackedLikers, url];
    FirstTenSpliced(text);
    AddAndChangeIntersections(comments, doesViewerLike, likers, text, trackedLikers, url);
    assert Surface(tracked) == tracked by {
      assert Surface([url]) == [url];
      assert Surface([trackedLikers, url]) == [trackedLikers, url];
    }
    assert FieldsNamed(tracked, "comments") == [c] by {
      assert FieldsNamed([url], "comments") == [];
      assert FieldsNamed([trackedLikers, url], "comments") == [];
    }
    assert FindField(fat.children, "feedback") == Some(feedback);
    var strip := ConnectionNotRefetched("comments", []);
    MutatedVia(feedback, tracked, strip, [trackedLikers]);
    assert [trackedLikers] + [IdField] == [trackedLikers, IdField];
    var part := [Composite("feedback", "Feedback", [trackedLikers, IdField])];
    assert InsertionParent(fat, tracker, "comments", "123", Some("feedback"), PrependDefault()) == part;
  }

  /** The RANGE_ADD fragment with `likers` tracked beside the connection:
      `feedback` keeps `likers` and drops the spliced connection. */
  lemma AddAndChangeInsertion(comments: Selection, doesViewerLike: Selection, likers: Selection, comment: Selection,
                              cursor: Selection, node: Selection, source: Selection,
                              text: Selection, trackedLikers: Selection, url: Selection, tracker: Tracker)
    requires Bare(comments, "comments") && Scalar(doesViewerLike, "doesViewerLike") && Scalar(likers, "likers")
    requires Scalar(trackedLikers, "likers") && Scalar(url, "url") && Scalar(text, "text")
    requires tracker("123") == [FirstTen(text), trackedLikers, url]
    ensures BuildFragmentForEdgeInsertion(AddFat([comments, doesViewerLike, likers], comment, cursor, node, source),
                                          tracker, "comments", "123", "feedbackCommentEdge", Some("feedback"), PrependDefault())
      == Ok(Built(Fragment("CommentCreateResponsePayload",
                           [Composite("feedback", "Feedback", [trackedLikers, IdField]), NewEdge(text)]), ["123"]))
  {
    var fat := AddFat([comments, doesViewerLike, likers], comment, cursor, node, source);
    var c := FirstTen(text);
    var part := [Composite("feedback", "Feedback", [trackedLikers, IdField])];
    AddAndChangeParent(comments, doesViewerLike, likers, comment, cursor, node, source, text, trackedLikers, url, tracker);
    FirstTenSpliced(text);
    assert FindField(fat.children, "feedback").Some?;
    var n := Composite("node", "Comment", [Composite("body", "Text", [text])]);
    InsertionAssembled(fat, tracker, "comments", "123", "feedbackCommentEdge", Some("feedback"), PrependDefault(), [c], [n], part);
    NewEdgeOf(text);
    assert part + [NewEdge(text)] == [part[0], NewEdge(text)];
  }

  /** The FIELDS_CHANGE fragment keeps the whole tracked connection beside
      `likers`. */
  lemma AddAndChangeFields(comments: Selection, doesViewerLike: Selection, likers: Selection, comment: Selection,
                           cursor: Selection, node: Selection, source: Selection,
                           text: Selection, trackedLikers: Selection, url: Selection, tracker: Tracker)
    requires Bare(comments, "comments") && Scalar(doesViewerLike, "doesViewerLike") && Scalar(likers, "likers")
    requires Scalar(trackedLikers, "likers") && Scalar(url, "url")
    requires tracker("123") == [FirstTen(text), trackedLikers, url]
    ensures BuildFragmentForFields(AddFat([comments, doesViewerLike, likers], comment, cursor, node, source),
                                   tracker, [("feedback", Single("123"))])
      == Ok(Built(Fragment("CommentCreateResponsePayload",
                           [Composite("feedback", "Feedback", [FirstTen(text), trackedLikers, IdField])]), ["123"]))
  {
    var fat := AddFat([comments, doesViewerLike, likers], comment, cursor, node, source);
    var feedback := fat.children[0];
    var c := FirstTen(text);
    var tracked := [c, trackedLikers, url];
    AddAndChangeIntersections(comments, doesViewerLike, likers, text, trackedLikers, url);
    assert FatField(fat, "feedback") == Ok(feedback);
    assert !HasIdChild([c, trackedLikers]);
    MutatedVia(feedback, tracked, NoStrip(), [c, trackedLikers]);
    assert [c, trackedLikers] + [IdField] == [c, trackedLikers, IdField];
    assert TrackedFor(tracker, ["123"]) == tracked;
    FieldsOne(fat, tracker, "feedback", Single("123"), feedback, [Composite("feedback", "Feedback", [c, trackedLikers, IdField])]);
  }

  /** The RANGE_ADD fragment and then the FIELDS_CHANGE fragment; the tracker
      is asked about the parent once for each. */
  lemma QueryForRangeAddAndFieldsChange(comments: Selection, doesViewerLike: Selection, likers: Selection, comment: Selection,
                                        cursor: Selection, node: Selection, source: Selection,
                                        text: Selection, trackedLikers: Selection, url: Selection, tracker: Tracker)
    requires Bare(comments, "comments") && Scalar(doesViewerLike, "doesViewerLike") && Scalar(likers, "likers")
    requires Scalar(trackedLikers, "likers") && Scalar(url, "url") && Scalar(text, "text")
    requires tracker("123") == [FirstTen(text), trackedLikers, url]
    ensures BuildQuery(AddFat([comments, doesViewerLike, likers], comment, cursor, node, source), tracker,
                       [RangeAdd(Some("feedback"), "123", "comments", "feedbackCommentEdge", PrependDefault()),
                        FieldsChange([("feedback", Single("123"))])],
                       "CommentAddAndLikeMutation", "commentCreate")
      == Ok(Query(MutationRoot("commentCreate", "CommentCreateResponsePayload",
                               [Fragment("CommentCreateResponsePayload",
                                         [Composite("feedback", "Feedback", [trackedLikers, IdField]), NewEdge(text)]),
                                Fragment("CommentCreateResponsePayload",
                                         [Composite("feedback", "Feedback", [FirstTen(text), trackedLikers, IdField])])]),
                  ["123", "123"]))
  {
    var fat := AddFat([comments, doesViewerLike, likers], comment, cursor, node, source);
    AddAndChangeInsertion(comments, doesViewerLike, likers, comment, cursor, node, source, text, trackedLikers, url, tracker);
    AddAndChangeFields(comments, doesViewerLike, likers, comment, cursor, node, source, text, trackedLikers, url, tracker);
    var f1 := Fragment("CommentCreateResponsePayload", [Composite("feedback", "Feedback", [trackedLikers, IdField]), NewEdge(text)]);
    var f2 := Fragment("CommentCreateResponsePayload", [Composite("feedback", "Feedback", [FirstTen(text), trackedLikers, IdField])]);
    RangeAddParts(fat, tracker, "CommentAddAndLikeMutation", Some("feedback"), "123", "comments", "feedbackCommentEdge", PrependDefault(),
                  Built(f1, ["123"]));
    FieldsChangeParts(fat, tracker, "CommentAddAndLikeMutation", [("feedback", Single("123"))], Built(f2, ["123"]));
    BuildQueryTwo(fat, tracker, RangeAdd(Some("feedback"), "123", "comments", "feedbackCommentEdge", PrependDefault()),
                  FieldsChange([("feedback", Single("123"))]), "CommentAddAndLikeMutation", "commentCreate",
                  Parts([f1], ["123"]), Parts([f2], ["123"]));
    assert [f1] + [f2] == [f1, f2];
    assert ["123"] + ["123"] == ["123", "123"];
  }

  // ---------------------------------------------------------------------------
  // 'complains about unknown config types'

  lemma UnknownConfigMessage()
    ensures Message(UnrecognizedConfig("COSMIC_RAY_BIT_FLIP", "UnfriendMutation"))
      == "RelayMutationQuery: Unrecognized config key `COSMIC_RAY_BIT_FLIP` for `UnfriendMutation`."
  {
    assert "RelayMutationQuery: Unrecognized config key `" + "COSMIC_RAY_BIT_FLIP"
      == "RelayMutationQuery: Unrecognized config key `COSMIC_RAY_BIT_FLIP";
    assert "RelayMutationQuery: Unrecognized config key `COSMIC_RAY_BIT_FLIP" + "` for `"
      == "RelayMutationQuery: Unrecognized config key `COSMIC_RAY_BIT_FLIP` for `";
    assert "RelayMutationQuery: Unrecognized config key `COSMIC_RAY_BIT_FLIP` for `" + "UnfriendMutation"
      == "RelayMutationQuery: Unrecognized config key `COSMIC_RAY_BIT_FLIP` for `UnfriendMutation";
    assert "RelayMutationQuery: Unrecognized config key `COSMIC_RAY_BIT_FLIP` for `UnfriendMutation" + "`."
      == "RelayMutationQuery: Unrecognized config key `COSMIC_RAY_BIT_FLIP` for `UnfriendMutation`.";
  }

  lemma QueryForUnknownConfig(clientMutationId: Selection, tracker: Tracker)
    ensures var r := BuildQuery(FatQuery("UnfriendResponsePayload", [clientMutationId]), tracker,
                                [Unrecognized("COSMIC_RAY_BIT_FLIP")], "UnfriendMutation", "unfriend");
      r.Err? && Message(r.error) == "RelayMutationQuery: Unrecognized config key `COSMIC_RAY_BIT_FLIP` for `UnfriendMutation`."
  {
    var fat := FatQuery("UnfriendResponsePayload", [clientMutationId]);
    var configs := [Unrecognized("COSMIC_RAY_BIT_FLIP")];
    assert ConfigParts(fat, tracker, "UnfriendMutation", configs[0]) == Err(UnrecognizedConfig("COSMIC_RAY_BIT_FLIP", "UnfriendMutation"));
    assert ConfigsParts(fat, tracker, "UnfriendMutation", configs) == Err(UnrecognizedConfig("COSMIC_RAY_BIT_FLIP", "UnfriendMutation"));
    assert BuildQuery(fat, tracker, configs, "UnfriendMutation", "unfriend") == Err(UnrecognizedConfig("COSMIC_RAY_BIT_FLIP", "UnfriendMutation"));
    UnknownConfigMessage();
  }
}
