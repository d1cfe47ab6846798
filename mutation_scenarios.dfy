/** The behaviour asserted for the mutation-query builders, stated for inputs
    of the shape each test builds. Scalar leaves are parameters pinned to the
    names the test uses; the tracker is any function that answers for the
    IDs of the test as its mock does. The generated fields `getNode` adds to
    the expected queries (`id` on entities, `__typename`, `cursor`) appear
    where the builders add them. */
module RelayMutationQueryScenarios {
  import opened Wrappers
  import opened RelayQuery
  import opened FlattenRelayQuery
  import opened IntersectRelayQuery
  import opened RelayMutationQuery
  import opened FlattenRelayQueryScenarios

  /** A composite field without arguments. */
  function Composite(name: string, typ: string, kids: seq<Selection>): Selection {
    Field(name, [], typ, true, kids)
  }

  /** A fat-query field named `n` without sub-selections. */
  predicate Bare(f: Selection, n: string) {
    f.Field? && f.name == n && f.args == [] && f.children == []
  }

  /** The fat field cut down to `inter`, with `id` added. */
  lemma MutatedVia(f: Selection, tracked: seq<Selection>, strip: Selection -> bool, inter: seq<Selection>)
    requires f.Field? && tracked != [] && IntersectChildren(tracked, f.children, strip) == inter && !HasIdChild(inter)
    ensures MutatedField(f, tracked, strip) == [Field(f.name, f.args, f.typ, f.composite, inter + [IdField])]
  {
  }

  /** `buildFragmentForFields` with a single entry whose field is `f`. */
  lemma FieldsOne(fat: FatQuery, tracker: Tracker, name: string, ids: IDs, f: Selection, out: seq<Selection>)
    requires FatField(fat, name) == Ok(f) && MutatedField(f, TrackedFor(tracker, IdList(ids)), NoStrip()) == out
    ensures BuildFragmentForFields(fat, tracker, [(name, ids)]) == Ok(Built(Fragment(fat.typ, out), IdList(ids)))
  {
    var entries := [(name, ids)];
    assert entries[1..] == [];
    assert FieldsParts(fat, tracker, entries[1..]) == Ok(Parts([], []));
    assert out + [] == out && IdList(ids) + [] == IdList(ids);
  }

  // ---------------------------------------------------------------------------
  // 'throws for invalid field names'

  lemma FieldsThrowsForInvalidName(subscribers: Selection, subscribeStatus: Selection, tracker: Tracker)
    ensures var fat := FatQuery("ActorSubscribeResponsePayload", [Composite("subscribee", "Actor", [subscribers, subscribeStatus])]);
      var r := BuildFragmentForFields(fat, tracker, [("unsubscribee", Single("4"))]);
      r.Err? && Message(r.error) == "RelayMutationQuery: Invalid field name on fat query, `unsubscribee`."
  {
    var fat := FatQuery("ActorSubscribeResponsePayload", [Composite("subscribee", "Actor", [subscribers, subscribeStatus])]);
    assert KeyOf(fat.children[0]) == FieldKey("subscribee", []);
    assert FindField(fat.children, "unsubscribee") == None;
  }

  // ---------------------------------------------------------------------------
  // 'maps a field to a single ID'

  /** Only `likers`, tracked and in the fat query, is kept; `id` is added. */
  lemma FieldsMapsSingleId(doesViewerLike: Selection, likers: Selection, trackedLikers: Selection, url: Selection,
                           tracker: Tracker)
    requires Scalar(doesViewerLike, "doesViewerLike") && Scalar(likers, "likers")
    requires Scalar(trackedLikers, "likers") && Scalar(url, "url")
    requires tracker("123") == [trackedLikers, url]
    ensures var fat := FatQuery("FeedbackLikeResponsePayload", [Composite("feedback", "Feedback", [doesViewerLike, likers])]);
      BuildFragmentForFields(fat, tracker, [("feedback", Single("123"))])
      == Ok(Built(Fragment("FeedbackLikeResponsePayload", [Composite("feedback", "Feedback", [trackedLikers, IdField])]), ["123"]))
  {
    var feedback := Composite("feedback", "Feedback", [doesViewerLike, likers]);
    var fat := FatQuery("FeedbackLikeResponsePayload", [feedback]);
    assert FatField(fat, "feedback") == Ok(feedback);
    assert TrackedFor(tracker, ["123"]) == [trackedLikers, url];
    assert PatternField(feedback.children, "likers") == Some(likers);
    assert feedback.children[1..] == [likers];
    assert PatternField([likers], "url") == None;
    assert PatternField(feedback.children, "url") == None;
    assert IntersectChildren([url], feedback.children, NoStrip()) == [];
    assert IntersectChildren([trackedLikers, url], feedback.children, NoStrip()) == [trackedLikers];
    MutatedVia(feedback, [trackedLikers, url], NoStrip(), [trackedLikers]);
    assert [trackedLikers] + [IdField] == [trackedLikers, IdField];
    FieldsOne(fat, tracker, "feedback", Single("123"), feedback, [Composite("feedback", "Feedback", [trackedLikers, IdField])]);
  }

  // ---------------------------------------------------------------------------
  // 'maps a plural field to an array of IDs'

  /** Of the tracked `message` and `seenState`, only `seenState` is kept. */
  lemma FieldsMapsPluralIds(seenState: Selection, text: Selection, trackedSeenState: Selection, tracker: Tracker)
    requires Scalar(seenState, "seenState") && Scalar(trackedSeenState, "seenState") && Scalar(text, "text")
    requires tracker("123") == [Composite("message", "Text", [text]), trackedSeenState]
    ensures var fat := FatQuery("ViewerNotificationsUpdateAllSeenStateResponsePayload", [Composite("stories", "Story", [seenState])]);
      BuildFragmentForFields(fat, tracker, [("stories", Plural(["123"]))])
      == Ok(Built(Fragment("ViewerNotificationsUpdateAllSeenStateResponsePayload",
                           [Composite("stories", "Story", [trackedSeenState, IdField])]), ["123"]))
  {
    var stories := Composite("stories", "Story", [seenState]);
    var fat := FatQuery("ViewerNotificationsUpdateAllSeenStateResponsePayload", [stories]);
    var message := Composite("message", "Text", [text]);
    assert FatField(fat, "stories") == Ok(stories);
    assert TrackedFor(tracker, ["123"]) == [message, trackedSeenState];
    assert PatternField(stories.children, "message") == None;
    assert PatternField(stories.children, "seenState") == Some(seenState);
    assert [message, trackedSeenState][1..] == [trackedSeenState];
    assert IntersectChildren([trackedSeenState], stories.children, NoStrip()) == [trackedSeenState];
    assert IntersectChildren([message, trackedSeenState], stories.children, NoStrip()) == [trackedSeenState];
    MutatedVia(stories, [message, trackedSeenState], NoStrip(), [trackedSeenState]);
    assert [trackedSeenState] + [IdField] == [trackedSeenState, IdField];
    FieldsOne(fat, tracker, "stories", Plural(["123"]), stories, [Composite("stories", "Story", [trackedSeenState, IdField])]);
  }

  // ---------------------------------------------------------------------------
  // 'merges tracked nodes for IDs of plural fields'

  /** The tracked fragments of both IDs, in order, are what is intersected
      with the fat field; the tracker is asked about each ID in turn. */
  lemma FieldsMergesPluralIds(seenState: Selection, text: Selection, name: Selection, trackedSeenState: Selection,
                              tracker: Tracker)
    requires Scalar(seenState, "seenState") && Scalar(trackedSeenState, "seenState")
    requires Scalar(text, "text") && Scalar(name, "name")
    requires tracker("123") == [Fragment("Story", [Composite("message", "Text", [text])])]
    requires tracker("456") == [Fragment("Story", [Composite("actors", "Actor", [name]), trackedSeenState])]
    ensures TrackedFor(tracker, ["123", "456"])
      == [Fragment("Story", [Composite("message", "Text", [text])]),
          Fragment("Story", [Composite("actors", "Actor", [name]), trackedSeenState])]
    ensures var fat := FatQuery("ViewerNotificationsUpdateAllSeenStateResponsePayload", [Composite("stories", "Story", [seenState])]);
      BuildFragmentForFields(fat, tracker, [("stories", Plural(["123", "456"]))])
      == Ok(Built(Fragment("ViewerNotificationsUpdateAllSeenStateResponsePayload",
                           [Composite("stories", "Story", [Fragment("Story", [trackedSeenState]), IdField])]), ["123", "456"]))
  {
    var stories := Composite("stories", "Story", [seenState]);
    var fat := FatQuery("ViewerNotificationsUpdateAllSeenStateResponsePayload", [stories]);
    var message, actors := Composite("message", "Text", [text]), Composite("actors", "Actor", [name]);
    var f1, f2 := Fragment("Story", [message]), Fragment("Story", [actors, trackedSeenState]);
    assert FatField(fat, "stories") == Ok(stories);
    var ids := ["123", "456"];
    assert ids[1..] == ["456"] && ids[1..][1..] == [];
    assert TrackedFor(tracker, ids[1..]) == [f2];
    assert TrackedFor(tracker, ids) == [f1, f2];
    var pat := stories.children;
    assert PatternField(pat, "message") == None;
    assert PatternField(pat, "actors") == None;
    assert PatternField(pat, "seenState") == Some(seenState);
    assert IntersectChildren([message], pat, NoStrip()) == [];
    assert IntersectChildren([trackedSeenState], pat, NoStrip()) == [trackedSeenState];
    assert [actors, trackedSeenState][1..] == [trackedSeenState];
    assert IntersectChildren([actors, trackedSeenState], pat, NoStrip()) == [trackedSeenState];
    assert IntersectChildren([f2], pat, NoStrip()) == [Fragment("Story", [trackedSeenState])];
    assert [f1, f2][1..] == [f2];
    assert IntersectChildren([f1, f2], pat, NoStrip()) == [Fragment("Story", [trackedSeenState])];
    assert !HasIdChild([Fragment("Story", [trackedSeenState])]);
    MutatedVia(stories, [f1, f2], NoStrip(), [Fragment("Story", [trackedSeenState])]);
    assert [Fragment("Story", [trackedSeenState])] + [IdField] == [Fragment("Story", [trackedSeenState]), IdField];
    FieldsOne(fat, tracker, "stories", Plural(ids), stories, [Composite("stories", "Story", [Fragment("Story", [trackedSeenState]), IdField])]);
  }

  // ---------------------------------------------------------------------------
  // Edge deletion

  /** The fat query of the edge-deletion tests. */
  function DeletionFat(comments: Selection, topLevelComments: Selection): FatQuery {
    FatQuery("CommentDeleteResponsePayload", [Composite("feedback", "Feedback", [comments, topLevelComments])])
  }

  /** 'throws for invalid parent name' */
  lemma DeletionThrowsForInvalidParent(comments: Selection, topLevelComments: Selection, tracker: Tracker)
    ensures var r := BuildFragmentForEdgeDeletion(DeletionFat(comments, topLevelComments), tracker, "comments", "123", "story");
      r.Err? && Message(r.error) == "RelayMutationQuery: Invalid field name on fat query, `story`."
  {
    var fat := DeletionFat(comments, topLevelComments);
    assert KeyOf(fat.children[0]) == FieldKey("feedback", []);
    assert FindField(fat.children, "story") == None;
  }

  /** 'creates a fragment for connection metadata': the tracked
      `comments(first: "10")` keeps its `count` and loses its `edges`;
      `doesViewerLike`, absent from the fat query, is dropped. */
  lemma DeletionKeepsConnectionMetadata(comments: Selection, topLevelComments: Selection, doesViewerLike: Selection,
                                        count: Selection, edges: Selection, tracker: Tracker)
    requires Bare(comments, "comments") && Bare(topLevelComments, "topLevelComments")
    requires Scalar(doesViewerLike, "doesViewerLike") && Scalar(count, "count") && edges.Field? && edges.name == "edges"
    requires tracker("123") == [doesViewerLike, Field("comments", [Arg("first", "10")], "CommentsConnection", true, [count, edges])]
    ensures BuildFragmentForEdgeDeletion(DeletionFat(comments, topLevelComments), tracker, "comments", "123", "feedback")
      == Ok(Built(Fragment("CommentDeleteResponsePayload",
                           [Composite("feedback", "Feedback",
                                 [Field("comments", [Arg("first", "10")], "CommentsConnection", true, [count]), IdField])]),
                  ["123"]))
  {
    var fat := DeletionFat(comments, topLevelComments);
    var feedback := fat.children[0];
    var tc := Field("comments", [Arg("first", "10")], "CommentsConnection", true, [count, edges]);
    var strip := ConnectionNamed("comments");
    assert FatField(fat, "feedback") == Ok(feedback);
    var pat := feedback.children;
    assert pat[1..] == [topLevelComments];
    assert PatternField([topLevelComments], "doesViewerLike") == None;
    assert PatternField(pat, "doesViewerLike") == None;
    assert PatternField(pat, "comments") == Some(comments);
    assert strip(tc);
    assert [count, edges][1..] == [edges];
    assert NonRange([edges]) == [];
    assert NonRange([count, edges]) == [count];
    var kept := Field("comments", [Arg("first", "10")], "CommentsConnection", true, [count]);
    assert IntersectChildren([tc], pat, strip) == [kept];
    assert [doesViewerLike, tc][1..] == [tc];
    assert IntersectChildren([doesViewerLike, tc], pat, strip) == [kept];
    MutatedVia(feedback, [doesViewerLike, tc], strip, [kept]);
    assert [kept] + [IdField] == [kept, IdField];
  }
}
