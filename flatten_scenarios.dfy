/** The behaviour asserted for the flattener, stated for every query of the
    shape each test builds: the scalar fields in it are parameters, pinned to
    the names the test uses, with any arguments and types. Each result is
    computed step by step: expansion, grouping, then flattening the groups.
    `getNode` also adds the generated `id` field to `Comment`; the other node
    types here are written without generated fields on either side. */
module FlattenRelayQueryScenarios {
  import opened Wrappers
  import opened RelayQuery
  import opened FlattenRelayQuery

  /** A scalar field named `n`. */
  predicate Scalar(f: Selection, n: string) {
    f.Field? && f.name == n && !f.composite && f.children == []
  }

  /** The `actor` field of `Viewer`. */
  function Actor(kids: seq<Selection>): Selection {
    Field("actor", [], "Actor", true, kids)
  }

  /** One round of flattening children, once their groups are known. */
  lemma FlattenVia(opts: Options, ctx: string, kids: seq<Selection>, g: seq<Selection>)
    requires Group(Expand(opts, ctx, kids)) == g
    ensures FlattenChildren(opts, ctx, kids) == Arranged(opts, g)
  {
  }

  /** Arranging a single group. */
  lemma ArrangedOne(opts: Options, s: Selection)
    ensures Arranged(opts, [s]) == match FlattenSelection(opts, s) case Some(x) => [x] case None => []
  {
    assert [s][1..] == [];
    assert FlattenEach(opts, [s]) == (match FlattenSelection(opts, s) case Some(x) => [x] case None => []) + FlattenEach(opts, []);
    assert Part([s][1..], true) == [] && Part([s][1..], false) == [];
    if s.Field? {
      assert Part([s], true) == [s] && Part([s], false) == [];
    } else {
      assert Part([s], true) == [] && Part([s], false) == [s];
    }
  }

  /** A composite field whose children flatten to `ks`. */
  lemma FlattenFieldVia(opts: Options, s: Selection, ks: seq<Selection>)
    requires s.Field? && s.composite && FlattenChildren(opts, s.typ, s.children) == ks && ks != []
    ensures FlattenSelection(opts, s) == Some(Field(s.name, s.args, s.typ, true, ks))
  {
  }

  // ---------------------------------------------------------------------------
  // 'flattens roots'

  lemma RootsExpand(name: Selection, first: Selection, last: Selection)
    requires Scalar(name, "name") && Scalar(first, "firstName") && Scalar(last, "lastName")
    ensures Expand(DefaultOptions, "Viewer", [Fragment("Viewer", [Actor([name])]), Actor([first, Fragment("Actor", [last])])])
      == [Actor([name]), Actor([first, Fragment("Actor", [last])])]
    ensures Expand(DefaultOptions, "Actor", [name, first, Fragment("Actor", [last])]) == [name, first, last]
  {
    var o := DefaultOptions;
    var kids := [Fragment("Viewer", [Actor([name])]), Actor([first, Fragment("Actor", [last])])];
    assert Expand(o, "Viewer", [Actor([name])]) == [Actor([name])];
    assert Expand(o, "Viewer", kids[1..]) == [Actor([first, Fragment("Actor", [last])])];
    var inner := [name, first, Fragment("Actor", [last])];
    assert Expand(o, "Actor", [last]) == [last];
    assert Expand(o, "Actor", inner[2..]) == [last];
    assert Expand(o, "Actor", inner[1..]) == [first, last];
  }

  lemma RootsGroup(name: Selection, first: Selection, last: Selection)
    ensures Group([Actor([name]), Actor([first, Fragment("Actor", [last])])])
      == [Actor([name, first, Fragment("Actor", [last])])]
  {
    var a1, a2 := Actor([name]), Actor([first, Fragment("Actor", [last])]);
    GroupFromStep([], [a1, a2], [a1]);
    assert IndexOfKey([a1], KeyOf(a2)) == 0;
    assert a1.children + a2.children == [name, first, Fragment("Actor", [last])];
    GroupFromStep([a1], [a2], [Actor([name, first, Fragment("Actor", [last])])]);
  }

  /** The fragment on `Viewer` is inlined into `viewer`, its `actor` merges
      with the sibling `actor`, and the fragment on `Actor` inside is
      inlined: one `actor` with `name`, `firstName` and `lastName`. The test
      lists them as `firstName, name, lastName`: the same children in
      another order. */
  lemma RootsActor(name: Selection, first: Selection, last: Selection)
    requires Scalar(name, "name") && Scalar(first, "firstName") && Scalar(last, "lastName")
    ensures FlattenSelection(DefaultOptions, Actor([name, first, Fragment("Actor", [last])])) == Some(Actor([name, first, last]))
  {
    var o := DefaultOptions;
    var m := Actor([name, first, Fragment("Actor", [last])]);
    RootsExpand(name, first, last);
    assert FlatSeq(o, "Actor", [name, first, last]);
    GroupDistinct([name, first, last]);
    FlattenVia(o, "Actor", m.children, [name, first, last]);
    ArrangedFlat(o, "Actor", [name, first, last]);
    FlattenFieldVia(o, m, [name, first, last]);
  }

  lemma FlattensRoots(name: Selection, first: Selection, last: Selection)
    requires Scalar(name, "name") && Scalar(first, "firstName") && Scalar(last, "lastName")
    ensures Flatten(DefaultOptions, Root("viewer", [], "Viewer", [Fragment("Viewer", [Actor([name])]), Actor([first, Fragment("Actor", [last])])]))
      == Some(Root("viewer", [], "Viewer", [Actor([name, first, last])]))
    ensures var out := Flatten(DefaultOptions, Root("viewer", [], "Viewer", [Fragment("Viewer", [Actor([name])]),
                                                                   Actor([first, Fragment("Actor", [last])])]));
      out.Some? && |out.value.children| == 1 && multiset(out.value.children[0].children) == multiset([first, name, last])
  {
    var o := DefaultOptions;
    var kids := [Fragment("Viewer", [Actor([name])]), Actor([first, Fragment("Actor", [last])])];
    var m := Actor([name, first, Fragment("Actor", [last])]);
    RootsExpand(name, first, last);
    RootsGroup(name, first, last);
    RootsActor(name, first, last);
    FlattenVia(o, "Viewer", kids, [m]);
    ArrangedOne(o, m);
    var out := Root("viewer", [], "Viewer", [Actor([name, first, last])]);
    assert Flatten(o, Root("viewer", [], "Viewer", kids)) == Some(out);
    assert out.children[0].children == [name, first, last];
    assert multiset([name, first, last]) == multiset([first, name, last]);
  }

  // ---------------------------------------------------------------------------
  // 'flattens fragments'

  lemma FragmentsExpand(first: Selection, last: Selection, name: Selection, username: Selection)
    requires Scalar(first, "firstName") && Scalar(last, "lastName") && Scalar(name, "name") && Scalar(username, "username")
    ensures Expand(DefaultOptions, "Actor",
        [first, Fragment("Actor", [last, Fragment("Actor", [name, Fragment("User", [username])])])])
      == [first, last, name, Fragment("User", [username])]
  {
    var o := DefaultOptions;
    var user := Fragment("User", [username]);
    assert Expand(o, "Actor", [user]) == [user];
    assert Expand(o, "Actor", [name, user]) == [name, user];
    assert Expand(o, "Actor", [Fragment("Actor", [name, user])]) == [name, user];
    assert Expand(o, "Actor", [last, Fragment("Actor", [name, user])]) == [last, name, user];
    assert Expand(o, "Actor", [Fragment("Actor", [last, Fragment("Actor", [name, user])])]) == [last, name, user];
  }

  /** Nested fragments on `Actor` are inlined at every depth, while the
      fragment on `User` survives as a node holding its own field. */
  lemma FlattensFragments(first: Selection, last: Selection, name: Selection, username: Selection)
    requires Scalar(first, "firstName") && Scalar(last, "lastName") && Scalar(name, "name") && Scalar(username, "username")
    ensures Flatten(DefaultOptions, Child(Fragment("Viewer", [Actor([first,
        Fragment("Actor", [last, Fragment("Actor", [name, Fragment("User", [username])])])])])))
      == Some(Child(Fragment("Viewer", [Actor([first, last, name, Fragment("User", [username])])])))
  {
    var o := DefaultOptions;
    var user := Fragment("User", [username]);
    var actor := Actor([first, Fragment("Actor", [last, Fragment("Actor", [name, user])])]);
    var out := [first, last, name, user];
    FragmentsExpand(first, last, name, username);
    assert FlatSeq(o, "User", [username]);
    assert FlatSeq(o, "Actor", out);
    GroupDistinct(out);
    FlattenVia(o, "Actor", actor.children, out);
    ArrangedFlat(o, "Actor", out);
    FlattenFieldVia(o, actor, out);
    assert Expand(o, "Viewer", [actor]) == [actor];
    GroupFromStep([], [actor], [actor]);
    FlattenVia(o, "Viewer", [actor], [actor]);
    ArrangedOne(o, actor);
  }

  // ---------------------------------------------------------------------------
  // 'flattens fields'

  lemma FieldsExpand(first: Selection, name: Selection, last: Selection)
    requires Scalar(first, "firstName") && Scalar(name, "name") && Scalar(last, "lastName")
    ensures Expand(DefaultOptions, "Actor", [first, name, Fragment("Actor", [name, last])]) == [first, name, name, last]
  {
    var o := DefaultOptions;
    var kids := [first, name, Fragment("Actor", [name, last])];
    assert Expand(o, "Actor", [last]) == [last];
    assert Expand(o, "Actor", [name, last]) == [name, last];
    assert Expand(o, "Actor", [Fragment("Actor", [name, last])]) == [name, last];
    assert Expand(o, "Actor", kids[1..]) == [name, name, last];
  }

  lemma FieldsGroup(first: Selection, name: Selection, last: Selection)
    requires Scalar(first, "firstName") && Scalar(name, "name") && Scalar(last, "lastName")
    ensures Group([first, name, name, last]) == [first, name, last]
  {
    GroupFromStep([], [first, name, name, last], [first]);
    assert IndexOfKey([first], KeyOf(name)) == -1;
    GroupFromStep([first], [name, name, last], [first, name]);
    assert IndexOfKey([first, name], KeyOf(name)) == 1;
    assert WithChildren(name, name.children + name.children) == name;
    assert [first, name][1 := WithChildren(name, name.children + name.children)] == [first, name];
    GroupFromStep([first, name], [name, last], [first, name]);
    assert IndexOfKey([first, name][1..], KeyOf(last)) == -1;
    assert IndexOfKey([first, name], KeyOf(last)) == -1;
    GroupFromStep([first, name], [last], [first, name, last]);
  }

  /** The duplicated `name`, once directly and once through the inlined
      fragment, appears once. */
  lemma FlattensFields(first: Selection, name: Selection, last: Selection)
    requires Scalar(first, "firstName") && Scalar(name, "name") && Scalar(last, "lastName")
    ensures Flatten(DefaultOptions, Child(Actor([first, name, Fragment("Actor", [name, last])])))
      == Some(Child(Actor([first, name, last])))
  {
    var o := DefaultOptions;
    var actor := Actor([first, name, Fragment("Actor", [name, last])]);
    FieldsExpand(first, name, last);
    FieldsGroup(first, name, last);
    assert FlatSeq(o, "Actor", [first, name, last]);
    FlattenVia(o, "Actor", actor.children, [first, name, last]);
    ArrangedFlat(o, "Actor", [first, name, last]);
    FlattenFieldVia(o, actor, [first, name, last]);
  }

  // ---------------------------------------------------------------------------
  // 'flattens empty fragments'

  /** An empty fragment flattens to nothing, and so do a field and a root
      whose only content is that fragment. */
  lemma FlattensEmptyFragments()
    ensures Flatten(DefaultOptions, Child(Fragment("TimezoneInfo", []))) == None
    ensures Flatten(DefaultOptions, Child(Field("timezoneEstimate", [], "TimezoneInfo", true, [Fragment("TimezoneInfo", [])]))) == None
    ensures Flatten(DefaultOptions, Root("viewer", [], "Viewer",
        [Field("timezoneEstimate", [], "TimezoneInfo", true, [Fragment("TimezoneInfo", [])])])) == None
  {
    assert !HasContent(DefaultOptions, Fragment("TimezoneInfo", []));
    assert !HasContent(DefaultOptions, Field("timezoneEstimate", [], "TimezoneInfo", true, [Fragment("TimezoneInfo", [])]));
    FlattenVacuous(DefaultOptions, Child(Fragment("TimezoneInfo", [])));
    FlattenVacuous(DefaultOptions, Child(Field("timezoneEstimate", [], "TimezoneInfo", true, [Fragment("TimezoneInfo", [])])));
    FlattenVacuous(DefaultOptions, Root("viewer", [], "Viewer",
        [Field("timezoneEstimate", [], "TimezoneInfo", true, [Fragment("TimezoneInfo", [])])]));
  }

  // ---------------------------------------------------------------------------
  // 'optionally removes fragments'

  /** With `shouldRemoveFragments`, the fragments on `User` and `Page` are
      inlined into `actor` as well. */
  lemma OptionallyRemovesFragments(first: Selection, name: Selection)
    requires Scalar(first, "firstName") && Scalar(name, "name")
    ensures Flatten(Options(true, false), Root("viewer", [], "Viewer", [
        Fragment("Viewer", [Actor([Fragment("User", [first]), Fragment("Page", [name])])])]))
      == Some(Root("viewer", [], "Viewer", [Actor([first, name])]))
  {
    var o := Options(true, false);
    var actor := Actor([Fragment("User", [first]), Fragment("Page", [name])]);
    var kids := [Fragment("Viewer", [actor])];
    assert Expand(o, "Actor", [name]) == [name];
    assert Expand(o, "Actor", [Fragment("Page", [name])]) == [name];
    assert Expand(o, "Actor", [first]) == [first];
    assert Expand(o, "Actor", actor.children) == [first, name];
    assert FlatSeq(o, "Actor", [first, name]);
    GroupDistinct([first, name]);
    FlattenVia(o, "Actor", actor.children, [first, name]);
    ArrangedFlat(o, "Actor", [first, name]);
    FlattenFieldVia(o, actor, [first, name]);
    assert Expand(o, "Viewer", [actor]) == [actor];
    assert Expand(o, "Viewer", kids) == [actor];
    GroupFromStep([], [actor], [actor]);
    FlattenVia(o, "Viewer", kids, [actor]);
    ArrangedOne(o, actor);
  }

  // ---------------------------------------------------------------------------
  // 'optionally preserves empty non-leaf nodes'

  /** With `preserveEmptyNodes`, `likers`, a composite field without
      sub-selections, is kept: three children, `likers`, `doesViewerLike`
      and the generated `id`, in that order. */
  lemma OptionallyPreservesEmptyNodes(likers: Selection, doesViewerLike: Selection, id: Selection)
    requires likers.Field? && likers.name == "likers" && likers.composite && likers.children == []
    requires Scalar(doesViewerLike, "doesViewerLike") && Scalar(id, "id")
    ensures Flatten(Options(false, true), Child(Fragment("Comment", [likers, doesViewerLike, id])))
      == Some(Child(Fragment("Comment", [likers, doesViewerLike, id])))
  {
    var o := Options(false, true);
    assert FlatSeq(o, "Comment", [likers]);
    assert FlatSeq(o, "Comment", [likers, doesViewerLike, id]);
    FlatSelectionFixed(o, Fragment("Comment", [likers, doesViewerLike, id]));
  }
}
