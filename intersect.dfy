/** Intersection of previously fetched (tracked) selections with a fat query:
    a tracked field survives only where the fat query names a field of the
    same schema name; a field the fat query leaves without sub-selections lets
    the whole tracked subtree through, except that a connection the caller
    marks keeps only its metadata (its `edges` and `pageInfo` are dropped). */
module IntersectRelayQuery {
  import opened Wrappers
  import opened RelayQuery

  /** The parts of a connection that hold its range: its edges and its page
      information. */
  const RangeFields: set<string> := {"edges", "pageInfo"}

  /** The fields visible at one level: the fields among `ss`, and the fields
      visible inside each fragment among them, in order. */
  function Surface(ss: seq<Selection>): seq<Selection>
    decreases ss
  {
    if ss == [] then []
    else (if ss[0].Field? then [ss[0]] else Surface(ss[0].children)) + Surface(ss[1..])
  }

  /** The first field named `name` visible in the fat query children `pattern`. */
  function PatternField(pattern: seq<Selection>, name: string): Option<Selection>
    decreases pattern
  {
    if pattern == [] then None
    else if pattern[0].Field? then
      if pattern[0].name == name then Some(pattern[0]) else PatternField(pattern[1..], name)
    else
      var inner := PatternField(pattern[0].children, name);
      if inner.Some? then inner else PatternField(pattern[1..], name)
  }

  /** The selections outside the range of a connection: every field named
      `edges` or `pageInfo` is dropped, also inside fragments, and a fragment
      left empty goes with it. */
  function NonRange(ss: seq<Selection>): seq<Selection>
    decreases ss
  {
    if ss == [] then []
    else
      var head :=
        if ss[0].Field? then (if ss[0].name in RangeFields then [] else [ss[0]])
        else
          var kids := NonRange(ss[0].children);
          if kids == [] then [] else [Fragment(ss[0].typeCondition, kids)];
      head + NonRange(ss[1..])
  }

  /** `s` with the children `kids`, or nothing when there are none. */
  function NonEmpty(s: Selection, kids: seq<Selection>): Option<Selection> {
    if kids == [] then None else Some(WithChildren(s, kids))
  }

  /** The tracked selections `subject` restricted to the fat query children
      `pattern`. `strip` marks the connections whose range is not refetched. */
  function IntersectChildren(subject: seq<Selection>, pattern: seq<Selection>, strip: Selection -> bool): seq<Selection>
    decreases subject
  {
    if subject == [] then []
    else
      var head :=
        if subject[0].Fragment? then
          var kids := IntersectChildren(subject[0].children, pattern, strip);
          if kids == [] then [] else [Fragment(subject[0].typeCondition, kids)]
        else
          match PatternField(pattern, subject[0].name)
          case None => []
          case Some(p) =>
            var r :=
              if p.children == [] then
                if strip(subject[0]) then NonEmpty(subject[0], NonRange(subject[0].children)) else Some(subject[0])
              else NonEmpty(subject[0], IntersectChildren(subject[0].children, p.children, strip));
            match r case Some(x) => [x] case None => [];
      head + IntersectChildren(subject[1..], pattern, strip)
  }

  /** What a tracked field `g` becomes against the fat query field `p` of its
      name: all of it when `p` has no sub-selections (only its metadata when
      `strip` marks it), otherwise its intersection with `p`'s children. */
  function FieldResult(g: Selection, p: Selection, strip: Selection -> bool): Option<Selection>
    requires g.Field?
  {
    if p.children == [] then
      if strip(g) then NonEmpty(g, NonRange(g.children)) else Some(g)
    else NonEmpty(g, IntersectChildren(g.children, p.children, strip))
  }

  /** The reference reading of intersection on visible fields: each tracked
      field in turn, kept as `FieldResult` says when the fat query has a field
      of its name, dropped otherwise. */
  function Matched(fs: seq<Selection>, pattern: seq<Selection>, strip: Selection -> bool): seq<Selection>
    decreases fs
  {
    if fs == [] then []
    else
      var head :=
        if !fs[0].Field? then []
        else match PatternField(pattern, fs[0].name)
          case None => []
          case Some(p) => match FieldResult(fs[0], p, strip) case Some(x) => [x] case None => [];
      head + Matched(fs[1..], pattern, strip)
  }

  // ---------------------------------------------------------------------------
  // Lemmas

  lemma {:induction false} SurfaceAppend(a: seq<Selection>, b: seq<Selection>)
    ensures Surface(a + b) == Surface(a) + Surface(b)
  {
    if a != [] {
      assert (a + b)[0] == a[0];
      assert (a + b)[1..] == a[1..] + b;
      SurfaceAppend(a[1..], b);
    } else {
      assert a + b == b;
    }
  }

  /** Everything visible is a field. */
  lemma {:induction false} SurfaceFields(ss: seq<Selection>)
    ensures forall f :: f in Surface(ss) ==> f.Field?
  {
    if ss != [] {
      if ss[0].Fragment? { SurfaceFields(ss[0].children); }
      SurfaceFields(ss[1..]);
    }
  }

  lemma {:induction false} MatchedAppend(a: seq<Selection>, b: seq<Selection>, pattern: seq<Selection>, strip: Selection -> bool)
    ensures Matched(a + b, pattern, strip) == Matched(a, pattern, strip) + Matched(b, pattern, strip)
  {
    if a != [] {
      assert (a + b)[0] == a[0];
      assert (a + b)[1..] == a[1..] + b;
      MatchedAppend(a[1..], b, pattern, strip);
    } else {
      assert a + b == b;
    }
  }

  /** The fields that intersection makes visible are, in order, exactly the
      tracked fields the fat query names, each cut down as `FieldResult` says. */
  lemma {:induction false} IntersectSurface(subject: seq<Selection>, pattern: seq<Selection>, strip: Selection -> bool)
    ensures Surface(IntersectChildren(subject, pattern, strip)) == Matched(Surface(subject), pattern, strip)
    decreases subject
  {
    if subject != [] {
      var s := subject[0];
      var out := IntersectChildren(subject, pattern, strip);
      var rest := IntersectChildren(subject[1..], pattern, strip);
      IntersectSurface(subject[1..], pattern, strip);
      if s.Fragment? {
        var kids := IntersectChildren(s.children, pattern, strip);
        IntersectSurface(s.children, pattern, strip);
        var head := if kids == [] then [] else [Fragment(s.typeCondition, kids)];
        assert out == head + rest;
        SurfaceAppend(head, rest);
        assert Surface(head) == Surface(kids) by {
          if kids != [] {
            assert [Fragment(s.typeCondition, kids)][1..] == [];
          }
        }
        assert Surface(subject) == Surface(s.children) + Surface(subject[1..]);
        MatchedAppend(Surface(s.children), Surface(subject[1..]), pattern, strip);
      } else {
        var head := match PatternField(pattern, s.name)
          case None => []
          case Some(p) => match FieldResult(s, p, strip) case Some(x) => [x] case None => [];
        assert [s][1..] == [];
        assert Matched([s], pattern, strip) == head;
        assert out == head + rest;
        SurfaceAppend(head, rest);
        assert Surface(head) == head by {
          if head != [] {
            assert head == [head[0]] && head[0].Field?;
            assert head[1..] == [];
          }
        }
        assert Surface(subject) == [s] + Surface(subject[1..]);
        MatchedAppend([s], Surface(subject[1..]), pattern, strip);
      }
    }
  }

  /** A field is kept by `Matched` iff some tracked field of a name the fat
      query has yields it. */
  lemma {:induction false} MatchedMembers(fs: seq<Selection>, pattern: seq<Selection>, strip: Selection -> bool)
    ensures forall x :: x in Matched(fs, pattern, strip) <==>
      exists i :: 0 <= i < |fs| && fs[i].Field? && PatternField(pattern, fs[i].name).Some?
                  && FieldResult(fs[i], PatternField(pattern, fs[i].name).value, strip) == Some(x)
  {
    if fs != [] {
      MatchedMembers(fs[1..], pattern, strip);
      forall x ensures x in Matched(fs, pattern, strip) <==>
        exists i :: 0 <= i < |fs| && fs[i].Field? && PatternField(pattern, fs[i].name).Some?
                    && FieldResult(fs[i], PatternField(pattern, fs[i].name).value, strip) == Some(x)
      {
        if exists i :: 1 <= i < |fs| && fs[i].Field? && PatternField(pattern, fs[i].name).Some?
                       && FieldResult(fs[i], PatternField(pattern, fs[i].name).value, strip) == Some(x) {
          var i :| 1 <= i < |fs| && fs[i].Field? && PatternField(pattern, fs[i].name).Some?
                   && FieldResult(fs[i], PatternField(pattern, fs[i].name).value, strip) == Some(x);
          assert fs[1..][i - 1] == fs[i];
        }
      }
    }
  }

  /** A field is visible in `NonRange(ss)` iff it is visible in `ss` and is
      neither `edges` nor `pageInfo`. */
  lemma {:induction false} NonRangeSurface(ss: seq<Selection>)
    ensures forall f :: f in Surface(NonRange(ss)) <==> f in Surface(ss) && f.Field? && f.name !in RangeFields
  {
    SurfaceFields(ss);
    if ss != [] {
      var s := ss[0];
      var head :=
        if s.Field? then (if s.name in RangeFields then [] else [s])
        else
          var kids := NonRange(s.children);
          if kids == [] then [] else [Fragment(s.typeCondition, kids)];
      assert NonRange(ss) == head + NonRange(ss[1..]);
      SurfaceAppend(head, NonRange(ss[1..]));
      NonRangeSurface(ss[1..]);
      if s.Fragment? {
        NonRangeSurface(s.children);
        var kids := NonRange(s.children);
        assert Surface(head) == Surface(kids) by {
          if kids != [] {
            assert [Fragment(s.typeCondition, kids)][1..] == [];
          }
        }
      } else {
        assert Surface(head) == head by {
          if head != [] { assert head[1..] == []; }
        }
      }
      assert Surface(ss) == (if s.Field? then [s] else Surface(s.children)) + Surface(ss[1..]);
    }
  }

  /** A field found by `PatternField` is a field of that name visible in the
      fat query, and none is found only when no visible field has the name. */
  lemma {:induction false} PatternFieldSpec(pattern: seq<Selection>, name: string)
    ensures PatternField(pattern, name).Some? ==>
      var p := PatternField(pattern, name).value; p.Field? && p.name == name && p in Surface(pattern)
    ensures PatternField(pattern, name).None? <==> forall f :: f in Surface(pattern) ==> f.Field? && f.name != name
  {
    SurfaceFields(pattern);
    if pattern != [] {
      PatternFieldSpec(pattern[1..], name);
      if pattern[0].Fragment? {
        PatternFieldSpec(pattern[0].children, name);
      }
      assert Surface(pattern) == (if pattern[0].Field? then [pattern[0]] else Surface(pattern[0].children)) + Surface(pattern[1..]);
    }
  }

  /** What `FieldResult` yields is the tracked field itself with other
      children. */
  lemma FieldResultKeepsField(g: Selection, p: Selection, strip: Selection -> bool)
    requires g.Field?
    ensures FieldResult(g, p, strip).Some? ==> FieldResult(g, p, strip).value == WithChildren(g, FieldResult(g, p, strip).value.children)
  {
  }

  /** Intersection invents nothing: every field it makes visible is a visible
      tracked field, possibly with fewer children, whose name the fat query
      has. */
  lemma IntersectNothingInvented(subject: seq<Selection>, pattern: seq<Selection>, strip: Selection -> bool)
    ensures forall f :: f in Surface(IntersectChildren(subject, pattern, strip)) ==>
      && (exists g :: g in Surface(subject) && f == WithChildren(g, f.children))
      && f.Field? && PatternField(pattern, f.name).Some?
  {
    IntersectSurface(subject, pattern, strip);
    MatchedMembers(Surface(subject), pattern, strip);
    SurfaceFields(subject);
    forall f | f in Surface(IntersectChildren(subject, pattern, strip))
      ensures && (exists g :: g in Surface(subject) && f == WithChildren(g, f.children))
              && f.Field? && PatternField(pattern, f.name).Some?
    {
      var fs := Surface(subject);
      var i :| 0 <= i < |fs| && fs[i].Field? && PatternField(pattern, fs[i].name).Some?
               && FieldResult(fs[i], PatternField(pattern, fs[i].name).value, strip) == Some(f);
      FieldResultKeepsField(fs[i], PatternField(pattern, fs[i].name).value, strip);
      assert fs[i] in Surface(subject);
    }
  }

  /** A visible tracked field that the fat query names without
      sub-selections, and that `strip` does not mark, is kept whole. */
  lemma KeepsUnterminated(subject: seq<Selection>, pattern: seq<Selection>, strip: Selection -> bool, g: Selection)
    requires g in Surface(subject) && g.Field?
    requires PatternField(pattern, g.name).Some? && PatternField(pattern, g.name).value.children == []
    requires !strip(g)
    ensures g in Surface(IntersectChildren(subject, pattern, strip))
  {
    IntersectSurface(subject, pattern, strip);
    MatchedMembers(Surface(subject), pattern, strip);
    var fs := Surface(subject);
    var i :| 0 <= i < |fs| && fs[i] == g;
    assert FieldResult(fs[i], PatternField(pattern, fs[i].name).value, strip) == Some(g);
  }

  /** A visible tracked field that `strip` marks, and that the fat query
      names without sub-selections, is kept with all of its metadata when it
      has any. */
  lemma KeepsMetadata(subject: seq<Selection>, pattern: seq<Selection>, strip: Selection -> bool, g: Selection)
    requires g in Surface(subject) && g.Field?
    requires PatternField(pattern, g.name).Some? && PatternField(pattern, g.name).value.children == []
    requires strip(g) && NonRange(g.children) != []
    ensures WithChildren(g, NonRange(g.children)) in Surface(IntersectChildren(subject, pattern, strip))
  {
    IntersectSurface(subject, pattern, strip);
    MatchedMembers(Surface(subject), pattern, strip);
    var fs := Surface(subject);
    var i :| 0 <= i < |fs| && fs[i] == g;
    assert FieldResult(fs[i], PatternField(pattern, fs[i].name).value, strip) == Some(WithChildren(g, NonRange(g.children)));
  }

  /** A visible field that `strip` marks, and that the fat query names without
      sub-selections, is kept only with its metadata: nothing visible under it
      is `edges` or `pageInfo`. */
  lemma StripsRange(subject: seq<Selection>, pattern: seq<Selection>, strip: Selection -> bool, f: Selection)
    requires f in Surface(IntersectChildren(subject, pattern, strip)) && f.Field?
    requires strip(f)
    requires PatternField(pattern, f.name).Some? && PatternField(pattern, f.name).value.children == []
    ensures forall h :: h in Surface(f.children) ==> h.Field? && h.name !in RangeFields
  {
    IntersectSurface(subject, pattern, strip);
    MatchedMembers(Surface(subject), pattern, strip);
    var fs := Surface(subject);
    var i :| 0 <= i < |fs| && fs[i].Field? && PatternField(pattern, fs[i].name).Some?
             && FieldResult(fs[i], PatternField(pattern, fs[i].name).value, strip) == Some(f);
    var g := fs[i];
    FieldResultKeepsField(g, PatternField(pattern, g.name).value, strip);
    assert f.name == g.name;
    assert f.children == NonRange(g.children);
    NonRangeSurface(g.children);
  }
}
