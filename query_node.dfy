/** The query node model: fields with arguments, type-conditioned fragments and
    roots, the storage key that decides when two sibling fields are the same
    field, and the call-filter signature of a connection. */
module RelayQuery {

  /** A static argument ("call") of a field, such as `first: "10"`. */
  datatype Arg = Arg(name: string, value: string)

  /** A selection below a root. A field that `composite` says may have
      sub-selections is a composite field; otherwise it is a scalar leaf. */
  datatype Selection =
    | Field(name: string, args: seq<Arg>, typ: string, composite: bool, children: seq<Selection>)
    | Fragment(typeCondition: string, children: seq<Selection>)

  /** A node handed to the flattener: a root, or any selection. */
  datatype Node =
    | Root(name: string, args: seq<Arg>, typ: string, children: seq<Selection>)
    | Child(selection: Selection)

  /** The identity under which siblings merge: a field's name with its
      arguments sorted, or a fragment's type condition. */
  datatype Key = FieldKey(name: string, sortedArgs: seq<Arg>) | FragmentKey(typeCondition: string)

  function KeyOf(s: Selection): Key {
    match s
    case Field(name, args, _, _, _) => FieldKey(name, SortArgs(args))
    case Fragment(t, _) => FragmentKey(t)
  }

  /** The same selection with other children. */
  function WithChildren(s: Selection, kids: seq<Selection>): Selection {
    match s
    case Field(n, a, t, c, _) => Field(n, a, t, c, kids)
    case Fragment(t, _) => Fragment(t, kids)
  }

  // ---------------------------------------------------------------------------
  // Lexicographic order on strings and arguments

  predicate StrLe(a: string, b: string) {
    if a == [] then true
    else if b == [] then false
    else if a[0] < b[0] then true
    else if b[0] < a[0] then false
    else StrLe(a[1..], b[1..])
  }

  lemma {:induction false} StrLeTotal(a: string, b: string)
    ensures StrLe(a, b) || StrLe(b, a)
  {
    if a != [] && b != [] && a[0] == b[0] {
      StrLeTotal(a[1..], b[1..]);
    }
  }

  lemma {:induction false} StrLeAntisymmetric(a: string, b: string)
    requires StrLe(a, b) && StrLe(b, a)
    ensures a == b
  {
    if a != [] && b != [] {
      StrLeAntisymmetric(a[1..], b[1..]);
      assert a == [a[0]] + a[1..] && b == [b[0]] + b[1..];
    }
  }

  lemma {:induction false} StrLeTransitive(a: string, b: string, c: string)
    requires StrLe(a, b) && StrLe(b, c)
    ensures StrLe(a, c)
  {
    if a != [] && b != [] && c != [] && a[0] == b[0] && b[0] == c[0] {
      StrLeTransitive(a[1..], b[1..], c[1..]);
    }
  }

  /** Arguments are ordered by name, then by value. */
  predicate ArgLe(x: Arg, y: Arg) {
    if x.name == y.name then StrLe(x.value, y.value) else StrLe(x.name, y.name)
  }

  lemma ArgLeTotal(x: Arg, y: Arg)
    ensures ArgLe(x, y) || ArgLe(y, x)
  {
    StrLeTotal(x.name, y.name);
    StrLeTotal(x.value, y.value);
  }

  lemma ArgLeAntisymmetric(x: Arg, y: Arg)
    requires ArgLe(x, y) && ArgLe(y, x)
    ensures x == y
  {
    if x.name == y.name {
      StrLeAntisymmetric(x.value, y.value);
    } else {
      StrLeAntisymmetric(x.name, y.name);
    }
  }

  lemma ArgLeTransitive(x: Arg, y: Arg, z: Arg)
    requires ArgLe(x, y) && ArgLe(y, z)
    ensures ArgLe(x, z)
  {
    if x.name == y.name && y.name == z.name {
      StrLeTransitive(x.value, y.value, z.value);
    } else if x.name == y.name {
      assert StrLe(y.name, z.name);
    } else if y.name == z.name {
      assert StrLe(x.name, y.name);
    } else {
      StrLeTransitive(x.name, y.name, z.name);
      if x.name == z.name {
        StrLeAntisymmetric(x.name, y.name);
      }
    }
  }

  // ---------------------------------------------------------------------------
  // Sorting arguments

  predicate SortedArgs(s: seq<Arg>) {
    forall i, j :: 0 <= i < j < |s| ==> ArgLe(s[i], s[j])
  }

  function InsertArg(x: Arg, s: seq<Arg>): seq<Arg> {
    if s == [] then [x]
    else if ArgLe(x, s[0]) then [x] + s
    else [s[0]] + InsertArg(x, s[1..])
  }

  /** The arguments in canonical order (insertion sort). */
  function SortArgs(a: seq<Arg>): seq<Arg> {
    if a == [] then [] else InsertArg(a[0], SortArgs(a[1..]))
  }

  lemma InsertArgSorted(x: Arg, s: seq<Arg>)
    ensures multiset(InsertArg(x, s)) == multiset(s) + multiset{x}
    ensures SortedArgs(s) ==> SortedArgs(InsertArg(x, s))
  {
    InsertArgPermutes(x, s);
    if SortedArgs(s) {
      InsertArgKeepsSorted(x, s);
    }
  }

  lemma {:induction false} InsertArgPermutes(x: Arg, s: seq<Arg>)
    ensures multiset(InsertArg(x, s)) == multiset(s) + multiset{x}
  {
    if s != [] && !ArgLe(x, s[0]) {
      InsertArgPermutes(x, s[1..]);
      assert s == [s[0]] + s[1..];
    }
  }

  /** A lower bound of `x` and of every element of `s` bounds the insertion. */
  lemma InsertArgBounded(y: Arg, x: Arg, s: seq<Arg>)
    requires ArgLe(y, x) && forall k :: 0 <= k < |s| ==> ArgLe(y, s[k])
    ensures forall k :: 0 <= k < |InsertArg(x, s)| ==> ArgLe(y, InsertArg(x, s)[k])
  {
    var t := InsertArg(x, s);
    InsertArgPermutes(x, s);
    forall k | 0 <= k < |t| ensures ArgLe(y, t[k]) {
      assert t[k] in multiset(t);
      if t[k] != x {
        assert t[k] in multiset(s);
        var m :| 0 <= m < |s| && s[m] == t[k];
      }
    }
  }

  lemma {:induction false} InsertArgKeepsSorted(x: Arg, s: seq<Arg>)
    requires SortedArgs(s)
    ensures SortedArgs(InsertArg(x, s))
  {
    if s == [] {
    } else if ArgLe(x, s[0]) {
      var r := [x] + s;
      forall i, j | 0 <= i < j < |r| ensures ArgLe(r[i], r[j]) {
        if i == 0 && j > 1 { ArgLeTransitive(x, s[0], s[j - 1]); }
      }
    } else {
      var t := InsertArg(x, s[1..]);
      SortedTail(s);
      InsertArgKeepsSorted(x, s[1..]);
      ArgLeTotal(x, s[0]);
      assert forall k :: 0 <= k < |s[1..]| ==> ArgLe(s[0], s[1..][k]) by {
        forall k | 0 <= k < |s[1..]| ensures ArgLe(s[0], s[1..][k]) {
          assert s[1..][k] == s[k + 1];
        }
      }
      InsertArgBounded(s[0], x, s[1..]);
      var r := [s[0]] + t;
      assert InsertArg(x, s) == r;
      forall i, j | 0 <= i < j < |r| ensures ArgLe(r[i], r[j]) {
        if i > 0 { assert r[i] == t[i - 1] && r[j] == t[j - 1]; }
      }
    }
  }

  /** Sorting yields a sorted permutation of the arguments. */
  lemma {:induction false} SortArgsSorted(a: seq<Arg>)
    ensures SortedArgs(SortArgs(a))
    ensures multiset(SortArgs(a)) == multiset(a)
  {
    if a != [] {
      assert a == [a[0]] + a[1..];
      SortArgsSorted(a[1..]);
      InsertArgSorted(a[0], SortArgs(a[1..]));
    }
  }

  /** Two sorted orderings of the same arguments are the same sequence. */
  lemma {:induction false} SortedUnique(a: seq<Arg>, b: seq<Arg>)
    requires SortedArgs(a) && SortedArgs(b)
    requires multiset(a) == multiset(b)
    ensures a == b
  {
    if a == [] {
      assert |multiset(b)| == 0;
    } else {
      assert |b| == |multiset(b)| == |multiset(a)| == |a|;
      HeadsAgree(a, b);
      TailsAgree(a, b);
      SortedTail(a);
      SortedTail(b);
      SortedUnique(a[1..], b[1..]);
      assert a == [a[0]] + a[1..] && b == [b[0]] + b[1..];
    }
  }

  lemma SortedTail(s: seq<Arg>)
    requires SortedArgs(s) && s != []
    ensures SortedArgs(s[1..])
  {
    var t := s[1..];
    forall i, j | 0 <= i < j < |t| ensures ArgLe(t[i], t[j]) {
      assert t[i] == s[i + 1] && t[j] == s[j + 1];
    }
  }

  lemma TailsAgree(a: seq<Arg>, b: seq<Arg>)
    requires a != [] && b != [] && a[0] == b[0] && multiset(a) == multiset(b)
    ensures multiset(a[1..]) == multiset(b[1..])
  {
    assert a == [a[0]] + a[1..] && b == [b[0]] + b[1..];
    assert multiset(a) == multiset{a[0]} + multiset(a[1..]);
    assert multiset(b) == multiset{a[0]} + multiset(b[1..]);
    forall x ensures multiset(a[1..])[x] == multiset(b[1..])[x] {
      assert multiset(a)[x] == multiset(b)[x];
    }
  }

  lemma HeadsAgree(a: seq<Arg>, b: seq<Arg>)
    requires SortedArgs(a) && SortedArgs(b) && a != [] && b != []
    requires multiset(a) == multiset(b)
    ensures a[0] == b[0]
  {
    if a[0] != b[0] {
      assert a[0] in multiset(b) && b[0] in multiset(a);
      var i :| 0 <= i < |b| && b[i] == a[0];
      var j :| 0 <= j < |a| && a[j] == b[0];
      assert ArgLe(b[0], b[i]);
      assert ArgLe(a[0], a[j]);
      ArgLeAntisymmetric(a[0], b[0]);
    }
  }

  /** The storage key does not depend on the order the arguments are written in. */
  lemma StorageKeyIgnoresArgOrder(f: Selection, g: Selection)
    requires f.Field? && g.Field? && f.name == g.name
    ensures KeyOf(f) == KeyOf(g) <==> multiset(f.args) == multiset(g.args)
  {
    SortArgsSorted(f.args);
    SortArgsSorted(g.args);
    if multiset(f.args) == multiset(g.args) {
      SortedUnique(SortArgs(f.args), SortArgs(g.args));
    }
  }

  // ---------------------------------------------------------------------------
  // Call-filter signature of a connection

  /** The argument names that only page through a connection. */
  const PaginationArgs: set<string> := {"first", "last"}

  function FilterArgs(a: seq<Arg>, pagination: set<string>): seq<Arg> {
    if a == [] then []
    else (if a[0].name in pagination then [] else [a[0]]) + FilterArgs(a[1..], pagination)
  }

  /** Filtering keeps every non-pagination argument as often as it occurs. */
  lemma {:induction false} FilterArgsCounts(a: seq<Arg>, pagination: set<string>)
    ensures forall x: Arg :: multiset(FilterArgs(a, pagination))[x] == if x.name in pagination then 0 else multiset(a)[x]
  {
    if a != [] {
      assert a == [a[0]] + a[1..];
      FilterArgsCounts(a[1..], pagination);
    }
  }

  function ShowArgs(a: seq<Arg>): string {
    if a == [] then ""
    else a[0].name + "(" + a[0].value + ")" + (if |a| == 1 then "" else "." + ShowArgs(a[1..]))
  }

  /** The key a range-behaviour table is looked up with: the non-pagination
      arguments, sorted, each written `name(value)`, joined with dots. */
  function CallFilterKey(a: seq<Arg>, pagination: set<string>): string {
    ShowArgs(SortArgs(FilterArgs(a, pagination)))
  }

  /** The signature ignores argument order and pagination arguments. */
  lemma CallFilterKeyCanonical(a: seq<Arg>, b: seq<Arg>, pagination: set<string>)
    requires forall x: Arg :: x.name !in pagination ==> multiset(a)[x] == multiset(b)[x]
    ensures CallFilterKey(a, pagination) == CallFilterKey(b, pagination)
  {
    var fa, fb := FilterArgs(a, pagination), FilterArgs(b, pagination);
    FilterArgsCounts(a, pagination);
    FilterArgsCounts(b, pagination);
    assert multiset(fa) == multiset(fb);
    SortArgsSorted(fa);
    SortArgsSorted(fb);
    SortedUnique(SortArgs(fa), SortArgs(fb));
  }

  // ---------------------------------------------------------------------------
  // Height, the measure the recursive traversals decrease

  function HeightSeq(ss: seq<Selection>): nat
    decreases ss
  {
    if ss == [] then 0
    else
      var h := 1 + HeightSeq(ss[0].children);
      var r := HeightSeq(ss[1..]);
      if h < r then r else h
  }

  function Height(s: Selection): nat {
    1 + HeightSeq(s.children)
  }

  lemma {:induction false} HeightSeqAppend(a: seq<Selection>, b: seq<Selection>)
    ensures HeightSeq(a + b) == if HeightSeq(a) < HeightSeq(b) then HeightSeq(b) else HeightSeq(a)
  {
    if a != [] {
      assert (a + b)[1..] == a[1..] + b;
      HeightSeqAppend(a[1..], b);
    } else {
      assert a + b == b;
    }
  }

  lemma {:induction false} HeightSeqAt(ss: seq<Selection>, i: int)
    requires 0 <= i < |ss|
    ensures Height(ss[i]) <= HeightSeq(ss)
  {
    if i > 0 {
      HeightSeqAt(ss[1..], i - 1);
    }
  }

  lemma {:induction false} HeightSeqBound(ss: seq<Selection>, h: nat)
    requires forall i :: 0 <= i < |ss| ==> Height(ss[i]) <= h
    ensures HeightSeq(ss) <= h
  {
    if ss != [] {
      HeightSeqBound(ss[1..], h);
    }
  }
}
