/** Mutation-query derivation: from a fat query (every field a mutation may
    change), the selections the client has previously fetched for each entity
    (the tracker) and the mutation's configs, the query that re-fetches
    exactly the data the mutation changed. The first child of the mutation
    root is always `clientMutationId`. */
module RelayMutationQuery {
  import opened Wrappers
  import opened RelayQuery
  import opened FlattenRelayQuery
  import opened IntersectRelayQuery

  // ---------------------------------------------------------------------------
  // Inputs and results

  /** A fat query: a fragment on the mutation's payload type. */
  datatype FatQuery = FatQuery(typ: string, children: seq<Selection>)

  /** The selections previously fetched for an entity ID. */
  type Tracker = string -> seq<Selection>

  /** The IDs a field of the payload refers to: one entity, or a list. */
  datatype IDs = Single(id: string) | Plural(ids: seq<string>)

  /** How a new edge is placed in a connection with a given call filter. */
  datatype RangeBehavior = Append | Prepend | Ignore | Refetch

  /** The field of the payload that echoes a deleted ID: a scalar, or a path
      of fields ending at an entity whose `id` is the deleted one. */
  datatype DeletedIdField = Shallow(name: string) | Path(names: seq<string>)

  /** A mutation config. `Unrecognized` stands for a config whose type is none
      of the five known ones. */
  datatype Config =
    | FieldsChange(fieldIDs: seq<(string, IDs)>)
    | NodeDelete(parentName: string, parentID: string, connectionName: string, deletedIDFieldName: string)
    | RangeDelete(parentName: string, parentID: string, connectionName: string, deletedIDField: DeletedIdField)
    | RangeAdd(optionalParentName: Option<string>, parentID: string, connectionName: string, edgeName: string,
               rangeBehaviors: map<string, RangeBehavior>)
    | RequiredChildren(children: seq<Selection>)
    | Unrecognized(kind: string)

  datatype MutationError = InvalidFieldName(name: string) | UnrecognizedConfig(kind: string, mutationName: string)

  /** The text of the invariant violation each error raises. */
  function Message(e: MutationError): string {
    match e
    case InvalidFieldName(n) => "RelayMutationQuery: Invalid field name on fat query, `" + n + "`."
    case UnrecognizedConfig(k, m) => "RelayMutationQuery: Unrecognized config key `" + k + "` for `" + m + "`."
  }

  /** A fragment on the payload type, with the entity IDs the tracker was
      asked about, in the order it was asked. */
  datatype Built = Built(fragment: Selection, queried: seq<string>)

  /** Selections for the payload, with the IDs the tracker was asked about. */
  datatype Parts = Parts(fields: seq<Selection>, queried: seq<string>)

  /** The mutation query, with the IDs the tracker was asked about. */
  datatype Query = Query(root: Node, queried: seq<string>)

  const IdField: Selection := Field("id", [], "ID", false, [])
  const TypenameField: Selection := Field("__typename", [], "String", false, [])
  const CursorField: Selection := Field("cursor", [], "String", false, [])
  const SourceField: Selection := Field("source", [], "Node", true, [IdField])
  const ClientMutationIdField: Selection := Field("clientMutationId", [], "String", false, [])

  /** The type the new edge field is flattened under. */
  const EdgeType: string := "Edge"

  // ---------------------------------------------------------------------------
  // Looking up the fat query

  /** The first field among `ss` whose storage key is `name`: a field of that
      name without arguments. */
  function FindField(ss: seq<Selection>, name: string): Option<Selection> {
    if ss == [] then None
    else if KeyOf(ss[0]) == FieldKey(name, []) then Some(ss[0])
    else FindField(ss[1..], name)
  }

  /** The field of the fat query named `name`, or the invalid-field error. */
  function FatField(fat: FatQuery, name: string): Result<Selection, MutationError> {
    match FindField(fat.children, name)
    case None => Err(InvalidFieldName(name))
    case Some(f) => Ok(f)
  }

  predicate HasFatField(fat: FatQuery, name: string) {
    exists i :: 0 <= i < |fat.children| && fat.children[i].Field? && fat.children[i].name == name
                && fat.children[i].args == []
  }

  // ---------------------------------------------------------------------------
  // Tracked data

  function IdList(ids: IDs): seq<string> {
    match ids
    case Single(x) => [x]
    case Plural(xs) => xs
  }

  /** The tracked selections of every ID, one ID after the other. */
  function TrackedFor(tracker: Tracker, ids: seq<string>): seq<Selection> {
    if ids == [] then [] else tracker(ids[0]) + TrackedFor(tracker, ids[1..])
  }

  predicate HasIdChild(ss: seq<Selection>) {
    exists i :: 0 <= i < |ss| && ss[i].Field? && ss[i].name == "id"
  }

  /** The field with an `id` child, added last when it has none. */
  function WithId(f: Selection): Selection {
    if HasIdChild(f.children) then f else WithChildren(f, f.children + [IdField])
  }

  /** The fat field `f` cut down to what is tracked, with its `id`; nothing
      when nothing is tracked. */
  function MutatedField(f: Selection, tracked: seq<Selection>, strip: Selection -> bool): seq<Selection> {
    if tracked == [] then [] else [WithId(WithChildren(f, IntersectChildren(tracked, f.children, strip)))]
  }

  /** No connection keeps back its range. */
  function NoStrip(): Selection -> bool {
    (s: Selection) => false
  }

  /** The connections named `name` keep back their range. */
  function ConnectionNamed(name: string): Selection -> bool {
    (s: Selection) => s.Field? && s.name == name
  }

  /** The connections named `name` keep back their range, except those whose
      storage key is to be refetched. */
  function ConnectionNotRefetched(name: string, refetch: seq<Key>): Selection -> bool {
    (s: Selection) => s.Field? && s.name == name && KeyOf(s) !in refetch
  }

  // ---------------------------------------------------------------------------
  // FIELDS_CHANGE

  function FieldsParts(fat: FatQuery, tracker: Tracker, entries: seq<(string, IDs)>): Result<Parts, MutationError> {
    if entries == [] then Ok(Parts([], []))
    else
      var fatField :- FatField(fat, entries[0].0);
      var ids := IdList(entries[0].1);
      var rest :- FieldsParts(fat, tracker, entries[1..]);
      Ok(Parts(MutatedField(fatField, TrackedFor(tracker, ids), NoStrip()) + rest.fields, ids + rest.queried))
  }

  /** `buildFragmentForFields`: for every field name with its IDs, the fat
      field intersected with what is tracked for those IDs. */
  function BuildFragmentForFields(fat: FatQuery, tracker: Tracker, fieldIDs: seq<(string, IDs)>): Result<Built, MutationError> {
    var p :- FieldsParts(fat, tracker, fieldIDs);
    Ok(Built(Fragment(fat.typ, p.fields), p.queried))
  }

  // ---------------------------------------------------------------------------
  // Edge deletion

  /** `buildFragmentForEdgeDeletion`: the parent field intersected with what
      is tracked for the parent, the connection kept only with its metadata. */
  function BuildFragmentForEdgeDeletion(fat: FatQuery, tracker: Tracker, connectionName: string, parentID: string,
                                        parentName: string): Result<Built, MutationError> {
    var parent :- FatField(fat, parentName);
    Ok(Built(Fragment(fat.typ, MutatedField(parent, tracker(parentID), ConnectionNamed(connectionName))), [parentID]))
  }

  // ---------------------------------------------------------------------------
  // Edge insertion

  /** The fields among `fs` named `name`. */
  function FieldsNamed(fs: seq<Selection>, name: string): seq<Selection> {
    if fs == [] then []
    else (if fs[0].Field? && fs[0].name == name then [fs[0]] else []) + FieldsNamed(fs[1..], name)
  }

  /** The `edges` fields of a connection. */
  function Edges(c: Selection): seq<Selection> {
    FieldsNamed(Surface(c.children), "edges")
  }

  /** The key the range-behaviour table is looked up with for a connection. */
  function BehaviorKey(c: Selection): string
    requires c.Field?
  {
    CallFilterKey(c.args, PaginationArgs)
  }

  /** A tracked connection with edges whose call filter has a range behaviour
      other than refetching: the new edge is spliced into it. */
  predicate Spliced(c: Selection, behaviors: map<string, RangeBehavior>) {
    c.Field? && Edges(c) != [] && BehaviorKey(c) in behaviors && behaviors[BehaviorKey(c)] != Refetch
  }

  /** A tracked connection with edges that is not spliced: it is refetched. */
  predicate Refetched(c: Selection, behaviors: map<string, RangeBehavior>) {
    c.Field? && Edges(c) != [] && !Spliced(c, behaviors)
  }

  function ChildrenOf(es: seq<Selection>): seq<Selection> {
    if es == [] then [] else es[0].children + ChildrenOf(es[1..])
  }

  /** The children of the edges of every spliced connection, in order. */
  function SplicedEdgeChildren(conns: seq<Selection>, behaviors: map<string, RangeBehavior>): seq<Selection> {
    if conns == [] then []
    else (if Spliced(conns[0], behaviors) then ChildrenOf(Edges(conns[0])) else []) + SplicedEdgeChildren(conns[1..], behaviors)
  }

  /** The storage keys of the refetched connections. */
  function RefetchKeys(conns: seq<Selection>, behaviors: map<string, RangeBehavior>): seq<Key> {
    if conns == [] then []
    else (if Refetched(conns[0], behaviors) then [KeyOf(conns[0])] else []) + RefetchKeys(conns[1..], behaviors)
  }

  /** Every `node` field gets its `id`. */
  function AddNodeId(ss: seq<Selection>): seq<Selection> {
    if ss == [] then []
    else [if ss[0].Field? && ss[0].name == "node" then WithId(ss[0]) else ss[0]] + AddNodeId(ss[1..])
  }

  /** The new edge field: `__typename`, `cursor`, the tracked edge children
      and `source { id }`, flattened, with `id` on the edge's `node`. */
  function EdgeField(edgeName: string, kids: seq<Selection>): Selection {
    Field(edgeName, [], EdgeType, true,
          AddNodeId(FlattenChildren(DefaultOptions, EdgeType, [TypenameField, CursorField] + kids + [SourceField])))
  }

  /** The parent field of the fat query, when a parent name is given. */
  function ParentField(fat: FatQuery, parentName: Option<string>): Result<Option<Selection>, MutationError> {
    match parentName
    case None => Ok(None)
    case Some(n) =>
      var f :- FatField(fat, n);
      Ok(Some(f))
  }

  /** `buildFragmentForEdgeInsertion`: when the parent has tracked connections
      named `connectionName`, the parent field (when named) intersected with
      what is tracked for it, with spliced connections kept only with their
      metadata and refetched ones in full; then the new edge field, carrying
      the edge children of every spliced connection. */
  function BuildFragmentForEdgeInsertion(fat: FatQuery, tracker: Tracker, connectionName: string, parentID: string,
                                         edgeName: string, parentName: Option<string>,
                                         rangeBehaviors: map<string, RangeBehavior>): Result<Built, MutationError> {
    var _ :- ParentField(fat, parentName);
    var conns := FieldsNamed(Surface(tracker(parentID)), connectionName);
    if conns == [] then Ok(Built(Fragment(fat.typ, []), [parentID]))
    else
      var edgeKids := SplicedEdgeChildren(conns, rangeBehaviors);
      var edgePart := if edgeKids == [] then [] else [EdgeField(edgeName, edgeKids)];
      Ok(Built(Fragment(fat.typ, InsertionParent(fat, tracker, connectionName, parentID, parentName, rangeBehaviors) + edgePart),
               [parentID]))
  }

  /** The parent part of edge insertion: the parent field cut down to what is
      tracked, refetched connections in full, the others without range. */
  function InsertionParent(fat: FatQuery, tracker: Tracker, connectionName: string, parentID: string,
                           parentName: Option<string>, behaviors: map<string, RangeBehavior>): seq<Selection>
  {
    var conns := FieldsNamed(Surface(tracker(parentID)), connectionName);
    match parentName
    case None => []
    case Some(n) =>
      match FindField(fat.children, n)
      case None => []
      case Some(p) => MutatedField(p, tracker(parentID), ConnectionNotRefetched(connectionName, RefetchKeys(conns, behaviors)))
  }

  // ---------------------------------------------------------------------------
  // The mutation query

  /** `formerFriend { id }` for the path `["formerFriend"]`. */
  function IdChain(p: seq<string>): Selection {
    if p == [] then IdField else Field(p[0], [], "Node", true, [IdChain(p[1..])])
  }

  function DeletedIdSelection(d: DeletedIdField): Selection {
    match d
    case Shallow(n) => Field(n, [], "ID", false, [])
    case Path(p) => IdChain(p)
  }

  /** What one config adds to the payload. */
  function ConfigParts(fat: FatQuery, tracker: Tracker, mutationName: string, c: Config): Result<Parts, MutationError> {
    match c
    case FieldsChange(entries) =>
      var b :- BuildFragmentForFields(fat, tracker, entries);
      Ok(Parts([b.fragment], b.queried))
    case NodeDelete(parentName, parentID, connectionName, deleted) =>
      var b :- BuildFragmentForEdgeDeletion(fat, tracker, connectionName, parentID, parentName);
      Ok(Parts([Field(deleted, [], "ID", false, []), b.fragment], b.queried))
    case RangeDelete(parentName, parentID, connectionName, deleted) =>
      var b :- BuildFragmentForEdgeDeletion(fat, tracker, connectionName, parentID, parentName);
      Ok(Parts([DeletedIdSelection(deleted), b.fragment], b.queried))
    case RangeAdd(parentName, parentID, connectionName, edgeName, behaviors) =>
      var b :- BuildFragmentForEdgeInsertion(fat, tracker, connectionName, parentID, edgeName, parentName, behaviors);
      Ok(Parts([b.fragment], b.queried))
    case RequiredChildren(children) => Ok(Parts(children, []))
    case Unrecognized(kind) => Err(UnrecognizedConfig(kind, mutationName))
  }

  /** What the configs add, one after the other; the first error wins. */
  function ConfigsParts(fat: FatQuery, tracker: Tracker, mutationName: string, configs: seq<Config>): Result<Parts, MutationError> {
    if configs == [] then Ok(Parts([], []))
    else
      var first :- ConfigParts(fat, tracker, mutationName, configs[0]);
      var rest :- ConfigsParts(fat, tracker, mutationName, configs[1..]);
      Ok(Parts(first.fields + rest.fields, first.queried + rest.queried))
  }

  /** `buildQuery`: the mutation root field, called with `input: $input`,
      selecting `clientMutationId` and then what each config adds. */
  function BuildQuery(fat: FatQuery, tracker: Tracker, configs: seq<Config>, mutationName: string,
                      rootField: string): Result<Query, MutationError> {
    var p :- ConfigsParts(fat, tracker, mutationName, configs);
    Ok(Query(Root(rootField, [Arg("input", "$input")], fat.typ, [ClientMutationIdField] + p.fields), p.queried))
  }

  // ---------------------------------------------------------------------------
  // Looking up the fat query: properties

  /** The storage key of a field is its bare name exactly when it has no
      arguments. */
  lemma SortArgsEmpty(a: seq<Arg>)
    ensures SortArgs(a) == [] <==> a == []
  {
    SortArgsSorted(a);
    assert |SortArgs(a)| == |multiset(SortArgs(a))| == |multiset(a)| == |a|;
  }

  /** `FindField` finds a field of the name without arguments exactly when
      there is one, and what it finds is one. */
  lemma {:induction false} FindFieldSpec(ss: seq<Selection>, name: string)
    ensures FindField(ss, name).Some? <==>
      exists i :: 0 <= i < |ss| && ss[i].Field? && ss[i].name == name && ss[i].args == []
    ensures FindField(ss, name).Some? ==>
      var f := FindField(ss, name).value; f in ss && f.Field? && f.name == name && f.args == []
  {
    if ss != [] {
      if ss[0].Field? { SortArgsEmpty(ss[0].args); }
      FindFieldSpec(ss[1..], name);
      if exists i :: 0 <= i < |ss| && ss[i].Field? && ss[i].name == name && ss[i].args == [] {
        var i :| 0 <= i < |ss| && ss[i].Field? && ss[i].name == name && ss[i].args == [];
        if i > 0 { assert ss[1..][i - 1] == ss[i]; }
      }
    }
  }

  /** Looking up a field of the fat query fails exactly when the fat query has
      no field of that name, with the invalid-field error naming it. */
  lemma FatFieldSpec(fat: FatQuery, name: string)
    ensures FatField(fat, name).Ok? <==> HasFatField(fat, name)
    ensures FatField(fat, name).Ok? ==>
      var f := FatField(fat, name).value; f in fat.children && f.Field? && f.name == name && f.args == []
    ensures FatField(fat, name).Err? ==>
      FatField(fat, name).error == InvalidFieldName(name)
      && Message(FatField(fat, name).error) == "RelayMutationQuery: Invalid field name on fat query, `" + name + "`."
  {
    FindFieldSpec(fat.children, name);
  }

  // ---------------------------------------------------------------------------
  // Tracked data: properties

  /** Adding `id` keeps the field, its key and its children, and leaves it with
      an `id` child and nothing else new. */
  lemma WithIdSpec(f: Selection)
    ensures HasIdChild(WithId(f).children)
    ensures WithId(f) == WithChildren(f, WithId(f).children)
    ensures WithId(f).children == f.children || WithId(f).children == f.children + [IdField]
    ensures f.Field? && HasIdChild(f.children) ==> WithId(f) == f
  {
    if !HasIdChild(f.children) {
      var ks := f.children + [IdField];
      assert ks[|ks| - 1] == IdField;
    }
  }

  /** The fields visible in a mutated field are those of the intersection,
      and possibly the added `id`. */
  lemma MutatedFieldSurface(f: Selection, tracked: seq<Selection>, strip: Selection -> bool)
    ensures |MutatedField(f, tracked, strip)| == if tracked == [] then 0 else 1
    ensures forall c :: c in MutatedField(f, tracked, strip) ==>
      var inter := IntersectChildren(tracked, f.children, strip);
      && c == WithChildren(f, c.children)
      && HasIdChild(c.children)
      && (forall g :: g in Surface(inter) ==> g in Surface(c.children))
      && (forall g :: g in Surface(c.children) ==> g in Surface(inter) || g == IdField)
  {
    if tracked != [] {
      var inter := IntersectChildren(tracked, f.children, strip);
      var m := WithChildren(f, inter);
      WithIdSpec(m);
      SurfaceAppend(inter, [IdField]);
      assert Surface([IdField]) == [IdField] by {
        assert [IdField][1..] == [];
      }
    }
  }

  /** The IDs of every entry, one entry after the other. */
  function AllIds(entries: seq<(string, IDs)>): seq<string> {
    if entries == [] then [] else IdList(entries[0].1) + AllIds(entries[1..])
  }

  /** The first entry whose field the fat query lacks. */
  predicate FirstMissing(fat: FatQuery, entries: seq<(string, IDs)>, j: int) {
    && 0 <= j < |entries| && !HasFatField(fat, entries[j].0)
    && forall k :: 0 <= k < j ==> HasFatField(fat, entries[k].0)
  }

  /** The mutated field of one entry, when its field exists. */
  predicate FieldOfEntry(fat: FatQuery, tracker: Tracker, e: (string, IDs), c: Selection) {
    && FindField(fat.children, e.0).Some?
    && c in MutatedField(FindField(fat.children, e.0).value, TrackedFor(tracker, IdList(e.1)), NoStrip())
  }

  /** `buildFragmentForFields` fails exactly when some named field is missing
      from the fat query, naming the first one; otherwise it asks the tracker
      about every ID once, in the order given, and yields, for each entry
      whose IDs have tracked data, the fat field cut down to that data. */
  lemma FieldsPartsSpec(fat: FatQuery, tracker: Tracker, entries: seq<(string, IDs)>)
    ensures FieldsParts(fat, tracker, entries).Err? <==> exists i :: 0 <= i < |entries| && !HasFatField(fat, entries[i].0)
    ensures FieldsParts(fat, tracker, entries).Err? ==>
      exists j :: FirstMissing(fat, entries, j) && FieldsParts(fat, tracker, entries).error == InvalidFieldName(entries[j].0)
    ensures FieldsParts(fat, tracker, entries).Ok? ==>
      var p := FieldsParts(fat, tracker, entries).value;
      && p.queried == AllIds(entries)
      && forall c :: c in p.fields <==> exists i :: 0 <= i < |entries| && FieldOfEntry(fat, tracker, entries[i], c)
  {
    FieldsPartsErr(fat, tracker, entries);
    if FieldsParts(fat, tracker, entries).Ok? {
      FieldsPartsOk(fat, tracker, entries);
    }
  }

  /** The error half of `FieldsPartsSpec`. */
  lemma {:induction false} FieldsPartsErr(fat: FatQuery, tracker: Tracker, entries: seq<(string, IDs)>)
    ensures FieldsParts(fat, tracker, entries).Err? <==> exists i :: 0 <= i < |entries| && !HasFatField(fat, entries[i].0)
    ensures FieldsParts(fat, tracker, entries).Err? ==>
      exists j :: FirstMissing(fat, entries, j) && FieldsParts(fat, tracker, entries).error == InvalidFieldName(entries[j].0)
  {
    if entries != [] {
      var e := entries[0];
      FatFieldSpec(fat, e.0);
      FieldsPartsErr(fat, tracker, entries[1..]);
      var rest := FieldsParts(fat, tracker, entries[1..]);
      forall i | 1 <= i < |entries| ensures entries[i] == entries[1..][i - 1] { }
      if FatField(fat, e.0).Err? {
        assert FirstMissing(fat, entries, 0);
      } else if rest.Err? {
        var j :| FirstMissing(fat, entries[1..], j) && rest.error == InvalidFieldName(entries[1..][j].0);
        assert FirstMissing(fat, entries, j + 1);
      } else {
        forall i | 0 <= i < |entries| ensures HasFatField(fat, entries[i].0) {
          if i > 0 { assert !(!HasFatField(fat, entries[1..][i - 1].0)); }
        }
      }
    }
  }

  /** The success half of `FieldsPartsSpec`. */
  lemma {:induction false} FieldsPartsOk(fat: FatQuery, tracker: Tracker, entries: seq<(string, IDs)>)
    requires FieldsParts(fat, tracker, entries).Ok?
    ensures var p := FieldsParts(fat, tracker, entries).value;
      && p.queried == AllIds(entries)
      && forall c :: c in p.fields <==> exists i :: 0 <= i < |entries| && FieldOfEntry(fat, tracker, entries[i], c)
  {
    if entries != [] {
      var e := entries[0];
      FatFieldSpec(fat, e.0);
      FieldsPartsOk(fat, tracker, entries[1..]);
      var rest := FieldsParts(fat, tracker, entries[1..]);
      var p := FieldsParts(fat, tracker, entries).value;
      forall c ensures c in p.fields <==> exists i :: 0 <= i < |entries| && FieldOfEntry(fat, tracker, entries[i], c) {
        if exists i :: 0 <= i < |entries| && FieldOfEntry(fat, tracker, entries[i], c) {
          var i :| 0 <= i < |entries| && FieldOfEntry(fat, tracker, entries[i], c);
          if i > 0 { assert FieldOfEntry(fat, tracker, entries[1..][i - 1], c); }
        }
        if c in rest.value.fields {
          var i :| 0 <= i < |entries[1..]| && FieldOfEntry(fat, tracker, entries[1..][i], c);
          assert FieldOfEntry(fat, tracker, entries[i + 1], c);
        }
      }
    }
  }

  /** `c` is the fat field `f` cut down to the tracked selections `tracked`
      with its `id`: every field visible under it is `id` or a tracked field,
      possibly with fewer children, of a name `f` has. */
  predicate CutDown(f: Selection, tracked: seq<Selection>, c: Selection) {
    && c == WithChildren(f, c.children)
    && HasIdChild(c.children)
    && forall g :: g in Surface(c.children) ==>
         g == IdField
         || (&& g.Field? && PatternField(f.children, g.name).Some?
             && exists h :: h in Surface(tracked) && g == WithChildren(h, g.children))
  }

  lemma MutatedFieldCutDown(f: Selection, tracked: seq<Selection>, strip: Selection -> bool)
    ensures forall c :: c in MutatedField(f, tracked, strip) ==> CutDown(f, tracked, c)
  {
    MutatedFieldSurface(f, tracked, strip);
    IntersectNothingInvented(tracked, f.children, strip);
  }

  /** FIELDS_CHANGE requests nothing new: each field it requests is the fat
      field of some entry cut down to what is tracked for that entry's IDs. */
  lemma FieldsChangeNothingInvented(fat: FatQuery, tracker: Tracker, entries: seq<(string, IDs)>)
    requires BuildFragmentForFields(fat, tracker, entries).Ok?
    ensures var b := BuildFragmentForFields(fat, tracker, entries).value;
      && b.fragment == Fragment(fat.typ, b.fragment.children)
      && b.queried == AllIds(entries)
      && forall c :: c in b.fragment.children ==>
           exists i :: 0 <= i < |entries| && FindField(fat.children, entries[i].0).Some?
             && CutDown(FindField(fat.children, entries[i].0).value, TrackedFor(tracker, IdList(entries[i].1)), c)
  {
    FieldsPartsSpec(fat, tracker, entries);
    var b := BuildFragmentForFields(fat, tracker, entries).value;
    forall c | c in b.fragment.children
      ensures exists i :: (0 <= i < |entries| && FindField(fat.children, entries[i].0).Some?
             && CutDown(FindField(fat.children, entries[i].0).value, TrackedFor(tracker, IdList(entries[i].1)), c))
    {
      var i :| 0 <= i < |entries| && FieldOfEntry(fat, tracker, entries[i], c);
      MutatedFieldCutDown(FindField(fat.children, entries[i].0).value, TrackedFor(tracker, IdList(entries[i].1)), NoStrip());
    }
  }

  /** FIELDS_CHANGE keeps every tracked field that the fat field names without
      sub-selections. */
  lemma FieldsChangeKeepsTracked(fat: FatQuery, tracker: Tracker, entries: seq<(string, IDs)>, i: int, g: Selection)
    requires BuildFragmentForFields(fat, tracker, entries).Ok?
    requires 0 <= i < |entries| && FindField(fat.children, entries[i].0).Some?
    requires g in Surface(TrackedFor(tracker, IdList(entries[i].1))) && g.Field?
    requires var f := FindField(fat.children, entries[i].0).value;
      PatternField(f.children, g.name).Some? && PatternField(f.children, g.name).value.children == []
    ensures exists c :: c in BuildFragmentForFields(fat, tracker, entries).value.fragment.children && g in Surface(c.children)
  {
    FieldsPartsSpec(fat, tracker, entries);
    var f := FindField(fat.children, entries[i].0).value;
    var t := TrackedFor(tracker, IdList(entries[i].1));
    assert t != [];
    KeepsUnterminated(t, f.children, NoStrip(), g);
    MutatedFieldSurface(f, t, NoStrip());
    var c := MutatedField(f, t, NoStrip())[0];
    assert FieldOfEntry(fat, tracker, entries[i], c);
  }

  // ---------------------------------------------------------------------------
  // Edge deletion: properties

  /** Under a mutated field, a connection that `strip` marks and that the fat
      field names without sub-selections shows no `edges` and no `pageInfo`. */
  lemma MutatedFieldStrips(f: Selection, tracked: seq<Selection>, strip: Selection -> bool)
    ensures forall c, g :: c in MutatedField(f, tracked, strip) && g in Surface(c.children) && g.Field? && strip(g)
                           && PatternField(f.children, g.name).Some? && PatternField(f.children, g.name).value.children == []
                           ==> forall h :: h in Surface(g.children) ==> h.Field? && h.name !in RangeFields
  {
    MutatedFieldSurface(f, tracked, strip);
    var inter := IntersectChildren(tracked, f.children, strip);
    forall c, g | c in MutatedField(f, tracked, strip) && g in Surface(c.children) && g.Field? && strip(g)
                  && PatternField(f.children, g.name).Some? && PatternField(f.children, g.name).value.children == []
      ensures forall h :: h in Surface(g.children) ==> h.Field? && h.name !in RangeFields
    {
      if g in Surface(inter) {
        StripsRange(tracked, f.children, strip, g);
      } else {
        assert g == IdField;
        assert Surface(IdField.children) == [];
      }
    }
  }

  /** Under a mutated field, a tracked connection that `strip` marks, and
      that the fat field names without sub-selections, is requested with all
      of its metadata when it has any. */
  lemma MutatedFieldKeepsMetadata(f: Selection, tracked: seq<Selection>, strip: Selection -> bool, g: Selection)
    requires g in Surface(tracked) && g.Field? && strip(g) && NonRange(g.children) != []
    requires PatternField(f.children, g.name).Some? && PatternField(f.children, g.name).value.children == []
    ensures exists c :: c in MutatedField(f, tracked, strip)
                        && WithChildren(g, NonRange(g.children)) in Surface(c.children)
  {
    KeepsMetadata(tracked, f.children, strip, g);
    assert tracked != [];
    MutatedFieldSurface(f, tracked, strip);
    assert MutatedField(f, tracked, strip)[0] in MutatedField(f, tracked, strip);
  }

  /** Edge deletion fails exactly when the parent field is missing from the
      fat query. Otherwise it asks the tracker about the parent once and
      requests, when the parent has tracked data, the parent field cut down to
      it, in which the connection carries only its metadata. */
  lemma EdgeDeletionSpec(fat: FatQuery, tracker: Tracker, connectionName: string, parentID: string, parentName: string)
    ensures var r := BuildFragmentForEdgeDeletion(fat, tracker, connectionName, parentID, parentName);
      && (r.Err? <==> !HasFatField(fat, parentName))
      && (r.Err? ==> r.error == InvalidFieldName(parentName))
      && (r.Ok? ==>
            var p := FindField(fat.children, parentName).value;
            && r.value.queried == [parentID]
            && r.value.fragment == Fragment(fat.typ, r.value.fragment.children)
            && |r.value.fragment.children| == (if tracker(parentID) == [] then 0 else 1)
            && forall c :: c in r.value.fragment.children ==>
                 && CutDown(p, tracker(parentID), c)
                 && (PatternField(p.children, connectionName).Some? && PatternField(p.children, connectionName).value.children == [] ==>
                       forall g, h :: g in Surface(c.children) && g.Field? && g.name == connectionName && h in Surface(g.children)
                                      ==> h.Field? && h.name !in RangeFields))
  {
    FatFieldSpec(fat, parentName);
    FindFieldSpec(fat.children, parentName);
    if HasFatField(fat, parentName) {
      var p := FindField(fat.children, parentName).value;
      var strip := ConnectionNamed(connectionName);
      MutatedFieldSurface(p, tracker(parentID), strip);
      MutatedFieldCutDown(p, tracker(parentID), strip);
      MutatedFieldStrips(p, tracker(parentID), strip);
    }
  }

  /** Edge deletion requests a tracked connection under the parent with all
      of its metadata (everything but `edges` and `pageInfo`), when it has
      any and the fat parent names it without sub-selections. */
  lemma DeletionKeepsMetadata(fat: FatQuery, tracker: Tracker, connectionName: string, parentID: string,
                              parentName: string, c: Selection)
    requires FatField(fat, parentName).Ok?
    requires c in Surface(tracker(parentID)) && c.Field? && c.name == connectionName && NonRange(c.children) != []
    requires var p := FatField(fat, parentName).value;
      PatternField(p.children, connectionName).Some? && PatternField(p.children, connectionName).value.children == []
    ensures var r := BuildFragmentForEdgeDeletion(fat, tracker, connectionName, parentID, parentName);
      r.Ok? && exists f :: f in r.value.fragment.children && f.Field? && f.name == parentName
                           && WithChildren(c, NonRange(c.children)) in Surface(f.children)
  {
    FatFieldSpec(fat, parentName);
    var p := FatField(fat, parentName).value;
    var strip := ConnectionNamed(connectionName);
    assert strip(c);
    MutatedFieldKeepsMetadata(p, tracker(parentID), strip, c);
    MutatedFieldSurface(p, tracker(parentID), strip);
  }

  // ---------------------------------------------------------------------------
  // Edge insertion: properties

  lemma {:induction false} FieldsNamedSpec(fs: seq<Selection>, name: string)
    ensures forall c :: c in FieldsNamed(fs, name) <==> c in fs && c.Field? && c.name == name
  {
    if fs != [] {
      FieldsNamedSpec(fs[1..], name);
      assert fs == [fs[0]] + fs[1..];
    }
  }

  lemma {:induction false} ChildrenOfSpec(es: seq<Selection>)
    ensures forall x :: x in ChildrenOf(es) <==> exists e :: e in es && x in e.children
  {
    if es != [] {
      ChildrenOfSpec(es[1..]);
      assert es == [es[0]] + es[1..];
    }
  }

  /** The new edge carries the edge children of exactly the connections a new
      edge is spliced into: a connection whose call filter is refetched, or
      has no range behaviour, contributes nothing. */
  lemma {:induction false} SplicedEdgeChildrenSpec(conns: seq<Selection>, behaviors: map<string, RangeBehavior>)
    ensures forall x :: x in SplicedEdgeChildren(conns, behaviors) <==>
      exists c, e :: c in conns && Spliced(c, behaviors) && e in Edges(c) && x in e.children
  {
    if conns != [] {
      SplicedEdgeChildrenSpec(conns[1..], behaviors);
      ChildrenOfSpec(Edges(conns[0]));
      assert conns == [conns[0]] + conns[1..];
    }
  }

  /** A storage key is refetched exactly when some tracked connection with
      that key has edges but no usable range behaviour. */
  lemma {:induction false} RefetchKeysSpec(conns: seq<Selection>, behaviors: map<string, RangeBehavior>)
    ensures forall k :: k in RefetchKeys(conns, behaviors) <==> exists c :: c in conns && Refetched(c, behaviors) && KeyOf(c) == k
  {
    if conns != [] {
      RefetchKeysSpec(conns[1..], behaviors);
      assert conns == [conns[0]] + conns[1..];
    }
  }


  /** Edge insertion fails exactly when a parent name is given that the fat
      query lacks. Otherwise it asks the tracker about the parent once; when
      the parent has a tracked connection of the name, it requests the parent
      part and then, when some spliced connection has edge children, the new
      edge field built from them; nothing otherwise. */
  lemma EdgeInsertionSpec(fat: FatQuery, tracker: Tracker, connectionName: string, parentID: string,
                          edgeName: string, parentName: Option<string>, behaviors: map<string, RangeBehavior>)
    ensures var r := BuildFragmentForEdgeInsertion(fat, tracker, connectionName, parentID, edgeName, parentName, behaviors);
      && (r.Err? <==> parentName.Some? && !HasFatField(fat, parentName.value))
      && (r.Err? ==> r.error == InvalidFieldName(parentName.value))
      && (r.Ok? ==>
            var conns := FieldsNamed(Surface(tracker(parentID)), connectionName);
            var kids := SplicedEdgeChildren(conns, behaviors);
            && r.value.queried == [parentID]
            && r.value.fragment.Fragment? && r.value.fragment.typeCondition == fat.typ
            && (conns == [] ==> r.value.fragment.children == [])
            && (conns != [] ==>
                  r.value.fragment.children ==
                    InsertionParent(fat, tracker, connectionName, parentID, parentName, behaviors)
                    + (if kids == [] then [] else [EdgeField(edgeName, kids)])))
  {
    if parentName.Some? {
      FatFieldSpec(fat, parentName.value);
    }
  }

  /** A tracked connection with edges but no usable range behaviour is
      refetched whole under the parent. */
  lemma InsertionRefetchesInFull(fat: FatQuery, tracker: Tracker, connectionName: string, parentID: string,
                                 edgeName: string, parentName: string, behaviors: map<string, RangeBehavior>, c: Selection)
    requires FatField(fat, parentName).Ok?
    requires c in Surface(tracker(parentID)) && c.Field? && c.name == connectionName && Refetched(c, behaviors)
    requires var p := FatField(fat, parentName).value;
      PatternField(p.children, connectionName).Some? && PatternField(p.children, connectionName).value.children == []
    ensures var r := BuildFragmentForEdgeInsertion(fat, tracker, connectionName, parentID, edgeName, Some(parentName), behaviors);
      r.Ok? && exists f :: f in r.value.fragment.children && f.Field? && f.name == parentName && c in Surface(f.children)
  {
    EdgeInsertionSpec(fat, tracker, connectionName, parentID, edgeName, Some(parentName), behaviors);
    FindFieldSpec(fat.children, parentName);
    FatFieldSpec(fat, parentName);
    var tracked := tracker(parentID);
    var conns := FieldsNamed(Surface(tracked), connectionName);
    FieldsNamedSpec(Surface(tracked), connectionName);
    assert c in conns;
    RefetchKeysSpec(conns, behaviors);
    var refetch := RefetchKeys(conns, behaviors);
    assert KeyOf(c) in refetch;
    var p := FatField(fat, parentName).value;
    var strip := ConnectionNotRefetched(connectionName, refetch);
    assert !strip(c);
    KeepsUnterminated(tracked, p.children, strip, c);
    assert tracked != [];
    MutatedFieldSurface(p, tracked, strip);
    var f := MutatedField(p, tracked, strip)[0];
    var r := BuildFragmentForEdgeInsertion(fat, tracker, connectionName, parentID, edgeName, Some(parentName), behaviors);
    assert f in r.value.fragment.children;
    assert f.Field? && f.name == parentName;
  }

  /** A tracked connection that is not refetched appears under the parent
      only with its metadata, when the fat parent names it without
      sub-selections. */
  lemma InsertionKeepsMetadataOnly(fat: FatQuery, tracker: Tracker, connectionName: string, parentID: string,
                                   parentName: string, behaviors: map<string, RangeBehavior>)
    requires FatField(fat, parentName).Ok?
    ensures var p := FatField(fat, parentName).value;
      var refetch := RefetchKeys(FieldsNamed(Surface(tracker(parentID)), connectionName), behaviors);
      PatternField(p.children, connectionName).Some? && PatternField(p.children, connectionName).value.children == [] ==>
        forall f, g, h :: f in InsertionParent(fat, tracker, connectionName, parentID, Some(parentName), behaviors)
                          && g in Surface(f.children) && g.Field? && g.name == connectionName && KeyOf(g) !in refetch
                          && h in Surface(g.children)
                          ==> h.Field? && h.name !in RangeFields
  {
    FindFieldSpec(fat.children, parentName);
    var p := FatField(fat, parentName).value;
    var refetch := RefetchKeys(FieldsNamed(Surface(tracker(parentID)), connectionName), behaviors);
    MutatedFieldStrips(p, tracker(parentID), ConnectionNotRefetched(connectionName, refetch));
  }

  /** A tracked connection that is not refetched is requested under the
      parent with all of its metadata (everything but `edges` and
      `pageInfo`), when it has any and the fat parent names it without
      sub-selections. */
  lemma InsertionKeepsMetadata(fat: FatQuery, tracker: Tracker, connectionName: string, parentID: string,
                               edgeName: string, parentName: string, behaviors: map<string, RangeBehavior>, c: Selection)
    requires FatField(fat, parentName).Ok?
    requires c in Surface(tracker(parentID)) && c.Field? && c.name == connectionName && NonRange(c.children) != []
    requires KeyOf(c) !in RefetchKeys(FieldsNamed(Surface(tracker(parentID)), connectionName), behaviors)
    requires var p := FatField(fat, parentName).value;
      PatternField(p.children, connectionName).Some? && PatternField(p.children, connectionName).value.children == []
    ensures var r := BuildFragmentForEdgeInsertion(fat, tracker, connectionName, parentID, edgeName, Some(parentName), behaviors);
      r.Ok? && exists f :: f in r.value.fragment.children && f.Field? && f.name == parentName
                           && WithChildren(c, NonRange(c.children)) in Surface(f.children)
  {
    EdgeInsertionSpec(fat, tracker, connectionName, parentID, edgeName, Some(parentName), behaviors);
    FindFieldSpec(fat.children, parentName);
    FatFieldSpec(fat, parentName);
    var conns := FieldsNamed(Surface(tracker(parentID)), connectionName);
    FieldsNamedSpec(Surface(tracker(parentID)), connectionName);
    assert c in conns;
    var p := FatField(fat, parentName).value;
    var strip := ConnectionNotRefetched(connectionName, RefetchKeys(conns, behaviors));
    assert strip(c);
    MutatedFieldKeepsMetadata(p, tracker(parentID), strip, c);
    MutatedFieldSurface(p, tracker(parentID), strip);
  }

  // ---------------------------------------------------------------------------
  // The new edge field: properties

  lemma {:induction false} AddNodeIdSpec(ss: seq<Selection>)
    ensures |AddNodeId(ss)| == |ss|
    ensures forall i :: 0 <= i < |ss| ==>
      AddNodeId(ss)[i] == if ss[i].Field? && ss[i].name == "node" then WithId(ss[i]) else ss[i]
  {
    if ss != [] {
      AddNodeIdSpec(ss[1..]);
    }
  }

  /** Adding `id` to `node` fields keeps every storage key, and every
      selection that is not a `node` field. */
  lemma AddNodeIdKeeps(ss: seq<Selection>)
    ensures |AddNodeId(ss)| == |ss|
    ensures forall i :: 0 <= i < |ss| ==> KeyOf(AddNodeId(ss)[i]) == KeyOf(ss[i])
    ensures forall i :: 0 <= i < |ss| && !(ss[i].Field? && ss[i].name == "node") ==> AddNodeId(ss)[i] == ss[i]
    ensures forall o :: o in AddNodeId(ss) && o.Field? && o.name == "node" ==> HasIdChild(o.children)
    ensures DistinctKeys(ss) ==> DistinctKeys(AddNodeId(ss))
  {
    AddNodeIdSpec(ss);
    var out := AddNodeId(ss);
    forall i | 0 <= i < |ss| ensures KeyOf(out[i]) == KeyOf(ss[i]) {
      WithIdSpec(ss[i]);
    }
    forall o | o in out && o.Field? && o.name == "node" ensures HasIdChild(o.children) {
      var i :| 0 <= i < |out| && out[i] == o;
      WithIdSpec(ss[i]);
      assert KeyOf(o) == KeyOf(ss[i]);
    }
  }

  /** A scalar that is the first of its key among the expanded selections
      survives flattening, without children. */
  lemma ScalarSurvives(opts: Options, ctx: string, kids: seq<Selection>, x: int)
    requires var items := Expand(opts, ctx, kids);
      0 <= x < |items| && items[x].Field? && !items[x].composite && IndexOfKey(items, KeyOf(items[x])) == x
    ensures var s := Expand(opts, ctx, kids)[x];
      Field(s.name, s.args, s.typ, false, []) in FlattenChildren(opts, ctx, kids)
  {
    var items := Expand(opts, ctx, kids);
    var s := items[x];
    var m := Merged(items, KeyOf(s));
    assert m == WithChildren(s, MergedChildren(items, KeyOf(s)));
    assert FlattenSelection(opts, m) == Some(Field(s.name, s.args, s.typ, false, []));
    FlattenChildrenMerges(opts, ctx, kids);
  }

  /** `cursor`, the second selection and the first with its key, survives
      flattening as it is. */
  lemma EdgeCursor(kids: seq<Selection>)
    ensures CursorField in FlattenChildren(DefaultOptions, EdgeType, [TypenameField, CursorField] + kids + [SourceField])
  {
    var input := [TypenameField, CursorField] + kids + [SourceField];
    var tail := kids + [SourceField];
    var t, c := TypenameField, CursorField;
    assert input == [t] + ([c] + tail);
    ExpandCons(DefaultOptions, EdgeType, t, [c] + tail);
    ExpandCons(DefaultOptions, EdgeType, c, tail);
    var items := Expand(DefaultOptions, EdgeType, input);
    assert items[0] == t && items[1] == c;
    assert KeyOf(t) != KeyOf(c);
    assert IndexOfKey(items, KeyOf(c)) == 1;
    ScalarSurvives(DefaultOptions, EdgeType, input, 1);
  }

  /** A field at the head of a sequence stays at the head when expanding. */
  lemma ExpandCons(opts: Options, ctx: string, f: Selection, rest: seq<Selection>)
    requires f.Field?
    ensures Expand(opts, ctx, [f] + rest) == [f] + Expand(opts, ctx, rest)
  {
    assert ([f] + rest)[1..] == rest;
  }

  /** The new edge field leads with `__typename`, holds `cursor`, has no two
      children with the same storage key, and its `node` carries `id`. */
  lemma EdgeFieldShape(edgeName: string, kids: seq<Selection>)
    ensures var e := EdgeField(edgeName, kids);
      && e.Field? && e.name == edgeName && e.args == [] && e.composite
      && |e.children| > 0 && e.children[0] == TypenameField
      && CursorField in e.children
      && DistinctKeys(e.children)
      && forall o :: o in e.children && o.Field? && o.name == "node" ==> HasIdChild(o.children)
  {
    var input := [TypenameField, CursorField] + kids + [SourceField];
    var out := FlattenChildren(DefaultOptions, EdgeType, input);
    var e := EdgeField(edgeName, kids);
    assert e.children == AddNodeId(out);
    AddNodeIdKeeps(out);
    FirstScalarStaysFirst(DefaultOptions, EdgeType, input);
    FlattenChildrenShape(DefaultOptions, EdgeType, input);
    EdgeCursor(kids);
    var j :| 0 <= j < |out| && out[j] == CursorField;
    assert e.children[j] == CursorField;
  }

  // ---------------------------------------------------------------------------
  // The mutation query: properties

  /** The IDs each config asks the tracker about, one config after the other. */
  function ConfigIds(configs: seq<Config>): seq<string> {
    if configs == [] then []
    else
      var ids :=
        match configs[0]
        case FieldsChange(entries) => AllIds(entries)
        case NodeDelete(_, parentID, _, _) => [parentID]
        case RangeDelete(_, parentID, _, _) => [parentID]
        case RangeAdd(_, parentID, _, _, _) => [parentID]
        case RequiredChildren(_) => []
        case Unrecognized(_) => [];
      ids + ConfigIds(configs[1..])
  }

  /** One config asks the tracker about the IDs it names. */
  lemma ConfigPartsQueried(fat: FatQuery, tracker: Tracker, mutationName: string, c: Config)
    ensures ConfigParts(fat, tracker, mutationName, c).Ok? ==>
      ConfigParts(fat, tracker, mutationName, c).value.queried == ConfigIds([c])
  {
    assert ConfigIds([c]) == ConfigIds([c]) + ConfigIds([]);
    match c
    case FieldsChange(entries) => FieldsPartsSpec(fat, tracker, entries);
    case NodeDelete(pn, pid, cn, d) => EdgeDeletionSpec(fat, tracker, cn, pid, pn);
    case RangeDelete(pn, pid, cn, d) => EdgeDeletionSpec(fat, tracker, cn, pid, pn);
    case RangeAdd(pn, pid, cn, en, b) => EdgeInsertionSpec(fat, tracker, cn, pid, en, pn, b);
    case RequiredChildren(_) =>
    case Unrecognized(_) =>
  }

  lemma {:induction false} ConfigsPartsOk(fat: FatQuery, tracker: Tracker, mutationName: string, configs: seq<Config>)
    ensures ConfigsParts(fat, tracker, mutationName, configs).Ok? <==>
      forall i :: 0 <= i < |configs| ==> ConfigParts(fat, tracker, mutationName, configs[i]).Ok?
  {
    if configs != [] {
      ConfigsPartsOk(fat, tracker, mutationName, configs[1..]);
      forall i | 1 <= i < |configs| ensures configs[i] == configs[1..][i - 1] { }
    }
  }

  lemma {:induction false} ConfigsPartsFirstError(fat: FatQuery, tracker: Tracker, mutationName: string, configs: seq<Config>)
    ensures var r := ConfigsParts(fat, tracker, mutationName, configs);
      r.Err? ==> exists i :: 0 <= i < |configs| && ConfigParts(fat, tracker, mutationName, configs[i]) == Err(r.error)
                             && forall j :: 0 <= j < i ==> ConfigParts(fat, tracker, mutationName, configs[j]).Ok?
  {
    if configs != [] {
      var first := ConfigParts(fat, tracker, mutationName, configs[0]);
      var rest := ConfigsParts(fat, tracker, mutationName, configs[1..]);
      ConfigsPartsFirstError(fat, tracker, mutationName, configs[1..]);
      if first.Ok? && rest.Err? {
        var i :| 0 <= i < |configs[1..]| && ConfigParts(fat, tracker, mutationName, configs[1..][i]) == Err(rest.error)
                 && forall j :: 0 <= j < i ==> ConfigParts(fat, tracker, mutationName, configs[1..][j]).Ok?;
        assert ConfigParts(fat, tracker, mutationName, configs[i + 1]) == Err(rest.error);
        forall j | 0 <= j < i + 1 ensures ConfigParts(fat, tracker, mutationName, configs[j]).Ok? {
          if j > 0 { assert configs[j] == configs[1..][j - 1]; }
        }
      }
    }
  }

  lemma {:induction false} ConfigsPartsQueried(fat: FatQuery, tracker: Tracker, mutationName: string, configs: seq<Config>)
    ensures var r := ConfigsParts(fat, tracker, mutationName, configs);
      r.Ok? ==> r.value.queried == ConfigIds(configs)
  {
    if configs != [] {
      ConfigsPartsQueried(fat, tracker, mutationName, configs[1..]);
      ConfigPartsQueried(fat, tracker, mutationName, configs[0]);
      assert ConfigIds([configs[0]]) == ConfigIds([configs[0]]) + ConfigIds([configs[0]][1..]);
      assert [configs[0]][1..] == [];
    }
  }

  /** Exactly the selections the configs add are in the result. */
  lemma {:induction false} ConfigsPartsFields(fat: FatQuery, tracker: Tracker, mutationName: string, configs: seq<Config>)
    ensures var r := ConfigsParts(fat, tracker, mutationName, configs);
      r.Ok? ==> forall i, x :: 0 <= i < |configs| && ConfigParts(fat, tracker, mutationName, configs[i]).Ok?
                               && x in ConfigParts(fat, tracker, mutationName, configs[i]).value.fields
                               ==> x in r.value.fields
    ensures var r := ConfigsParts(fat, tracker, mutationName, configs);
      r.Ok? ==> forall x :: x in r.value.fields ==>
                  exists i :: 0 <= i < |configs| && ConfigParts(fat, tracker, mutationName, configs[i]).Ok?
                              && x in ConfigParts(fat, tracker, mutationName, configs[i]).value.fields
  {
    ConfigsPartsInto(fat, tracker, mutationName, configs);
    var r := ConfigsParts(fat, tracker, mutationName, configs);
    if r.Ok? {
      forall x | x in r.value.fields
        ensures exists i :: 0 <= i < |configs| && ConfigParts(fat, tracker, mutationName, configs[i]).Ok?
                            && x in ConfigParts(fat, tracker, mutationName, configs[i]).value.fields
      {
        ConfigsPartsFrom(fat, tracker, mutationName, configs, x);
      }
    }
  }

  /** Every selection a config adds is in the result. */
  lemma {:induction false} ConfigsPartsInto(fat: FatQuery, tracker: Tracker, mutationName: string, configs: seq<Config>)
    ensures var r := ConfigsParts(fat, tracker, mutationName, configs);
      r.Ok? ==> forall i, x :: 0 <= i < |configs| && ConfigParts(fat, tracker, mutationName, configs[i]).Ok?
                               && x in ConfigParts(fat, tracker, mutationName, configs[i]).value.fields
                               ==> x in r.value.fields
  {
    if configs != [] {
      ConfigsPartsInto(fat, tracker, mutationName, configs[1..]);
      forall i | 1 <= i < |configs| ensures configs[i] == configs[1..][i - 1] { }
    }
  }

  /** Every selection in the result comes from some config. */
  lemma {:induction false} ConfigsPartsFrom(fat: FatQuery, tracker: Tracker, mutationName: string, configs: seq<Config>, x: Selection)
    requires ConfigsParts(fat, tracker, mutationName, configs).Ok?
    requires x in ConfigsParts(fat, tracker, mutationName, configs).value.fields
    ensures exists i :: 0 <= i < |configs| && ConfigParts(fat, tracker, mutationName, configs[i]).Ok?
                        && x in ConfigParts(fat, tracker, mutationName, configs[i]).value.fields
  {
    var first := ConfigParts(fat, tracker, mutationName, configs[0]);
    var rest := ConfigsParts(fat, tracker, mutationName, configs[1..]);
    assert first.Ok? && rest.Ok?;
    if x !in first.value.fields {
      ConfigsPartsFrom(fat, tracker, mutationName, configs[1..], x);
      var j :| 0 <= j < |configs[1..]| && ConfigParts(fat, tracker, mutationName, configs[1..][j]).Ok?
               && x in ConfigParts(fat, tracker, mutationName, configs[1..][j]).value.fields;
      assert configs[j + 1] == configs[1..][j];
    }
  }

  /** `buildQuery` yields the mutation root field called with `input: $input`
      on the payload type, whose first child is `clientMutationId`, which
      stays first when the query is flattened; it fails exactly when some
      config fails, with the first failing config's error. */
  lemma BuildQuerySpec(fat: FatQuery, tracker: Tracker, configs: seq<Config>, mutationName: string, rootField: string,
                       opts: Options)
    ensures var r := BuildQuery(fat, tracker, configs, mutationName, rootField);
      && (r.Ok? <==> forall i :: 0 <= i < |configs| ==> ConfigParts(fat, tracker, mutationName, configs[i]).Ok?)
      && (r.Err? ==> exists i :: 0 <= i < |configs| && ConfigParts(fat, tracker, mutationName, configs[i]) == Err(r.error)
                                && forall j :: 0 <= j < i ==> ConfigParts(fat, tracker, mutationName, configs[j]).Ok?)
      && (r.Ok? ==>
            var q := r.value.root;
            && r.value.queried == ConfigIds(configs)
            && q.Root? && q.name == rootField && q.args == [Arg("input", "$input")] && q.typ == fat.typ
            && |q.children| > 0 && q.children[0] == ClientMutationIdField
            && Flatten(opts, q).Some? && Flatten(opts, q).value.Root?
            && |Flatten(opts, q).value.children| > 0 && Flatten(opts, q).value.children[0] == ClientMutationIdField)
  {
    ConfigsPartsOk(fat, tracker, mutationName, configs);
    ConfigsPartsFirstError(fat, tracker, mutationName, configs);
    ConfigsPartsQueried(fat, tracker, mutationName, configs);
    var r := BuildQuery(fat, tracker, configs, mutationName, rootField);
    if r.Ok? {
      var q := r.value.root;
      FirstScalarStaysFirst(opts, q.typ, q.children);
    }
  }

  /** An unrecognized config makes `buildQuery` fail and return no query; when
      every config before it is fine, the error names its kind and the
      mutation. */
  lemma UnrecognizedConfigFails(fat: FatQuery, tracker: Tracker, configs: seq<Config>, mutationName: string,
                                rootField: string, i: int)
    requires 0 <= i < |configs| && configs[i].Unrecognized?
    ensures var r := BuildQuery(fat, tracker, configs, mutationName, rootField);
      && r.Err?
      && ((forall j :: 0 <= j < i ==> ConfigParts(fat, tracker, mutationName, configs[j]).Ok?) ==>
            && r.error == UnrecognizedConfig(configs[i].kind, mutationName)
            && Message(r.error) == "RelayMutationQuery: Unrecognized config key `" + configs[i].kind + "` for `" + mutationName + "`.")
  {
    BuildQuerySpec(fat, tracker, configs, mutationName, rootField, DefaultOptions);
    var r := BuildQuery(fat, tracker, configs, mutationName, rootField);
    assert ConfigParts(fat, tracker, mutationName, configs[i]).Err?;
    if forall j :: 0 <= j < i ==> ConfigParts(fat, tracker, mutationName, configs[j]).Ok? {
      var k :| 0 <= k < |configs| && ConfigParts(fat, tracker, mutationName, configs[k]) == Err(r.error)
               && forall j :: 0 <= j < k ==> ConfigParts(fat, tracker, mutationName, configs[j]).Ok?;
      assert k == i;
    }
  }

  /** The subtrees of a REQUIRED_CHILDREN config appear unmodified among the
      children of the mutation root. */
  lemma RequiredChildrenPassthrough(fat: FatQuery, tracker: Tracker, configs: seq<Config>, mutationName: string,
                                    rootField: string, i: int)
    requires 0 <= i < |configs| && configs[i].RequiredChildren?
    requires BuildQuery(fat, tracker, configs, mutationName, rootField).Ok?
    ensures forall c :: c in configs[i].children ==> c in BuildQuery(fat, tracker, configs, mutationName, rootField).value.root.children
  {
    ConfigsPartsFields(fat, tracker, mutationName, configs);
    assert ConfigParts(fat, tracker, mutationName, configs[i]).value.fields == configs[i].children;
  }

  /** `s` is the chain of fields `names`, each without arguments and with
      exactly one child, ending in `id`. */
  predicate Chain(s: Selection, names: seq<string>)
    decreases names
  {
    if names == [] then s == IdField
    else s.Field? && s.name == names[0] && s.args == [] && s.composite && |s.children| == 1
         && Chain(s.children[0], names[1..])
  }

  /** A deleted-ID field given by name is a scalar of that name; one given by
      a path is the chain of those fields, each with one child, ending in
      `id`. */
  lemma {:induction false} DeletedIdSelectionSpec(d: DeletedIdField)
    ensures d.Shallow? ==> DeletedIdSelection(d) == Field(d.name, [], "ID", false, [])
    ensures d.Path? ==> Chain(DeletedIdSelection(d), d.names)
    decreases if d.Path? then |d.names| else 0
  {
    if d.Path? && d.names != [] {
      DeletedIdSelectionSpec(Path(d.names[1..]));
    }
  }
}
