/**
 The worklist test for equality of values refines equality of their JSON forms.

 `Walk` is the recursive account of the same test: whether two values are equal, and how many nodes the
 worklist visits before it knows.
 */
module LangEquality {
  import opened Common
  import opened LangValue

  datatype Visit = Visit(equal: bool, nodes: nat)

  /** Go on with `b` unless `a` already decided. */
  function Then(a: Visit, b: Visit): Visit {
    if a.equal then Visit(b.equal, a.nodes + b.nodes) else a
  }

  function StringView(v: Value): Option<string> {
    match v
    case Str(s) => Some(s)
    case Uri(s) => Some(s)
    case Callable => Some("<function>")
    case _ => None
  }

  predicate OptionalNumberEq(a: Option<Number>, b: Option<Number>) {
    match (a, b)
    case (None, None) => true
    case (Some(x), Some(y)) => NumberEq(x, y)
    case _ => false
  }

  /** Equality of values without children, other than strings. */
  predicate LeavesEqual(l: Value, r: Value) {
    match (l, r)
    case (Null, Null) => true
    case (Null, Decimal(d)) => NumberFromF64(d).None?
    case (Decimal(d), Null) => NumberFromF64(d).None?
    case (Bool(a), Bool(b)) => a == b
    case (Int(a), Int(b)) => a == b
    case (Decimal(a), Decimal(b)) => OptionalNumberEq(NumberFromF64(a), NumberFromF64(b))
    case (Int(a), Decimal(b)) => OptionalNumberEq(Some(NumberFromInt(a)), NumberFromF64(b))
    case (Decimal(b), Int(a)) => OptionalNumberEq(Some(NumberFromInt(a)), NumberFromF64(b))
    case _ => false
  }

  function ExpectedFields(payload: Option<Value>): nat {
    if payload.Some? then 2 else 1
  }

  lemma {:induction false} FieldNodes(fields: seq<Field>, f: Field)
    requires f in fields
    ensures Nodes(ToJson(f.value)) <= NodesOfFields(FieldsToJson(fields))
  {
    if fields[0] != f {
      FieldNodes(fields[1..], f);
    }
  }

  lemma {:induction false} TaggedNodes(name: string, payload: Value)
    ensures Nodes(ToJson(Tagged(name, Some(payload)))) == 2 + Nodes(ToJson(payload))
  {
    var fields := [JField("tag", JString(name)), JField("value", ToJson(payload))];
    assert fields[1..] == [JField("value", ToJson(payload))] && fields[1..][1..] == [];
    assert NodesOfFields(fields) == 1 + NodesOfFields(fields[1..]);
  }

  predicate SameNames(l: seq<Field>, r: seq<Field>)
    requires |l| == |r|
  {
    forall i :: 0 <= i < |l| ==> l[i].name == r[i].name
  }

  ghost function Weight(l: Value, r: Value): nat {
    Nodes(ToJson(l)) + Nodes(ToJson(r))
  }

  function Walk(l: Value, r: Value): (v: Visit)
    ensures v.nodes >= 1
    decreases Weight(l, r), 0
  {
    if StringView(l).Some? && StringView(r).Some? then Visit(StringView(l) == StringView(r), 1)
    else match (l, r)
      case (List(a), List(b)) =>
        if |a| != |b| then Visit(false, 1) else Then(Visit(true, 1), WalkAll(a, b))
      case (Record(a), Record(b)) =>
        if |a| != |b| || !SameNames(a, b) then Visit(false, 1) else Then(Visit(true, 1), WalkFields(a, b))
      case (Tagged(m, p), Tagged(n, q)) =>
        if m != n || p.Some? != q.Some? then Visit(false, 1)
        else if p.None? then Visit(true, 1)
        else
          TaggedNodes(m, p.value);
          TaggedNodes(n, q.value);
          Then(Visit(true, 1), Walk(p.value, q.value))
      case (Tagged(n, p), Record(fields)) => WalkTag(n, p, fields, l, r)
      case (Record(fields), Tagged(n, p)) => WalkTag(n, p, fields, l, r)
      case _ => Visit(LeavesEqual(l, r), 1)
  }

  /** A tagged value against a record that spells its tag and payload out. */
  function WalkTag(n: string, p: Option<Value>, fields: seq<Field>, ghost l: Value, ghost r: Value): (v: Visit)
    requires (l == Tagged(n, p) && r == Record(fields)) || (l == Record(fields) && r == Tagged(n, p))
    ensures v.nodes >= 1
    decreases Weight(l, r), 0, 0
  {
    if |fields| != ExpectedFields(p) || Get(fields, "tag").None? then Visit(false, 1)
    else if StringView(Get(fields, "tag").value) != Some(n) then Visit(false, 2)
    else
      var value := Get(fields, "value");
      if p.Some? != value.Some? then Visit(false, 2)
      else if p.None? then Visit(true, 2)
      else
        FieldNodes(fields, Field("value", value.value));
        TaggedNodes(n, p.value);
        Then(Visit(true, 2), Walk(p.value, value.value))
  }

  function WalkAll(a: seq<Value>, b: seq<Value>): Visit
    requires |a| == |b|
    decreases NodesOf(ToJsons(a)) + NodesOf(ToJsons(b)), 1
  {
    if a == [] then Visit(true, 0) else Then(Walk(a[0], b[0]), WalkAll(a[1..], b[1..]))
  }

  function WalkFields(a: seq<Field>, b: seq<Field>): Visit
    requires |a| == |b|
    decreases NodesOfFields(FieldsToJson(a)) + NodesOfFields(FieldsToJson(b)), 1
  {
    if a == [] then Visit(true, 0) else Then(Walk(a[0].value, b[0].value), WalkFields(a[1..], b[1..]))
  }

  // ---------- The worklist ----------

  type Pair = (Value, Value)

  /** What a stack of pending pairs, its last pair on top, still comes to. */
  function WalkStack(pending: seq<Pair>): Visit
    decreases |pending|
  {
    if pending == [] then Visit(true, 0)
    else
      var n := |pending| - 1;
      Then(Walk(pending[n].0, pending[n].1), WalkStack(pending[..n]))
  }

  /** The pairs of two lists, first pair on top. */
  function Stacked(a: seq<Value>, b: seq<Value>): (r: seq<Pair>)
    requires |a| == |b|
  {
    if a == [] then [] else Stacked(a[1..], b[1..]) + [(a[0], b[0])]
  }

  function StackedFields(a: seq<Field>, b: seq<Field>): (r: seq<Pair>)
    requires |a| == |b|
  {
    if a == [] then [] else StackedFields(a[1..], b[1..]) + [(a[0].value, b[0].value)]
  }

  lemma {:induction false} StackTop(pending: seq<Pair>, l: Value, r: Value)
    ensures WalkStack(pending + [(l, r)]) == Then(Walk(l, r), WalkStack(pending))
  {
    assert (pending + [(l, r)])[..|pending|] == pending;
  }

  lemma {:induction false} StackAll(pending: seq<Pair>, a: seq<Value>, b: seq<Value>)
    requires |a| == |b|
    ensures WalkStack(pending + Stacked(a, b)) == Then(WalkAll(a, b), WalkStack(pending))
    decreases |a|
  {
    if a == [] {
      assert pending + Stacked(a, b) == pending;
    } else {
      var rest := Stacked(a[1..], b[1..]);
      StackAll(pending, a[1..], b[1..]);
      StackTop(pending + rest, a[0], b[0]);
      assert pending + Stacked(a, b) == (pending + rest) + [(a[0], b[0])];
    }
  }

  lemma {:induction false} StackFields(pending: seq<Pair>, a: seq<Field>, b: seq<Field>)
    requires |a| == |b|
    ensures WalkStack(pending + StackedFields(a, b)) == Then(WalkFields(a, b), WalkStack(pending))
    decreases |a|
  {
    if a == [] {
      assert pending + StackedFields(a, b) == pending;
    } else {
      var rest := StackedFields(a[1..], b[1..]);
      StackFields(pending, a[1..], b[1..]);
      StackTop(pending + rest, a[0].value, b[0].value);
      assert pending + StackedFields(a, b) == (pending + rest) + [(a[0].value, b[0].value)];
    }
  }

  /** Pushing the fields of two records from the last to the first, unless names differ. */
  method PushFields(pending: seq<Pair>, a: seq<Field>, b: seq<Field>) returns (r: Option<seq<Pair>>)
    requires |a| == |b|
    ensures r.Some? <==> SameNames(a, b)
    ensures r.Some? ==> r.value == pending + StackedFields(a, b)
  {
    var pushed := pending;
    for n := |a| downto 0
      invariant forall i :: n <= i < |a| ==> a[i].name == b[i].name
      invariant pushed == pending + StackedFields(a[n..], b[n..])
    {
      if a[n].name != b[n].name {
        return None;
      }
      assert a[n..][1..] == a[n + 1..] && b[n..][1..] == b[n + 1..];
      pushed := pushed + [(a[n].value, b[n].value)];
    }
    return Some(pushed);
  }

  /** What one popped pair does: decide against, or leave more pairs, after this many visits. */
  datatype Popped = Differ(visits: nat) | Push(visits: nat, pending: seq<Pair>) | TooMany

  method TurnTag(n: string, x: Option<Value>, fields: seq<Field>, rest: seq<Pair>, maxVisits: nat,
                 ghost l: Value, ghost r: Value) returns (p: Popped)
    requires (l == Tagged(n, x) && r == Record(fields)) || (l == Record(fields) && r == Tagged(n, x))
    requires maxVisits >= 1
    ensures var w := Then(WalkTag(n, x, fields, l, r), WalkStack(rest));
            match p
            case Differ(visits) => 1 <= visits <= maxVisits && w == Visit(false, visits)
            case Push(visits, pending) =>
              1 <= visits <= maxVisits && w == Then(Visit(true, visits), WalkStack(pending))
            case TooMany => w.nodes > maxVisits
  {
    if |fields| != ExpectedFields(x) {
      return Differ(1);
    }
    var tag := Get(fields, "tag");
    if tag.None? {
      return Differ(1);
    }
    if maxVisits < 2 {
      return TooMany;
    }
    if StringView(tag.value) != Some(n) {
      return Differ(2);
    }
    var value := Get(fields, "value");
    if x.Some? != value.Some? {
      return Differ(2);
    }
    if x.None? {
      return Push(2, rest);
    }
    StackTop(rest, x.value, value.value);
    return Push(2, rest + [(x.value, value.value)]);
  }

  /** Two lists, or two records. */
  method TurnBranches(l: Value, r: Value, rest: seq<Pair>, maxVisits: nat) returns (p: Popped)
    requires (l.List? && r.List?) || (l.Record? && r.Record?)
    requires maxVisits > 0
    ensures var w := Then(Walk(l, r), WalkStack(rest));
            match p
            case Differ(visits) => 1 <= visits <= maxVisits && w == Visit(false, visits)
            case Push(visits, pending) =>
              1 <= visits <= maxVisits && w == Then(Visit(true, visits), WalkStack(pending))
            case TooMany => w.nodes > maxVisits
  {
    match (l, r) {
      case (List(a), List(b)) =>
        if |a| != |b| {
          return Differ(1);
        }
        StackAll(rest, a, b);
        return Push(1, rest + Stacked(a, b));
      case (Record(a), Record(b)) =>
        if |a| != |b| {
          return Differ(1);
        }
        var pushed := PushFields(rest, a, b);
        if pushed.None? {
          return Differ(1);
        }
        StackFields(rest, a, b);
        return Push(1, pushed.value);
    }
  }

  /** One turn of the loop: the pair just popped, over the rest of the stack. */
  method Turn(l: Value, r: Value, rest: seq<Pair>, maxVisits: nat) returns (p: Popped)
    ensures var w := Then(Walk(l, r), WalkStack(rest));
            match p
            case Differ(visits) => 1 <= visits <= maxVisits && w == Visit(false, visits)
            case Push(visits, pending) =>
              1 <= visits <= maxVisits && w == Then(Visit(true, visits), WalkStack(pending))
            case TooMany => w.nodes > maxVisits
  {
    if maxVisits == 0 {
      return TooMany;
    }
    if StringView(l).Some? && StringView(r).Some? {
      return if StringView(l) != StringView(r) then Differ(1) else Push(1, rest);
    }
    var leaf := if LeavesEqual(l, r) then Push(1, rest) else Differ(1);
    match (l, r) {
      case (List(_), List(_)) =>
        p := TurnBranches(l, r, rest, maxVisits);
      case (Record(_), Record(_)) =>
        p := TurnBranches(l, r, rest, maxVisits);
      case (Tagged(m, x), Tagged(n, y)) =>
        if m != n || x.Some? != y.Some? {
          return Differ(1);
        }
        if x.None? {
          return Push(1, rest);
        }
        StackTop(rest, x.value, y.value);
        return Push(1, rest + [(x.value, y.value)]);
      case (Tagged(n, x), Record(fields)) =>
        p := TurnTag(n, x, fields, rest, maxVisits, l, r);
      case (Record(fields), Tagged(n, x)) =>
        p := TurnTag(n, x, fields, rest, maxVisits, l, r);
      case _ =>
        return leaf;
    }
  }

  /**
   The bounded test answers exactly when the walk needs no more visits than allowed, and then gives the
   walk's answer and its number of visits.
   */
  method EqualBounded(left: Value, right: Value, maxNodes: nat) returns (answer: Option<(bool, nat)>)
    ensures var w := Walk(left, right);
            answer == if w.nodes <= maxNodes then Some((w.equal, w.nodes)) else None
  {
    var visits := 0;
    var pending := [(left, right)];
    StackTop([], left, right);
    assert [] + [(left, right)] == pending;
    while pending != []
      invariant visits <= maxNodes
      invariant Walk(left, right) == Then(Visit(true, visits), WalkStack(pending))
      decreases Walk(left, right).nodes - visits, |pending|
    {
      var top := |pending| - 1;
      var (l, r) := pending[top];
      var turn := Turn(l, r, pending[..top], maxNodes - visits);
      match turn {
        case TooMany => return None;
        case Differ(more) => return Some((false, visits + more));
        case Push(more, next) =>
          visits := visits + more;
          pending := next;
      }
    }
    return Some((true, visits));
  }

  // ---------- The walk decides JSON equality ----------

  lemma {:induction false} JsonEqSymmetric(a: Json, b: Json)
    ensures JsonEq(a, b) == JsonEq(b, a)
    decreases a, 1
  {
    match (a, b)
    case (JArray(x), JArray(y)) => JsonsEqSymmetric(x, y);
    case (JObject(x), JObject(y)) => FieldsEqSymmetric(x, y);
    case _ =>
  }

  lemma {:induction false} JsonsEqSymmetric(a: seq<Json>, b: seq<Json>)
    ensures JsonsEq(a, b) == JsonsEq(b, a)
    decreases a, 0
  {
    if |a| == |b| && a != [] {
      JsonEqSymmetric(a[0], b[0]);
      JsonsEqSymmetric(a[1..], b[1..]);
    }
  }

  lemma {:induction false} FieldsEqSymmetric(a: seq<JField>, b: seq<JField>)
    ensures FieldsEq(a, b) == FieldsEq(b, a)
    decreases a, 0
  {
    if |a| == |b| && a != [] {
      JsonEqSymmetric(a[0].value, b[0].value);
      FieldsEqSymmetric(a[1..], b[1..]);
    }
  }

  lemma {:induction false} JsonEqTransitive(a: Json, b: Json, c: Json)
    requires JsonEq(a, b) && JsonEq(b, c)
    ensures JsonEq(a, c)
    decreases a, 1
  {
    match (a, b, c)
    case (JArray(x), JArray(y), JArray(z)) => JsonsEqTransitive(x, y, z);
    case (JObject(x), JObject(y), JObject(z)) => FieldsEqTransitive(x, y, z);
    case _ =>
  }

  lemma {:induction false} JsonsEqTransitive(a: seq<Json>, b: seq<Json>, c: seq<Json>)
    requires JsonsEq(a, b) && JsonsEq(b, c)
    ensures JsonsEq(a, c)
    decreases a, 0
  {
    if a != [] {
      JsonEqTransitive(a[0], b[0], c[0]);
      JsonsEqTransitive(a[1..], b[1..], c[1..]);
    }
  }

  lemma {:induction false} FieldsEqTransitive(a: seq<JField>, b: seq<JField>, c: seq<JField>)
    requires FieldsEq(a, b) && FieldsEq(b, c)
    ensures FieldsEq(a, c)
    decreases a, 0
  {
    if a != [] {
      JsonEqTransitive(a[0].value, b[0].value, c[0].value);
      FieldsEqTransitive(a[1..], b[1..], c[1..]);
    }
  }

  /** Equality of objects of one field and of two. */
  lemma {:induction false} OneFieldEq(a: seq<JField>, b: seq<JField>)
    requires |a| == |b| == 1
    ensures FieldsEq(a, b) <==> a[0].name == b[0].name && JsonEq(a[0].value, b[0].value)
  {
    assert a[1..] == [] && b[1..] == [];
  }

  lemma {:induction false} TwoFieldsEq(a: seq<JField>, b: seq<JField>)
    requires |a| == |b| == 2
    ensures FieldsEq(a, b) <==>
              && a[0].name == b[0].name && JsonEq(a[0].value, b[0].value)
              && a[1].name == b[1].name && JsonEq(a[1].value, b[1].value)
  {
    OneFieldEq(a[1..], b[1..]);
  }

  /** JSON made of values never holds a non-finite number, so it equals itself. */
  lemma {:induction false} ToJsonReflexive(v: Value)
    ensures JsonEq(ToJson(v), ToJson(v))
    decreases v, 1
  {
    match v
    case List(items) => ToJsonsReflexive(items);
    case Record(fields) => FieldsToJsonReflexive(fields);
    case Tagged(name, None) => OneFieldEq(ToJson(v).fields, ToJson(v).fields);
    case Tagged(name, Some(payload)) =>
      ToJsonReflexive(payload);
      TwoFieldsEq(ToJson(v).fields, ToJson(v).fields);
    case _ =>
  }

  lemma {:induction false} ToJsonsReflexive(items: seq<Value>)
    ensures JsonsEq(ToJsons(items), ToJsons(items))
    decreases items, 0
  {
    if items != [] {
      ToJsonReflexive(items[0]);
      ToJsonsReflexive(items[1..]);
    }
  }

  lemma {:induction false} FieldsToJsonReflexive(fields: seq<Field>)
    ensures FieldsEq(FieldsToJson(fields), FieldsToJson(fields))
    decreases fields, 0
  {
    if fields != [] {
      ToJsonReflexive(fields[0].value);
      FieldsToJsonReflexive(fields[1..]);
    }
  }

  /** A sorted record with the fields of a tagged value has them in order. */
  lemma {:induction false} TagThenValue(fields: seq<Field>)
    requires Ascending(fields) && |fields| == 2 && Get(fields, "tag").Some? && Get(fields, "value").Some?
    ensures fields == [Field("tag", Get(fields, "tag").value), Field("value", Get(fields, "value").value)]
  {
    assert "tag"[0] == 't' && "value"[0] == 'v';
    assert !Precedes("value", "tag") && "tag" != "value";
  }

  /** The JSON form of a two-field or one-field record, spelled out. */
  lemma {:induction false} FewFieldsToJson(fields: seq<Field>)
    ensures |fields| == 1 ==>
              FieldsToJson(fields) == [JField(fields[0].name, ToJson(fields[0].value))]
    ensures |fields| == 2 ==>
              FieldsToJson(fields) == [JField(fields[0].name, ToJson(fields[0].value)),
                                       JField(fields[1].name, ToJson(fields[1].value))]
  {
    if |fields| == 2 {
      assert FieldsToJson(fields) == [JField(fields[0].name, ToJson(fields[0].value))] + FieldsToJson(fields[1..]);
    }
  }

  lemma {:induction false} StringViewIsString(v: Value)
    ensures StringView(v).Some? ==> ToJson(v) == JString(StringView(v).value)
    ensures StringView(v).None? ==> !ToJson(v).JString?
  {
  }

  /** Without a payload. */
  lemma {:induction false} BareTagIsJsonEq(n: string, fields: seq<Field>)
    requires Ascending(fields)
    ensures WalkTag(n, None, fields, Tagged(n, None), Record(fields)).equal
            <==> JsonEq(ToJson(Tagged(n, None)), ToJson(Record(fields)))
  {
    FewFieldsToJson(fields);
    if |fields| == 1 {
      StringViewIsString(fields[0].value);
      OneFieldEq(ToJson(Tagged(n, None)).fields, FieldsToJson(fields));
      assert "tag" != "value";
    }
  }

  /** With a payload, given that the walk decides the payload. */
  lemma {:induction false} TagIsJsonEq(n: string, payload: Value, fields: seq<Field>)
    requires Ascending(fields)
    requires Get(fields, "value").Some? ==>
               (Walk(payload, Get(fields, "value").value).equal
                <==> JsonEq(ToJson(payload), ToJson(Get(fields, "value").value)))
    ensures WalkTag(n, Some(payload), fields, Tagged(n, Some(payload)), Record(fields)).equal
            <==> JsonEq(ToJson(Tagged(n, Some(payload))), ToJson(Record(fields)))
  {
    FewFieldsToJson(fields);
    if |fields| == 2 {
      TwoFieldsEq(ToJson(Tagged(n, Some(payload))).fields, FieldsToJson(fields));
      StringViewIsString(fields[0].value);
      if Get(fields, "tag").Some? && Get(fields, "value").Some? {
        TagThenValue(fields);
      }
    }
  }

  lemma {:induction false} SortedField(fields: seq<Field>, f: Field)
    requires FieldsSorted(fields) && f in fields
    ensures Sorted(f.value)
  {
    if fields[0] != f {
      SortedField(fields[1..], f);
    }
  }

  lemma {:induction false} WalkTagIsJsonEq(n: string, p: Option<Value>, fields: seq<Field>, l: Value, r: Value)
    requires (l == Tagged(n, p) && r == Record(fields)) || (l == Record(fields) && r == Tagged(n, p))
    requires Sorted(l) && Sorted(r)
    ensures WalkTag(n, p, fields, l, r).equal <==> JsonEq(ToJson(l), ToJson(r))
    decreases Weight(l, r), 0, 0
  {
    JsonEqSymmetric(ToJson(l), ToJson(r));
    match p
    case None => BareTagIsJsonEq(n, fields);
    case Some(payload) =>
      var value := Get(fields, "value");
      if value.Some? {
        FieldNodes(fields, Field("value", value.value));
        SortedField(fields, Field("value", value.value));
        TaggedNodes(n, payload);
        WalkIsJsonEq(payload, value.value);
      }
      TagIsJsonEq(n, payload, fields);
  }

  /** The walk decides equality of the JSON forms. */
  lemma {:induction false} WalkIsJsonEq(l: Value, r: Value)
    requires Sorted(l) && Sorted(r)
    ensures Walk(l, r).equal <==> JsonEq(ToJson(l), ToJson(r))
    decreases Weight(l, r), 0
  {
    StringViewIsString(l);
    StringViewIsString(r);
    if StringView(l).None? || StringView(r).None? {
      match (l, r)
      case (List(a), List(b)) =>
        if |a| == |b| { WalkAllIsJsonEq(a, b); }
      case (Record(a), Record(b)) =>
        if |a| == |b| { WalkFieldsIsJsonEq(a, b); }
      case (Tagged(m, None), Tagged(n, None)) =>
        OneFieldEq(ToJson(l).fields, ToJson(r).fields);
      case (Tagged(m, Some(x)), Tagged(n, Some(y))) =>
        TaggedNodes(m, x);
        TaggedNodes(n, y);
        WalkIsJsonEq(x, y);
        TwoFieldsEq(ToJson(l).fields, ToJson(r).fields);
      case (Tagged(n, p), Record(fields)) => WalkTagIsJsonEq(n, p, fields, l, r);
      case (Record(fields), Tagged(n, p)) => WalkTagIsJsonEq(n, p, fields, l, r);
      case _ =>
    }
  }

  lemma {:induction false} WalkAllIsJsonEq(a: seq<Value>, b: seq<Value>)
    requires |a| == |b| && AllSorted(a) && AllSorted(b)
    ensures WalkAll(a, b).equal <==> JsonsEq(ToJsons(a), ToJsons(b))
    decreases NodesOf(ToJsons(a)) + NodesOf(ToJsons(b)), 1
  {
    if a != [] {
      WalkIsJsonEq(a[0], b[0]);
      WalkAllIsJsonEq(a[1..], b[1..]);
    }
  }

  lemma {:induction false} WalkFieldsIsJsonEq(a: seq<Field>, b: seq<Field>)
    requires |a| == |b| && FieldsSorted(a) && FieldsSorted(b)
    ensures SameNames(a, b) && WalkFields(a, b).equal <==> FieldsEq(FieldsToJson(a), FieldsToJson(b))
    decreases NodesOfFields(FieldsToJson(a)) + NodesOfFields(FieldsToJson(b)), 1
  {
    if a != [] {
      WalkIsJsonEq(a[0].value, b[0].value);
      WalkFieldsIsJsonEq(a[1..], b[1..]);
      assert SameNames(a, b) <==> a[0].name == b[0].name && SameNames(a[1..], b[1..]) by {
        assert forall i :: 1 <= i < |a| ==> a[i] == a[1..][i - 1] && b[i] == b[1..][i - 1];
      }
    }
  }

  // ---------- How much budget suffices ----------

  lemma {:induction false} AtLeastTwoNodes(n: string, p: Option<Value>, fields: seq<Field>)
    requires |fields| >= 1
    ensures Nodes(ToJson(Tagged(n, p))) >= 2 && Nodes(ToJson(Record(fields))) >= 2
  {
    if p.Some? {
      TaggedNodes(n, p.value);
    }
  }

  /** A record with a tag and a value has room for both. */
  lemma {:induction false} BothFieldNodes(fields: seq<Field>)
    requires |fields| == 2 && Get(fields, "tag").Some? && Get(fields, "value").Some?
    ensures Nodes(ToJson(Record(fields))) >= 2 + Nodes(ToJson(Get(fields, "value").value))
  {
    FewFieldsToJson(fields);
    var json := FieldsToJson(fields);
    assert json[1..][1..] == [];
    assert NodesOfFields(json) == Nodes(json[0].value) + NodesOfFields(json[1..]);
    assert "tag" != "value";
  }

  lemma {:induction false} WalkTagNodes(n: string, p: Option<Value>, fields: seq<Field>, l: Value, r: Value)
    requires (l == Tagged(n, p) && r == Record(fields)) || (l == Record(fields) && r == Tagged(n, p))
    ensures WalkTag(n, p, fields, l, r).nodes <= Min(Nodes(ToJson(l)), Nodes(ToJson(r)))
    decreases Weight(l, r), 0, 0
  {
    if |fields| == ExpectedFields(p) {
      AtLeastTwoNodes(n, p, fields);
      var tag, value := Get(fields, "tag"), Get(fields, "value");
      if tag.Some? && value.Some? && p.Some? {
        FieldNodes(fields, Field("value", value.value));
        TaggedNodes(n, p.value);
        WalkNodes(p.value, value.value);
        BothFieldNodes(fields);
      }
    }
  }

  /** The walk never visits more nodes than either JSON form has. */
  lemma {:induction false} WalkNodes(l: Value, r: Value)
    ensures Walk(l, r).nodes <= Min(Nodes(ToJson(l)), Nodes(ToJson(r)))
    decreases Weight(l, r), 0
  {
    if StringView(l).None? || StringView(r).None? {
      match (l, r)
      case (List(a), List(b)) =>
        if |a| == |b| { WalkAllNodes(a, b); }
      case (Record(a), Record(b)) =>
        if |a| == |b| { WalkFieldsNodes(a, b); }
      case (Tagged(m, Some(x)), Tagged(n, Some(y))) =>
        TaggedNodes(m, x);
        TaggedNodes(n, y);
        WalkNodes(x, y);
      case (Tagged(n, p), Record(fields)) => WalkTagNodes(n, p, fields, l, r);
      case (Record(fields), Tagged(n, p)) => WalkTagNodes(n, p, fields, l, r);
      case _ =>
    }
  }

  lemma {:induction false} WalkAllNodes(a: seq<Value>, b: seq<Value>)
    requires |a| == |b|
    ensures WalkAll(a, b).nodes <= Min(NodesOf(ToJsons(a)), NodesOf(ToJsons(b)))
    decreases NodesOf(ToJsons(a)) + NodesOf(ToJsons(b)), 1
  {
    if a != [] {
      WalkNodes(a[0], b[0]);
      WalkAllNodes(a[1..], b[1..]);
    }
  }

  lemma {:induction false} WalkFieldsNodes(a: seq<Field>, b: seq<Field>)
    requires |a| == |b|
    ensures WalkFields(a, b).nodes <= Min(NodesOfFields(FieldsToJson(a)), NodesOfFields(FieldsToJson(b)))
    decreases NodesOfFields(FieldsToJson(a)) + NodesOfFields(FieldsToJson(b)), 1
  {
    if a != [] {
      WalkNodes(a[0].value, b[0].value);
      WalkFieldsNodes(a[1..], b[1..]);
    }
  }

  // ---------- The equality of values ----------

  /** What the bounded test answers, if it answers. */
  function Answer(l: Value, r: Value, maxNodes: nat): Option<bool> {
    if Walk(l, r).nodes <= maxNodes then Some(Walk(l, r).equal) else None
  }

  /** `==` on values: an unanswered test counts as unequal. */
  predicate ValueEq(l: Value, r: Value, maxNodes: nat) {
    Answer(l, r, maxNodes) == Some(true)
  }

  /**
   Whenever the test answers, the answer is equality of the JSON forms; a larger budget never changes
   it; and a budget of the smaller form's nodes suffices.
   */
  lemma {:induction false} AnswerRefinesJson(l: Value, r: Value, budget: nat, larger: nat)
    requires Sorted(l) && Sorted(r) && budget <= larger
    ensures Answer(l, r, budget).Some? ==>
              && Answer(l, r, budget).value == JsonEq(ToJson(l), ToJson(r))
              && Answer(l, r, larger) == Answer(l, r, budget)
    ensures budget >= Min(Nodes(ToJson(l)), Nodes(ToJson(r))) ==> Answer(l, r, budget).Some?
  {
    WalkIsJsonEq(l, r);
    WalkNodes(l, r);
  }

  lemma {:induction false} ValueEqIsJsonEq(a: Value, b: Value, max: nat)
    requires Sorted(a) && Sorted(b) && Nodes(ToJson(a)) <= max && Nodes(ToJson(b)) <= max
    ensures ValueEq(a, b, max) == JsonEq(ToJson(a), ToJson(b))
  {
    AnswerRefinesJson(a, b, max, max);
  }

  /** With a sufficient budget `==` is an equivalence, also on values holding non-finite decimals. */
  lemma {:induction false} ValueEqIsEquivalence(a: Value, b: Value, c: Value, max: nat)
    requires Sorted(a) && Sorted(b) && Sorted(c)
    requires Nodes(ToJson(a)) <= max && Nodes(ToJson(b)) <= max && Nodes(ToJson(c)) <= max
    ensures ValueEq(a, a, max)
    ensures ValueEq(a, b, max) == ValueEq(b, a, max)
    ensures ValueEq(a, b, max) && ValueEq(b, c, max) ==> ValueEq(a, c, max)
  {
    ValueEqIsJsonEq(a, a, max);
    ValueEqIsJsonEq(a, b, max);
    ValueEqIsJsonEq(b, a, max);
    ValueEqIsJsonEq(b, c, max);
    ValueEqIsJsonEq(a, c, max);
    ToJsonReflexive(a);
    JsonEqSymmetric(ToJson(a), ToJson(b));
    if JsonEq(ToJson(a), ToJson(b)) && JsonEq(ToJson(b), ToJson(c)) {
      JsonEqTransitive(ToJson(a), ToJson(b), ToJson(c));
    }
  }

  // ---------- Round trip ----------

  /** A spelled-out tag reads back as a sorted record of the same fields. */
  lemma {:induction false} TagRoundTrip(json: seq<JField>)
    requires |json| == 1 || |json| == 2
    requires json[0].name == "tag" && json[0].value.JString?
    requires |json| == 2 ==> json[1].name == "value" && ToJson(FromJson(json[1].value)) == json[1].value
                             && Sorted(FromJson(json[1].value))
    ensures FieldsToJson(FieldsFromJson(json)) == json && Sorted(Record(FieldsFromJson(json)))
  {
    var tag := Field("tag", FromJson(json[0].value));
    if |json| == 1 {
      assert json[1..] == [];
      assert FieldsFromJson(json) == [tag];
      assert [tag][1..] == [];
      FewFieldsToJson([tag]);
    } else {
      var value := Field("value", FromJson(json[1].value));
      assert json[1..][1..] == [];
      assert FieldsFromJson(json[1..]) == [value];
      assert FieldsFromJson(json) == [tag, value];
      FewFieldsToJson([tag, value]);
      assert "tag"[0] == 't' && "value"[0] == 'v';
      assert Precedes("tag", "value");
      assert [tag, value][1..] == [value] && [value][1..] == [];
      assert FieldsSorted([value]);
    }
  }

  predicate NamesMatch(a: seq<Field>, b: seq<Field>) {
    |a| == |b| && SameNames(a, b)
  }

  lemma {:induction false} JsonRoundTrip(v: Value)
    requires Sorted(v)
    ensures ToJson(FromJson(ToJson(v))) == ToJson(v) && Sorted(FromJson(ToJson(v)))
    decreases v, 1
  {
    match v
    case List(items) => JsonsRoundTrip(items);
    case Record(fields) => FieldsRoundTrip(fields);
    case Tagged(name, None) => TagRoundTrip(ToJson(v).fields);
    case Tagged(name, Some(payload)) =>
      JsonRoundTrip(payload);
      TagRoundTrip(ToJson(v).fields);
    case _ =>
  }

  lemma {:induction false} JsonsRoundTrip(items: seq<Value>)
    requires AllSorted(items)
    ensures ToJsons(FromJsons(ToJsons(items))) == ToJsons(items) && AllSorted(FromJsons(ToJsons(items)))
    decreases items, 0
  {
    if items != [] {
      JsonRoundTrip(items[0]);
      JsonsRoundTrip(items[1..]);
      assert ToJsons(items)[1..] == ToJsons(items[1..]);
    }
  }

  lemma {:induction false} FieldsRoundTrip(fields: seq<Field>)
    requires FieldsSorted(fields)
    ensures FieldsToJson(FieldsFromJson(FieldsToJson(fields))) == FieldsToJson(fields)
    ensures FieldsSorted(FieldsFromJson(FieldsToJson(fields)))
    ensures NamesMatch(FieldsFromJson(FieldsToJson(fields)), fields)
    decreases fields, 0
  {
    if fields != [] {
      JsonRoundTrip(fields[0].value);
      FieldsRoundTrip(fields[1..]);
      assert FieldsToJson(fields)[1..] == FieldsToJson(fields[1..]);
      var back := FieldsFromJson(FieldsToJson(fields));
      assert back[1..] == FieldsFromJson(FieldsToJson(fields[1..]));
      assert forall i :: 1 <= i < |fields| ==> fields[i] == fields[1..][i - 1] && back[i] == back[1..][i - 1];
    }
  }

  /** Converting to JSON and back yields an equal value, whatever the value. */
  lemma {:induction false} RoundTripEqual(v: Value, max: nat)
    requires Sorted(v) && Nodes(ToJson(v)) <= max
    ensures ValueEq(FromJson(ToJson(v)), v, max)
  {
    JsonRoundTrip(v);
    ToJsonReflexive(v);
    AnswerRefinesJson(FromJson(ToJson(v)), v, max, max);
  }

  /** A value with nothing in it that JSON has no form of its own for. */
  predicate Plain(v: Value)
    decreases v, 1
  {
    match v
    case Decimal(d) => d.Finite? || d.NegativeZero?
    case Uri(_) => false
    case Tagged(_, _) => false
    case Callable => false
    case List(items) => AllPlain(items)
    case Record(fields) => FieldsPlain(fields)
    case _ => true
  }

  predicate AllPlain(items: seq<Value>)
    decreases items, 0
  {
    items == [] || (Plain(items[0]) && AllPlain(items[1..]))
  }

  predicate FieldsPlain(fields: seq<Field>)
    decreases fields, 0
  {
    fields == [] || (Plain(fields[0].value) && FieldsPlain(fields[1..]))
  }

  lemma {:induction false} HeadAndTail<T>(s: seq<T>, head: T, tail: seq<T>)
    requires s != []
    ensures [head] + tail == s <==> head == s[0] && tail == s[1..]
  {
    if [head] + tail == s {
      assert ([head] + tail)[1..] == tail;
    }
    assert s == [s[0]] + s[1..];
  }

  /** A value comes back from its JSON form as itself exactly when it is plain. */
  lemma {:induction false} ComesBackIff(v: Value)
    ensures FromJson(ToJson(v)) == v <==> Plain(v)
    decreases v, 1
  {
    match v
    case List(items) => AllComeBackIff(items);
    case Record(fields) => FieldsComeBackIff(fields);
    case _ =>
  }

  lemma {:induction false} AllComeBackIff(items: seq<Value>)
    ensures FromJsons(ToJsons(items)) == items <==> AllPlain(items)
    decreases items, 0
  {
    if items != [] {
      ComesBackIff(items[0]);
      AllComeBackIff(items[1..]);
      var json := ToJsons(items);
      assert json[0] == ToJson(items[0]) && json[1..] == ToJsons(items[1..]);
      HeadAndTail(items, FromJson(json[0]), FromJsons(json[1..]));
    }
  }

  lemma {:induction false} FieldsComeBackIff(fields: seq<Field>)
    ensures FieldsFromJson(FieldsToJson(fields)) == fields <==> FieldsPlain(fields)
    decreases fields, 0
  {
    if fields != [] {
      ComesBackIff(fields[0].value);
      FieldsComeBackIff(fields[1..]);
      var json := FieldsToJson(fields);
      assert json[0] == JField(fields[0].name, ToJson(fields[0].value)) && json[1..] == FieldsToJson(fields[1..]);
      HeadAndTail(fields, Field(json[0].name, FromJson(json[0].value)), FieldsFromJson(json[1..]));
    }
  }

  /** What a number of JSON comes to. */
  function Worth(n: Number): F64 {
    match n
    case PosInt(n) => Finite(n as real)
    case NegInt(i) => Finite(i as real)
    case Float(d) => d
  }

  /** A number keeps its worth, as an integer exactly when it is one that a machine integer holds. */
  lemma {:induction false} NumbersKeepTheirWorth(n: Number)
    ensures match FromNumber(n)
      case Int(i) => !n.Float? && I64_MIN <= i <= I64_MAX && Worth(n) == Finite(i as real)
      case Decimal(d) => d == Worth(n) && (n.PosInt? ==> n.n > I64_MAX) && (n.NegInt? ==> !(I64_MIN <= n.i <= I64_MAX))
      case _ => false
  {
  }

  /** JSON in which every integer is one that a machine integer holds, with its sign, and every other number finite. */
  predicate Kept(j: Json)
    decreases j, 1
  {
    match j
    case JNumber(PosInt(n)) => n <= I64_MAX
    case JNumber(NegInt(i)) => I64_MIN <= i < 0
    case JNumber(Float(d)) => d.Finite? || d.NegativeZero?
    case JArray(items) => AllKept(items)
    case JObject(fields) => FieldsKept(fields)
    case _ => true
  }

  predicate AllKept(items: seq<Json>)
    decreases items, 0
  {
    items == [] || (Kept(items[0]) && AllKept(items[1..]))
  }

  predicate FieldsKept(fields: seq<JField>)
    decreases fields, 0
  {
    fields == [] || (Kept(fields[0].value) && FieldsKept(fields[1..]))
  }

  /** JSON comes back from the value it is read as exactly when its numbers are kept. */
  lemma {:induction false} JsonComesBackIff(j: Json)
    ensures ToJson(FromJson(j)) == j <==> Kept(j)
    decreases j, 1
  {
    match j
    case JNumber(n) => NumbersKeepTheirWorth(n);
    case JArray(items) => JsonsComeBackIff(items);
    case JObject(fields) => JsonFieldsComeBackIff(fields);
    case _ =>
  }

  lemma {:induction false} JsonsComeBackIff(items: seq<Json>)
    ensures ToJsons(FromJsons(items)) == items <==> AllKept(items)
    decreases items, 0
  {
    if items != [] {
      JsonComesBackIff(items[0]);
      JsonsComeBackIff(items[1..]);
      var values := FromJsons(items);
      assert values[0] == FromJson(items[0]) && values[1..] == FromJsons(items[1..]);
      HeadAndTail(items, ToJson(values[0]), ToJsons(values[1..]));
    }
  }

  lemma {:induction false} JsonFieldsComeBackIff(fields: seq<JField>)
    ensures FieldsToJson(FieldsFromJson(fields)) == fields <==> FieldsKept(fields)
    decreases fields, 0
  {
    if fields != [] {
      JsonComesBackIff(fields[0].value);
      JsonFieldsComeBackIff(fields[1..]);
      var values := FieldsFromJson(fields);
      assert values[0] == Field(fields[0].name, FromJson(fields[0].value))
             && values[1..] == FieldsFromJson(fields[1..]);
      HeadAndTail(fields, JField(values[0].name, ToJson(values[0].value)), FieldsToJson(values[1..]));
    }
  }
}
