/**
  JSON Patch (RFC 6902) as the audit replayer applies it, on document values: editing the parent
  that `_resolve` found is putting the edited parent back at its place.
 */
module JsonPatch {
  import opened Options
  import opened JsonPointer

  datatype Json =
    | Null
    | Bool(b: bool)
    | Num(n: real)
    | Str(s: string)
    | Arr(items: seq<Json>)
    | Obj(members: map<string, Json>)

  /** Subscripting a container by a reference token; scalars raise. */
  function Child(doc: Json, part: string): Option<Json> {
    match doc
    case Arr(items) =>
      var index := ArrayIndex(part);
      if index.Some? && index.value < |items| then Some(items[index.value]) else None
    case Obj(members) => if part in members then Some(members[part]) else None
    case _ => None
  }

  function Get(doc: Json, parts: seq<string>): Option<Json>
    decreases |parts|
  {
    if parts == [] then Some(doc)
    else
      var child := Child(doc, parts[0]);
      if child.None? then None else Get(child.value, parts[1..])
  }

  /** The container with one existing child replaced. */
  function PutChild(doc: Json, part: string, child: Json): Json
    requires Child(doc, part).Some?
  {
    match doc
    case Arr(items) => Arr(items[ArrayIndex(part).value := child])
    case Obj(members) => Obj(members[part := child])
  }

  /** The document after the value at `parts` was edited in place into `x`. */
  function Put(doc: Json, parts: seq<string>, x: Json): Json
    requires Get(doc, parts).Some?
    decreases |parts|
  {
    if parts == [] then x
    else PutChild(doc, parts[0], Put(Child(doc, parts[0]).value, parts[1..], x))
  }

  function Init(parts: seq<string>): seq<string>
    requires parts != []
  {
    parts[..|parts| - 1]
  }

  function Last(parts: seq<string>): string
    requires parts != []
  {
    parts[|parts| - 1]
  }

  // What each operation does to the parent container.

  function SetMember(parent: Json, key: string, value: Json): Option<Json> {
    match parent
    case Arr(items) =>
      var index := ArrayIndex(key);
      if index.None? || index.value >= |items| then None else Some(Arr(items[index.value := value]))
    case Obj(members) => if key !in members then None else Some(Obj(members[key := value]))
    case _ => None
  }

  function AddMember(parent: Json, key: string, value: Json): Option<Json> {
    match parent
    case Arr(items) =>
      if key == "-" then Some(Arr(items + [value]))
      else
        var index := ArrayIndex(key);
        if index.None? || index.value > |items| then None
        else Some(Arr(items[..index.value] + [value] + items[index.value..]))
    case Obj(members) => Some(Obj(members[key := value]))
    case _ => None
  }

  function RemoveMember(parent: Json, key: string): Option<Json> {
    match parent
    case Arr(items) =>
      var index := ArrayIndex(key);
      if index.None? || index.value >= |items| then None
      else Some(Arr(items[..index.value] + items[index.value + 1..]))
    case Obj(members) => if key !in members then None else Some(Obj(members - {key}))
    case _ => None
  }

  /** The parent of `parts`, edited into `edited`, back in its document. */
  function Rebuilt(doc: Json, parts: seq<string>, edited: Option<Json>): Option<Json>
    requires parts != [] && Get(doc, Init(parts)).Some?
  {
    if edited.None? then None else Some(Put(doc, Init(parts), edited.value))
  }

  function PatchSet(doc: Json, parts: seq<string>, value: Json): Option<Json> {
    if parts == [] then Some(value)
    else
      var parent := Get(doc, Init(parts));
      if parent.None? then None else Rebuilt(doc, parts, SetMember(parent.value, Last(parts), value))
  }

  function PatchAdd(doc: Json, parts: seq<string>, value: Json): Option<Json> {
    if parts == [] then Some(value)
    else
      var parent := Get(doc, Init(parts));
      if parent.None? then None else Rebuilt(doc, parts, AddMember(parent.value, Last(parts), value))
  }

  function PatchRemove(doc: Json, parts: seq<string>): Option<Json> {
    if parts == [] then None
    else
      var parent := Get(doc, Init(parts));
      if parent.None? then None else Rebuilt(doc, parts, RemoveMember(parent.value, Last(parts)))
  }

  /** Python's `==`: booleans equal the numbers 0 and 1. */
  predicate PyEq(a: Json, b: Json)
    decreases a
  {
    match a
    case Null => b.Null?
    case Bool(x) => if b.Bool? then x == b.b else b.Num? && b.n == (if x then 1.0 else 0.0)
    case Num(x) => if b.Bool? then x == (if b.b then 1.0 else 0.0) else b.Num? && x == b.n
    case Str(x) => b.Str? && x == b.s
    case Arr(items) =>
      b.Arr? && |items| == |b.items| && forall i :: 0 <= i < |items| ==> PyEq(items[i], b.items[i])
    case Obj(members) =>
      b.Obj? && members.Keys == b.members.Keys && forall k <- members :: PyEq(members[k], b.members[k])
  }

  /** An operation object; absent members are `None`. */
  datatype Op = Op(op: string, path: Option<string>, value: Option<Json>, from: Option<string>)

  predicate IsPrefix(a: seq<string>, b: seq<string>) {
    |a| <= |b| && b[..|a|] == a
  }

  /** One operation; `None` where the interpreter raises. */
  function ApplyOp(doc: Json, op: Op): Option<Json> {
    if op.path.None? then None
    else
      var parsed := PtrParts(op.path.value);
      if parsed.None? then None
      else
        var parts := parsed.value;
        if op.op == "replace" then
          if op.value.None? then None else PatchSet(doc, parts, op.value.value)
        else if op.op == "add" then
          if op.value.None? then None else PatchAdd(doc, parts, op.value.value)
        else if op.op == "remove" then PatchRemove(doc, parts)
        else if op.op == "test" then
          var actual := Get(doc, parts);
          var expected := if op.value.None? then Null else op.value.value;
          if actual.None? || !PyEq(actual.value, expected) then None else Some(doc)
        else if op.op == "copy" then ApplyCopy(doc, parts, op.from)
        else if op.op == "move" then ApplyMove(doc, parts, op.from)
        else None
  }

  function ApplyCopy(doc: Json, parts: seq<string>, from: Option<string>): Option<Json> {
    if from.None? || PtrParts(from.value).None? then None
    else
      var value := Get(doc, PtrParts(from.value).value);
      if value.None? then None else PatchAdd(doc, parts, value.value)
  }

  function ApplyMove(doc: Json, parts: seq<string>, from: Option<string>): Option<Json> {
    if from.None? || PtrParts(from.value).None? then None
    else
      var source := PtrParts(from.value).value;
      var value := Get(doc, source);
      if value.None? then None
      else if source == parts then Some(doc)
      else if IsPrefix(source, parts) then None
      else
        var removed := PatchRemove(doc, source);
        if removed.None? then None else PatchAdd(removed.value, parts, value.value)
  }

  /** A whole patch: every operation in turn, or nothing. */
  function Apply(doc: Json, ops: seq<Op>): Option<Json>
    decreases |ops|
  {
    if ops == [] then Some(doc)
    else
      var next := ApplyOp(doc, ops[0]);
      if next.None? then None else Apply(next.value, ops[1..])
  }

  // ---- the loops of the interpreter ----

  /** `_patch_get`, and with `parts[:-1]` the walk of `_resolve`. */
  method WalkTo(doc: Json, parts: seq<string>) returns (found: Option<Json>)
    ensures found == Get(doc, parts)
  {
    var current := doc;
    for i := 0 to |parts|
      invariant Get(doc, parts) == Get(current, parts[i..])
    {
      var child := Child(current, parts[i]);
      if child.None? {
        return None;
      }
      current := child.value;
      assert parts[i..][1..] == parts[i + 1..];
    }
    return Some(current);
  }

  method ApplyJsonPatch(doc: Json, ops: seq<Op>) returns (result: Option<Json>)
    ensures result == Apply(doc, ops)
  {
    var current := doc;
    for i := 0 to |ops|
      invariant Apply(doc, ops) == Apply(current, ops[i..])
    {
      var next := ApplyOp(current, ops[i]);
      if next.None? {
        return None;
      }
      current := next.value;
      assert ops[i..][1..] == ops[i + 1..];
    }
    return Some(current);
  }
}
