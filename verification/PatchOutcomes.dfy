/** Which patch operations succeed, and exactly what they make of the container they touch. */
module PatchOutcomes {
  import opened Options
  import opened JsonPointer
  import opened JsonPatch
  import opened PatchTheorems

  /** The token names position `n`. */
  lemma NamesPosition(key: string, n: nat)
    ensures ArrayIndex(key) == Some(n) <==> key == Decimal(n)
  {
    DecimalIsIndex(n);
    if ArrayIndex(key) == Some(n) {
      IndexIsDecimal(key);
    }
  }

  // ---- add ----

  /** The parent can take a value at the key: any object, an array at its end or at a position up to it. */
  ghost predicate Takes(parent: Json, key: string) {
    || parent.Obj?
    || (parent.Arr? && (key == "-" || exists n: nat :: n <= |parent.items| && key == Decimal(n)))
  }

  /** The parent with the value at the key: members are overwritten, elements move up. */
  ghost predicate IsAdded(parent: Json, key: string, value: Json, after: Json) {
    if parent.Obj? then after == Obj(parent.members[key := value])
    else if !parent.Arr? then false
    else if key == "-" then after == Arr(parent.items + [value])
    else
      && after.Arr? && |after.items| == |parent.items| + 1
      && exists n: nat :: n <= |parent.items| && key == Decimal(n) && after.items[n] == value &&
           (forall i :: 0 <= i < n ==> after.items[i] == parent.items[i]) &&
           (forall i :: n <= i < |parent.items| ==> after.items[i + 1] == parent.items[i])
  }

  lemma Inserted(items: seq<Json>, n: nat, value: Json)
    requires n <= |items|
    ensures var after := items[..n] + [value] + items[n..];
            && |after| == |items| + 1 && after[n] == value
            && (forall i :: 0 <= i < n ==> after[i] == items[i])
            && (forall i :: n <= i < |items| ==> after[i + 1] == items[i])
  {
  }

  lemma ElementAdded(items: seq<Json>, key: string, value: Json)
    requires key != "-"
    ensures AddMember(Arr(items), key, value).Some? <==> Takes(Arr(items), key)
    ensures AddMember(Arr(items), key, value).Some? ==>
              IsAdded(Arr(items), key, value, AddMember(Arr(items), key, value).value)
  {
    var index := ArrayIndex(key);
    if index.Some? && index.value <= |items| {
      NamesPosition(key, index.value);
      Inserted(items, index.value, value);
    }
    if n: nat :| n <= |items| && key == Decimal(n) {
      NamesPosition(key, n);
    }
  }

  lemma MemberAdded(parent: Json, key: string, value: Json)
    ensures AddMember(parent, key, value).Some? <==> Takes(parent, key)
    ensures AddMember(parent, key, value).Some? ==> IsAdded(parent, key, value, AddMember(parent, key, value).value)
  {
    if parent.Arr? && key != "-" {
      ElementAdded(parent.items, key, value);
    }
  }

  /**
    An add succeeds exactly where the parent exists and takes the key; it changes the parent just so,
    and nothing apart from it.
   */
  lemma AddIsExact(doc: Json, parts: seq<string>, value: Json)
    requires parts != []
    ensures PatchAdd(doc, parts, value).Some? <==>
              Get(doc, Init(parts)).Some? && Takes(Get(doc, Init(parts)).value, Last(parts))
    ensures PatchAdd(doc, parts, value).Some? ==>
              var after := PatchAdd(doc, parts, value).value;
              && Get(after, Init(parts)).Some?
              && IsAdded(Get(doc, Init(parts)).value, Last(parts), value, Get(after, Init(parts)).value)
              && Apart(doc, after, Init(parts))
  {
    if Get(doc, Init(parts)).Some? {
      MemberAdded(Get(doc, Init(parts)).value, Last(parts), value);
      var edited := AddMember(Get(doc, Init(parts)).value, Last(parts), value);
      if edited.Some? {
        GetPut(doc, Init(parts), edited.value);
        PutApart(doc, Init(parts), edited.value);
      }
    }
  }

  /** The documents agree on every path that neither leads to `at` nor away from it. */
  ghost predicate Apart(doc: Json, after: Json, at: seq<string>) {
    forall other: seq<string> :: !IsPrefix(at, other) && !IsPrefix(other, at) ==> Get(after, other) == Get(doc, other)
  }

  lemma PutApart(doc: Json, at: seq<string>, x: Json)
    requires Get(doc, at).Some?
    ensures Apart(doc, Put(doc, at, x), at)
  {
    forall other: seq<string> | !IsPrefix(at, other) && !IsPrefix(other, at)
      ensures Get(Put(doc, at, x), other) == Get(doc, other)
    {
      PutElsewhere(doc, at, x, other);
    }
  }

  // ---- remove ----

  ghost predicate IsRemoved(parent: Json, key: string, after: Json) {
    if parent.Obj? then key in parent.members && after == Obj(parent.members - {key})
    else
      && parent.Arr? && after.Arr? && |after.items| == |parent.items| - 1
      && exists n: nat :: n < |parent.items| && key == Decimal(n) &&
           (forall i :: 0 <= i < n ==> after.items[i] == parent.items[i]) &&
           (forall i :: n <= i < |after.items| ==> after.items[i] == parent.items[i + 1])
  }

  lemma MemberRemoved(parent: Json, key: string)
    ensures RemoveMember(parent, key).Some? <==> Child(parent, key).Some?
    ensures RemoveMember(parent, key).Some? ==> IsRemoved(parent, key, RemoveMember(parent, key).value)
  {
    if parent.Arr? && ArrayIndex(key).Some? {
      NamesPosition(key, ArrayIndex(key).value);
    }
  }

  /** A remove succeeds exactly where there is a value below the root, and takes out that value alone. */
  lemma RemoveIsExact(doc: Json, parts: seq<string>)
    ensures PatchRemove(doc, parts).Some? <==> parts != [] && Get(doc, parts).Some?
    ensures PatchRemove(doc, parts).Some? ==>
              var after := PatchRemove(doc, parts).value;
              && Get(doc, Init(parts)).Some? && Get(after, Init(parts)).Some?
              && IsRemoved(Get(doc, Init(parts)).value, Last(parts), Get(after, Init(parts)).value)
              && Apart(doc, after, Init(parts))
  {
    if parts != [] {
      GetLast(doc, parts);
      if Get(doc, Init(parts)).Some? {
        MemberRemoved(Get(doc, Init(parts)).value, Last(parts));
        var edited := RemoveMember(Get(doc, Init(parts)).value, Last(parts));
        if edited.Some? {
          GetPut(doc, Init(parts), edited.value);
          PutApart(doc, Init(parts), edited.value);
        }
      }
    }
  }

  // ---- test ----

  /** Booleans as the numbers they equal. */
  function Normal(a: Json): Json
    decreases a
  {
    match a
    case Bool(b) => Num(if b then 1.0 else 0.0)
    case Arr(items) => Arr(seq(|items|, i requires 0 <= i < |items| => Normal(items[i])))
    case Obj(members) => Obj(map k | k in members :: Normal(members[k]))
    case _ => a
  }

  /** Python's equality is equality of documents in which booleans are numbers: nothing else is identified. */
  lemma {:induction false} PyEqIsNormalEquality(a: Json, b: Json)
    ensures PyEq(a, b) <==> Normal(a) == Normal(b)
    decreases a
  {
    match a
    case Arr(items) =>
      if b.Arr? && |items| == |b.items| {
        forall i | 0 <= i < |items|
          ensures PyEq(items[i], b.items[i]) <==> Normal(a).items[i] == Normal(b).items[i]
        {
          PyEqIsNormalEquality(items[i], b.items[i]);
        }
      } else if b.Arr? {
        assert |Normal(a).items| == |items| && |Normal(b).items| == |b.items|;
      }
    case Obj(members) =>
      if b.Obj? {
        ObjectsAreEqualByMember(a, b);
        if members.Keys == b.members.Keys {
          forall k | k in members
            ensures PyEq(members[k], b.members[k]) <==> Normal(members[k]) == Normal(b.members[k])
          {
            PyEqIsNormalEquality(members[k], b.members[k]);
          }
        }
      }
    case _ =>
  }

  predicate EqualByMember(a: map<string, Json>, b: map<string, Json>) {
    a.Keys == b.Keys && forall k <- a :: Normal(a[k]) == Normal(b[k])
  }

  lemma NormalMembers(a: Json)
    requires a.Obj?
    ensures Normal(a).Obj? && Normal(a).members.Keys == a.members.Keys
    ensures forall k <- a.members :: Normal(a).members[k] == Normal(a.members[k])
  {
  }

  lemma ObjectsAreEqualByMember(a: Json, b: Json)
    requires a.Obj? && b.Obj?
    ensures Normal(a) == Normal(b) <==> EqualByMember(a.members, b.members)
  {
    NormalMembers(a);
    NormalMembers(b);
    if Normal(a) == Normal(b) {
      forall k | k in a.members
        ensures k in b.members && Normal(a.members[k]) == Normal(b.members[k])
      {
        assert Normal(a).members[k] == Normal(b).members[k];
      }
    }
    if EqualByMember(a.members, b.members) {
      assert Normal(a).members == Normal(b).members;
    }
  }

  /** A test never changes the document, and passes exactly when the value is there and equal; no value means null. */
  lemma TestIsExact(doc: Json, op: Op, parts: seq<string>)
    requires op.op == "test" && op.path == Some(Print(parts))
    ensures var expected := if op.value.None? then Null else op.value.value;
            ApplyOp(doc, op) == if Get(doc, parts).Some? && Normal(Get(doc, parts).value) == Normal(expected)
                                then Some(doc) else None
  {
    ParseAfterPrint(parts);
    if Get(doc, parts).Some? {
      PyEqIsNormalEquality(Get(doc, parts).value, if op.value.None? then Null else op.value.value);
    }
  }

  // ---- every operation ----

  /** An add at the path would be accepted. */
  ghost predicate CanAdd(doc: Json, parts: seq<string>) {
    parts == [] || (Get(doc, Init(parts)).Some? && Takes(Get(doc, Init(parts)).value, Last(parts)))
  }

  ghost predicate CanCopy(doc: Json, parts: seq<string>, from: Option<string>) {
    from.Some? && PtrParts(from.value).Some? && Get(doc, PtrParts(from.value).value).Some? && CanAdd(doc, parts)
  }

  ghost predicate CanApply(doc: Json, op: Op) {
    && op.path.Some? && PtrParts(op.path.value).Some?
    && var parts := PtrParts(op.path.value).value;
    || (op.op == "replace" && op.value.Some? && (parts == [] || Get(doc, parts).Some?))
    || (op.op == "add" && op.value.Some? && CanAdd(doc, parts))
    || (op.op == "remove" && parts != [] && Get(doc, parts).Some?)
    || (op.op == "test" && Get(doc, parts).Some? &&
        Normal(Get(doc, parts).value) == Normal(if op.value.None? then Null else op.value.value))
    || (op.op == "copy" && CanCopy(doc, parts, op.from))
    || (op.op == "move" && CanMove(doc, parts, op.from))
  }

  /** A value moves onto itself, never into itself, and else to where it can be added once it is taken out. */
  ghost predicate CanMove(doc: Json, parts: seq<string>, from: Option<string>) {
    && from.Some? && PtrParts(from.value).Some?
    && var source := PtrParts(from.value).value;
    && Get(doc, source).Some?
    && (source == parts ||
        (PatchRemove(doc, source).Some? && !IsPrefix(source, parts) && CanAdd(PatchRemove(doc, source).value, parts)))
  }

  lemma CanAddIsExact(doc: Json, parts: seq<string>, value: Json)
    ensures PatchAdd(doc, parts, value).Some? <==> CanAdd(doc, parts)
  {
    if parts != [] {
      AddIsExact(doc, parts, value);
    }
  }

  lemma ReplaceIsExact(doc: Json, parts: seq<string>, value: Json)
    ensures PatchSet(doc, parts, value).Some? <==> parts == [] || Get(doc, parts).Some?
  {
    if parts != [] {
      SetIsPut(doc, parts, value);
    }
  }

  /** Which operations the interpreter carries out, for every operation object and every document. */
  lemma OperationSucceedsIff(doc: Json, op: Op)
    ensures ApplyOp(doc, op).Some? <==> CanApply(doc, op)
  {
    if op.path.Some? && PtrParts(op.path.value).Some? {
      var parts := PtrParts(op.path.value).value;
      if op.op == "replace" && op.value.Some? {
        ReplaceIsExact(doc, parts, op.value.value);
      } else if op.op == "add" && op.value.Some? {
        CanAddIsExact(doc, parts, op.value.value);
      } else if op.op == "remove" {
        RemoveIsExact(doc, parts);
      } else if op.op == "test" && Get(doc, parts).Some? {
        PyEqIsNormalEquality(Get(doc, parts).value, if op.value.None? then Null else op.value.value);
      } else if op.op == "copy" {
        CopySucceedsIff(doc, parts, op.from);
      } else if op.op == "move" {
        MoveSucceedsIff(doc, parts, op.from);
      }
    }
  }

  lemma CopySucceedsIff(doc: Json, parts: seq<string>, from: Option<string>)
    ensures ApplyCopy(doc, parts, from).Some? <==> CanCopy(doc, parts, from)
  {
    if from.Some? && PtrParts(from.value).Some? {
      var value := Get(doc, PtrParts(from.value).value);
      if value.Some? {
        CanAddIsExact(doc, parts, value.value);
      }
    }
  }

  lemma MoveSucceedsIff(doc: Json, parts: seq<string>, from: Option<string>)
    ensures ApplyMove(doc, parts, from).Some? <==> CanMove(doc, parts, from)
  {
    if from.Some? && PtrParts(from.value).Some? {
      var source := PtrParts(from.value).value;
      var value := Get(doc, source);
      if value.Some? && PatchRemove(doc, source).Some? {
        CanAddIsExact(PatchRemove(doc, source).value, parts, value.value);
      }
    }
  }
}
