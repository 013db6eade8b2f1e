/** What the patch interpreter promises on arbitrarily nested documents. */
module PatchTheorems {
  import opened Options
  import opened JsonPointer
  import opened JsonPatch

  // ---- editing in place is a lens ----

  lemma {:induction false} GetPut(doc: Json, parts: seq<string>, x: Json)
    requires Get(doc, parts).Some?
    ensures Get(Put(doc, parts, x), parts) == Some(x)
    decreases |parts|
  {
    if parts != [] {
      GetPut(Child(doc, parts[0]).value, parts[1..], x);
    }
  }

  lemma {:induction false} PutGet(doc: Json, parts: seq<string>)
    requires Get(doc, parts).Some?
    ensures Put(doc, parts, Get(doc, parts).value) == doc
    decreases |parts|
  {
    if parts != [] {
      PutGet(Child(doc, parts[0]).value, parts[1..]);
    }
  }

  lemma {:induction false} PutPut(doc: Json, parts: seq<string>, x: Json, y: Json)
    requires Get(doc, parts).Some?
    ensures Get(Put(doc, parts, x), parts).Some?
    ensures Put(Put(doc, parts, x), parts, y) == Put(doc, parts, y)
    decreases |parts|
  {
    if parts != [] {
      var child := Child(doc, parts[0]).value;
      PutPut(child, parts[1..], x, y);
      var child1 := Put(child, parts[1..], x);
      assert Child(PutChild(doc, parts[0], child1), parts[0]) == Some(child1);
      assert PutChild(PutChild(doc, parts[0], child1), parts[0], Put(child, parts[1..], y)) ==
             PutChild(doc, parts[0], Put(child, parts[1..], y));
    }
  }

  lemma PrefixOfTail(a: seq<string>, b: seq<string>)
    requires a != [] && b != [] && a[0] == b[0] && IsPrefix(a[1..], b[1..])
    ensures IsPrefix(a, b)
  {
    assert b[..|a|] == [b[0]] + b[1..][..|a| - 1];
    assert a == [a[0]] + a[1..];
  }

  lemma ChildElsewhere(doc: Json, part: string, child: Json, other: string)
    requires Child(doc, part).Some? && part != other
    ensures Child(PutChild(doc, part, child), other) == Child(doc, other)
  {
    if doc.Arr? && ArrayIndex(other).Some? {
      IndexIsDecimal(part);
      IndexIsDecimal(other);
    }
  }

  /** Different tokens address different children, so an edit leaves every diverging path alone. */
  lemma {:induction false} PutElsewhere(doc: Json, parts: seq<string>, x: Json, other: seq<string>)
    requires Get(doc, parts).Some?
    requires !IsPrefix(parts, other) && !IsPrefix(other, parts)
    ensures Get(Put(doc, parts, x), other) == Get(doc, other)
    decreases |parts|
  {
    assert parts != [] && other != [];
    var child := Child(doc, parts[0]).value;
    if parts[0] == other[0] {
      assert !IsPrefix(parts[1..], other[1..]) && !IsPrefix(other[1..], parts[1..]) by {
        if IsPrefix(parts[1..], other[1..]) {
          PrefixOfTail(parts, other);
        }
        if IsPrefix(other[1..], parts[1..]) {
          PrefixOfTail(other, parts);
        }
      }
      PutElsewhere(child, parts[1..], x, other[1..]);
    } else {
      ChildElsewhere(doc, parts[0], Put(child, parts[1..], x), other[0]);
    }
  }

  lemma {:induction false} GetLast(doc: Json, parts: seq<string>)
    requires parts != []
    ensures Get(doc, parts) ==
            if Get(doc, Init(parts)).None? then None else Child(Get(doc, Init(parts)).value, Last(parts))
    decreases |parts|
  {
    if |parts| == 1 {
      assert parts[1..] == [] && Init(parts) == [];
    } else {
      assert Init(parts)[0] == parts[0] && Init(parts)[1..] == Init(parts[1..]) && Last(parts[1..]) == Last(parts);
      if Child(doc, parts[0]).Some? {
        GetLast(Child(doc, parts[0]).value, parts[1..]);
      }
    }
  }

  // ---- replace is remove then add (section 4.3) ----

  lemma SetIsRemoveThenAdd(parent: Json, key: string, value: Json)
    ensures SetMember(parent, key, value) ==
            if RemoveMember(parent, key).None? then None else AddMember(RemoveMember(parent, key).value, key, value)
  {
    if parent.Obj? && key in parent.members {
      assert (parent.members - {key})[key := value] == parent.members[key := value];
    }
    if parent.Arr? {
      assert ArrayIndex("-").None?;
      var index := ArrayIndex(key);
      if index.Some? && index.value < |parent.items| {
        var i, items := index.value, parent.items;
        var removed := items[..i] + items[i + 1..];
        assert removed[..i] + [value] + removed[i..] == items[i := value];
      }
    }
  }

  /** At every non-root path, in result and in success or failure. */
  lemma ReplaceIsRemoveThenAdd(doc: Json, parts: seq<string>, value: Json)
    requires parts != []
    ensures PatchSet(doc, parts, value) ==
            if PatchRemove(doc, parts).None? then None else PatchAdd(PatchRemove(doc, parts).value, parts, value)
  {
    var at := Init(parts);
    if Get(doc, at).Some? {
      var parent := Get(doc, at).value;
      SetIsRemoveThenAdd(parent, Last(parts), value);
      var removed := RemoveMember(parent, Last(parts));
      if removed.Some? {
        GetPut(doc, at, removed.value);
        var added := AddMember(removed.value, Last(parts), value);
        if added.Some? {
          PutPut(doc, at, removed.value, added.value);
        }
      }
    }
  }

  // ---- what an add, a move and a copy leave behind (sections 4.1, 4.4, 4.5) ----

  /** After an add whose path does not end in "-", the path holds the value. */
  lemma AddThenGet(doc: Json, parts: seq<string>, value: Json)
    requires PatchAdd(doc, parts, value).Some?
    requires parts == [] || Last(parts) != "-" || !Get(doc, Init(parts)).value.Arr?
    ensures Get(PatchAdd(doc, parts, value).value, parts) == Some(value)
  {
    if parts != [] {
      var at := Init(parts);
      var added := AddMember(Get(doc, at).value, Last(parts), value).value;
      GetPut(doc, at, added);
      GetLast(PatchAdd(doc, parts, value).value, parts);
    }
  }

  /** Where an added value ends up: "-" stands for the position behind the last element of an array. */
  function Landing(doc: Json, parts: seq<string>): seq<string> {
    if parts == [] || Last(parts) != "-" then parts
    else
      match Get(doc, Init(parts))
      case Some(Arr(items)) => Init(parts) + [Decimal(|items|)]
      case _ => parts
  }

  /** Adding at "-" of an array always works and appends the value, at the position the array then ends with. */
  lemma AppendThenGet(doc: Json, parts: seq<string>, value: Json, items: seq<Json>)
    requires parts != [] && Last(parts) == "-" && Get(doc, Init(parts)) == Some(Arr(items))
    ensures PatchAdd(doc, parts, value).Some?
    ensures Get(PatchAdd(doc, parts, value).value, Init(parts)) == Some(Arr(items + [value]))
    ensures Get(PatchAdd(doc, parts, value).value, Landing(doc, parts)) == Some(value)
  {
    var at, landing := Init(parts), Landing(doc, parts);
    GetPut(doc, at, Arr(items + [value]));
    assert Init(landing) == at && Last(landing) == Decimal(|items|);
    DecimalIsIndex(|items|);
    GetLast(PatchAdd(doc, parts, value).value, landing);
  }

  /** Whatever its path, a successful add leaves the value where it lands. */
  lemma AddLands(doc: Json, parts: seq<string>, value: Json)
    requires PatchAdd(doc, parts, value).Some?
    ensures Get(PatchAdd(doc, parts, value).value, Landing(doc, parts)) == Some(value)
  {
    if parts != [] && Last(parts) == "-" && Get(doc, Init(parts)).value.Arr? {
      AppendThenGet(doc, parts, value, Get(doc, Init(parts)).value.items);
    } else {
      AddThenGet(doc, parts, value);
    }
  }

  lemma ReplaceThenGet(doc: Json, parts: seq<string>, value: Json)
    requires PatchSet(doc, parts, value).Some?
    ensures Get(PatchSet(doc, parts, value).value, parts) == Some(value)
    ensures parts != [] ==> forall other: seq<string> ::
              !IsPrefix(parts, other) && !IsPrefix(other, parts) ==>
              Get(PatchSet(doc, parts, value).value, other) == Get(doc, other)
  {
    if parts != [] {
      var at := Init(parts);
      var set_ := SetMember(Get(doc, at).value, Last(parts), value).value;
      GetPut(doc, at, set_);
      GetLast(PatchSet(doc, parts, value).value, parts);
      SetIsPut(doc, parts, value);
      forall other: seq<string> | !IsPrefix(parts, other) && !IsPrefix(other, parts)
        ensures Get(PatchSet(doc, parts, value).value, other) == Get(doc, other)
      {
        PutElsewhere(doc, parts, value, other);
      }
    }
  }

  /** Replacing is putting the value at the very path. */
  lemma {:induction false} SetIsPut(doc: Json, parts: seq<string>, value: Json)
    requires parts != []
    ensures PatchSet(doc, parts, value) == if Get(doc, parts).None? then None else Some(Put(doc, parts, value))
    decreases |parts|
  {
    GetLast(doc, parts);
    if Get(doc, parts).Some? {
      var first := parts[0];
      if |parts| == 1 {
        assert Init(parts) == [] && parts[1..] == [];
      } else {
        var child := Child(doc, first).value;
        assert Init(parts)[0] == first && Init(parts)[1..] == Init(parts[1..]) && Last(parts[1..]) == Last(parts);
        SetIsPut(child, parts[1..], value);
      }
    }
  }

  lemma {:induction false} PyEqReflexive(a: Json)
    ensures PyEq(a, a)
  {
    match a
    case Arr(items) =>
      forall i | 0 <= i < |items|
        ensures PyEq(items[i], items[i])
      {
        PyEqReflexive(items[i]);
      }
    case Obj(members) =>
      forall k | k in members
        ensures PyEq(members[k], members[k])
      {
        PyEqReflexive(members[k]);
      }
    case _ =>
  }

  function Named(name: string, parts: seq<string>): Op {
    Op(name, Some(Print(parts)), None, None)
  }

  function Replacing(parts: seq<string>, value: Json): Op {
    Op("replace", Some(Print(parts)), Some(value), None)
  }

  function Adding(parts: seq<string>, value: Json): Op {
    Op("add", Some(Print(parts)), Some(value), None)
  }

  function Testing(parts: seq<string>, value: Json): Op {
    Op("test", Some(Print(parts)), Some(value), None)
  }

  lemma TestPasses(doc: Json, parts: seq<string>, value: Json)
    requires Get(doc, parts) == Some(value)
    ensures ApplyOp(doc, Testing(parts, value)) == Some(doc)
  {
    ParseAfterPrint(parts);
    PyEqReflexive(value);
  }

  /** Where the operation's value lands; a move has taken it out of its source before. */
  function TransferLanding(doc: Json, op: Op, from: seq<string>, parts: seq<string>): seq<string> {
    if op.op == "move" then
      if from == parts || PatchRemove(doc, from).None? then parts else Landing(PatchRemove(doc, from).value, parts)
    else Landing(doc, parts)
  }

  /** Whatever a copy or a move put at its target, "-" included, passes a test against what its source held. */
  lemma TransferredValuePassesTest(doc: Json, op: Op, from: seq<string>, parts: seq<string>)
    requires (op.op == "copy" || op.op == "move") && op.path == Some(Print(parts)) && op.from == Some(Print(from))
    requires ApplyOp(doc, op).Some?
    ensures Get(doc, from).Some?
    ensures var landing := TransferLanding(doc, op, from, parts);
            ApplyOp(ApplyOp(doc, op).value, Testing(landing, Get(doc, from).value)) == ApplyOp(doc, op)
  {
    ParseAfterPrint(parts);
    ParseAfterPrint(from);
    var value := Get(doc, from).value;
    if op.op == "copy" {
      AddLands(doc, parts, value);
    } else if from != parts {
      AddLands(PatchRemove(doc, from).value, parts, value);
    }
    TestPasses(ApplyOp(doc, op).value, TransferLanding(doc, op, from, parts), value);
  }

  // ---- every successful operation can be undone by operations ----

  /** The operation that takes an added value out again. */
  function UndoAdd(doc: Json, parts: seq<string>): Op {
    if parts == [] then Replacing([], doc)
    else
      match Get(doc, Init(parts))
      case Some(Obj(members)) =>
        if Last(parts) in members then Replacing(parts, members[Last(parts)]) else Named("remove", parts)
      case Some(Arr(items)) =>
        if Last(parts) == "-" then Named("remove", Init(parts) + [Decimal(|items|)]) else Named("remove", parts)
      case _ => Replacing([], doc)
  }

  /** A patch that takes the operation back, computed from the document it is about to be applied to. */
  function Undo(doc: Json, op: Op): seq<Op> {
    if op.path.None? || PtrParts(op.path.value).None? then []
    else
      var parts := PtrParts(op.path.value).value;
      if op.op == "replace" then
        if Get(doc, parts).None? then [] else [Replacing(parts, Get(doc, parts).value)]
      else if op.op == "add" || op.op == "copy" then [UndoAdd(doc, parts)]
      else if op.op == "remove" then
        if Get(doc, parts).None? then [] else [Adding(parts, Get(doc, parts).value)]
      else if op.op == "move" then UndoMove(doc, parts, op.from)
      else []
  }

  function UndoMove(doc: Json, parts: seq<string>, from: Option<string>): seq<Op> {
    if from.None? || PtrParts(from.value).None? then []
    else
      var source := PtrParts(from.value).value;
      if source == parts || Get(doc, source).None? || PatchRemove(doc, source).None? then []
      else [UndoAdd(PatchRemove(doc, source).value, parts), Adding(source, Get(doc, source).value)]
  }

  /** The undo patch of a whole patch: each operation's undo, in reverse. */
  function UndoAll(doc: Json, ops: seq<Op>): seq<Op>
    decreases |ops|
  {
    if ops == [] then []
    else
      var next := ApplyOp(doc, ops[0]);
      if next.None? then [] else UndoAll(next.value, ops[1..]) + Undo(doc, ops[0])
  }

  lemma UndoReplace(doc: Json, parts: seq<string>, value: Json)
    requires PatchSet(doc, parts, value).Some?
    ensures Get(doc, parts).Some?
    ensures PatchSet(PatchSet(doc, parts, value).value, parts, Get(doc, parts).value) == Some(doc)
  {
    if parts != [] {
      SetIsPut(doc, parts, value);
      GetPut(doc, parts, value);
      PutPut(doc, parts, value, Get(doc, parts).value);
      PutGet(doc, parts);
      SetIsPut(Put(doc, parts, value), parts, Get(doc, parts).value);
    }
  }

  lemma UndoRemove(doc: Json, parts: seq<string>)
    requires PatchRemove(doc, parts).Some?
    ensures Get(doc, parts).Some?
    ensures PatchAdd(PatchRemove(doc, parts).value, parts, Get(doc, parts).value) == Some(doc)
  {
    var at := Init(parts);
    GetLast(doc, parts);
    ReplaceIsRemoveThenAdd(doc, parts, Get(doc, parts).value);
    SetIsPut(doc, parts, Get(doc, parts).value);
    PutGet(doc, parts);
  }

  /** Array shifts included: an inserted element is taken out, an appended one dropped from the end. */
  lemma UndoAddMember(parent: Json, key: string, value: Json)
    requires AddMember(parent, key, value).Some?
    ensures var added := AddMember(parent, key, value).value;
            match parent
            case Arr(items) =>
              RemoveMember(added, if key == "-" then Decimal(|items|) else key) == Some(parent)
            case Obj(members) =>
              if key in members then SetMember(added, key, members[key]) == Some(parent)
              else RemoveMember(added, key) == Some(parent)
            case _ => false
  {
    match parent
    case Arr(items) =>
      if key == "-" {
        DecimalIsIndex(|items|);
        assert (items + [value])[..|items|] + (items + [value])[|items| + 1..] == items;
      } else {
        var i := ArrayIndex(key).value;
        var added := items[..i] + [value] + items[i..];
        assert added[..i] + added[i + 1..] == items;
      }
    case Obj(members) =>
      if key in members {
        assert members[key := value][key := members[key]] == members;
      } else {
        assert members[key := value] - {key} == members;
      }
  }

  /** Editing the parent and editing it back is the identity on the document. */
  lemma EditedBack(doc: Json, at: seq<string>, edited: Json)
    requires Get(doc, at).Some?
    ensures Get(Put(doc, at, edited), at) == Some(edited)
    ensures Put(Put(doc, at, edited), at, Get(doc, at).value) == doc
  {
    GetPut(doc, at, edited);
    PutPut(doc, at, edited, Get(doc, at).value);
    PutGet(doc, at);
  }

  function UndoTarget(items: seq<Json>, parts: seq<string>): seq<string>
    requires parts != []
  {
    if Last(parts) == "-" then Init(parts) + [Decimal(|items|)] else parts
  }

  lemma UndoAddAtIndex(doc: Json, parts: seq<string>, value: Json, items: seq<Json>)
    requires parts != [] && PatchAdd(doc, parts, value).Some? && Get(doc, Init(parts)) == Some(Arr(items))
    ensures PatchRemove(PatchAdd(doc, parts, value).value, UndoTarget(items, parts)) == Some(doc)
  {
    var at := Init(parts);
    UndoAddMember(Arr(items), Last(parts), value);
    EditedBack(doc, at, AddMember(Arr(items), Last(parts), value).value);
    assert Init(UndoTarget(items, parts)) == at;
  }

  lemma UndoAddInArray(doc: Json, parts: seq<string>, value: Json)
    requires parts != [] && PatchAdd(doc, parts, value).Some? && Get(doc, Init(parts)).value.Arr?
    ensures ApplyOp(PatchAdd(doc, parts, value).value, UndoAdd(doc, parts)) == Some(doc)
  {
    var items := Get(doc, Init(parts)).value.items;
    UndoAddAtIndex(doc, parts, value, items);
    NamedRemoveIs(PatchAdd(doc, parts, value).value, UndoTarget(items, parts));
    assert UndoAdd(doc, parts) == Named("remove", UndoTarget(items, parts));
  }

  lemma NamedRemoveIs(doc: Json, target: seq<string>)
    ensures ApplyOp(doc, Named("remove", target)) == PatchRemove(doc, target)
  {
    ParseAfterPrint(target);
  }

  lemma UndoAddInObject(doc: Json, parts: seq<string>, value: Json)
    requires parts != [] && PatchAdd(doc, parts, value).Some? && Get(doc, Init(parts)).value.Obj?
    ensures ApplyOp(PatchAdd(doc, parts, value).value, UndoAdd(doc, parts)) == Some(doc)
  {
    var at := Init(parts);
    var parent := Get(doc, at).value;
    UndoAddMember(parent, Last(parts), value);
    EditedBack(doc, at, AddMember(parent, Last(parts), value).value);
    ParseAfterPrint(parts);
  }

  lemma UndoAddRestores(doc: Json, parts: seq<string>, value: Json)
    requires PatchAdd(doc, parts, value).Some?
    ensures ApplyOp(PatchAdd(doc, parts, value).value, UndoAdd(doc, parts)) == Some(doc)
  {
    if parts == [] {
      ParseAfterPrint([]);
    } else if Get(doc, Init(parts)).value.Arr? {
      UndoAddInArray(doc, parts, value);
    } else {
      UndoAddInObject(doc, parts, value);
    }
  }

  /** One operation, whatever it is, is undone exactly by its undo patch. */
  lemma UndoRestores(doc: Json, op: Op)
    requires ApplyOp(doc, op).Some?
    ensures Apply(ApplyOp(doc, op).value, Undo(doc, op)) == Some(doc)
  {
    var parts := PtrParts(op.path.value).value;
    ParseAfterPrint(parts);
    var after := ApplyOp(doc, op).value;
    if op.op == "replace" {
      UndoReplace(doc, parts, op.value.value);
      OneOp(after, Replacing(parts, Get(doc, parts).value));
    } else if op.op == "add" {
      UndoAddRestores(doc, parts, op.value.value);
      OneOp(after, UndoAdd(doc, parts));
    } else if op.op == "copy" {
      UndoAddRestores(doc, parts, Get(doc, PtrParts(op.from.value).value).value);
      OneOp(after, UndoAdd(doc, parts));
    } else if op.op == "remove" {
      UndoRemove(doc, parts);
      OneOp(after, Adding(parts, Get(doc, parts).value));
    } else if op.op == "move" {
      UndoMoveRestores(doc, op, parts);
    }
  }

  lemma UndoMoveRestores(doc: Json, op: Op, parts: seq<string>)
    requires op.op == "move" && ApplyOp(doc, op).Some? && PtrParts(op.path.value).value == parts
    ensures Apply(ApplyOp(doc, op).value, Undo(doc, op)) == Some(doc)
  {
    var source := PtrParts(op.from.value).value;
    if source != parts {
      var value := Get(doc, source).value;
      var removed := PatchRemove(doc, source).value;
      UndoAddRestores(removed, parts, value);
      UndoRemove(doc, source);
      ParseAfterPrint(source);
      var undo := [UndoAdd(removed, parts), Adding(source, value)];
      assert undo[1..] == [Adding(source, value)];
      OneOp(removed, Adding(source, value));
      assert Undo(doc, op) == undo;
    }
  }

  lemma OneOp(doc: Json, op: Op)
    ensures Apply(doc, [op]) == ApplyOp(doc, op)
  {
    assert [op][1..] == [];
  }

  lemma {:induction false} ApplyAppend(doc: Json, first: seq<Op>, second: seq<Op>)
    ensures Apply(doc, first + second) ==
            if Apply(doc, first).None? then None else Apply(Apply(doc, first).value, second)
    decreases |first|
  {
    if first == [] {
      assert first + second == second;
    } else {
      assert (first + second)[1..] == first[1..] + second;
      if ApplyOp(doc, first[0]).Some? {
        ApplyAppend(ApplyOp(doc, first[0]).value, first[1..], second);
      }
    }
  }

  /** Every patch that applies has a patch that takes it back: the original document, exactly. */
  lemma {:induction false} EveryPatchCanBeUndone(doc: Json, ops: seq<Op>)
    requires Apply(doc, ops).Some?
    ensures Apply(Apply(doc, ops).value, UndoAll(doc, ops)) == Some(doc)
    decreases |ops|
  {
    if ops != [] {
      var next := ApplyOp(doc, ops[0]).value;
      EveryPatchCanBeUndone(next, ops[1..]);
      UndoRestores(doc, ops[0]);
      ApplyAppend(Apply(doc, ops).value, UndoAll(next, ops[1..]), Undo(doc, ops[0]));
    }
  }
}
