/** The middleware on mutable JavaScript objects: sanitizeInPlace, and the loops of sanitizeValue. */
module SanitizeHeap {
  import opened Sanitize

  /** The content of a slot: a primitive, or a reference to an array or object. */
  datatype Val = Prim(leaf: Json) | Ref(node: JsNode)

  datatype Entry = Entry(key: string, val: Val)

  /** An array or an object; the elements of an array have empty keys. `Repr` is its tree. */
  class JsNode {
    var isArray: bool
    var slots: seq<Entry>
    ghost var Repr: set<JsNode>

    ghost predicate Apart(a: Val, b: Val)
      reads this, Repr
    {
      a.Ref? && b.Ref? && a.node in Repr && b.node in Repr ==> a.node.Repr !! b.node.Repr
    }

    /** The trees of different slots are disjoint. */
    ghost predicate Unshared(s: seq<Entry>)
      reads this, Repr
    {
      forall i, j | 0 <= i < j < |s| :: Apart(s[i].val, s[j].val)
    }

    /** The tree under this node, without sharing, is the JSON tree `v`. */
    ghost predicate Represents(v: Json)
      reads this, Repr
      decreases v, 0
    {
      && this in Repr
      && Unshared(slots)
      && match v
         case Arr(items) =>
           isArray && |slots| == |items| && forall i :: 0 <= i < |slots| ==> Holds(slots[i].val, items[i])
         case Obj(fields) =>
           && !isArray && |slots| == |fields|
           && forall i :: 0 <= i < |slots| ==> slots[i].key == fields[i].key && Holds(slots[i].val, fields[i].value)
         case _ => false
    }

    ghost predicate Holds(val: Val, v: Json)
      reads this, Repr
      decreases v, 1
    {
      match val
      case Prim(leaf) => leaf == v && !leaf.Container()
      case Ref(c) => c in Repr && c in c.Repr && c.Repr <= Repr && this !in c.Repr && c.Represents(v)
    }

    /** sanitizeInPlace on this node: the tree it held is now the in-place result, and nothing
        outside the tree was written. */
    method SanitizeInPlace(depth: nat, f: string -> string, ghost v: Json)
      requires Represents(v)
      modifies Repr
      ensures Represents(InPlace(v, depth, f))
      ensures forall n: JsNode | n in old(Repr) :: n.Repr == old(n.Repr)
      decreases v, 2
    {
      if depth > MAX_DEPTH {
        return;
      }
      if isArray {
        SanitizeElements(depth, f, v);
      } else {
        SanitizeFields(depth, f, v);
      }
    }

    /** One slot: a string is replaced, a container is sanitized, the other slots keep their trees. */
    method SanitizeSlot(i: nat, depth: nat, f: string -> string, ghost x: Json)
      requires i < |slots| && this in Repr && Unshared(slots) && Holds(slots[i].val, x)
      modifies Repr
      ensures |slots| == |old(slots)| && isArray == old(isArray) && Unshared(slots)
      ensures forall n: JsNode | n in old(Repr) :: n.Repr == old(n.Repr)
      ensures slots[i].key == old(slots)[i].key && Holds(slots[i].val, Slot(x, depth, f))
      ensures forall j :: 0 <= j < |slots| && j != i ==> slots[j] == old(slots)[j]
      ensures forall j, y :: 0 <= j < |slots| && j != i && old(Holds(slots[j].val, y)) ==> Holds(slots[j].val, y)
      decreases x, 3
    {
      if slots[i].val.Prim? {
        if slots[i].val.leaf.Str? {
          slots := slots[i := slots[i].(val := Prim(Str(f(slots[i].val.leaf.s))))];
        }
      } else {
        slots[i].val.node.SanitizeInPlace(depth, f, x);
      }
    }

    lemma DeleteKeepsUnshared(at: nat)
      requires at < |slots| && Unshared(slots)
      ensures Unshared(slots[..at] + slots[at + 1..])
    {
    }

    /** The branch for arrays. */
    method SanitizeElements(depth: nat, f: string -> string, ghost v: Json)
      requires Represents(v) && v.Arr? && depth <= MAX_DEPTH
      modifies Repr
      ensures Represents(InPlace(v, depth, f))
      ensures forall n: JsNode | n in old(Repr) :: n.Repr == old(n.Repr)
      decreases v, 1
    {
      ghost var items := v.items;
      var i := 0;
      while i < |slots|
        invariant 0 <= i <= |slots| == |items|
        invariant isArray && this in Repr && Unshared(slots)
        invariant forall n: JsNode | n in old(Repr) :: n.Repr == old(n.Repr)
        invariant forall j :: 0 <= j < i ==> Holds(slots[j].val, Slot(items[j], depth + 1, f))
        invariant forall j :: i <= j < |slots| ==> Holds(slots[j].val, items[j])
      {
        SanitizeSlot(i, depth + 1, f, items[i]);
        i := i + 1;
      }
      forall j | 0 <= j < |slots|
        ensures Holds(slots[j].val, SlotItems(items, depth + 1, f)[j])
      {
        SlotItemsAt(items, depth + 1, f, j);
      }
    }

    /** Slots from `at` on hold the given fields. */
    ghost predicate Shows(s: seq<Entry>, at: nat, fields: seq<Field>)
      reads this, Repr
    {
      at + |fields| <= |s|
      && forall k :: 0 <= k < |fields| ==> s[at + k].key == fields[k].key && Holds(s[at + k].val, fields[k].value)
    }

    lemma DeleteShows(at: nat, done: seq<Field>, todo: seq<Field>)
      requires |done| == at && todo != [] && Shows(slots, 0, done) && Shows(slots, at, todo)
      ensures Shows(slots[..at] + slots[at + 1..], 0, done) && Shows(slots[..at] + slots[at + 1..], at, todo[1..])
    {
      var s := slots[..at] + slots[at + 1..];
      forall k | 0 <= k < |todo| - 1
        ensures s[at + k].key == todo[1..][k].key && Holds(s[at + k].val, todo[1..][k].value)
      {
        assert s[at + k] == slots[at + (k + 1)];
      }
    }

    /** The entry at `at`: done grows by one field, todo shrinks by one. */
    method SanitizeEntry(at: nat, depth: nat, f: string -> string, ghost done: seq<Field>, ghost todo: seq<Field>)
      requires this in Repr && Unshared(slots) && todo != [] && |done| == at
      requires Shows(slots, 0, done) && Shows(slots, at, todo)
      modifies Repr
      ensures |slots| == |old(slots)| && isArray == old(isArray) && Unshared(slots)
      ensures forall n: JsNode | n in old(Repr) :: n.Repr == old(n.Repr)
      ensures Shows(slots, 0, done + [Field(todo[0].key, Slot(todo[0].value, depth, f))])
      ensures Shows(slots, at + 1, todo[1..])
      decreases todo[0].value, 4
    {
      assert slots[at + 0].key == todo[0].key && Holds(slots[at + 0].val, todo[0].value);
      SanitizeSlot(at, depth, f, todo[0].value);
      forall k | 0 <= k < |todo| - 1
        ensures slots[at + 1 + k].key == todo[1..][k].key && Holds(slots[at + 1 + k].val, todo[1..][k].value)
      {
        assert old(Holds(slots[at + (k + 1)].val, todo[k + 1].value));
      }
      forall k | 0 <= k < at
        ensures slots[0 + k].key == done[k].key && Holds(slots[0 + k].val, done[k].value)
      {
        assert old(Holds(slots[0 + k].val, done[k].value));
      }
    }

    /** The loop body for one key: delete it, or sanitize what it holds. */
    method SanitizeKey(at: nat, depth: nat, f: string -> string, ghost done: seq<Field>, ghost todo: seq<Field>)
      returns (next: nat, ghost out: seq<Field>)
      requires this in Repr && Unshared(slots) && todo != [] && |done| == at
      requires Shows(slots, 0, done) && Shows(slots, at, todo)
      modifies Repr
      ensures out == done + (if Forbidden(todo[0].key) then [] else [Field(todo[0].key, Slot(todo[0].value, depth, f))])
      ensures next == |out| && |slots| - next == |old(slots)| - at - 1
      ensures isArray == old(isArray) && Unshared(slots)
      ensures forall n: JsNode | n in old(Repr) :: n.Repr == old(n.Repr)
      ensures Shows(slots, 0, out) && Shows(slots, next, todo[1..])
      decreases todo[0].value, 5
    {
      assert slots[at + 0].key == todo[0].key;
      if Forbidden(slots[at].key) {
        DeleteKeepsUnshared(at);
        DeleteShows(at, done, todo);
        slots := slots[..at] + slots[at + 1..];
        next, out := at, done;
      } else {
        SanitizeEntry(at, depth, f, done, todo);
        next, out := at + 1, done + [Field(todo[0].key, Slot(todo[0].value, depth, f))];
      }
    }

    /** The branch for objects. The loop runs over a snapshot of the keys; `at` is where the
        current key sits in the object, whose earlier keys are already done or deleted. */
    method SanitizeFields(depth: nat, f: string -> string, ghost v: Json)
      requires Represents(v) && v.Obj? && depth <= MAX_DEPTH
      modifies Repr
      ensures Represents(InPlace(v, depth, f))
      ensures forall n: JsNode | n in old(Repr) :: n.Repr == old(n.Repr)
      decreases v, 1
    {
      ghost var todo, out: seq<Field> := v.fields, [];
      var n := |slots|;
      var i, at := 0, 0;
      while i < n
        invariant 0 <= at <= i <= n == |v.fields| && |slots| == at + (n - i)
        invariant !isArray && this in Repr && Unshared(slots)
        invariant forall n: JsNode | n in old(Repr) :: n.Repr == old(n.Repr)
        invariant todo == v.fields[i..] && out == SlotFields(v.fields[..i], depth + 1, f)
        invariant Shows(slots, 0, out) && |out| == at && Shows(slots, at, todo)
      {
        SlotFieldsStep(v.fields, i, depth + 1, f);
        at, out := SanitizeKey(at, depth + 1, f, out, todo);
        i, todo := i + 1, todo[1..];
      }
      assert v.fields[..n] == v.fields;
      assert InPlace(v, depth, f) == Obj(out);
    }
  }

  /** A node holds one tree only. */
  lemma {:induction false} RepresentsOne(n: JsNode, a: Json, b: Json)
    requires n.Represents(a) && n.Represents(b)
    ensures a == b
    decreases a, 0
  {
    forall i | 0 <= i < |n.slots|
      ensures a.Arr? && b.Arr? ==> a.items[i] == b.items[i]
      ensures a.Obj? && b.Obj? ==> a.fields[i] == b.fields[i]
    {
      if a.Arr? && b.Arr? {
        HoldsOne(n, n.slots[i].val, a.items[i], b.items[i]);
      } else if a.Obj? && b.Obj? {
        HoldsOne(n, n.slots[i].val, a.fields[i].value, b.fields[i].value);
      }
    }
  }

  lemma {:induction false} HoldsOne(n: JsNode, val: Val, a: Json, b: Json)
    requires n.Holds(val, a) && n.Holds(val, b)
    ensures a == b
    decreases a, 1
  {
    if val.Ref? {
      RepresentsOne(val.node, a, b);
    }
  }

  /** The body sanitizer on the heap: afterwards the body holds the pure sanitizer's result exactly
      when no surviving string at level 11 would be changed, and it is free of forbidden keys. */
  method SanitizeBody(body: JsNode, f: string -> string, ghost v: Json)
    requires body.Represents(v)
    modifies body.Repr
    ensures body.Represents(InPlace(v, 0, f)) && Clean(InPlace(v, 0, f), 0)
    ensures body.Represents(SanitizeValue(v, 0, f)) <==> DeepStringsFixed(v, 0, f)
  {
    body.SanitizeInPlace(0, f, v);
    InPlaceIsClean(v, f);
    SanitizersAgree(v, f);
    if body.Represents(SanitizeValue(v, 0, f)) {
      RepresentsOne(body, InPlace(v, 0, f), SanitizeValue(v, 0, f));
    }
  }

  // ---------------------------------------------------------------- sanitizeValue

  lemma {:induction false} ValueItemsSnoc(a: seq<Json>, x: Json, depth: nat, f: string -> string)
    ensures ValueItems(a + [x], depth, f) == ValueItems(a, depth, f) + [SanitizeValue(x, depth, f)]
  {
    if a == [] {
      assert [x][1..] == [];
    } else {
      assert (a + [x])[1..] == a[1..] + [x];
      ValueItemsSnoc(a[1..], x, depth, f);
    }
  }

  lemma {:induction false} ValueFieldsSnoc(a: seq<Field>, x: Field, depth: nat, f: string -> string)
    ensures ValueFields(a + [x], depth, f)
      == ValueFields(a, depth, f) + (if Forbidden(x.key) then [] else [Field(x.key, SanitizeValue(x.value, depth, f))])
  {
    if a == [] {
      assert [x][1..] == [];
    } else {
      assert (a + [x])[0] == a[0] && (a + [x])[1..] == a[1..] + [x];
      ValueFieldsSnoc(a[1..], x, depth, f);
    }
  }

  /** The pure sanitizer: map over elements, and a loop that fills a fresh object. */
  method SanitizeCopy(v: Json, depth: nat, f: string -> string) returns (r: Json)
    ensures r == SanitizeValue(v, depth, f)
    decreases v
  {
    if depth > MAX_DEPTH {
      return v;
    }
    match v
    case Str(s) => r := Str(f(s));
    case Arr(items) =>
      var mapped := [];
      for i := 0 to |items|
        invariant mapped == ValueItems(items[..i], depth + 1, f)
      {
        assert items[..i + 1] == items[..i] + [items[i]];
        ValueItemsSnoc(items[..i], items[i], depth + 1, f);
        var item := SanitizeCopy(items[i], depth + 1, f);
        mapped := mapped + [item];
      }
      assert items[..|items|] == items;
      r := Arr(mapped);
    case Obj(fields) =>
      var cleaned := [];
      for i := 0 to |fields|
        invariant cleaned == ValueFields(fields[..i], depth + 1, f)
      {
        assert fields[..i + 1] == fields[..i] + [fields[i]];
        ValueFieldsSnoc(fields[..i], fields[i], depth + 1, f);
        if !Forbidden(fields[i].key) {
          var value := SanitizeCopy(fields[i].value, depth + 1, f);
          cleaned := cleaned + [Field(fields[i].key, value)];
        }
      }
      assert fields[..|fields|] == fields;
      r := Obj(cleaned);
    case _ => r := v;
  }
}
