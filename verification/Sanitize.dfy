/** The two sanitizers as functions on JSON trees, and exactly when they agree. */
module Sanitize {

  /** A JSON tree; an object keeps its own enumerable keys in order. */
  datatype Json =
    | Undefined
    | Null
    | Bool(b: bool)
    | Num(n: int)
    | Str(s: string)
    | Arr(items: seq<Json>)
    | Obj(fields: seq<Field>)
  {
    predicate Container() {
      Arr? || Obj?
    }
  }

  datatype Field = Field(key: string, value: Json)

  const MAX_DEPTH := 10

  /** A key both sanitizers drop: DANGEROUS_KEYS, or a `$` prefix. */
  predicate Forbidden(key: string) {
    key in {"__proto__", "constructor", "prototype"} || "$" <= key
  }

  // ---------------------------------------------------------------- sanitizeValue

  /** `f` stands for sanitizeString. */
  function SanitizeValue(v: Json, depth: nat, f: string -> string): Json
    decreases v, 1
  {
    if depth > MAX_DEPTH then v
    else match v
      case Str(s) => Str(f(s))
      case Arr(items) => Arr(ValueItems(items, depth + 1, f))
      case Obj(fields) => Obj(ValueFields(fields, depth + 1, f))
      case _ => v
  }

  function ValueItems(items: seq<Json>, depth: nat, f: string -> string): seq<Json>
    decreases items, 0
  {
    if items == [] then [] else [SanitizeValue(items[0], depth, f)] + ValueItems(items[1..], depth, f)
  }

  function ValueFields(fields: seq<Field>, depth: nat, f: string -> string): seq<Field>
    decreases fields, 0
  {
    if fields == [] then []
    else (if Forbidden(fields[0].key) then [] else [Field(fields[0].key, SanitizeValue(fields[0].value, depth, f))])
         + ValueFields(fields[1..], depth, f)
  }

  // ---------------------------------------------------------------- sanitizeInPlace

  /** What a container becomes. */
  function InPlace(v: Json, depth: nat, f: string -> string): Json
    decreases v, 0
  {
    if depth > MAX_DEPTH then v
    else match v
      case Arr(items) => Arr(SlotItems(items, depth + 1, f))
      case Obj(fields) => Obj(SlotFields(fields, depth + 1, f))
      case _ => v
  }

  /** What the loop of a container does to one slot: a string is cleaned on the spot. */
  function Slot(v: Json, depth: nat, f: string -> string): Json
    decreases v, 1
  {
    match v
    case Str(s) => Str(f(s))
    case _ => InPlace(v, depth, f)
  }

  function SlotItems(items: seq<Json>, depth: nat, f: string -> string): (r: seq<Json>)
    ensures |r| == |items|
    decreases items, 0
  {
    if items == [] then [] else [Slot(items[0], depth, f)] + SlotItems(items[1..], depth, f)
  }

  function SlotFields(fields: seq<Field>, depth: nat, f: string -> string): seq<Field>
    decreases fields, 0
  {
    if fields == [] then []
    else (if Forbidden(fields[0].key) then [] else [Field(fields[0].key, Slot(fields[0].value, depth, f))])
         + SlotFields(fields[1..], depth, f)
  }

  lemma {:induction false} SlotItemsAt(items: seq<Json>, depth: nat, f: string -> string, i: nat)
    requires i < |items|
    ensures SlotItems(items, depth, f)[i] == Slot(items[i], depth, f)
  {
    if i > 0 {
      SlotItemsAt(items[1..], depth, f, i - 1);
    }
  }

  lemma {:induction false} SlotFieldsSnoc(a: seq<Field>, x: Field, depth: nat, f: string -> string)
    ensures SlotFields(a + [x], depth, f)
      == SlotFields(a, depth, f) + (if Forbidden(x.key) then [] else [Field(x.key, Slot(x.value, depth, f))])
  {
    if a == [] {
      assert [x][1..] == [];
    } else {
      assert (a + [x])[0] == a[0] && (a + [x])[1..] == a[1..] + [x];
      SlotFieldsSnoc(a[1..], x, depth, f);
    }
  }

  /** One more field done, one fewer to do. */
  lemma SlotFieldsStep(fields: seq<Field>, i: nat, depth: nat, f: string -> string)
    requires i < |fields|
    ensures fields[i..][0] == fields[i] && fields[i..][1..] == fields[i + 1..]
    ensures SlotFields(fields[..i + 1], depth, f) == SlotFields(fields[..i], depth, f)
      + (if Forbidden(fields[i].key) then [] else [Field(fields[i].key, Slot(fields[i].value, depth, f))])
  {
    SlotFieldsSnoc(fields[..i], fields[i], depth, f);
    assert fields[..i + 1] == fields[..i] + [fields[i]];
  }

  // ---------------------------------------------------------------- when the two agree

  /** Every string at level 11 that survives key filtering is left alone by `f`. */
  predicate DeepStringsFixed(v: Json, depth: nat, f: string -> string)
    decreases v
  {
    depth <= MAX_DEPTH + 1 ==>
      match v
      case Str(s) => depth == MAX_DEPTH + 1 ==> f(s) == s
      case Arr(items) => forall i :: 0 <= i < |items| ==> DeepStringsFixed(items[i], depth + 1, f)
      case Obj(fields) => forall i :: 0 <= i < |fields| && !Forbidden(fields[i].key) ==> DeepStringsFixed(fields[i].value, depth + 1, f)
      case _ => true
  }

  lemma {:induction false} SlotAgrees(v: Json, depth: nat, f: string -> string)
    requires depth <= MAX_DEPTH + 1
    ensures Slot(v, depth, f) == SanitizeValue(v, depth, f) <==> DeepStringsFixed(v, depth, f)
    decreases v, 1
  {
    if depth <= MAX_DEPTH {
      match v
      case Arr(items) => ItemsAgree(items, depth + 1, f);
      case Obj(fields) => FieldsAgree(fields, depth + 1, f);
      case _ =>
    }
  }

  lemma Uncons<T>(a: seq<T>, b: seq<T>)
    requires a != [] && b != []
    ensures a == b <==> a[0] == b[0] && a[1..] == b[1..]
  {
    assert a == [a[0]] + a[1..] && b == [b[0]] + b[1..];
  }

  lemma {:induction false} ItemsAgree(items: seq<Json>, depth: nat, f: string -> string)
    requires depth <= MAX_DEPTH + 1
    ensures SlotItems(items, depth, f) == ValueItems(items, depth, f)
      <==> forall i :: 0 <= i < |items| ==> DeepStringsFixed(items[i], depth, f)
    decreases items, 0
  {
    if items != [] {
      var a, b := SlotItems(items, depth, f), ValueItems(items, depth, f);
      SlotAgrees(items[0], depth, f);
      ItemsAgree(items[1..], depth, f);
      assert a == b <==> a[0] == b[0] && a[1..] == b[1..] by { Uncons(a, b); }
      assert forall i :: 0 < i < |items| ==> items[i] == items[1..][i - 1];
    }
  }

  lemma {:induction false} FieldsAgree(fields: seq<Field>, depth: nat, f: string -> string)
    requires depth <= MAX_DEPTH + 1
    ensures SlotFields(fields, depth, f) == ValueFields(fields, depth, f)
      <==> forall i :: 0 <= i < |fields| && !Forbidden(fields[i].key) ==> DeepStringsFixed(fields[i].value, depth, f)
    decreases fields, 0
  {
    if fields != [] {
      var a, b := SlotFields(fields, depth, f), ValueFields(fields, depth, f);
      SlotAgrees(fields[0].value, depth, f);
      FieldsAgree(fields[1..], depth, f);
      if Forbidden(fields[0].key) {
        assert a == SlotFields(fields[1..], depth, f) && b == ValueFields(fields[1..], depth, f);
      } else {
        Uncons(a, b);
      }
      assert forall i :: 0 < i < |fields| ==> fields[i] == fields[1..][i - 1];
    }
  }

  /** The in-place sanitizer leaves what the pure one returns exactly when no surviving string at
      level 11 would be changed: level 11 is the only one where they differ. */
  lemma SanitizersAgree(v: Json, f: string -> string)
    requires v.Container()
    ensures InPlace(v, 0, f) == SanitizeValue(v, 0, f) <==> DeepStringsFixed(v, 0, f)
  {
    SlotAgrees(v, 0, f);
  }

  // ---------------------------------------------------------------- no forbidden key survives

  /** No container at level 10 or less has a forbidden key. */
  predicate Clean(v: Json, depth: nat)
    decreases v
  {
    depth <= MAX_DEPTH ==>
      match v
      case Arr(items) => forall i :: 0 <= i < |items| ==> Clean(items[i], depth + 1)
      case Obj(fields) => forall i :: 0 <= i < |fields| ==> !Forbidden(fields[i].key) && Clean(fields[i].value, depth + 1)
      case _ => true
  }

  predicate AllClean(fields: seq<Field>, depth: nat) {
    forall i :: 0 <= i < |fields| ==> !Forbidden(fields[i].key) && Clean(fields[i].value, depth)
  }

  lemma {:induction false} SlotClean(v: Json, depth: nat, f: string -> string)
    ensures Clean(Slot(v, depth, f), depth)
    decreases v, 1
  {
    if depth <= MAX_DEPTH {
      match v
      case Arr(items) =>
        ItemsClean(items, depth + 1, f);
        assert Slot(v, depth, f) == Arr(SlotItems(items, depth + 1, f));
      case Obj(fields) =>
        FieldsClean(fields, depth + 1, f);
        assert Slot(v, depth, f) == Obj(SlotFields(fields, depth + 1, f));
      case _ =>
    }
  }

  lemma {:induction false} ItemsClean(items: seq<Json>, depth: nat, f: string -> string)
    ensures forall i :: 0 <= i < |items| ==> Clean(SlotItems(items, depth, f)[i], depth)
    decreases items, 0
  {
    if items != [] {
      SlotClean(items[0], depth, f);
      ItemsClean(items[1..], depth, f);
    }
  }

  lemma ConsClean(x: Field, rest: seq<Field>, depth: nat)
    requires Clean(x.value, depth) && AllClean(rest, depth)
    ensures !Forbidden(x.key) ==> AllClean([x] + rest, depth)
  {
  }

  lemma {:induction false} FieldsClean(fields: seq<Field>, depth: nat, f: string -> string)
    ensures AllClean(SlotFields(fields, depth, f), depth)
    decreases fields, 0
  {
    if fields != [] {
      SlotClean(fields[0].value, depth, f);
      FieldsClean(fields[1..], depth, f);
      ConsClean(Field(fields[0].key, Slot(fields[0].value, depth, f)), SlotFields(fields[1..], depth, f), depth);
      assert Forbidden(fields[0].key) ==> SlotFields(fields, depth, f) == SlotFields(fields[1..], depth, f);
    }
  }

  /** No forbidden or `$` key remains in any container at level 10 or less. */
  lemma InPlaceIsClean(v: Json, f: string -> string)
    requires v.Container()
    ensures Clean(InPlace(v, 0, f), 0)
  {
    SlotClean(v, 0, f);
  }
}
