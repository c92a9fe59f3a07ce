/** What both sanitizers make of every place in a JSON tree. */
module SanitizePaths {
  import opened Sanitize

  // ---------------------------------------------------------------- places

  datatype Maybe = Nothing | Just(value: Json)

  datatype Hop = Index(i: nat) | Key(key: string)

  /** The value of the first field with the key. */
  function Lookup(fields: seq<Field>, key: string): Maybe {
    if fields == [] then Nothing
    else if fields[0].key == key then Just(fields[0].value)
    else Lookup(fields[1..], key)
  }

  function Child(v: Json, hop: Hop): Maybe {
    match (v, hop)
    case (Arr(items), Index(i)) => if i < |items| then Just(items[i]) else Nothing
    case (Obj(fields), Key(k)) => Lookup(fields, k)
    case _ => Nothing
  }

  /** What stands at the end of the path. */
  function At(v: Json, path: seq<Hop>): Maybe
    decreases |path|
  {
    if path == [] then Just(v)
    else match Child(v, path[0])
      case Nothing => Nothing
      case Just(c) => At(c, path[1..])
  }

  /** The keys that no container down to depth 10 may keep. */
  predicate Dangerous(key: string) {
    key == "__proto__" || key == "constructor" || key == "prototype" || (key != "" && key[0] == '$')
  }

  lemma ForbiddenIsDangerous(key: string)
    ensures Forbidden(key) <==> Dangerous(key)
  {
    assert "$" <= key <==> key != "" && key[0] == '$';
  }

  /** The path, starting at a value of the given depth, takes no dangerous key of a container at depth
      10 or less. */
  predicate Passes(path: seq<Hop>, depth: nat)
    decreases |path|
  {
    path == [] || ((depth <= 10 && path[0].Key? ==> !Dangerous(path[0].key)) && Passes(path[1..], depth + 1))
  }

  function Keys(fields: seq<Field>): seq<string> {
    if fields == [] then [] else [fields[0].key] + Keys(fields[1..])
  }

  function HarmlessKeys(keys: seq<string>): seq<string> {
    if keys == [] then []
    else (if Dangerous(keys[0]) then [] else [keys[0]]) + HarmlessKeys(keys[1..])
  }

  /** What becomes of a value at the given depth, its children apart: a string is cleaned down to level
      `last`, an array keeps its length, an object its harmless keys in order, anything else stays. */
  predicate Becomes(a: Json, b: Json, depth: nat, last: nat, f: string -> string) {
    match a
    case Str(s) => b == Str(if depth <= last then f(s) else s)
    case Arr(items) => b.Arr? && |b.items| == |items|
    case Obj(fields) => b.Obj? && Keys(b.fields) == if depth <= 10 then HarmlessKeys(Keys(fields)) else Keys(fields)
    case _ => b == a
  }

  /** At every path from a value of the given depth. */
  ghost predicate Corresponds(a: Json, b: Json, depth: nat, last: nat, path: seq<Hop>, f: string -> string) {
    && (At(b, path).Just? <==> At(a, path).Just? && Passes(path, depth))
    && (At(b, path).Just? ==> Becomes(At(a, path).value, At(b, path).value, depth + |path|, last, f))
  }

  // ---------------------------------------------------------------- one level

  lemma {:induction false} ValueItemsAt(items: seq<Json>, depth: nat, f: string -> string)
    ensures |ValueItems(items, depth, f)| == |items|
    ensures forall i :: 0 <= i < |items| ==> ValueItems(items, depth, f)[i] == SanitizeValue(items[i], depth, f)
  {
    if items != [] {
      ValueItemsAt(items[1..], depth, f);
    }
  }

  /** A forbidden key is nowhere in the output. */
  lemma {:induction false} LookupForbidden(fields: seq<Field>, depth: nat, f: string -> string, key: string)
    ensures Forbidden(key) ==> Lookup(ValueFields(fields, depth, f), key) == Nothing
    ensures Forbidden(key) ==> Lookup(SlotFields(fields, depth, f), key) == Nothing
  {
    if fields != [] {
      LookupForbidden(fields[1..], depth, f, key);
      if Forbidden(fields[0].key) {
        assert ValueFields(fields, depth, f) == ValueFields(fields[1..], depth, f);
        assert SlotFields(fields, depth, f) == SlotFields(fields[1..], depth, f);
      }
    }
  }

  lemma {:induction false} ValueFieldsAt(fields: seq<Field>, depth: nat, key: string, f: string -> string)
    ensures Lookup(ValueFields(fields, depth, f), key)
      == match Lookup(fields, key)
         case Nothing => Nothing
         case Just(v) => if Forbidden(key) then Nothing else Just(SanitizeValue(v, depth, f))
  {
    if fields != [] {
      ValueFieldsAt(fields[1..], depth, key, f);
      if Forbidden(fields[0].key) {
        assert ValueFields(fields, depth, f) == ValueFields(fields[1..], depth, f);
        LookupForbidden(fields[1..], depth, f, key);
      }
    }
  }

  lemma {:induction false} SlotFieldsAt(fields: seq<Field>, depth: nat, key: string, f: string -> string)
    ensures Lookup(SlotFields(fields, depth, f), key)
      == match Lookup(fields, key)
         case Nothing => Nothing
         case Just(v) => if Forbidden(key) then Nothing else Just(Slot(v, depth, f))
  {
    if fields != [] {
      SlotFieldsAt(fields[1..], depth, key, f);
      if Forbidden(fields[0].key) {
        assert SlotFields(fields, depth, f) == SlotFields(fields[1..], depth, f);
        LookupForbidden(fields[1..], depth, f, key);
      }
    }
  }

  lemma {:induction false} FieldKeys(fields: seq<Field>, depth: nat, f: string -> string)
    ensures Keys(ValueFields(fields, depth, f)) == HarmlessKeys(Keys(fields))
    ensures Keys(SlotFields(fields, depth, f)) == HarmlessKeys(Keys(fields))
  {
    if fields != [] {
      FieldKeys(fields[1..], depth, f);
      ForbiddenIsDangerous(fields[0].key);
      assert Keys(fields)[1..] == Keys(fields[1..]);
      if Forbidden(fields[0].key) {
        assert ValueFields(fields, depth, f) == ValueFields(fields[1..], depth, f);
        assert SlotFields(fields, depth, f) == SlotFields(fields[1..], depth, f);
      }
    }
  }

  /** One hop into the output: the sanitized child, unless the hop takes a dangerous key. */
  lemma ValueChild(v: Json, depth: nat, hop: Hop, f: string -> string)
    requires depth <= 10
    ensures Child(SanitizeValue(v, depth, f), hop)
      == match Child(v, hop)
         case Nothing => Nothing
         case Just(c) => if hop.Key? && Dangerous(hop.key) then Nothing else Just(SanitizeValue(c, depth + 1, f))
  {
    if v.Arr? {
      ValueItemsAt(v.items, depth + 1, f);
    } else if v.Obj? && hop.Key? {
      ValueFieldsAt(v.fields, depth + 1, hop.key, f);
      ForbiddenIsDangerous(hop.key);
    }
  }

  lemma SlotChild(v: Json, depth: nat, hop: Hop, f: string -> string)
    requires depth <= 10
    ensures Child(Slot(v, depth, f), hop)
      == match Child(v, hop)
         case Nothing => Nothing
         case Just(c) => if hop.Key? && Dangerous(hop.key) then Nothing else Just(Slot(c, depth + 1, f))
  {
    if v.Arr? && hop.Index? && hop.i < |v.items| {
      SlotItemsAt(v.items, depth + 1, f, hop.i);
    } else if v.Obj? && hop.Key? {
      SlotFieldsAt(v.fields, depth + 1, hop.key, f);
      ForbiddenIsDangerous(hop.key);
    }
  }

  lemma ValueBecomes(v: Json, depth: nat, f: string -> string)
    ensures Becomes(v, SanitizeValue(v, depth, f), depth, 10, f)
  {
    if v.Arr? {
      ValueItemsAt(v.items, depth + 1, f);
    } else if v.Obj? {
      FieldKeys(v.fields, depth + 1, f);
    }
  }

  lemma SlotBecomes(v: Json, depth: nat, f: string -> string)
    requires depth <= 11
    ensures Becomes(v, Slot(v, depth, f), depth, 11, f)
  {
    if v.Obj? {
      FieldKeys(v.fields, depth + 1, f);
    }
  }

  // ---------------------------------------------------------------- every path

  /** Below the cut nothing changes. */
  lemma {:induction false} Untouched(v: Json, depth: nat, last: nat, path: seq<Hop>, f: string -> string)
    requires depth > 10 && last <= 11 && (depth > last || v.Container())
    ensures Corresponds(v, v, depth, last, path, f)
    decreases |path|
  {
    if path != [] {
      match Child(v, path[0])
      case Nothing =>
      case Just(c) => Untouched(c, depth + 1, last, path[1..], f);
    }
  }

  lemma {:induction false} ValuePath(v: Json, depth: nat, path: seq<Hop>, f: string -> string)
    ensures Corresponds(v, SanitizeValue(v, depth, f), depth, 10, path, f)
    decreases |path|
  {
    if depth > 10 {
      Untouched(v, depth, 10, path, f);
    } else if path == [] {
      ValueBecomes(v, depth, f);
    } else {
      ValueChild(v, depth, path[0], f);
      match Child(v, path[0])
      case Nothing =>
      case Just(c) => ValuePath(c, depth + 1, path[1..], f);
    }
  }

  lemma {:induction false} SlotPath(v: Json, depth: nat, path: seq<Hop>, f: string -> string)
    requires depth <= 11
    ensures Corresponds(v, Slot(v, depth, f), depth, 11, path, f)
    decreases |path|
  {
    if depth == 11 && v.Container() {
      Untouched(v, depth, 11, path, f);
    } else if path == [] {
      SlotBecomes(v, depth, f);
    } else if depth <= 10 {
      SlotChild(v, depth, path[0], f);
      match Child(v, path[0])
      case Nothing =>
      case Just(c) => SlotPath(c, depth + 1, path[1..], f);
    }
  }

  /** Both sanitizers, at every path of a body: what was reached without a dangerous key is still there
      and nothing else is; strings are cleaned, by the pure one down to level 10 and by the in-place one
      down to level 11; other primitives, array lengths and the order of the harmless keys stay. */
  lemma EveryPath(v: Json, path: seq<Hop>, f: string -> string)
    requires v.Container()
    ensures Corresponds(v, SanitizeValue(v, 0, f), 0, 10, path, f)
    ensures Corresponds(v, InPlace(v, 0, f), 0, 11, path, f)
  {
    ValuePath(v, 0, path, f);
    SlotPath(v, 0, path, f);
  }

  /** In particular a string at levels 1 to 10 that no dangerous key leads to comes out cleaned. */
  lemma StringsAreCleaned(v: Json, path: seq<Hop>, s: string, f: string -> string)
    requires v.Container() && 1 <= |path| <= 10 && Passes(path, 0) && At(v, path) == Just(Str(s))
    ensures At(SanitizeValue(v, 0, f), path) == Just(Str(f(s))) == At(InPlace(v, 0, f), path)
  {
    EveryPath(v, path, f);
  }
}
