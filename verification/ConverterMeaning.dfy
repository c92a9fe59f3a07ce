/**
 What a schema accepts before and after conversion: well-formed schemas keep their meaning, and for
 each kind of ill-formed node exactly when it does.
 */
module ConverterMeaning {
  import opened Wrappers
  import opened Converter

  // ---------------------------------------------------------------- what a schema accepts

  /** How the keywords behind `rest` constrain a value. */
  type Facets = (nat, Value) -> bool

  predicate HasType(kind: string, v: Value) {
    match kind
    case "null" => v.VNull?
    case "boolean" => v.VBool?
    case "number" => v.VNum?
    case "integer" => v.VNum?
    case "string" => v.VStr?
    case "array" => v.VArr?
    case "object" => v.VObj?
    case _ => false
  }

  /** Keywords that look at the value alone. */
  predicate Local(s: Schema, v: Value, holds: Facets)
    requires s.Node?
  {
    && (s.kind.Some? ==> HasType(s.kind.value, v))
    && (s.constant.Some? ==> v == s.constant.value)
    && (s.enumeration.Some? ==> v in s.enumeration.value)
    && holds(s.rest, v)
  }

  /** Acceptance; `nullable` adds null to what the other keywords accept. */
  ghost predicate Accepts(s: Schema, v: Value, holds: Facets)
    decreases s, 1
  {
    match s
    case Always(b) => b
    case Node(_, _, _, _, _, _, _, _, _, _, _, _, _, _, _) =>
      (s.nullable && v == VNull) || (Local(s, v, holds) && Nested(s, v, holds) && Unions(s, v, holds))
  }

  predicate Declared(props: seq<Property>, key: string) {
    exists i :: 0 <= i < |props| && props[i].key == key
  }

  /** Keywords that apply schemas to parts of the value. */
  ghost predicate Nested(s: Schema, v: Value, holds: Facets)
    requires s.Node?
    decreases s, 0
  {
    && (v.VObj? && s.properties.Properties? ==>
          forall i :: 0 <= i < |s.properties.list| && s.properties.list[i].key in v.members ==>
            Accepts(s.properties.list[i].schema, v.members[s.properties.list[i].key], holds))
    && (v.VArr? && s.items.Some? ==>
          forall i :: 0 <= i < |v.elements| ==> Accepts(s.items.value, v.elements[i], holds))
    && (v.VObj? && s.additional.Some? ==>
          forall k :: k in v.members && !(s.properties.Properties? && Declared(s.properties.list, k)) ==>
            Accepts(s.additional.value, v.members[k], holds))
  }

  ghost predicate Unions(s: Schema, v: Value, holds: Facets)
    requires s.Node?
    decreases s, 0
  {
    && (s.anyOf.Schemas? ==> Matching(s.anyOf.list, v, holds) > 0)
    && (s.oneOf.Schemas? ==> Matching(s.oneOf.list, v, holds) == 1)
    && (s.allOf.Schemas? ==> Matching(s.allOf.list, v, holds) == |s.allOf.list|)
    && (s.negated.Some? ==> !Accepts(s.negated.value, v, holds))
  }

  /** How many of the schemas accept the value. */
  ghost function Matching(ss: seq<Schema>, v: Value, holds: Facets): nat
    decreases ss, 0
  {
    if ss == [] then 0
    else (if Accepts(ss[0], v, holds) then 1 else 0) + Matching(ss[1..], v, holds)
  }

  // ---------------------------------------------------------------- what a well-formed schema is

  /** A null schema with no other keyword than annotations. */
  predicate PlainNull(m: Schema) {
    m.Node? && m == EMPTY.(kind := Some("null"), dialect := m.dialect, description := m.description, example := m.example)
  }

  /** Nothing but the union and annotations. */
  predicate UnionAlone(s: Schema)
    requires s.Node?
  {
    s.(dialect := false, description := None, example := None, anyOf := NoSchemas, oneOf := NoSchemas) == EMPTY
  }

  /** At least one variant besides the null member, which spreading does not change if it is the only
      one. */
  predicate Joinable(variants: seq<Schema>)
    requires NullIndex(variants) < |variants|
  {
    |variants| > 1 && (|variants| == 2 ==> variants[1 - NullIndex(variants)] != Always(false))
  }

  predicate NullableUnion(variants: seq<Schema>)
    requires NullIndex(variants) < |variants|
  {
    PlainNull(variants[NullIndex(variants)]) && Joinable(variants)
  }

  ghost predicate NoneAccept(ss: seq<Schema>, v: Value, holds: Facets) {
    ss == [] || (!Accepts(ss[0], v, holds) && NoneAccept(ss[1..], v, holds))
  }

  /** No member but the first null one accepts null. */
  ghost predicate NoneAcceptsNull(variants: seq<Schema>, holds: Facets)
    requires NullIndex(variants) < |variants|
  {
    NoneAccept(variants[..NullIndex(variants)], VNull, holds) && NoneAccept(variants[NullIndex(variants) + 1..], VNull, holds)
  }

  ghost predicate NodeWellFormed(s: Schema, holds: Facets)
    requires s.Node?
  {
    && (s.constant.Some? ==> s.enumeration.None? && !HasNull(s.anyOf) && !HasNull(s.oneOf))
    && (HasNull(s.anyOf) ==> UnionAlone(s) && s.oneOf == NoSchemas && NullableUnion(s.anyOf.list))
    && (HasNull(s.oneOf) ==>
          UnionAlone(s) && s.anyOf == NoSchemas && NullableUnion(s.oneOf.list) && NoneAcceptsNull(s.oneOf.list, holds))
  }

  ghost predicate WellFormed(s: Schema, holds: Facets)
    decreases s
  {
    s.Node? ==>
      && NodeWellFormed(s, holds)
      && (s.properties.Properties? ==>
            forall i :: 0 <= i < |s.properties.list| ==> WellFormed(s.properties.list[i].schema, holds))
      && (s.items.Some? ==> WellFormed(s.items.value, holds))
      && (s.additional.Some? ==> WellFormed(s.additional.value, holds))
      && (s.anyOf.Schemas? ==> forall i :: 0 <= i < |s.anyOf.list| ==> WellFormed(s.anyOf.list[i], holds))
      && (s.oneOf.Schemas? ==> forall i :: 0 <= i < |s.oneOf.list| ==> WellFormed(s.oneOf.list[i], holds))
      && (s.allOf.Schemas? ==> forall i :: 0 <= i < |s.allOf.list| ==> WellFormed(s.allOf.list[i], holds))
      && (s.negated.Some? ==> WellFormed(s.negated.value, holds))
  }

  // ---------------------------------------------------------------- meaning is preserved

  lemma {:induction false} MatchingConcat(a: seq<Schema>, b: seq<Schema>, v: Value, holds: Facets)
    ensures Matching(a + b, v, holds) == Matching(a, v, holds) + Matching(b, v, holds)
    decreases |a|
  {
    if a == [] {
      assert a + b == b;
    } else {
      assert (a + b)[0] == a[0] && (a + b)[1..] == a[1..] + b;
      MatchingConcat(a[1..], b, v, holds);
    }
  }

  /** A union is the null member plus the rest. */
  lemma MatchingSplits(variants: seq<Schema>, v: Value, holds: Facets)
    requires NullIndex(variants) < |variants|
    ensures var i := NullIndex(variants);
      Matching(variants, v, holds)
      == (if Accepts(variants[i], v, holds) then 1 else 0) + Matching(variants[..i], v, holds) + Matching(variants[i + 1..], v, holds)
  {
    var i := NullIndex(variants);
    assert variants == variants[..i] + ([variants[i]] + variants[i + 1..]);
    MatchingConcat(variants[..i], [variants[i]] + variants[i + 1..], v, holds);
    assert ([variants[i]] + variants[i + 1..])[1..] == variants[i + 1..];
  }

  lemma {:induction false} NoneMatch(ss: seq<Schema>, v: Value, holds: Facets)
    ensures Matching(ss, v, holds) == 0 <==> NoneAccept(ss, v, holds)
    decreases |ss|
  {
    if ss != [] {
      NoneMatch(ss[1..], v, holds);
    }
  }

  lemma PlainNullAccepts(m: Schema, v: Value, holds: Facets)
    requires PlainNull(m) && holds(0, v)
    ensures Accepts(m, v, holds) <==> v == VNull
  {
  }

  /** Acceptance of the keywords depends on the keywords only. */
  lemma SameKeywords(a: Schema, b: Schema, v: Value, holds: Facets)
    requires a.Node? && b.Node?
    requires a.properties == b.properties && a.items == b.items && a.additional == b.additional
    requires a.anyOf == b.anyOf && a.oneOf == b.oneOf && a.allOf == b.allOf && a.negated == b.negated
    ensures Nested(a, v, holds) == Nested(b, v, holds) && Unions(a, v, holds) == Unions(b, v, holds)
  {
  }

  /** Setting `nullable` and annotations adds null and nothing else. */
  lemma NullableAdds(x: Schema, description: Option<string>, example: Option<Value>, v: Value, holds: Facets)
    requires x != Always(false) && holds(0, v)
    ensures Accepts(MadeNullable(Spread(x), description, example), v, holds) <==> v == VNull || Accepts(x, v, holds)
  {
    var y := MadeNullable(Spread(x), description, example);
    SameKeywords(y, Spread(x), v, holds);
  }

  lemma {:induction false} ConvertNotFalse(s: Schema)
    requires s != Always(false)
    ensures Convert(s) != Always(false)
  {
  }

  lemma SameAcceptance(a: Schema, b: Schema, v: Value, holds: Facets)
    requires a.Node? && b.Node? && a.nullable == b.nullable
    requires Local(a, v, holds) == Local(b, v, holds)
    requires Nested(a, v, holds) == Nested(b, v, holds) && Unions(a, v, holds) == Unions(b, v, holds)
    ensures Accepts(a, v, holds) == Accepts(b, v, holds)
  {
  }

  /** A const becomes a one-value enum. */
  lemma LocalPreserved(s: Schema, v: Value, holds: Facets)
    requires s.Node? && !HasNull(s.anyOf) && !HasNull(s.oneOf) && (s.constant.Some? ==> s.enumeration.None?)
    ensures Convert(s).Node? && Convert(s).nullable == s.nullable
    ensures Local(Convert(s), v, holds) == Local(s, v, holds)
  {
  }

  /** For every well-formed schema and every value: accepted after conversion iff accepted before. */
  lemma {:induction false} ConvertPreserves(s: Schema, v: Value, holds: Facets)
    requires WellFormed(s, holds) && forall w :: holds(0, w)
    ensures Accepts(Convert(s), v, holds) <==> Accepts(s, v, holds)
    decreases s, 4
  {
    if s.Node? {
      assert NodeWellFormed(s, holds);
      ConvertCases(s);
      if HasNull(s.anyOf) {
        CollapsePreserves(s, s.anyOf.list, true, v, holds);
      } else if HasNull(s.oneOf) {
        CollapsePreserves(s, s.oneOf.list, false, v, holds);
      } else {
        NestedPreserved(s, v, holds);
        UnionsPreserved(s, v, holds);
        SameKeywords(Convert(s), ConvertRest(s), v, holds);
        LocalPreserved(s, v, holds);
        SameAcceptance(Convert(s), s, v, holds);
      }
    }
  }

  lemma {:induction false} NestedPreserved(s: Schema, v: Value, holds: Facets)
    requires WellFormed(s, holds) && s.Node? && !HasNull(s.anyOf) && !HasNull(s.oneOf) && forall w :: holds(0, w)
    ensures Nested(ConvertRest(s), v, holds) == Nested(s, v, holds)
    decreases s, 3
  {
    var t := ConvertRest(s);
    if v.VObj? && s.properties.Properties? {
      var ps := s.properties.list;
      forall i | 0 <= i < |ps|
        ensures t.properties.list[i].key == ps[i].key
        ensures ps[i].key in v.members ==>
          Accepts(t.properties.list[i].schema, v.members[ps[i].key], holds) == Accepts(ps[i].schema, v.members[ps[i].key], holds)
      {
        ConvertPropertiesAt(ps, i);
        if ps[i].key in v.members {
          ConvertPreserves(ps[i].schema, v.members[ps[i].key], holds);
        }
      }
      assert forall k :: Declared(t.properties.list, k) <==> Declared(ps, k);
    }
    if v.VArr? && s.items.Some? {
      forall i | 0 <= i < |v.elements|
        ensures Accepts(t.items.value, v.elements[i], holds) == Accepts(s.items.value, v.elements[i], holds)
      {
        ConvertPreserves(s.items.value, v.elements[i], holds);
      }
    }
    if v.VObj? && s.additional.Some? {
      forall k | k in v.members
        ensures Accepts(t.additional.value, v.members[k], holds) == Accepts(s.additional.value, v.members[k], holds)
      {
        ConvertPreserves(s.additional.value, v.members[k], holds);
      }
    }
  }

  lemma {:induction false} UnionsPreserved(s: Schema, v: Value, holds: Facets)
    requires WellFormed(s, holds) && s.Node? && !HasNull(s.anyOf) && !HasNull(s.oneOf) && forall w :: holds(0, w)
    ensures Unions(ConvertRest(s), v, holds) == Unions(s, v, holds)
    decreases s, 3
  {
    if s.anyOf.Schemas? {
      MatchingPreserved(s.anyOf.list, v, holds);
    }
    if s.oneOf.Schemas? {
      MatchingPreserved(s.oneOf.list, v, holds);
    }
    if s.allOf.Schemas? {
      MatchingPreserved(s.allOf.list, v, holds);
    }
    if s.negated.Some? {
      ConvertPreserves(s.negated.value, v, holds);
    }
  }

  lemma {:induction false} MatchingPreserved(ss: seq<Schema>, v: Value, holds: Facets)
    requires forall w :: holds(0, w)
    requires forall i :: 0 <= i < |ss| ==> WellFormed(ss[i], holds)
    ensures Matching(ConvertAll(ss), v, holds) == Matching(ss, v, holds)
    decreases ss, 0
  {
    if ss != [] {
      ConvertPreserves(ss[0], v, holds);
      MatchingPreserved(ss[1..], v, holds);
    }
  }

  /** The null member accepts null, and under oneOf nothing else does: a union is null or the rest. */
  lemma UnionIsNullOrRest(s: Schema, variants: seq<Schema>, any: bool, v: Value, holds: Facets)
    requires forall w :: holds(0, w)
    requires s.Node? && NullIndex(variants) < |variants| && UnionAlone(s) && NullableUnion(variants)
    requires if any then s.anyOf == Schemas(variants) && s.oneOf == NoSchemas else s.oneOf == Schemas(variants) && s.anyOf == NoSchemas
    requires !any ==> NoneAcceptsNull(variants, holds)
    ensures var i := NullIndex(variants);
      var rest := Matching(variants[..i], v, holds) + Matching(variants[i + 1..], v, holds);
      Accepts(s, v, holds) <==> v == VNull || (if any then rest > 0 else rest == 1)
  {
    var i := NullIndex(variants);
    MatchingSplits(variants, v, holds);
    PlainNullAccepts(variants[i], v, holds);
    if !any && v == VNull {
      NoneMatch(variants[..i], v, holds);
      NoneMatch(variants[i + 1..], v, holds);
    }
  }

  /** null and one other variant: the other, made nullable. */
  lemma PairMeaning(s: Schema, variants: seq<Schema>, any: bool, v: Value, holds: Facets)
    requires holds(0, v) && s.Node? && |variants| == 2 && NullIndex(variants) < 2 && Joinable(variants)
    ensures Accepts(Collapse(s, variants, any), v, holds)
      <==> v == VNull || Accepts(Convert(variants[1 - NullIndex(variants)]), v, holds)
  {
    var other := variants[1 - NullIndex(variants)];
    ConvertNotFalse(other);
    var merged := Spread(Convert(other));
    NullableAdds(Convert(other),
      if s.description.Some? && s.description.value != "" then s.description else merged.description,
      if s.example.Some? then s.example else merged.example, v, holds);
  }

  lemma KeptAccepts(kept: seq<Schema>, any: bool, v: Value, holds: Facets)
    requires holds(0, v)
    ensures Accepts(if any then EMPTY.(anyOf := Schemas(kept), nullable := true) else EMPTY.(oneOf := Schemas(kept), nullable := true), v, holds)
      <==> v == VNull || (if any then Matching(kept, v, holds) > 0 else Matching(kept, v, holds) == 1)
  {
  }

  lemma OneMatches(s: Schema, v: Value, holds: Facets)
    ensures Matching([s], v, holds) == if Accepts(s, v, holds) then 1 else 0
  {
    assert [s][1..] == [];
  }

  /** How many members other than the first null one accept the value. */
  ghost function Rest(variants: seq<Schema>, v: Value, holds: Facets): nat
    requires NullIndex(variants) < |variants|
  {
    Matching(variants[..NullIndex(variants)], v, holds) + Matching(variants[NullIndex(variants) + 1..], v, holds)
  }

  /** The collapse accepts null and what the other members accept, whatever stands beside the union. */
  lemma {:induction false} CollapseMeaning(s: Schema, variants: seq<Schema>, any: bool, v: Value, holds: Facets)
    requires forall w :: holds(0, w)
    requires s.Node? && NullIndex(variants) < |variants| && Joinable(variants)
    requires forall i :: 0 <= i < |variants| ==> WellFormed(variants[i], holds)
    ensures Accepts(Collapse(s, variants, any), v, holds)
      <==> v == VNull || (if any then Rest(variants, v, holds) > 0 else Rest(variants, v, holds) == 1)
    decreases variants, 2
  {
    var i := NullIndex(variants);
    var before, after := variants[..i], variants[i + 1..];
    if |variants| == 2 {
      var other := variants[1 - i];
      ConvertPreserves(other, v, holds);
      PairMeaning(s, variants, any, v, holds);
      assert if i == 0 then before == [] && after == [other] else before == [other] && after == [];
      OneMatches(other, v, holds);
    } else {
      MatchingPreserved(before, v, holds);
      MatchingPreserved(after, v, holds);
      MatchingConcat(ConvertAll(before), ConvertAll(after), v, holds);
      KeptAccepts(ConvertAll(before) + ConvertAll(after), any, v, holds);
    }
  }

  lemma {:induction false} CollapsePreserves(s: Schema, variants: seq<Schema>, any: bool, v: Value, holds: Facets)
    requires forall w :: holds(0, w)
    requires s.Node? && NullIndex(variants) < |variants| && UnionAlone(s) && NullableUnion(variants)
    requires if any then s.anyOf == Schemas(variants) && s.oneOf == NoSchemas else s.oneOf == Schemas(variants) && s.anyOf == NoSchemas
    requires !any ==> NoneAcceptsNull(variants, holds)
    requires forall i :: 0 <= i < |variants| ==> WellFormed(variants[i], holds)
    ensures Accepts(Collapse(s, variants, any), v, holds) <==> Accepts(s, v, holds)
    decreases variants, 3
  {
    CollapseMeaning(s, variants, any, v, holds);
    UnionIsNullOrRest(s, variants, any, v, holds);
  }

  // ---------------------------------------------------------------- ill-formed nodes, exactly

  /** The keywords of the node accept the value, `nullable` aside. */
  ghost predicate Keywords(s: Schema, v: Value, holds: Facets)
    requires s.Node?
  {
    Local(s, v, holds) && Nested(s, v, holds) && Unions(s, v, holds)
  }

  /** A plain null member counts for null alone. */
  lemma UnionCounts(variants: seq<Schema>, v: Value, holds: Facets)
    requires NullIndex(variants) < |variants| && PlainNull(variants[NullIndex(variants)]) && holds(0, v)
    ensures Matching(variants, v, holds) == Rest(variants, v, holds) + if v == VNull then 1 else 0
  {
    MatchingSplits(variants, v, holds);
    PlainNullAccepts(variants[NullIndex(variants)], v, holds);
  }

  lemma SameNested(a: Schema, b: Schema, v: Value, holds: Facets)
    requires a.Node? && b.Node? && a.properties == b.properties && a.items == b.items && a.additional == b.additional
    ensures Nested(a, v, holds) == Nested(b, v, holds)
  {
  }

  lemma AnyOfSplits(s: Schema, v: Value, holds: Facets)
    requires s.Node? && s.anyOf.Schemas?
    ensures Keywords(s, v, holds) <==> Keywords(s.(anyOf := NoSchemas), v, holds) && Matching(s.anyOf.list, v, holds) > 0
  {
    SameNested(s, s.(anyOf := NoSchemas), v, holds);
  }

  lemma OneOfSplits(s: Schema, v: Value, holds: Facets)
    requires s.Node? && s.oneOf.Schemas?
    ensures Keywords(s, v, holds) <==> Keywords(s.(oneOf := NoSchemas), v, holds) && Matching(s.oneOf.list, v, holds) == 1
  {
    SameNested(s, s.(oneOf := NoSchemas), v, holds);
  }

  /** A null member, whatever else it says, accepts nothing but null. */
  lemma OthersCount(variants: seq<Schema>, v: Value, holds: Facets)
    requires NullIndex(variants) < |variants| && v != VNull
    ensures Matching(variants, v, holds) == Rest(variants, v, holds)
  {
    MatchingSplits(variants, v, holds);
    assert !Accepts(variants[NullIndex(variants)], v, holds);
  }

  /** A nullable anyOf keeps its meaning at a value exactly when whatever it accepts, and null, is
      accepted by its members and by the keywords dropped beside it. */
  lemma AnyOfMeaning(s: Schema, v: Value, holds: Facets)
    requires forall w :: holds(0, w)
    requires s.Node? && s.constant.None? && HasNull(s.anyOf) && Joinable(s.anyOf.list)
    requires forall i :: 0 <= i < |s.anyOf.list| ==> WellFormed(s.anyOf.list[i], holds)
    ensures var n := Matching(s.anyOf.list, v, holds);
      (Accepts(Convert(s), v, holds) <==> Accepts(s, v, holds))
      <==> (v == VNull || n > 0 ==> (s.nullable && v == VNull) || (n > 0 && Keywords(s.(anyOf := NoSchemas), v, holds)))
  {
    ConvertCases(s);
    CollapseMeaning(s, s.anyOf.list, true, v, holds);
    if v != VNull {
      OthersCount(s.anyOf.list, v, holds);
    }
    AnyOfSplits(s, v, holds);
  }

  /** A nullable oneOf: likewise, with exactly one accepting member. */
  lemma OneOfMeaning(s: Schema, v: Value, holds: Facets)
    requires forall w :: holds(0, w)
    requires s.Node? && s.constant.None? && !HasNull(s.anyOf) && HasNull(s.oneOf) && Joinable(s.oneOf.list)
    requires forall i :: 0 <= i < |s.oneOf.list| ==> WellFormed(s.oneOf.list[i], holds)
    ensures var n := Matching(s.oneOf.list, v, holds);
      (Accepts(Convert(s), v, holds) <==> Accepts(s, v, holds))
      <==> (v == VNull || n == 1 ==> (s.nullable && v == VNull) || (n == 1 && Keywords(s.(oneOf := NoSchemas), v, holds)))
  {
    ConvertCases(s);
    CollapseMeaning(s, s.oneOf.list, false, v, holds);
    if v != VNull {
      OthersCount(s.oneOf.list, v, holds);
    }
    OneOfSplits(s, v, holds);
  }

  lemma {:induction false} SomeMatch(ss: seq<Schema>, j: nat, v: Value, holds: Facets)
    requires j < |ss| && Accepts(ss[j], v, holds)
    ensures Matching(ss, v, holds) > 0
    decreases |ss|
  {
    if j > 0 {
      SomeMatch(ss[1..], j - 1, v, holds);
    }
  }

  lemma NoneMatchBoth(before: seq<Schema>, after: seq<Schema>, v: Value, holds: Facets)
    ensures Matching(before, v, holds) + Matching(after, v, holds) == 0
      <==> NoneAccept(before, v, holds) && NoneAccept(after, v, holds)
  {
    NoneMatch(before, v, holds);
    NoneMatch(after, v, holds);
  }

  lemma NullRest(variants: seq<Schema>, holds: Facets)
    requires NullIndex(variants) < |variants|
    ensures Rest(variants, VNull, holds) == 0 <==> NoneAcceptsNull(variants, holds)
  {
    NoneMatchBoth(variants[..NullIndex(variants)], variants[NullIndex(variants) + 1..], VNull, holds);
  }

  lemma OneOfAloneAt(s: Schema, v: Value, holds: Facets)
    requires forall w :: holds(0, w)
    requires s.Node? && UnionAlone(s) && s.anyOf == NoSchemas && HasNull(s.oneOf) && NullableUnion(s.oneOf.list)
    requires forall i :: 0 <= i < |s.oneOf.list| ==> WellFormed(s.oneOf.list[i], holds)
    ensures (Accepts(Convert(s), v, holds) <==> Accepts(s, v, holds)) <==> (v == VNull ==> NoneAcceptsNull(s.oneOf.list, holds))
  {
    OneOfMeaning(s, v, holds);
    UnionCounts(s.oneOf.list, v, holds);
    NullRest(s.oneOf.list, holds);
    assert Keywords(s.(oneOf := NoSchemas), v, holds);
  }

  /** With nothing beside the oneOf, that is the whole condition. */
  lemma OneOfAloneMeaning(s: Schema, holds: Facets)
    requires forall w :: holds(0, w)
    requires s.Node? && UnionAlone(s) && s.anyOf == NoSchemas && HasNull(s.oneOf) && NullableUnion(s.oneOf.list)
    requires forall i :: 0 <= i < |s.oneOf.list| ==> WellFormed(s.oneOf.list[i], holds)
    ensures (forall v :: Accepts(Convert(s), v, holds) <==> Accepts(s, v, holds)) <==> NoneAcceptsNull(s.oneOf.list, holds)
  {
    forall v
      ensures (Accepts(Convert(s), v, holds) <==> Accepts(s, v, holds)) <==> (v == VNull ==> NoneAcceptsNull(s.oneOf.list, holds))
    {
      OneOfAloneAt(s, v, holds);
    }
    if !NoneAcceptsNull(s.oneOf.list, holds) {
      OneOfAloneAt(s, VNull, holds);
      assert !(Accepts(Convert(s), VNull, holds) <==> Accepts(s, VNull, holds));
    }
  }

  /** A union that accepts null only: a plain null member, alone or next to `false`. */
  predicate OnlyNull(variants: seq<Schema>)
    requires NullIndex(variants) < |variants|
  {
    var i := NullIndex(variants);
    PlainNull(variants[i]) && (|variants| == 1 || (|variants| == 2 && variants[1 - i] == Always(false)))
  }

  lemma OnlyNullMatches(variants: seq<Schema>, v: Value, holds: Facets)
    requires NullIndex(variants) < |variants| && OnlyNull(variants) && holds(0, v)
    ensures Matching(variants, v, holds) == if v == VNull then 1 else 0
  {
    UnionCounts(variants, v, holds);
    if |variants| == 2 {
      OneMatches(Always(false), v, holds);
      assert variants[..NullIndex(variants)] + variants[NullIndex(variants) + 1..] == [Always(false)];
    }
  }

  /** A union of null alone, or of null and `false`, comes to accept everything: it keeps its meaning
      at null only, and only if the node accepts null. */
  lemma LoneNullMeaning(s: Schema, any: bool, v: Value, holds: Facets)
    requires s.Node? && s.constant.None? && holds(0, v)
    requires if any then HasNull(s.anyOf) && OnlyNull(s.anyOf.list)
             else !HasNull(s.anyOf) && HasNull(s.oneOf) && OnlyNull(s.oneOf.list)
    ensures Accepts(Convert(s), v, holds)
    ensures (Accepts(Convert(s), v, holds) <==> Accepts(s, v, holds))
      <==> v == VNull && (s.nullable || Keywords(if any then s.(anyOf := NoSchemas) else s.(oneOf := NoSchemas), v, holds))
  {
    ConvertCases(s);
    OnlyNullMatches(if any then s.anyOf.list else s.oneOf.list, v, holds);
    if any {
      AnyOfSplits(s, v, holds);
    } else {
      OneOfSplits(s, v, holds);
    }
    var out := Convert(s);
    assert out == MadeNullable(Spread(EMPTY), out.description, out.example);
    NullableAdds(EMPTY, out.description, out.example, v, holds);
    assert Accepts(EMPTY, v, holds);
  }

  lemma AcceptsIs(s: Schema, v: Value, holds: Facets)
    requires s.Node?
    ensures Accepts(s, v, holds) <==> (s.nullable && v == VNull) || Keywords(s, v, holds)
  {
  }

  lemma EnumSplits(s: Schema, v: Value, holds: Facets)
    requires s.Node? && s.enumeration.Some?
    ensures Keywords(s, v, holds) <==> Keywords(s.(enumeration := None), v, holds) && v in s.enumeration.value
  {
    SameKeywords(s, s.(enumeration := None), v, holds);
  }

  lemma ConstHidesEnum(s: Schema)
    requires s.Node? && s.constant.Some? && !HasNull(s.anyOf) && !HasNull(s.oneOf)
    ensures Convert(s) == Convert(s.(enumeration := None))
  {
  }

  /** A const takes the place of an enum beside it: the meaning stays exactly where the const value,
      if the other keywords let it through, is in the enum. */
  lemma ConstBesideEnum(s: Schema, v: Value, holds: Facets)
    requires forall w :: holds(0, w)
    requires s.Node? && s.constant.Some? && s.enumeration.Some? && !HasNull(s.anyOf) && !HasNull(s.oneOf)
    requires WellFormed(s.(enumeration := None), holds)
    ensures (Accepts(Convert(s), v, holds) <==> Accepts(s, v, holds))
      <==> (Keywords(s.(enumeration := None), v, holds) ==> (s.nullable && v == VNull) || v in s.enumeration.value)
  {
    ConvertPreserves(s.(enumeration := None), v, holds);
    ConstHidesEnum(s);
    AcceptsIs(s.(enumeration := None), v, holds);
    AcceptsIs(s, v, holds);
    EnumSplits(s, v, holds);
  }

  lemma ConstUnionShape(s: Schema, v: Value, holds: Facets)
    requires s.Node? && s.constant.Some? && (HasNull(s.anyOf) || HasNull(s.oneOf))
    ensures Accepts(Convert(s), VNull, holds)
    ensures Accepts(Convert(s), v, holds) ==> v == VNull || v == s.constant.value
  {
    var rest := ConvertRest(s);
    assert rest.nullable && Convert(s) == rest.(enumeration := Some([s.constant.value]));
  }

  lemma ConstUnionAccepts(s: Schema, any: bool, v: Value, holds: Facets)
    requires holds(0, v)
    requires s.Node? && s.constant.Some? && UnionAlone(s.(constant := None))
    requires if any then s.anyOf.Schemas? && s.oneOf == NoSchemas else s.oneOf.Schemas? && s.anyOf == NoSchemas
    ensures Accepts(s, v, holds) <==>
      (v == s.constant.value && if any then Matching(s.anyOf.list, v, holds) > 0 else Matching(s.oneOf.list, v, holds) == 1)
  {
  }

  /** A const beside a nullable union: the conversion accepts null too, so the meaning stays exactly
      when the const is null and, under oneOf, no other member accepts null. */
  lemma ConstBesideUnion(s: Schema, any: bool, holds: Facets)
    requires forall w :: holds(0, w)
    requires s.Node? && s.constant.Some? && UnionAlone(s.(constant := None))
    requires if any then HasNull(s.anyOf) && s.oneOf == NoSchemas else HasNull(s.oneOf) && s.anyOf == NoSchemas
    requires var list := if any then s.anyOf.list else s.oneOf.list; PlainNull(list[NullIndex(list)])
    ensures (forall v :: Accepts(Convert(s), v, holds) <==> Accepts(s, v, holds))
      <==> s.constant.value == VNull && (any || NoneAcceptsNull(s.oneOf.list, holds))
  {
    var list := if any then s.anyOf.list else s.oneOf.list;
    UnionCounts(list, VNull, holds);
    NullRest(list, holds);
    ConstUnionAccepts(s, any, VNull, holds);
    forall v
      ensures Accepts(Convert(s), VNull, holds)
      ensures Accepts(Convert(s), v, holds) || Accepts(s, v, holds) ==> v == VNull || v == s.constant.value
    {
      ConstUnionShape(s, v, holds);
      ConstUnionAccepts(s, any, v, holds);
    }
    if forall v :: Accepts(Convert(s), v, holds) <==> Accepts(s, v, holds) {
      assert Accepts(s, VNull, holds);
    }
  }

  // ---------------------------------------------------------------- two ways to lose meaning

  /** A union of null alone becomes a schema that accepts everything. */
  lemma LoneNullAcceptsAll(v: Value, holds: Facets)
    requires forall w :: holds(0, w)
    ensures Accepts(Convert(EMPTY.(anyOf := Schemas([NULL]))), v, holds)
    ensures Accepts(EMPTY.(anyOf := Schemas([NULL])), v, holds) <==> v == VNull
  {
    assert NullIndex([NULL]) == 0;
    LoneNullMeaning(EMPTY.(anyOf := Schemas([NULL])), true, v, holds);
  }

  /** A keyword next to a nullable union is dropped: here the union is cut down to numbers, yet the
      output accepts every string. */
  lemma SiblingKeywordIsLost(holds: Facets, t: string)
    requires forall w :: holds(0, w)
    ensures var s := EMPTY.(kind := Some("number"), anyOf := Schemas([STRING, NULL]));
      !Accepts(s, VStr(t), holds) && Accepts(Convert(s), VStr(t), holds)
  {
    var ss := [STRING, NULL];
    assert !IsNull(ss[0]) && ss[1..] == [NULL] && NullIndex(ss) == 1;
    AnyOfMeaning(EMPTY.(kind := Some("number"), anyOf := Schemas(ss)), VStr(t), holds);
    assert Accepts(STRING, VStr(t), holds);
    SomeMatch(ss, 0, VStr(t), holds);
  }
}
