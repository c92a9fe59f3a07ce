/** The output of the converter: when it is clean, and when a second conversion changes nothing. */
module ConverterOutput {
  import opened Wrappers
  import opened Converter

  // ---------------------------------------------------------------- what is gone, exactly

  /** No const, no $schema and no null union member at any visited node. */
  predicate Clean(s: Schema)
    decreases s, 1
  {
    s.Node? ==> s.constant.None? && !s.dialect && CleanParts(s) && CleanUnions(s)
  }

  predicate CleanParts(s: Schema)
    requires s.Node?
    decreases s, 0
  {
    && (s.properties.Properties? ==> PropertiesClean(s.properties.list))
    && (s.items.Some? ==> Clean(s.items.value))
    && (s.additional.Some? ==> Clean(s.additional.value))
    && (s.negated.Some? ==> Clean(s.negated.value))
  }

  predicate CleanUnions(s: Schema)
    requires s.Node?
    decreases s, 0
  {
    && (s.anyOf.Schemas? ==> CleanUnion(s.anyOf.list))
    && (s.oneOf.Schemas? ==> CleanUnion(s.oneOf.list))
    && (s.allOf.Schemas? ==> AllClean(s.allOf.list))
  }

  predicate AllClean(ss: seq<Schema>)
    decreases ss, 0
  {
    forall i :: 0 <= i < |ss| ==> Clean(ss[i])
  }

  predicate PropertiesClean(ps: seq<Property>)
    decreases ps, 0
  {
    forall i :: 0 <= i < |ps| ==> Clean(ps[i].schema)
  }

  predicate CleanUnion(ss: seq<Schema>)
    decreases ss, 0
  {
    forall i :: 0 <= i < |ss| ==> Clean(ss[i]) && !IsNull(ss[i])
  }

  /** The conversion ends in a null schema: the node is one, or is null next to one that does. */
  predicate EndsNull(s: Schema)
    decreases s, 1
  {
    s.Node? &&
      if HasNull(s.anyOf) then OtherEndsNull(s.anyOf.list)
      else if HasNull(s.oneOf) then OtherEndsNull(s.oneOf.list)
      else IsNull(s)
  }

  predicate OtherEndsNull(variants: seq<Schema>)
    requires NullIndex(variants) < |variants|
    decreases variants, 0
  {
    |variants| == 2 && EndsNull(variants[1 - NullIndex(variants)])
  }

  /** What the input must satisfy for its conversion to be clean.  A nullable union is asked about the
      members that survive it, any other node about everything below it. */
  predicate Tidy(s: Schema)
    decreases s, 1
  {
    s.Node? ==>
      if HasNull(s.anyOf) then TidyCollapse(s.anyOf.list)
      else if HasNull(s.oneOf) then TidyCollapse(s.oneOf.list)
      else TidyParts(s) && TidyUnions(s)
  }

  predicate TidyParts(s: Schema)
    requires s.Node?
    decreases s, 0
  {
    && (s.properties.Properties? ==> PropertiesTidy(s.properties.list))
    && (s.items.Some? ==> Tidy(s.items.value))
    && (s.additional.Some? ==> Tidy(s.additional.value))
    && (s.negated.Some? ==> Tidy(s.negated.value))
  }

  predicate TidyUnions(s: Schema)
    requires s.Node?
    decreases s, 0
  {
    && (s.anyOf.Schemas? ==> TidyUnion(s.anyOf.list))
    && (s.oneOf.Schemas? ==> TidyUnion(s.oneOf.list))
    && (s.allOf.Schemas? ==> AllTidy(s.allOf.list))
  }

  predicate AllTidy(ss: seq<Schema>)
    decreases ss, 0
  {
    forall i :: 0 <= i < |ss| ==> Tidy(ss[i])
  }

  predicate PropertiesTidy(ps: seq<Property>)
    decreases ps, 0
  {
    forall i :: 0 <= i < |ps| ==> Tidy(ps[i].schema)
  }

  predicate TidyUnion(ss: seq<Schema>)
    decreases ss, 0
  {
    forall i :: 0 <= i < |ss| ==> Tidy(ss[i]) && !EndsNull(ss[i])
  }

  /** Null alone leaves nothing; null and one other leave the other, which may end as null; null and
      several others leave a union, of which no member may. */
  predicate TidyCollapse(variants: seq<Schema>)
    requires NullIndex(variants) < |variants|
    decreases variants, 1
  {
    var i := NullIndex(variants);
    if |variants| == 2 then Tidy(variants[1 - i]) else TidyUnion(variants[..i]) && TidyUnion(variants[i + 1..])
  }

  lemma {:induction false} EndsNullIsExact(s: Schema)
    ensures EndsNull(s) <==> IsNull(Convert(s))
    decreases s, 1
  {
    if s.Node? {
      assert Convert(s).kind == ConvertRest(s).kind;
      if HasNull(s.anyOf) {
        CollapseEndsNull(s, s.anyOf.list, true);
      } else if HasNull(s.oneOf) {
        CollapseEndsNull(s, s.oneOf.list, false);
      }
    }
  }

  lemma {:induction false} CollapseEndsNull(s: Schema, variants: seq<Schema>, any: bool)
    requires s.Node? && NullIndex(variants) < |variants|
    ensures OtherEndsNull(variants) <==> IsNull(Collapse(s, variants, any))
    decreases variants, 0
  {
    if |variants| == 2 {
      EndsNullIsExact(variants[1 - NullIndex(variants)]);
    }
  }

  /** Member by member, a tidy list is one whose conversion is clean. */
  lemma {:induction false} AllTidyIsExact(ss: seq<Schema>)
    ensures AllTidy(ss) <==> AllClean(ConvertAll(ss))
    ensures TidyUnion(ss) <==> CleanUnion(ConvertAll(ss))
    decreases ss, 0
  {
    var out := ConvertAll(ss);
    forall i | 0 <= i < |ss|
      ensures (Tidy(ss[i]) <==> Clean(out[i])) && (EndsNull(ss[i]) <==> IsNull(out[i]))
    {
      ConvertAllAt(ss, i);
      TidyIsExact(ss[i]);
      EndsNullIsExact(ss[i]);
    }
    assert forall i :: 0 <= i < |ss| ==> (Tidy(ss[i]) <==> Clean(out[i]));
  }

  lemma {:induction false} PropertiesTidyIsExact(ps: seq<Property>)
    ensures PropertiesTidy(ps) <==> PropertiesClean(ConvertProperties(ps))
    decreases ps, 0
  {
    var out := ConvertProperties(ps);
    forall i | 0 <= i < |ps|
      ensures Tidy(ps[i].schema) <==> Clean(out[i].schema)
    {
      ConvertPropertiesAt(ps, i);
      TidyIsExact(ps[i].schema);
    }
    assert forall i :: 0 <= i < |ps| ==> (Tidy(ps[i].schema) <==> Clean(out[i].schema));
  }

  lemma CleanUnionConcat(a: seq<Schema>, b: seq<Schema>)
    ensures CleanUnion(a + b) <==> CleanUnion(a) && CleanUnion(b)
  {
    assert forall i :: 0 <= i < |a| ==> a[i] == (a + b)[i];
    assert forall i :: 0 <= i < |b| ==> b[i] == (a + b)[|a| + i];
  }

  lemma {:induction false} CollapseTidyIsExact(s: Schema, variants: seq<Schema>, any: bool)
    requires s.Node? && NullIndex(variants) < |variants|
    ensures TidyCollapse(variants) <==> Clean(Collapse(s, variants, any))
    decreases variants, 1
  {
    var i := NullIndex(variants);
    if |variants| == 2 {
      TidyIsExact(variants[1 - i]);
    } else if |variants| > 2 {
      AllTidyIsExact(variants[..i]);
      AllTidyIsExact(variants[i + 1..]);
      CleanUnionConcat(ConvertAll(variants[..i]), ConvertAll(variants[i + 1..]));
    }
  }

  lemma {:induction false} PartsTidyIsExact(s: Schema)
    requires s.Node? && !HasNull(s.anyOf) && !HasNull(s.oneOf)
    ensures TidyParts(s) <==> CleanParts(ConvertRest(s))
    decreases s, 0
  {
    if s.properties.Properties? {
      PropertiesTidyIsExact(s.properties.list);
    }
    if s.items.Some? {
      TidyIsExact(s.items.value);
    }
    if s.additional.Some? {
      TidyIsExact(s.additional.value);
    }
    if s.negated.Some? {
      TidyIsExact(s.negated.value);
    }
  }

  lemma {:induction false} UnionsTidyIsExact(s: Schema)
    requires s.Node? && !HasNull(s.anyOf) && !HasNull(s.oneOf)
    ensures TidyUnions(s) <==> CleanUnions(ConvertRest(s))
    decreases s, 0
  {
    if s.anyOf.Schemas? {
      AllTidyIsExact(s.anyOf.list);
    }
    if s.oneOf.Schemas? {
      AllTidyIsExact(s.oneOf.list);
    }
    if s.allOf.Schemas? {
      AllTidyIsExact(s.allOf.list);
    }
  }

  lemma EnumerationClean(s: Schema, e: Option<seq<Value>>)
    requires s.Node?
    ensures Clean(s) <==> Clean(s.(enumeration := e))
  {
  }

  /** The output has no const, no $schema and no null union member at any visited node exactly when the
      input is tidy. */
  lemma {:induction false} TidyIsExact(s: Schema)
    ensures Tidy(s) <==> Clean(Convert(s))
    decreases s, 1
  {
    if s.Node? {
      EnumerationClean(ConvertRest(s), Convert(s).enumeration);
      assert Convert(s) == ConvertRest(s).(enumeration := Convert(s).enumeration);
      if HasNull(s.anyOf) {
        CollapseTidyIsExact(s, s.anyOf.list, true);
      } else if HasNull(s.oneOf) {
        CollapseTidyIsExact(s, s.oneOf.list, false);
      } else {
        PartsTidyIsExact(s);
        UnionsTidyIsExact(s);
      }
    }
  }

  predicate AtMostOneNull(ss: seq<Schema>) {
    forall i, j :: 0 <= i < j < |ss| ==> !IsNull(ss[i]) || !IsNull(ss[j])
  }

  /** At every visited node at most one member of an anyOf or oneOf is null. */
  predicate SingleNull(s: Schema)
    decreases s
  {
    s.Node? ==>
      && (s.properties.Properties? ==> forall i :: 0 <= i < |s.properties.list| ==> SingleNull(s.properties.list[i].schema))
      && (s.items.Some? ==> SingleNull(s.items.value))
      && (s.additional.Some? ==> SingleNull(s.additional.value))
      && (s.anyOf.Schemas? ==> AtMostOneNull(s.anyOf.list) && forall i :: 0 <= i < |s.anyOf.list| ==> SingleNull(s.anyOf.list[i]))
      && (s.oneOf.Schemas? ==> AtMostOneNull(s.oneOf.list) && forall i :: 0 <= i < |s.oneOf.list| ==> SingleNull(s.oneOf.list[i]))
      && (s.allOf.Schemas? ==> forall i :: 0 <= i < |s.allOf.list| ==> SingleNull(s.allOf.list[i]))
      && (s.negated.Some? ==> SingleNull(s.negated.value))
  }

  lemma {:induction false} SingleNullEnds(s: Schema)
    requires SingleNull(s) && !IsNull(s)
    ensures !EndsNull(s)
    decreases s
  {
    if s.Node? {
      var variants := if HasNull(s.anyOf) then s.anyOf.list else if HasNull(s.oneOf) then s.oneOf.list else [];
      if |variants| == 2 {
        SingleNullEnds(variants[1 - NullIndex(variants)]);
      }
    }
  }

  lemma {:induction false} SingleNullUnion(ss: seq<Schema>)
    requires AtMostOneNull(ss) && forall i :: 0 <= i < |ss| ==> SingleNull(ss[i])
    ensures if NullIndex(ss) < |ss| then TidyCollapse(ss) else TidyUnion(ss)
    decreases ss, 0
  {
    forall i | 0 <= i < |ss|
      ensures Tidy(ss[i]) && (IsNull(ss[i]) || !EndsNull(ss[i]))
    {
      SingleNullIsTidy(ss[i]);
      if !IsNull(ss[i]) {
        SingleNullEnds(ss[i]);
      }
    }
    var i := NullIndex(ss);
    if i < |ss| {
      var after := ss[i + 1..];
      assert forall k :: 0 <= k < |after| ==> after[k] == ss[i + 1 + k];
    }
  }

  /** The usual case: schemas with at most one null member per union are tidy. */
  lemma {:induction false} SingleNullIsTidy(s: Schema)
    requires SingleNull(s)
    ensures Tidy(s)
    decreases s, 1
  {
    if s.Node? {
      if s.anyOf.Schemas? {
        SingleNullUnion(s.anyOf.list);
      }
      if s.oneOf.Schemas? {
        SingleNullUnion(s.oneOf.list);
      }
      SingleNullBelow(s);
    }
  }

  lemma {:induction false} SingleNullBelow(s: Schema)
    requires SingleNull(s) && s.Node?
    ensures TidyParts(s) && (s.allOf.Schemas? ==> AllTidy(s.allOf.list))
    decreases s, 0
  {
    if s.properties.Properties? {
      forall i | 0 <= i < |s.properties.list|
        ensures Tidy(s.properties.list[i].schema)
      {
        SingleNullIsTidy(s.properties.list[i].schema);
      }
    }
    if s.allOf.Schemas? {
      forall i | 0 <= i < |s.allOf.list|
        ensures Tidy(s.allOf.list[i])
      {
        SingleNullIsTidy(s.allOf.list[i]);
      }
    }
    if s.items.Some? {
      SingleNullIsTidy(s.items.value);
    }
    if s.additional.Some? {
      SingleNullIsTidy(s.additional.value);
    }
    if s.negated.Some? {
      SingleNullIsTidy(s.negated.value);
    }
  }

  // ---------------------------------------------------------------- converting twice, exactly

  function Max(a: nat, b: nat): nat {
    if a < b then b else a
  }

  /** How deep anyOf and oneOf are nested in each other. */
  function UnionDepth(s: Schema): nat
    decreases s, 1
  {
    if s.Always? then 0
    else Max(if s.anyOf.Schemas? then MembersDepth(s.anyOf.list) else 0,
             if s.oneOf.Schemas? then MembersDepth(s.oneOf.list) else 0)
  }

  function MembersDepth(ss: seq<Schema>): nat
    decreases ss, 0
  {
    if ss == [] then 0 else Max(1 + UnionDepth(ss[0]), MembersDepth(ss[1..]))
  }

  lemma {:induction false} MemberIsShallower(ss: seq<Schema>, i: nat)
    requires i < |ss|
    ensures UnionDepth(ss[i]) < MembersDepth(ss)
    decreases |ss|
  {
    if i > 0 {
      MemberIsShallower(ss[1..], i - 1);
    }
  }

  lemma {:induction false} MembersDepthConcat(a: seq<Schema>, b: seq<Schema>)
    ensures MembersDepth(a + b) == Max(MembersDepth(a), MembersDepth(b))
    decreases |a|
  {
    if a == [] {
      assert a + b == b;
    } else {
      assert (a + b)[0] == a[0] && (a + b)[1..] == a[1..] + b;
      MembersDepthConcat(a[1..], b);
    }
  }

  lemma {:induction false} ConvertAllDepth(ss: seq<Schema>)
    ensures MembersDepth(ConvertAll(ss)) <= MembersDepth(ss)
    decreases ss, 0
  {
    if ss != [] {
      ConvertDepth(ss[0]);
      ConvertAllDepth(ss[1..]);
    }
  }

  lemma {:induction false} CollapseDepth(s: Schema, variants: seq<Schema>, any: bool)
    requires s.Node? && NullIndex(variants) < |variants|
    ensures UnionDepth(Collapse(s, variants, any)) <= MembersDepth(variants)
    ensures |variants| <= 2 ==> UnionDepth(Collapse(s, variants, any)) < MembersDepth(variants)
    decreases variants, 1
  {
    var i := NullIndex(variants);
    MemberIsShallower(variants, i);
    if |variants| == 2 {
      ConvertDepth(variants[1 - i]);
      MemberIsShallower(variants, 1 - i);
    } else if |variants| > 2 {
      var before, after := variants[..i], variants[i + 1..];
      assert variants == before + ([variants[i]] + after);
      MembersDepthConcat(before, [variants[i]] + after);
      MembersDepthConcat([variants[i]], after);
      ConvertAllDepth(before);
      ConvertAllDepth(after);
      MembersDepthConcat(ConvertAll(before), ConvertAll(after));
    }
  }

  /** Conversion never nests unions deeper. */
  lemma {:induction false} ConvertDepth(s: Schema)
    ensures UnionDepth(Convert(s)) <= UnionDepth(s)
    decreases s, 2
  {
    if s.Node? {
      ConvertCases(s);
      if HasNull(s.anyOf) {
        CollapseDepth(s, s.anyOf.list, true);
      } else if HasNull(s.oneOf) {
        CollapseDepth(s, s.oneOf.list, false);
      } else {
        if s.anyOf.Schemas? {
          ConvertAllDepth(s.anyOf.list);
        }
        if s.oneOf.Schemas? {
          ConvertAllDepth(s.oneOf.list);
        }
      }
    }
  }

  /** A collapse is never the schema it started from: it is shallower, or its union is shorter. */
  lemma CollapseMoves(s: Schema)
    requires s.Node? && (HasNull(s.anyOf) || HasNull(s.oneOf))
    ensures Convert(s) != s
  {
    var any := HasNull(s.anyOf);
    var variants := if any then s.anyOf.list else s.oneOf.list;
    ConvertCases(s);
    CollapseDepth(s, variants, any);
    assert UnionDepth(s) >= MembersDepth(variants);
    assert UnionDepth(ConvertRest(s)) == UnionDepth(Convert(s));
  }

  /** The node itself ends without const and $schema, wherever the conversion stops. */
  lemma {:induction false} ConvertStrips(s: Schema)
    requires s.Node?
    ensures Convert(s).Node? && Convert(s).constant.None? && !Convert(s).dialect
    decreases s, 1
  {
    if HasNull(s.anyOf) {
      CollapseStrips(s, s.anyOf.list, true);
    } else if HasNull(s.oneOf) {
      CollapseStrips(s, s.oneOf.list, false);
    }
  }

  lemma {:induction false} CollapseStrips(s: Schema, variants: seq<Schema>, any: bool)
    requires s.Node? && NullIndex(variants) < |variants|
    ensures var r := Collapse(s, variants, any); r.constant.None? && !r.dialect
    decreases variants, 0
  {
    if |variants| == 2 && variants[1 - NullIndex(variants)].Node? {
      ConvertStrips(variants[1 - NullIndex(variants)]);
    }
  }

  lemma {:induction false} FixedMembers(ss: seq<Schema>)
    requires ConvertAll(ss) == ss
    ensures AllClean(ss)
    decreases ss, 0
  {
    forall i | 0 <= i < |ss|
      ensures Clean(ss[i])
    {
      ConvertAllAt(ss, i);
      FixedIsClean(ss[i]);
    }
  }

  lemma {:induction false} FixedProperties(ps: seq<Property>)
    requires ConvertProperties(ps) == ps
    ensures PropertiesClean(ps)
    decreases ps, 0
  {
    forall i | 0 <= i < |ps|
      ensures Clean(ps[i].schema)
    {
      ConvertPropertiesAt(ps, i);
      FixedIsClean(ps[i].schema);
    }
  }

  /** A fixed point is clean. */
  lemma {:induction false} FixedIsClean(s: Schema)
    requires Convert(s) == s
    ensures Clean(s)
    decreases s, 1
  {
    if s.Node? {
      ConvertStrips(s);
      if HasNull(s.anyOf) || HasNull(s.oneOf) {
        CollapseMoves(s);
      } else {
        assert ConvertRest(s) == s;
        FixedBelow(s);
      }
    }
  }

  lemma {:induction false} FixedBelow(s: Schema)
    requires s.Node? && ConvertRest(s) == s && !HasNull(s.anyOf) && !HasNull(s.oneOf) && s.constant.None? && !s.dialect
    ensures Clean(s)
    decreases s, 0
  {
    if s.properties.Properties? {
      FixedProperties(s.properties.list);
    }
    if s.items.Some? {
      FixedIsClean(s.items.value);
    }
    if s.additional.Some? {
      FixedIsClean(s.additional.value);
    }
    if s.anyOf.Schemas? {
      FixedMembers(s.anyOf.list);
    }
    if s.oneOf.Schemas? {
      FixedMembers(s.oneOf.list);
    }
    if s.allOf.Schemas? {
      FixedMembers(s.allOf.list);
    }
    if s.negated.Some? {
      FixedIsClean(s.negated.value);
    }
  }

  lemma CleanUnionIsClean(s: Schema)
    requires s.Node? && CleanUnions(s)
    ensures s.anyOf.Schemas? ==> AllClean(s.anyOf.list) && !HasNull(s.anyOf)
    ensures s.oneOf.Schemas? ==> AllClean(s.oneOf.list) && !HasNull(s.oneOf)
  {
  }

  /** A clean schema is a fixed point. */
  lemma {:induction false} CleanIsFixed(s: Schema)
    requires Clean(s)
    ensures Convert(s) == s
    decreases s, 1
  {
    if s.Node? {
      assert CleanParts(s) && CleanUnions(s);
      CleanUnionIsClean(s);
      if s.properties.Properties? {
        PropertiesFixed(s.properties.list);
      }
      if s.items.Some? {
        CleanIsFixed(s.items.value);
      }
      if s.additional.Some? {
        CleanIsFixed(s.additional.value);
      }
      if s.anyOf.Schemas? {
        AllFixed(s.anyOf.list);
      }
      if s.oneOf.Schemas? {
        AllFixed(s.oneOf.list);
      }
      if s.allOf.Schemas? {
        AllFixed(s.allOf.list);
      }
      if s.negated.Some? {
        CleanIsFixed(s.negated.value);
      }
    }
  }

  lemma {:induction false} PropertiesFixed(ps: seq<Property>)
    requires PropertiesClean(ps)
    ensures ConvertProperties(ps) == ps
    decreases ps, 0
  {
    if ps != [] {
      CleanIsFixed(ps[0].schema);
      PropertiesFixed(ps[1..]);
    }
  }

  lemma {:induction false} AllFixed(ss: seq<Schema>)
    requires AllClean(ss)
    ensures ConvertAll(ss) == ss
    decreases ss, 0
  {
    if ss != [] {
      CleanIsFixed(ss[0]);
      AllFixed(ss[1..]);
    }
  }

  /** The fixed points of the conversion are exactly the clean schemas. */
  lemma FixedIffClean(s: Schema)
    ensures Convert(s) == s <==> Clean(s)
  {
    if Convert(s) == s {
      FixedIsClean(s);
    }
    if Clean(s) {
      CleanIsFixed(s);
    }
  }

  /** Converting twice changes nothing more exactly when the input is tidy. */
  lemma ConvertTwice(s: Schema)
    ensures Convert(Convert(s)) == Convert(s) <==> Tidy(s)
  {
    FixedIffClean(Convert(s));
    TidyIsExact(s);
  }

  /** With at most one null member per union the output is clean and a second conversion changes
      nothing. */
  lemma ConvertIsClean(s: Schema)
    requires SingleNull(s)
    ensures Clean(Convert(s)) && Convert(Convert(s)) == Convert(s)
  {
    SingleNullIsTidy(s);
    TidyIsExact(s);
    ConvertTwice(s);
  }

  /** Of two null members one survives, and a second conversion takes it away. */
  lemma SecondNullSurvives()
    ensures var s := EMPTY.(anyOf := Schemas([NULL, NULL, STRING]));
      !Clean(Convert(s)) && Convert(Convert(s)) != Convert(s)
  {
    var ss := [NULL, NULL, STRING];
    var after := ss[1..];
    assert NullIndex(ss) == 0 && after[0] == NULL && EndsNull(after[0]);
    assert !TidyUnion(after) && !TidyCollapse(ss);
    TidyIsExact(EMPTY.(anyOf := Schemas(ss)));
    ConvertTwice(EMPTY.(anyOf := Schemas(ss)));
  }

  // ---------------------------------------------------------------- annotations

  /** The description the output carries: of null and one other the node's own unless empty, else the
      other's; none from a longer or a lone union; otherwise the node's own. */
  function Described(s: Schema): Option<string>
    decreases s, 1
  {
    if s.Always? then None
    else if HasNull(s.anyOf) || HasNull(s.oneOf) then
      var variants := if HasNull(s.anyOf) then s.anyOf.list else s.oneOf.list;
      if |variants| != 2 then None
      else if s.description.Some? && s.description.value != "" then s.description
      else Described(variants[1 - NullIndex(variants)])
    else s.description
  }

  /** Likewise for the example, where any value of the node's own counts. */
  function Exemplified(s: Schema): Option<Value>
    decreases s, 1
  {
    if s.Always? then None
    else if HasNull(s.anyOf) || HasNull(s.oneOf) then
      var variants := if HasNull(s.anyOf) then s.anyOf.list else s.oneOf.list;
      if |variants| != 2 then None
      else if s.example.Some? then s.example
      else Exemplified(variants[1 - NullIndex(variants)])
    else s.example
  }

  lemma {:induction false} AnnotationsCarried(s: Schema)
    requires s.Node?
    ensures Convert(s).Node? && Convert(s).description == Described(s) && Convert(s).example == Exemplified(s)
    decreases s
  {
    if HasNull(s.anyOf) || HasNull(s.oneOf) {
      var variants := if HasNull(s.anyOf) then s.anyOf.list else s.oneOf.list;
      var rest := ConvertRest(s);
      assert rest == Collapse(s, variants, HasNull(s.anyOf));
      if |variants| == 2 && variants[1 - NullIndex(variants)].Node? {
        AnnotationsCarried(variants[1 - NullIndex(variants)]);
      }
    }
  }
}
