/** The JSON Schema to OpenAPI 3.0 rewriter: schemas, the conversion, and its methods. */
module Converter {
  import opened Wrappers

  // ---------------------------------------------------------------- instances and schemas

  datatype Value =
    | VNull
    | VBool(b: bool)
    | VNum(n: int)
    | VStr(s: string)
    | VArr(elements: seq<Value>)
    | VObj(members: map<string, Value>)

  /** A boolean schema, or an object with its keywords. `rest` names the combination of keywords
      that the converter copies without looking inside; 0 is none. */
  datatype Schema =
    | Always(accepts: bool)
    | Node(
        dialect: bool, kind: Option<string>, constant: Option<Value>, enumeration: Option<seq<Value>>,
        properties: Properties, items: Option<Schema>, additional: Option<Schema>,
        anyOf: Schemas, oneOf: Schemas, allOf: Schemas, negated: Option<Schema>,
        nullable: bool, description: Option<string>, example: Option<Value>, rest: nat)

  datatype Property = Property(key: string, schema: Schema)

  /** The keywords that hold a list, when present. */
  datatype Properties = NoProperties | Properties(list: seq<Property>)

  datatype Schemas = NoSchemas | Schemas(list: seq<Schema>)

  const EMPTY := Node(false, None, None, None, NoProperties, None, None, NoSchemas, NoSchemas, NoSchemas, None, false, None, None, 0)

  const NULL := EMPTY.(kind := Some("null"))
  const STRING := EMPTY.(kind := Some("string"))

  // ---------------------------------------------------------------- the conversion

  predicate IsNull(s: Schema) {
    s.Node? && s.kind == Some("null")
  }

  /** findIndex(isNullSchema), or the length. */
  function NullIndex(ss: seq<Schema>): (i: nat)
    ensures i <= |ss|
    ensures i < |ss| ==> IsNull(ss[i])
    ensures forall j :: 0 <= j < i ==> !IsNull(ss[j])
  {
    if ss == [] || IsNull(ss[0]) then 0 else 1 + NullIndex(ss[1..])
  }

  predicate HasNull(ss: Schemas) {
    ss.Schemas? && NullIndex(ss.list) < |ss.list|
  }

  /** `{ ...schema }`: spreading a boolean gives no keyword. */
  function Spread(s: Schema): (r: Schema)
    ensures r.Node?
  {
    if s.Node? then s else EMPTY
  }

  function Convert(s: Schema): Schema
    decreases s, 3
  {
    if s.Always? then s
    else
      var out := ConvertRest(s);
      if s.constant.Some? then out.(enumeration := Some([s.constant.value])) else out
  }

  /** convertNode of the node without its const. */
  function ConvertRest(s: Schema): (r: Schema)
    requires s.Node?
    ensures r.Node?
    decreases s, 2
  {
    if HasNull(s.anyOf) then Collapse(s, s.anyOf.list, true)
    else if HasNull(s.oneOf) then Collapse(s, s.oneOf.list, false)
    else s.(dialect := false, constant := None,
            properties := if s.properties.Properties? then Properties(ConvertProperties(s.properties.list)) else NoProperties,
            items := if s.items.Some? then Some(Convert(s.items.value)) else None,
            additional := if s.additional.Some? then Some(Convert(s.additional.value)) else None,
            anyOf := if s.anyOf.Schemas? then Schemas(ConvertAll(s.anyOf.list)) else NoSchemas,
            oneOf := if s.oneOf.Schemas? then Schemas(ConvertAll(s.oneOf.list)) else NoSchemas,
            allOf := if s.allOf.Schemas? then Schemas(ConvertAll(s.allOf.list)) else NoSchemas,
            negated := if s.negated.Some? then Some(Convert(s.negated.value)) else None)
  }

  function MadeNullable(x: Schema, description: Option<string>, example: Option<Value>): (r: Schema)
    requires x.Node?
    ensures r.Node? && r.nullable
  {
    x.(nullable := true, description := description, example := example)
  }

  /** collapseNullableUnion once the union is found; `any` tells anyOf from oneOf. */
  function Collapse(s: Schema, variants: seq<Schema>, any: bool): (r: Schema)
    requires s.Node? && NullIndex(variants) < |variants|
    ensures r.Node? && r.nullable
    decreases variants, 1
  {
    var i := NullIndex(variants);
    if |variants| == 1 then EMPTY.(nullable := true)
    else if |variants| == 2 then
      var merged := Spread(Convert(variants[1 - i]));
      MadeNullable(merged,
        if s.description.Some? && s.description.value != "" then s.description else merged.description,
        if s.example.Some? then s.example else merged.example)
    else
      var kept := Schemas(ConvertAll(variants[..i]) + ConvertAll(variants[i + 1..]));
      if any then EMPTY.(anyOf := kept, nullable := true) else EMPTY.(oneOf := kept, nullable := true)
  }

  function ConvertAll(ss: seq<Schema>): (r: seq<Schema>)
    ensures |r| == |ss|
    decreases ss, 0
  {
    if ss == [] then [] else [Convert(ss[0])] + ConvertAll(ss[1..])
  }

  function ConvertProperties(ps: seq<Property>): (r: seq<Property>)
    ensures |r| == |ps|
    decreases ps, 0
  {
    if ps == [] then []
    else [Property(ps[0].key, Convert(ps[0].schema))] + ConvertProperties(ps[1..])
  }

  lemma {:induction false} ConvertPropertiesAt(ps: seq<Property>, i: nat)
    requires i < |ps|
    ensures ConvertProperties(ps)[i] == Property(ps[i].key, Convert(ps[i].schema))
    decreases |ps|
  {
    if i > 0 {
      ConvertPropertiesAt(ps[1..], i - 1);
    }
  }

  lemma {:induction false} ConvertAllConcat(a: seq<Schema>, b: seq<Schema>)
    ensures ConvertAll(a + b) == ConvertAll(a) + ConvertAll(b)
    decreases |a|
  {
    if a == [] {
      assert a + b == b;
    } else {
      assert (a + b)[0] == a[0] && (a + b)[1..] == a[1..] + b;
      ConvertAllConcat(a[1..], b);
    }
  }

  lemma {:induction false} ConvertAllAt(ss: seq<Schema>, i: nat)
    requires i < |ss|
    ensures ConvertAll(ss)[i] == Convert(ss[i])
    decreases |ss|
  {
    if i > 0 {
      ConvertAllAt(ss[1..], i - 1);
    }
  }

  lemma ConvertCases(s: Schema)
    requires s.Node?
    ensures Convert(s).Node?
    ensures s.constant.None? && HasNull(s.anyOf) ==> Convert(s) == Collapse(s, s.anyOf.list, true)
    ensures s.constant.None? && !HasNull(s.anyOf) && HasNull(s.oneOf) ==> Convert(s) == Collapse(s, s.oneOf.list, false)
    ensures var (t, r) := (Convert(s), ConvertRest(s));
      && t.properties == r.properties && t.items == r.items && t.additional == r.additional
      && t.anyOf == r.anyOf && t.oneOf == r.oneOf && t.allOf == r.allOf && t.negated == r.negated
  {
  }

  // ---------------------------------------------------------------- convertNode, statement by statement

  /** convertNode: a local copy whose fields are assigned and deleted in turn. */
  method ConvertNode(node: Schema) returns (out: Schema)
    ensures out == Convert(node)
    decreases node, 4
  {
    if node.Always? {
      return node;
    }
    out := ConvertStripped(node);
    if node.constant.Some? {
      out := out.(enumeration := Some([node.constant.value]));
    }
  }

  method ConvertStripped(node: Schema) returns (out: Schema)
    requires node.Node?
    ensures out == ConvertRest(node)
    decreases node, 3
  {
    if HasNull(node.anyOf) {
      out := CollapseUnion(node, node.anyOf.list, true);
      return;
    }
    if HasNull(node.oneOf) {
      out := CollapseUnion(node, node.oneOf.list, false);
      return;
    }
    out := node.(constant := None);
    out := out.(dialect := false);
    var properties := ConvertPropertiesKeyword(node.properties);
    out := out.(properties := properties);
    var schema := ConvertSchemaKeyword(node.items);
    out := out.(items := schema);
    schema := ConvertSchemaKeyword(node.additional);
    out := out.(additional := schema);
    var list := ConvertListKeyword(node.anyOf);
    out := out.(anyOf := list);
    list := ConvertListKeyword(node.oneOf);
    out := out.(oneOf := list);
    list := ConvertListKeyword(node.allOf);
    out := out.(allOf := list);
    schema := ConvertSchemaKeyword(node.negated);
    out := out.(negated := schema);
  }

  /** The branch taken when a keyword holding a schema is present. */
  method ConvertSchemaKeyword(keyword: Option<Schema>) returns (out: Option<Schema>)
    ensures out == if keyword.Some? then Some(Convert(keyword.value)) else None
    decreases keyword
  {
    out := None;
    if keyword.Some? {
      var schema := ConvertNode(keyword.value);
      out := Some(schema);
    }
  }

  /** The branch taken when a keyword holding a list of schemas is present. */
  method ConvertListKeyword(keyword: Schemas) returns (out: Schemas)
    ensures out == if keyword.Schemas? then Schemas(ConvertAll(keyword.list)) else NoSchemas
    decreases keyword
  {
    out := NoSchemas;
    if keyword.Schemas? {
      var list := ConvertList(keyword.list);
      out := Schemas(list);
    }
  }

  /** The branch taken when `properties` is present. */
  method ConvertPropertiesKeyword(keyword: Properties) returns (out: Properties)
    ensures out == if keyword.Properties? then Properties(ConvertProperties(keyword.list)) else NoProperties
    decreases keyword
  {
    out := NoProperties;
    if keyword.Properties? {
      var list := ConvertPropertyList(keyword.list);
      out := Properties(list);
    }
  }

  method CollapseUnion(node: Schema, variants: seq<Schema>, any: bool) returns (out: Schema)
    requires node.Node? && NullIndex(variants) < |variants|
    ensures out == Collapse(node, variants, any)
    decreases variants, 2
  {
    var i := NullIndex(variants);
    if |variants| == 1 {
      return EMPTY.(nullable := true);
    }
    if |variants| == 2 {
      var merged := ConvertNode(variants[1 - i]);
      merged := Spread(merged);
      merged := merged.(nullable := true);
      if node.description.Some? && node.description.value != "" {
        merged := merged.(description := node.description);
      }
      if node.example.Some? {
        merged := merged.(example := node.example);
      }
      return merged;
    }
    var before := ConvertList(variants[..i]);
    var after := ConvertList(variants[i + 1..]);
    out := EMPTY.(nullable := true);
    if any {
      out := out.(anyOf := Schemas(before + after));
    } else {
      out := out.(oneOf := Schemas(before + after));
    }
  }

  method ConvertList(ss: seq<Schema>) returns (out: seq<Schema>)
    ensures out == ConvertAll(ss)
    decreases ss, 0
  {
    out := [];
    for i := 0 to |ss|
      invariant out == ConvertAll(ss[..i])
    {
      var converted := ConvertNode(ss[i]);
      assert ss[..i + 1] == ss[..i] + [ss[i]];
      ConvertAllConcat(ss[..i], [ss[i]]);
      assert [ss[i]][1..] == [];
      out := out + [converted];
    }
    assert ss[..|ss|] == ss;
  }

  method ConvertPropertyList(ps: seq<Property>) returns (out: seq<Property>)
    ensures out == ConvertProperties(ps)
    decreases ps, 0
  {
    out := [];
    for i := 0 to |ps|
      invariant |out| == i && forall j :: 0 <= j < i ==> out[j] == ConvertProperties(ps)[j]
    {
      var converted := ConvertNode(ps[i].schema);
      ConvertPropertiesAt(ps, i);
      out := out + [Property(ps[i].key, converted)];
    }
  }
}
