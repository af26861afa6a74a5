/** Declaration checking of beans (Beans.js:94-220): the parsed configuration
    tree becomes a list of `Bean` records, or the first error met. Each
    `parse...` function of the source is a method here, proved equal to a
    function that states what it computes; the lemmas state the rules of the
    configuration language on those functions. */
module Declarations {
  import opened Results
  import opened Js
  import Names

  datatype Scope = Singleton | Prototype | Module

  /** A property value (`new Value(v, type)`): a literal, a reference to a
      bean id, or a list of literals and references. */
  datatype Value = Literal(v: Val) | Ref(target: Val) | List(items: seq<Value>)

  datatype Property = Property(name: string, value: Value)

  datatype Bean = Bean(id: string, aClass: string, scope: Scope, properties: seq<Property>)

  /** What the XML parser delivers for a whole document: the root element's
      name and its tree. */
  datatype Document = Document(rootName: string, root: Node)

  /** `json['beans'] || []`: the root, when it is a `beans` element. */
  function BeansElement(doc: Document): (r: Node)
    ensures doc.rootName != "beans" ==> r == Text("")
  {
    if doc.rootName == "beans" then doc.root else Text("")
  }

  // ---------------------------------------------------------------------
  // conditionExpectingOne (Beans.js:170-182)

  function Ind(b: bool): nat
  {
    if b then 1 else 0
  }

  /** The number of true conditions, counted from the front. */
  function Count(conds: seq<bool>): nat
  {
    if |conds| == 0 then 0
    else Count(conds[..|conds| - 1]) + Ind(conds[|conds| - 1])
  }

  lemma CountTwo(a: bool, b: bool)
    ensures Count([a, b]) == Ind(a) + Ind(b)
  {
    assert [a, b][..1] == [a];
    assert [a][..0] == [];
    assert Count([a]) == Ind(a);
  }

  lemma CountFive(s: seq<bool>)
    requires |s| == 5
    ensures Count(s) == Ind(s[0]) + Ind(s[1]) + Ind(s[2]) + Ind(s[3]) + Ind(s[4])
  {
    assert s[..4][..3] == s[..3];
    assert s[..3][..2] == s[..2];
    assert s[..2][..1] == s[..1];
    assert s[..1][..0] == [];
    assert Count(s[..1]) == Ind(s[0]);
    assert Count(s[..2]) == Ind(s[0]) + Ind(s[1]);
    assert Count(s[..3]) == Ind(s[0]) + Ind(s[1]) + Ind(s[2]);
    assert Count(s[..4]) == Ind(s[0]) + Ind(s[1]) + Ind(s[2]) + Ind(s[3]);
  }

  predicate ExactlyOne(conds: seq<bool>)
  {
    Count(conds) == 1
  }

  /** Scans the conditions, remembers whether one was true, and gives up with
      false at the second true one. */
  method ConditionExpectingOne(conditions: seq<bool>) returns (r: bool)
    ensures r <==> ExactlyOne(conditions)
  {
    var result := false;
    var i := 0;
    while i < |conditions|
      invariant 0 <= i <= |conditions|
      invariant Count(conditions[..i]) <= 1
      invariant result <==> Count(conditions[..i]) == 1
    {
      assert conditions[..i + 1][..i] == conditions[..i];
      if conditions[i] {
        if result {
          CountPrefixMonotone(conditions, i + 1);
          return false;
        }
        result := true;
      }
      i := i + 1;
    }
    assert conditions[..|conditions|] == conditions;
    return result;
  }

  /** A prefix never holds more true conditions than the whole list. */
  lemma {:induction false} CountPrefixMonotone(conds: seq<bool>, k: nat)
    requires k <= |conds|
    ensures Count(conds[..k]) <= Count(conds)
  {
    if k < |conds| {
      CountPrefixMonotone(conds[..|conds| - 1], k);
      assert conds[..|conds| - 1][..k] == conds[..k];
    } else {
      assert conds[..k] == conds;
    }
  }

  // ---------------------------------------------------------------------
  // parseValue (Beans.js:184-220)

  /** One `elem` of a list: exactly one of the attributes `value` and `ref`. */
  function ElemValue(elem: Node, name: string, beanId: string): (r: Result<Value>)
    ensures r.Ok? <==> ExactlyOne([HasAttr(Attrs(elem), "value"), HasAttr(Attrs(elem), "ref")])
    ensures r.Ok? <==> HasAttr(Attrs(elem), "value") != HasAttr(Attrs(elem), "ref")
    ensures r.Err? ==> r.error == ElemExpectingOne(name, beanId)
    ensures r.Ok? && HasAttr(Attrs(elem), "value") ==> r.value == Literal(Str(Attrs(elem)["value"]))
    ensures r.Ok? && HasAttr(Attrs(elem), "ref") ==> r.value == Ref(Str(Attrs(elem)["ref"]))
  {
    var attrs := Attrs(elem);
    CountTwo(HasAttr(attrs, "value"), HasAttr(attrs, "ref"));
    if !ExactlyOne([HasAttr(attrs, "value"), HasAttr(attrs, "ref")]) then
      Err(ElemExpectingOne(name, beanId))
    else if HasAttr(attrs, "value") then Ok(Literal(Str(attrs["value"])))
    else Ok(Ref(Str(attrs["ref"])))
  }

  /** The `elem` children of a list, in order, up to the first bad one. */
  function ElemValues(elems: seq<Node>, name: string, beanId: string): (r: Result<seq<Value>>)
    ensures r.Ok? ==> |r.value| == |elems|
    ensures r.Ok? <==> forall i :: 0 <= i < |elems| ==> ElemValue(elems[i], name, beanId).Ok?
    ensures r.Ok? ==> forall i :: 0 <= i < |elems| ==>
      ElemValue(elems[i], name, beanId).Ok? && r.value[i] == ElemValue(elems[i], name, beanId).value
  {
    if |elems| == 0 then Ok([])
    else
      var prev :- ElemValues(elems[..|elems| - 1], name, beanId);
      var e :- ElemValue(elems[|elems| - 1], name, beanId);
      Ok(prev + [e])
  }

  /** Once a prefix of the list fails, the whole list fails the same way. */
  lemma {:induction false} ElemValuesFirstError(elems: seq<Node>, k: nat, name: string, beanId: string)
    requires k <= |elems| && ElemValues(elems[..k], name, beanId).Err?
    ensures ElemValues(elems, name, beanId) == ElemValues(elems[..k], name, beanId)
  {
    if k < |elems| {
      assert elems[..|elems| - 1][..k] == elems[..k];
      ElemValuesFirstError(elems[..|elems| - 1], k, name, beanId);
    } else {
      assert elems[..k] == elems;
    }
  }

  /** The value given by a child element, tried in the order `value`, `ref`,
      `list`; without any of them the source returns undefined and reading
      `.v` of it is a TypeError. */
  function ChildValue(property: Node, beanId: string, name: string): (r: Result<Value>)
    ensures HasChild(property, "value") ==> r == Ok(Literal(FirstChild(property, "value")))
    ensures !HasChild(property, "value") && HasChild(property, "ref") ==> r == Ok(Ref(FirstChild(property, "ref")))
    ensures r.Ok? && r.value.List? ==>
      && HasChild(property, "list") && |Children(property, "list")| > 0
      && var list := Children(property, "list")[0];
      && HasChild(list, "elem")
      && ElemValues(Children(list, "elem"), name, beanId).Ok?
      && r == Ok(List(ElemValues(Children(list, "elem"), name, beanId).value))
    ensures !HasChild(property, "value") && !HasChild(property, "ref") && HasChild(property, "list")
            && |Children(property, "list")| > 0 && !HasChild(Children(property, "list")[0], "elem")
            ==> r == Err(ListWithoutElem(name, beanId))
  {
    if HasChild(property, "value") then Ok(Literal(FirstChild(property, "value")))
    else if HasChild(property, "ref") then Ok(Ref(FirstChild(property, "ref")))
    else if HasChild(property, "list") then
      var lists := Children(property, "list");
      if |lists| == 0 then Err(TypeError("cannot read property 'elem' of undefined"))
      else if !HasChild(lists[0], "elem") then Err(ListWithoutElem(name, beanId))
      else
        var values :- ElemValues(Children(lists[0], "elem"), name, beanId);
        Ok(List(values))
    else Err(TypeError("cannot read property 'v' of undefined"))
  }

  method ParseValue(property: Node, beanId: string, propertyName: string) returns (r: Result<Value>)
    ensures r == ChildValue(property, beanId, propertyName)
  {
    if HasChild(property, "value") {
      return Ok(Literal(FirstChild(property, "value")));
    } else if HasChild(property, "ref") {
      return Ok(Ref(FirstChild(property, "ref")));
    } else if HasChild(property, "list") {
      var lists := Children(property, "list");
      if |lists| == 0 {
        return Err(TypeError("cannot read property 'elem' of undefined"));
      }
      if !HasChild(lists[0], "elem") {
        return Err(ListWithoutElem(propertyName, beanId));
      }
      var list := Children(lists[0], "elem");
      var valueList: seq<Value> := [];
      var i := 0;
      while i < |list|
        invariant 0 <= i <= |list|
        invariant ElemValues(list[..i], propertyName, beanId) == Ok(valueList)
      {
        assert list[..i + 1][..i] == list[..i];
        var attrs := Attrs(list[i]);
        var one := ConditionExpectingOne([HasAttr(attrs, "value"), HasAttr(attrs, "ref")]);
        if !one {
          ElemValuesFirstError(list, i + 1, propertyName, beanId);
          return Err(ElemExpectingOne(propertyName, beanId));
        }
        CountTwo(HasAttr(attrs, "value"), HasAttr(attrs, "ref"));
        var value := if HasAttr(attrs, "value") then Literal(Str(attrs["value"])) else Ref(Str(attrs["ref"]));
        valueList := valueList + [value];
        i := i + 1;
      }
      assert list[..|list|] == list;
      return Ok(List(valueList));
    }
    return Err(TypeError("cannot read property 'v' of undefined"));
  }

  // ---------------------------------------------------------------------
  // parseProperty (Beans.js:139-168)

  /** The five possible sources of a property value, in the order the source
      lists them: attribute ref, attribute value, child list, child ref,
      child value. */
  function ValueSources(property: Node): (r: seq<bool>)
    ensures |r| == 5
  {
    var attrs := Attrs(property);
    [HasAttr(attrs, "ref"), HasAttr(attrs, "value"),
     HasChild(property, "list"), HasChild(property, "ref"), HasChild(property, "value")]
  }

  function PropertyOf(property: Node, usedNames: seq<string>, beanId: string): (r: Result<Property>)
    ensures r.Ok? ==> HasAttr(Attrs(property), "name") && r.value.name == Attrs(property)["name"]
    ensures r.Ok? ==> r.value.name != "" && r.value.name !in usedNames
    ensures r.Ok? ==> ExactlyOne(ValueSources(property))
  {
    var attrs := Attrs(property);
    if !HasAttr(attrs, "name") then Err(MissingPropertyName(beanId))
    else if attrs["name"] in usedNames then Err(DuplicatedPropertyName(attrs["name"], beanId))
    else if !ExactlyOne(ValueSources(property)) then Err(ExpectingOneValueSource(attrs["name"], beanId))
    else
      var name := attrs["name"];
      if HasAttr(attrs, "ref") then Ok(Property(name, Ref(Str(attrs["ref"]))))
      else if HasAttr(attrs, "value") then Ok(Property(name, Literal(Str(attrs["value"]))))
      else
        var v :- ChildValue(property, beanId, name);
        Ok(Property(name, v))
  }

  method ParseProperty(property: Node, usedNames: seq<string>, beanId: string) returns (r: Result<Property>)
    ensures r == PropertyOf(property, usedNames, beanId)
  {
    var attrs := Attrs(property);
    if !HasAttr(attrs, "name") {
      return Err(MissingPropertyName(beanId));
    } else if Names.Contains(usedNames, attrs["name"]) {
      return Err(DuplicatedPropertyName(attrs["name"], beanId));
    }
    var one := ConditionExpectingOne(ValueSources(property));
    if !one {
      return Err(ExpectingOneValueSource(attrs["name"], beanId));
    }
    var name := attrs["name"];
    if HasAttr(attrs, "ref") {
      return Ok(Property(name, Ref(Str(attrs["ref"]))));
    } else if HasAttr(attrs, "value") {
      return Ok(Property(name, Literal(Str(attrs["value"]))));
    }
    var v := ParseValue(property, beanId, name);
    if v.Err? {
      return Err(v.error);
    }
    return Ok(Property(name, v.value));
  }

  // ---------------------------------------------------------------------
  // parseBean (Beans.js:110-137)

  function PropertyNames(ps: seq<Property>): (r: seq<string>)
    ensures |r| == |ps| && forall i :: 0 <= i < |ps| ==> r[i] == ps[i].name
  {
    if |ps| == 0 then [] else PropertyNames(ps[..|ps| - 1]) + [ps[|ps| - 1].name]
  }

  /** The `property` children of a bean, each checked against the names of the
      ones before it. */
  function PropertiesOf(nodes: seq<Node>, beanId: string): (r: Result<seq<Property>>)
    ensures r.Ok? ==> |r.value| == |nodes|
    ensures r.Ok? ==> forall i :: 0 <= i < |r.value| ==> r.value[i].name != ""
    ensures r.Ok? ==> forall i, j :: 0 <= i < j < |r.value| ==> r.value[i].name != r.value[j].name
  {
    if |nodes| == 0 then Ok([])
    else
      var prev :- PropertiesOf(nodes[..|nodes| - 1], beanId);
      var p :- PropertyOf(nodes[|nodes| - 1], PropertyNames(prev), beanId);
      Ok(prev + [p])
  }

  /** One more `property` element: checked against the names of the ones
      before. */
  lemma PropertiesNext(nodes: seq<Node>, i: nat, beanId: string, prev: seq<Property>)
    requires i < |nodes| && PropertiesOf(nodes[..i], beanId) == Ok(prev)
    ensures PropertiesOf(nodes[..i + 1], beanId)
         == (if PropertyOf(nodes[i], PropertyNames(prev), beanId).Err?
             then Err(PropertyOf(nodes[i], PropertyNames(prev), beanId).error)
             else Ok(prev + [PropertyOf(nodes[i], PropertyNames(prev), beanId).value]))
  {
    assert nodes[..i + 1][..i] == nodes[..i];
  }

  lemma PropertyNamesSnoc(ps: seq<Property>, p: Property)
    ensures PropertyNames(ps + [p]) == PropertyNames(ps) + [p.name]
  {
    assert (ps + [p])[..|ps|] == ps;
  }

  lemma {:induction false} PropertiesFirstError(nodes: seq<Node>, k: nat, beanId: string)
    requires k <= |nodes| && PropertiesOf(nodes[..k], beanId).Err?
    ensures PropertiesOf(nodes, beanId) == PropertiesOf(nodes[..k], beanId)
  {
    if k < |nodes| {
      assert nodes[..|nodes| - 1][..k] == nodes[..k];
      PropertiesFirstError(nodes[..|nodes| - 1], k, beanId);
    } else {
      assert nodes[..k] == nodes;
    }
  }

  function ScopeOf(scope: string): Option<Scope>
  {
    if scope == "singleton" then Some(Singleton)
    else if scope == "prototype" then Some(Prototype)
    else if scope == "module" then Some(Module)
    else None
  }

  function BeanOf(bean: Node, usedIds: seq<string>): (r: Result<Bean>)
    ensures r.Ok? ==> HasAttr(Attrs(bean), "id") && r.value.id == Attrs(bean)["id"] && r.value.id !in usedIds
    ensures r.Ok? ==> HasAttr(Attrs(bean), "class") && r.value.aClass == Attrs(bean)["class"]
    ensures r.Ok? && !HasAttr(Attrs(bean), "scope") ==> r.value.scope == Singleton
    ensures r.Ok? && HasAttr(Attrs(bean), "scope") ==> ScopeOf(Attrs(bean)["scope"]) == Some(r.value.scope)
  {
    var attrs := Attrs(bean);
    if !HasAttr(attrs, "id") then Err(MissingBeanId)
    else if attrs["id"] in usedIds then Err(DuplicatedId(attrs["id"]))
    else if !HasAttr(attrs, "class") then Err(MissingClass(attrs["id"]))
    else if HasAttr(attrs, "scope") && ScopeOf(attrs["scope"]).None? then Err(UnknownScope(attrs["scope"]))
    else
      var scope := if HasAttr(attrs, "scope") then ScopeOf(attrs["scope"]).value else Singleton;
      var props :- PropertiesOf(Children(bean, "property"), attrs["id"]);
      Ok(Bean(attrs["id"], attrs["class"], scope, props))
  }

  method ParseBean(bean: Node, usedIds: seq<string>) returns (r: Result<Bean>)
    ensures r == BeanOf(bean, usedIds)
  {
    var attrs := Attrs(bean);
    if !HasAttr(attrs, "id") {
      return Err(MissingBeanId);
    } else if Names.Contains(usedIds, attrs["id"]) {
      return Err(DuplicatedId(attrs["id"]));
    } else if !HasAttr(attrs, "class") {
      return Err(MissingClass(attrs["id"]));
    } else if HasAttr(attrs, "scope") {
      var scope := attrs["scope"];
      if scope != "singleton" && scope != "prototype" && scope != "module" {
        return Err(UnknownScope(scope));
      }
    }
    var id := attrs["id"];
    var scope := if HasAttr(attrs, "scope") then ScopeOf(attrs["scope"]).value else Singleton;
    var propertyArray := Children(bean, "property");
    var properties: seq<Property> := [];
    var usedNames: seq<string> := [];
    var i := 0;
    while i < |propertyArray|
      invariant 0 <= i <= |propertyArray|
      invariant PropertiesOf(propertyArray[..i], id) == Ok(properties)
      invariant usedNames == PropertyNames(properties)
    {
      PropertiesNext(propertyArray, i, id, properties);
      var p := ParseProperty(propertyArray[i], usedNames, id);
      if p.Err? {
        PropertiesFirstError(propertyArray, i + 1, id);
        return Err(p.error);
      }
      PropertyNamesSnoc(properties, p.value);
      usedNames := usedNames + [p.value.name];
      properties := properties + [p.value];
      i := i + 1;
    }
    assert propertyArray[..|propertyArray|] == propertyArray;
    return Ok(Bean(id, attrs["class"], scope, properties));
  }

  // ---------------------------------------------------------------------
  // parseBeans (Beans.js:94-108)

  function Ids(beans: seq<Bean>): (r: seq<string>)
    ensures |r| == |beans| && forall i :: 0 <= i < |beans| ==> r[i] == beans[i].id
  {
    if |beans| == 0 then [] else Ids(beans[..|beans| - 1]) + [beans[|beans| - 1].id]
  }

  /** The `bean` elements, each checked against the ids of the ones before. */
  function BeansOfNodes(nodes: seq<Node>): Result<seq<Bean>>
  {
    if |nodes| == 0 then Ok([])
    else
      var prev :- BeansOfNodes(nodes[..|nodes| - 1]);
      var b :- BeanOf(nodes[|nodes| - 1], Ids(prev));
      Ok(prev + [b])
  }

  lemma {:induction false} BeansFirstError(nodes: seq<Node>, k: nat)
    requires k <= |nodes| && BeansOfNodes(nodes[..k]).Err?
    ensures BeansOfNodes(nodes) == BeansOfNodes(nodes[..k])
  {
    if k < |nodes| {
      assert nodes[..|nodes| - 1][..k] == nodes[..k];
      BeansFirstError(nodes[..|nodes| - 1], k);
    } else {
      assert nodes[..k] == nodes;
    }
  }

  /** One more `bean` element: checked against the ids of the ones before. */
  lemma BeansNext(nodes: seq<Node>, i: nat, prev: seq<Bean>)
    requires i < |nodes| && BeansOfNodes(nodes[..i]) == Ok(prev)
    ensures BeansOfNodes(nodes[..i + 1])
         == (if BeanOf(nodes[i], Ids(prev)).Err? then Err(BeanOf(nodes[i], Ids(prev)).error)
             else Ok(prev + [BeanOf(nodes[i], Ids(prev)).value]))
  {
    assert nodes[..i + 1][..i] == nodes[..i];
  }

  lemma IdsSnoc(bs: seq<Bean>, b: Bean)
    ensures Ids(bs + [b]) == Ids(bs) + [b.id]
  {
    assert (bs + [b])[..|bs|] == bs;
  }

  function BeansOf(doc: Document): Result<seq<Bean>>
  {
    BeansOfNodes(Children(BeansElement(doc), "bean"))
  }

  method ParseBeans(doc: Document) returns (r: Result<seq<Bean>>)
    ensures r == BeansOf(doc)
  {
    var beanArray := Children(BeansElement(doc), "bean");
    var result: seq<Bean> := [];
    var usedIds: seq<string> := [];
    var i := 0;
    while i < |beanArray|
      invariant 0 <= i <= |beanArray|
      invariant BeansOfNodes(beanArray[..i]) == Ok(result)
      invariant usedIds == Ids(result)
    {
      BeansNext(beanArray, i, result);
      var b := ParseBean(beanArray[i], usedIds);
      if b.Err? {
        BeansFirstError(beanArray, i + 1);
        return Err(b.error);
      }
      IdsSnoc(result, b.value);
      usedIds := usedIds + [b.value.id];
      result := result + [b.value];
      i := i + 1;
    }
    assert beanArray[..|beanArray|] == beanArray;
    return Ok(result);
  }

  // ---------------------------------------------------------------------
  // Properties of the declaration language

  /** Every accepted configuration has pairwise distinct, non-empty bean ids. */
  lemma {:induction false} BeansHaveDistinctIds(nodes: seq<Node>)
    requires BeansOfNodes(nodes).Ok?
    ensures var bs := BeansOfNodes(nodes).value;
      && |bs| == |nodes|
      && (forall i :: 0 <= i < |bs| ==> bs[i].id != "")
      && (forall i, j :: 0 <= i < j < |bs| ==> bs[i].id != bs[j].id)
  {
    if |nodes| > 0 {
      BeansHaveDistinctIds(nodes[..|nodes| - 1]);
      var prev := BeansOfNodes(nodes[..|nodes| - 1]).value;
      var b := BeanOf(nodes[|nodes| - 1], Ids(prev)).value;
      assert BeansOfNodes(nodes).value == prev + [b];
      assert b.id !in Ids(prev);
    }
  }

  /** The rules a `bean` element must meet, in the order they are checked:
      an id, not used before, a class, and a known scope when one is given. */
  lemma BeanRejections(bean: Node, usedIds: seq<string>)
    ensures !HasAttr(Attrs(bean), "id") ==> BeanOf(bean, usedIds) == Err(MissingBeanId)
    ensures HasAttr(Attrs(bean), "id") && Attrs(bean)["id"] in usedIds
            ==> BeanOf(bean, usedIds) == Err(DuplicatedId(Attrs(bean)["id"]))
    ensures HasAttr(Attrs(bean), "id") && Attrs(bean)["id"] !in usedIds && !HasAttr(Attrs(bean), "class")
            ==> BeanOf(bean, usedIds) == Err(MissingClass(Attrs(bean)["id"]))
    ensures HasAttr(Attrs(bean), "id") && Attrs(bean)["id"] !in usedIds && HasAttr(Attrs(bean), "class")
            && HasAttr(Attrs(bean), "scope") && Attrs(bean)["scope"] !in {"singleton", "prototype", "module"}
            ==> BeanOf(bean, usedIds) == Err(UnknownScope(Attrs(bean)["scope"]))
  {
  }

  /** A property needs a name that is new within its bean and exactly one
      value source; the error says which rule failed. */
  lemma PropertyRejections(property: Node, usedNames: seq<string>, beanId: string)
    ensures !HasAttr(Attrs(property), "name") ==> PropertyOf(property, usedNames, beanId) == Err(MissingPropertyName(beanId))
    ensures HasAttr(Attrs(property), "name") && Attrs(property)["name"] in usedNames
            ==> PropertyOf(property, usedNames, beanId) == Err(DuplicatedPropertyName(Attrs(property)["name"], beanId))
    ensures HasAttr(Attrs(property), "name") && Attrs(property)["name"] !in usedNames && Count(ValueSources(property)) != 1
            ==> PropertyOf(property, usedNames, beanId) == Err(ExpectingOneValueSource(Attrs(property)["name"], beanId))
  {
  }

  /** The value of an accepted property comes from its single source: an
      attribute `ref` or `value` gives a reference or a literal string, a child
      `value` or `ref` its first element, a child `list` a list. */
  lemma {:induction false} ValueFromItsSource(property: Node, usedNames: seq<string>, beanId: string)
    requires PropertyOf(property, usedNames, beanId).Ok?
    ensures var attrs := Attrs(property);
      var v := PropertyOf(property, usedNames, beanId).value.value;
      && (HasAttr(attrs, "ref") ==> v == Ref(Str(attrs["ref"])))
      && (HasAttr(attrs, "value") ==> v == Literal(Str(attrs["value"])))
      && (HasChild(property, "value") ==> v == Literal(FirstChild(property, "value")))
      && (HasChild(property, "ref") ==> v == Ref(FirstChild(property, "ref")))
      && (HasChild(property, "list") ==> v.List?)
  {
    var attrs := Attrs(property);
    var s := ValueSources(property);
    CountFive(s);
    var v := PropertyOf(property, usedNames, beanId).value.value;
    if HasChild(property, "list") {
      assert !HasChild(property, "value") && !HasChild(property, "ref");
      assert !HasAttr(attrs, "ref") && !HasAttr(attrs, "value");
      var lists := Children(property, "list");
      assert |lists| > 0 && HasChild(lists[0], "elem");
    }
  }

  /** A list value holds one literal or reference per `elem`, in order, taken
      from whichever of its attributes `value` and `ref` is given. */
  lemma {:induction false} ListsAreFlat(property: Node, beanId: string, name: string)
    requires ChildValue(property, beanId, name).Ok? && ChildValue(property, beanId, name).value.List?
    ensures var items := ChildValue(property, beanId, name).value.items;
      var elems := Children(Children(property, "list")[0], "elem");
      && |items| == |elems|
      && forall i :: 0 <= i < |items| ==>
           var a := Attrs(elems[i]);
           || (HasAttr(a, "value") && !HasAttr(a, "ref") && items[i] == Literal(Str(a["value"])))
           || (HasAttr(a, "ref") && !HasAttr(a, "value") && items[i] == Ref(Str(a["ref"])))
  {
    var elems := Children(Children(property, "list")[0], "elem");
    var items := ChildValue(property, beanId, name).value.items;
    forall i | 0 <= i < |items|
      ensures var a := Attrs(elems[i]);
        || (HasAttr(a, "value") && !HasAttr(a, "ref") && items[i] == Literal(Str(a["value"])))
        || (HasAttr(a, "ref") && !HasAttr(a, "value") && items[i] == Ref(Str(a["ref"])))
    {
      assert ElemValue(elems[i], name, beanId).Ok?;
      assert items[i] == ElemValue(elems[i], name, beanId).value;
    }
  }
}
