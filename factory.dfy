/** Building the bean factory (Beans.js:295-414): an accessor closure per
    bean, each holding the setter and field configurations its calls will
    inject. Building installs accessors and reads classes but injects
    nothing: injection waits for the first call of an accessor. */
module Factory {
  import opened Results
  import opened Js
  import Names
  import opened Declarations
  import opened Validation
  import opened Container

  /** The beans by id (Beans.js:28-31), a later bean replacing an earlier
      one with the same id. */
  function BeanTable(beans: seq<Bean>): (t: map<string, Bean>)
    ensures forall id :: id in t <==> id in Ids(beans)
    ensures forall id :: id in t ==> t[id].id == id && t[id] in beans
  {
    if |beans| == 0 then map[]
    else
      var last := beans[|beans| - 1];
      var init := BeanTable(beans[..|beans| - 1]);
      assert forall id :: id in init ==> init[id] in beans by {
        forall id | id in init ensures init[id] in beans {
          var x :| 0 <= x < |beans| - 1 && beans[..|beans| - 1][x] == init[id];
          assert beans[x] == init[id];
        }
      }
      init[last.id := last]
  }

  /** With distinct ids, every bean is found under its own id. */
  lemma {:induction false} BeanTableFinds(beans: seq<Bean>)
    requires forall i, j :: 0 <= i < j < |beans| ==> beans[i].id != beans[j].id
    ensures forall i :: 0 <= i < |beans| ==> BeanTable(beans)[beans[i].id] == beans[i]
  {
    if |beans| > 0 {
      var init := beans[..|beans| - 1];
      BeanTableFinds(init);
      forall i | 0 <= i < |beans| - 1
        ensures BeanTable(beans)[beans[i].id] == beans[i]
      {
        assert init[i] == beans[i];
      }
    }
  }

  // ---------------------------------------------------------------------
  // Configurations (Beans.js:372-414)

  /** A property is injected through its setter when the setter name holds a
      function on the instance the configuration is read from. */
  predicate UsesSetter(instance: Obj, name: string)
  {
    |name| > 0 && IsFunction(Get(instance, Names.ToSetterName(name)))
  }

  /** The properties injected through setters, and those assigned as fields,
      each in declaration order. */
  function Split(props: seq<Property>, instance: Obj): (r: (seq<Property>, seq<Property>))
  {
    if |props| == 0 then ([], [])
    else
      var (s, f) := Split(props[..|props| - 1], instance);
      var p := props[|props| - 1];
      if UsesSetter(instance, p.name) then (s + [p], f) else (s, f + [p])
  }

  /** Every property goes to exactly one of the two lists. */
  lemma {:induction false} SplitPartitions(props: seq<Property>, instance: Obj)
    ensures multiset(Split(props, instance).0) + multiset(Split(props, instance).1) == multiset(props)
  {
    if |props| > 0 {
      SplitPartitions(props[..|props| - 1], instance);
      assert props == props[..|props| - 1] + [props[|props| - 1]];
    }
  }

  /** `id` is declared in `beans` as a singleton. */
  predicate IsSingleton(id: string, beans: map<string, Bean>)
  {
    id in beans && beans[id].scope == Singleton
  }

  /** A value function stands for a declared value read while the ids in
      `bound` were bound: a literal is a constant; a reference the accessor
      `factory` binds its target to, or `undefined` for a singleton that was
      not yet bound (a singleton is never installed while values are read,
      so which singletons `bound` holds decides between the two); a list a
      list of value functions for its items. */
  predicate Describes(vf: ValueFunc, value: Value, factory: map<string, nat>, bound: set<string>,
                      beans: map<string, Bean>)
    decreases value
  {
    match value
    case Literal(v) => vf == Const(v)
    case Ref(target) =>
      var k := PropertyKey(target);
      || (vf.Call? && k in factory && factory[k] == vf.handle && (IsSingleton(k, beans) ==> k in bound))
      || (vf.Missing? && IsSingleton(k, beans) && k !in bound)
    case List(items) =>
      && vf.ListOf? && |vf.items| == |items|
      && forall i :: 0 <= i < |items| ==> Describes(vf.items[i], items[i], factory, bound, beans)
  }

  /** `b0` and `b1` hold the same singletons of `beans`. */
  predicate SameSingletons(b0: set<string>, b1: set<string>, beans: map<string, Bean>)
  {
    forall id :: id in beans && beans[id].scope == Singleton ==> (id in b0 <==> id in b1)
  }

  /** `f1` keeps every entry of `f0`. */
  predicate Includes(f0: map<string, nat>, f1: map<string, nat>)
  {
    f0.Keys <= f1.Keys && forall id :: id in f0 ==> f1[id] == f0[id]
  }

  /** What a value function stands for stays true as the factory grows,
      as long as no singleton is bound meanwhile. */
  lemma {:induction false} DescribesGrows(vf: ValueFunc, value: Value, f0: map<string, nat>, f1: map<string, nat>,
                                          b0: set<string>, b1: set<string>, beans: map<string, Bean>)
    requires Describes(vf, value, f0, b0, beans) && Includes(f0, f1) && SameSingletons(b0, b1, beans)
    ensures Describes(vf, value, f1, b1, beans)
    decreases value
  {
    if value.List? {
      forall i | 0 <= i < |value.items|
        ensures Describes(vf.items[i], value.items[i], f1, b1, beans)
      {
        DescribesGrows(vf.items[i], value.items[i], f0, f1, b0, b1, beans);
      }
    }
  }

  /** A value read into a value function refers only to ids that are bound
      or declared, list items included: a reference to any other id makes
      `getFuncFromFactory` fail (Beans.js:323-324), so reading it fails. */
  lemma {:induction false} DescribedRefsKnown(vf: ValueFunc, value: Value, factory: map<string, nat>,
                                              bound: set<string>, beans: map<string, Bean>)
    requires Describes(vf, value, factory, bound, beans)
    ensures forall t :: t in Refs(value) ==> PropertyKey(t) in factory || PropertyKey(t) in beans
    decreases value, 1
  {
    match value
    case Literal(_) =>
    case Ref(_) =>
    case List(items) => ItemsRefsKnown(vf.items, items, factory, bound, beans);
  }

  lemma {:induction false} ItemsRefsKnown(funcs: seq<ValueFunc>, items: seq<Value>, factory: map<string, nat>,
                                          bound: set<string>, beans: map<string, Bean>)
    requires |funcs| == |items| && forall i :: 0 <= i < |items| ==> Describes(funcs[i], items[i], factory, bound, beans)
    ensures forall t :: t in RefsOfItems(items) ==> PropertyKey(t) in factory || PropertyKey(t) in beans
    decreases items, 0
  {
    if |items| > 0 {
      DescribedRefsKnown(funcs[0], items[0], factory, bound, beans);
      ItemsRefsKnown(funcs[1..], items[1..], factory, bound, beans);
    }
  }

  /** Building that binds only beans that are not singletons keeps the
      singletons bound. */
  lemma WithinSame(f0: map<string, nat>, f1: map<string, nat>, beans: map<string, Bean>)
    requires Within(f0, f1, beans) && Includes(f0, f1)
    ensures SameSingletons(f0.Keys, f1.Keys, beans)
  {
  }

  /** The configurations read from `props`: a setter call under the setter
      name for each property the instance has a setter for, a field
      assignment under the property name for each other one. */
  predicate Configured(props: seq<Property>, instance: Obj, setters: seq<Config>, fields: seq<Config>,
                       factory: map<string, nat>, bound: set<string>, beans: map<string, Bean>)
  {
    var (sp, fp) := Split(props, instance);
    && |setters| == |sp| && |fields| == |fp|
    && (forall i :: 0 <= i < |sp| ==>
          && |sp[i].name| > 0
          && setters[i].name == Names.ToSetterName(sp[i].name)
          && Describes(setters[i].valueFunc, sp[i].value, factory, bound, beans))
    && (forall i :: 0 <= i < |fp| ==>
          fields[i].name == fp[i].name && Describes(fields[i].valueFunc, fp[i].value, factory, bound, beans))
  }

  lemma ConfiguredGrows(props: seq<Property>, instance: Obj, setters: seq<Config>, fields: seq<Config>,
                        f0: map<string, nat>, f1: map<string, nat>, b0: set<string>, b1: set<string>,
                        beans: map<string, Bean>)
    requires Configured(props, instance, setters, fields, f0, b0, beans) && Includes(f0, f1)
    requires SameSingletons(b0, b1, beans)
    ensures Configured(props, instance, setters, fields, f1, b1, beans)
  {
    var (sp, fp) := Split(props, instance);
    forall i | 0 <= i < |sp|
      ensures Describes(setters[i].valueFunc, sp[i].value, f1, b1, beans)
    {
      DescribesGrows(setters[i].valueFunc, sp[i].value, f0, f1, b0, b1, beans);
    }
    forall i | 0 <= i < |fp|
      ensures Describes(fields[i].valueFunc, fp[i].value, f1, b1, beans)
    {
      DescribesGrows(fields[i].valueFunc, fp[i].value, f0, f1, b0, b1, beans);
    }
  }

  lemma ConfiguredStep(props: seq<Property>, i: nat, instance: Obj, setters: seq<Config>, fields: seq<Config>,
                       vf: ValueFunc, factory: map<string, nat>, bound: set<string>, beans: map<string, Bean>)
    requires i < |props| && |props[i].name| > 0
    requires Configured(props[..i], instance, setters, fields, factory, bound, beans)
    requires Describes(vf, props[i].value, factory, bound, beans)
    ensures UsesSetter(instance, props[i].name) ==>
      Configured(props[..i + 1], instance, setters + [Config(Names.ToSetterName(props[i].name), vf)], fields,
                 factory, bound, beans)
    ensures !UsesSetter(instance, props[i].name) ==>
      Configured(props[..i + 1], instance, setters, fields + [Config(props[i].name, vf)], factory, bound, beans)
  {
    assert props[..i + 1][..i] == props[..i];
  }

  // ---------------------------------------------------------------------
  // Termination: the ids of `beans` still missing from the factory

  function Pending(beans: map<string, Bean>, f: map<string, nat>): nat
  {
    |beans.Keys - f.Keys|
  }

  lemma {:induction false} SubsetCard<T>(a: set<T>, b: set<T>)
    requires a <= b
    ensures |a| <= |b|
  {
    if a != {} {
      var x :| x in a;
      SubsetCard(a - {x}, b - {x});
    }
  }

  lemma PendingShrinks(beans: map<string, Bean>, f0: map<string, nat>, f1: map<string, nat>)
    requires f0.Keys <= f1.Keys
    ensures Pending(beans, f1) <= Pending(beans, f0)
  {
    SubsetCard(beans.Keys - f1.Keys, beans.Keys - f0.Keys);
  }

  lemma PendingDrops(beans: map<string, Bean>, f0: map<string, nat>, key: string, h: nat)
    requires key in beans && key !in f0
    ensures Pending(beans, f0[key := h]) < Pending(beans, f0)
  {
    assert beans.Keys - f0[key := h].Keys == (beans.Keys - f0.Keys) - {key};
  }

  lemma ReplaceAccessor(cs: seq<Accessor>, h: nat, a: Accessor, hs: nat, cs': seq<Accessor>)
    requires h < |cs| && AccessorOk(a, hs, |cs|) && cs' == cs[h := a]
    requires forall x :: 0 <= x < |cs| ==> AccessorOk(cs[x], hs, |cs|)
    ensures forall x :: 0 <= x < |cs'| ==> AccessorOk(cs'[x], hs, |cs'|)
  {
  }

  /** An accessor no call has touched yet. */
  predicate Unused(a: Accessor)
  {
    !a.Woven? && !(a.Memoised? && a.injected)
  }

  /** `c1` is `c0` with unused accessors added. */
  predicate Extends(c0: seq<Accessor>, c1: seq<Accessor>)
  {
    c0 <= c1 && forall h :: |c0| <= h < |c1| ==> Unused(c1[h])
  }

  lemma ExtendsTrans(c0: seq<Accessor>, c1: seq<Accessor>, c2: seq<Accessor>)
    requires Extends(c0, c1) && Extends(c1, c2)
    ensures Extends(c0, c2)
  {
    forall h | |c0| <= h < |c2|
      ensures Unused(c2[h])
    {
      if h < |c1| {
        assert c2[h] == c1[h];
      }
    }
  }

  lemma ExtendsAppend(c: seq<Accessor>, a: Accessor)
    requires Unused(a)
    ensures Extends(c, c + [a])
  {
  }

  lemma ExtendsReplace(c0: seq<Accessor>, c: seq<Accessor>, h: nat, a: Accessor)
    requires Extends(c0, c) && |c0| <= h < |c| && Unused(a)
    ensures Extends(c0, c[h := a])
  {
    assert c0 <= c[h := a] by {
      assert forall x :: 0 <= x < |c0| ==> c[h := a][x] == c0[x];
    }
  }

  /** Every id `f1` binds is bound in `f0` or declared in `beans` as a bean
      that is not a singleton. */
  predicate Within(f0: map<string, nat>, f1: map<string, nat>, beans: map<string, Bean>)
  {
    forall id :: id in f1 ==> id in f0 || (id in beans && beans[id].scope != Singleton)
  }

  lemma WithinTrans(f0: map<string, nat>, f1: map<string, nat>, f2: map<string, nat>, beans: map<string, Bean>)
    requires Within(f0, f1, beans) && Within(f1, f2, beans)
    ensures Within(f0, f2, beans)
  {
  }

  lemma IncludesTrans(f0: map<string, nat>, f1: map<string, nat>, f2: map<string, nat>)
    requires Includes(f0, f1) && Includes(f1, f2)
    ensures Includes(f0, f2)
  {
  }

  /** What building changes: accessors and table entries are only added, the
      added accessors are unused, and no object is touched or injected. */
  twostate predicate Grew(rt: Runtime)
    reads rt
  {
    && rt.heap == old(rt.heap) && rt.effects == old(rt.effects)
    && Extends(old(rt.closures), rt.closures)
    && Includes(old(rt.factory), rt.factory)
  }

  /** `getFuncFromFactory` (Beans.js:320-361): the accessor already in the
      factory, or a new one for a module or prototype bean, installed before
      its configurations are read so that references back to it find it.
      A singleton not yet installed gives `undefined`, an unknown id a
      TypeError. */
  method GetFuncFromFactory(rt: Runtime, key: string, beans: map<string, Bean>) returns (r: Result<Option<nat>>)
    requires rt.Valid()
    modifies rt
    ensures rt.Valid() && Grew(rt)
    ensures Within(old(rt.factory), rt.factory, beans)
    ensures r.Ok? && r.value.Some? ==> key in rt.factory && rt.factory[key] == r.value.value
    ensures r.Ok? ==> key in rt.factory || (key in beans && beans[key].scope == Singleton)
    ensures key in old(rt.factory) ==> r == Ok(Some(old(rt.factory)[key])) && unchanged(rt)
    ensures key !in old(rt.factory) && key !in beans ==> r.Err? && r.error.TypeError? && unchanged(rt)
    ensures key !in old(rt.factory) && key in beans && beans[key].scope == Singleton ==> r == Ok(None) && unchanged(rt)
    ensures key !in old(rt.factory) && key in beans && beans[key].scope != Singleton && r.Ok? ==>
      var path := Names.GetModuleRequirePath(beans[key].aClass);
      && path in rt.modules
      && r.value == Some(|old(rt.closures)|)
      && var a := rt.closures[|old(rt.closures)|];
      && (beans[key].scope == Module ==>
            a.Memoised? && !a.injected && a.addr == rt.modules[path].addr
            && Configured(beans[key].properties, rt.heap[a.addr], a.setters, a.fields, rt.factory, rt.factory.Keys, beans))
      && (beans[key].scope == Scope.Prototype ==>
            a.Prototype? && Some(a.template) == rt.modules[path].template
            && Configured(beans[key].properties, a.template, a.setters, a.fields, rt.factory, rt.factory.Keys, beans))
    ensures key !in old(rt.factory) && key in beans && beans[key].scope != Singleton
            && Names.GetModuleRequirePath(beans[key].aClass) !in rt.modules
            ==> r == Err(ImportFailed(beans[key].aClass, key))
    decreases Pending(beans, rt.factory), 2
  {
    if key in rt.factory {
      return Ok(Some(rt.factory[key]));
    }
    if key !in beans {
      return Err(TypeError("cannot read property 'scope' of undefined"));
    }
    var bean := beans[key];
    if bean.scope == Singleton {
      return Ok(None);
    }
    var m :- Require(rt.modules, bean.aClass, key);
    var h;
    if bean.scope == Module {
      h :- Install(rt, key, bean, Memoised(m.addr, false, [], []), rt.heap[m.addr], beans);
    } else {
      if m.template.None? {
        return Err(TypeError("TheModule is not a constructor"));
      }
      h :- Install(rt, key, bean, Accessor.Prototype(m.template.value, [], []), m.template.value, beans);
    }
    return Ok(Some(h));
  }

  /** Installs the accessor `acc`, which has no configurations yet, under
      `key`, then reads its configurations from `instance` (Beans.js:327-345,
      347-358). The accessor stays installed when reading them fails. */
  method Install(rt: Runtime, key: string, bean: Bean, acc: Accessor, instance: Obj, beans: map<string, Bean>)
    returns (r: Result<nat>)
    requires rt.Valid() && key in beans && beans[key].scope != Singleton && key !in rt.factory
    requires Unused(acc) && AccessorOk(acc, |rt.heap|, |rt.closures| + 1)
    requires acc.setters == [] && acc.fields == []
    modifies rt
    ensures rt.Valid() && Grew(rt)
    ensures Within(old(rt.factory), rt.factory, beans)
    ensures key in rt.factory && rt.factory[key] == |old(rt.closures)| < |rt.closures|
    ensures r.Ok? ==>
      && r.value == |old(rt.closures)|
      && var a := rt.closures[r.value];
      && a == acc.(setters := a.setters, fields := a.fields)
      && Configured(bean.properties, instance, a.setters, a.fields, rt.factory, rt.factory.Keys, beans)
    decreases Pending(beans, rt.factory), 1
  {
    ExtendsAppend(rt.closures, acc);
    PendingDrops(beans, rt.factory, key, |rt.closures|);
    var h := Bind(rt, key, acc, []);
    ghost var c1, f1 := rt.closures, rt.factory;
    var configs := ExtractSetterFieldConfig(rt, bean, instance, beans);
    ExtendsTrans(old(rt.closures), c1, rt.closures);
    IncludesTrans(old(rt.factory), f1, rt.factory);
    WithinTrans(old(rt.factory), f1, rt.factory, beans);
    if configs.Err? {
      return Err(configs.error);
    }
    ExtendsReplace(old(rt.closures), rt.closures, h, acc.(setters := configs.value.0, fields := configs.value.1));
    SetConfigs(rt, h, configs.value.0, configs.value.1);
    return Ok(h);
  }

  /** Adds `extra` to the objects and `acc` to the accessors, and binds `key`
      to it. */
  method Bind(rt: Runtime, key: string, acc: Accessor, extra: seq<Obj>) returns (h: nat)
    requires rt.Valid() && AccessorOk(acc, |rt.heap| + |extra|, |rt.closures| + 1)
    modifies rt
    ensures rt.Valid() && h == |old(rt.closures)|
    ensures rt.closures == old(rt.closures) + [acc] && rt.factory == old(rt.factory)[key := h]
    ensures rt.heap == old(rt.heap) + extra && rt.effects == old(rt.effects)
  {
    h := |rt.closures|;
    AppendAccessor(rt.closures, acc, |rt.heap|, |rt.heap| + |extra|);
    rt.heap := rt.heap + extra;
    rt.closures := rt.closures + [acc];
    rt.factory := rt.factory[key := h];
  }

  /** Stores the configurations read for the accessor at `h`. */
  method SetConfigs(rt: Runtime, h: nat, setters: seq<Config>, fields: seq<Config>)
    requires rt.Valid() && h < |rt.closures| && !rt.closures[h].Woven?
    requires ConfigsOk(setters, |rt.closures|) && ConfigsOk(fields, |rt.closures|)
    modifies rt
    ensures rt.Valid()
    ensures rt.closures == old(rt.closures)[h := old(rt.closures)[h].(setters := setters, fields := fields)]
    ensures rt.heap == old(rt.heap) && rt.factory == old(rt.factory) && rt.effects == old(rt.effects)
  {
    var a := rt.closures[h].(setters := setters, fields := fields);
    ReplaceAccessor(rt.closures, h, a, |rt.heap|, rt.closures[h := a]);
    rt.closures := rt.closures[h := a];
  }

  /** `extractSetterFieldConfig` (Beans.js:372-392): for each property in
      order, its value function, then a setter configuration when the
      instance has a setter for it, a field configuration otherwise. */
  method ExtractSetterFieldConfig(rt: Runtime, bean: Bean, instance: Obj, beans: map<string, Bean>)
    returns (r: Result<(seq<Config>, seq<Config>)>)
    requires rt.Valid()
    modifies rt
    ensures rt.Valid() && Grew(rt)
    ensures Within(old(rt.factory), rt.factory, beans)
    ensures r.Ok? ==> && Configured(bean.properties, instance, r.value.0, r.value.1, rt.factory, rt.factory.Keys, beans)
                      && ConfigsOk(r.value.0, |rt.closures|) && ConfigsOk(r.value.1, |rt.closures|)
    decreases Pending(beans, rt.factory), 5
  {
    var props := bean.properties;
    var setters: seq<Config> := [];
    var fields: seq<Config> := [];
    var i := 0;
    while i < |props|
      invariant 0 <= i <= |props|
      invariant rt.Valid() && Grew(rt)
      invariant Within(old(rt.factory), rt.factory, beans)
      invariant Configured(props[..i], instance, setters, fields, rt.factory, rt.factory.Keys, beans)
      invariant ConfigsOk(setters, |rt.closures|) && ConfigsOk(fields, |rt.closures|)
    {
      PendingShrinks(beans, old(rt.factory), rt.factory);
      ghost var c0, f0 := rt.closures, rt.factory;
      var res := ConfigureProperty(rt, props, i, instance, beans, setters, fields);
      ExtendsTrans(old(rt.closures), c0, rt.closures);
      IncludesTrans(old(rt.factory), f0, rt.factory);
      WithinTrans(old(rt.factory), f0, rt.factory, beans);
      if res.Err? {
        return Err(res.error);
      }
      setters, fields := res.value.0, res.value.1;
      i := i + 1;
    }
    assert props[..|props|] == props;
    return Ok((setters, fields));
  }

  /** One turn of the loop of `extractSetterFieldConfig` (Beans.js:373-390):
      the value function of property `i`, pushed onto the setter or the field
      configurations. An empty property name has no setter name: a
      TypeError. */
  method ConfigureProperty(rt: Runtime, props: seq<Property>, i: nat, instance: Obj, beans: map<string, Bean>,
                           setters: seq<Config>, fields: seq<Config>)
    returns (r: Result<(seq<Config>, seq<Config>)>)
    requires rt.Valid() && i < |props|
    requires Configured(props[..i], instance, setters, fields, rt.factory, rt.factory.Keys, beans)
    requires ConfigsOk(setters, |rt.closures|) && ConfigsOk(fields, |rt.closures|)
    modifies rt
    ensures rt.Valid() && Grew(rt)
    ensures Within(old(rt.factory), rt.factory, beans)
    ensures r.Ok? ==> && Configured(props[..i + 1], instance, r.value.0, r.value.1, rt.factory, rt.factory.Keys, beans)
                      && ConfigsOk(r.value.0, |rt.closures|) && ConfigsOk(r.value.1, |rt.closures|)
    decreases Pending(beans, rt.factory), 4
  {
    var p := props[i];
    ghost var n0 := |rt.closures|;
    var valueFunc :- ExtractValueFunc(rt, p.value, beans);
    ConfigsOkGrow(setters, n0, |rt.closures|);
    ConfigsOkGrow(fields, n0, |rt.closures|);
    WithinSame(old(rt.factory), rt.factory, beans);
    ConfiguredGrows(props[..i], instance, setters, fields, old(rt.factory), rt.factory, old(rt.factory).Keys,
                    rt.factory.Keys, beans);
    if |p.name| == 0 {
      return Err(TypeError("cannot read property 'toUpperCase' of undefined"));
    }
    var setterName := Names.ToSetterName(p.name);
    ConfiguredStep(props, i, instance, setters, fields, valueFunc, rt.factory, rt.factory.Keys, beans);
    if IsFunction(Get(instance, setterName)) {
      return Ok((setters + [Config(setterName, valueFunc)], fields));
    } else {
      return Ok((setters, fields + [Config(p.name, valueFunc)]));
    }
  }

  /** `extractValueFunc` (Beans.js:394-414): a reference becomes the
      accessor of the bean it names (installing it when needed), a literal a
      constant, a list the value functions of its items. */
  method ExtractValueFunc(rt: Runtime, value: Value, beans: map<string, Bean>) returns (r: Result<ValueFunc>)
    requires rt.Valid()
    modifies rt
    ensures rt.Valid() && Grew(rt)
    ensures Within(old(rt.factory), rt.factory, beans)
    ensures r.Ok? ==> Describes(r.value, value, rt.factory, rt.factory.Keys, beans) && FuncOk(r.value, |rt.closures|)
    ensures value.Literal? ==> unchanged(rt)
    ensures value.Ref? && r.Ok? && r.value.Call? ==>
      PropertyKey(value.target) in rt.factory && rt.factory[PropertyKey(value.target)] == r.value.handle
    ensures value.Ref? && r.Ok? && r.value.Missing? ==>
      var k := PropertyKey(value.target); k in beans && beans[k].scope == Singleton && k !in rt.factory
    decreases Pending(beans, rt.factory), 3, value, 1
  {
    match value {
      case Ref(target) =>
        var f :- GetFuncFromFactory(rt, PropertyKey(target), beans);
        if f.Some? {
          return Ok(Call(f.value));
        }
        return Ok(Missing);
      case Literal(v) =>
        return Ok(Const(v));
      case List(_) =>
        r := ExtractItems(rt, value, beans);
    }
  }

  /** The first `n` of `funcs` stand for the first `n` items, and their
      handles are below `size`. */
  predicate ItemsDescribed(funcs: seq<ValueFunc>, items: seq<Value>, n: nat, factory: map<string, nat>,
                           beans: map<string, Bean>, size: nat)
    requires n <= |funcs| && n <= |items|
  {
    forall x :: 0 <= x < n ==> Describes(funcs[x], items[x], factory, factory.Keys, beans) && FuncOk(funcs[x], size)
  }

  lemma ItemsDescribedStep(funcs: seq<ValueFunc>, items: seq<Value>, f: ValueFunc, f0: map<string, nat>,
                           f1: map<string, nat>, beans: map<string, Bean>, n0: nat, n1: nat)
    requires |funcs| < |items| && ItemsDescribed(funcs, items, |funcs|, f0, beans, n0)
    requires Includes(f0, f1) && Within(f0, f1, beans) && n0 <= n1
    requires Describes(f, items[|funcs|], f1, f1.Keys, beans) && FuncOk(f, n1)
    ensures ItemsDescribed(funcs + [f], items, |funcs| + 1, f1, beans, n1)
  {
    WithinSame(f0, f1, beans);
    forall x | 0 <= x < |funcs|
      ensures Describes(funcs[x], items[x], f1, f1.Keys, beans) && FuncOk(funcs[x], n1)
    {
      DescribesGrows(funcs[x], items[x], f0, f1, f0.Keys, f1.Keys, beans);
      FuncOkGrows(funcs[x], n0, n1);
    }
  }

  /** The list case of `extractValueFunc` (Beans.js:399-410): the value
      function of each item, in order. */
  method ExtractItems(rt: Runtime, value: Value, beans: map<string, Bean>) returns (r: Result<ValueFunc>)
    requires rt.Valid() && value.List?
    modifies rt
    ensures rt.Valid() && Grew(rt)
    ensures Within(old(rt.factory), rt.factory, beans)
    ensures r.Ok? ==> Describes(r.value, value, rt.factory, rt.factory.Keys, beans) && FuncOk(r.value, |rt.closures|)
    decreases Pending(beans, rt.factory), 3, value, 0
  {
    var items := value.items;
    var funcs: seq<ValueFunc> := [];
    while |funcs| < |items|
      invariant |funcs| <= |items|
      invariant rt.Valid() && Grew(rt)
      invariant Within(old(rt.factory), rt.factory, beans)
      invariant ItemsDescribed(funcs, items, |funcs|, rt.factory, beans, |rt.closures|)
    {
      PendingShrinks(beans, old(rt.factory), rt.factory);
      ghost var n0, c0, f0 := |rt.closures|, rt.closures, rt.factory;
      var f :- ExtractValueFunc(rt, items[|funcs|], beans);
      ExtendsTrans(old(rt.closures), c0, rt.closures);
      IncludesTrans(old(rt.factory), f0, rt.factory);
      WithinTrans(old(rt.factory), f0, rt.factory, beans);
      ItemsDescribedStep(funcs, items, f, f0, rt.factory, beans, n0, |rt.closures|);
      funcs := funcs + [f];
    }
    return Ok(ListOf(funcs));
  }

  // ---------------------------------------------------------------------
  // buildBeanFactory (Beans.js:295-318)

  /** The singleton `key` is installed over `instance`: its accessor is
      memoised, not yet injected, holds that very object and the
      configurations of the bean declared under `key`, read while the
      singletons in `bound` were bound. */
  predicate Installed(factory: map<string, nat>, closures: seq<Accessor>, heap: seq<Obj>,
                      table: map<string, Bean>, key: string, instance: Obj, bound: set<string>)
  {
    && key in factory && key in table && factory[key] < |closures|
    && var a := closures[factory[key]];
    && a.Memoised? && !a.injected && a.addr < |heap| && heap[a.addr] == instance
    && Configured(table[key].properties, instance, a.setters, a.fields, factory, bound, table)
  }

  /** Once the injections of an installed singleton have run, each property
      whose value refers to a bean the factory binds to a memoised accessor
      was injected with exactly that bean's object: through its setter when
      the instance has one, as a field otherwise. `c0` are the accessors
      when the factory was built, `c1` those after the calls. */
  lemma InjectsReferencedObjects(factory: map<string, nat>, c0: seq<Accessor>, c1: seq<Accessor>, heap: seq<Obj>,
                                 table: map<string, Bean>, key: string, instance: Obj, bound: set<string>,
                                 effects: seq<Effect>, marks: seq<nat>, lo: nat)
    requires Installed(factory, c0, heap, table, key, instance, bound) && AllLater(c0, c1)
    requires var a := c0[factory[key]]; Wired(effects, marks, a.addr, a.setters, a.fields, c1, lo)
    ensures var a := c0[factory[key]];
            var (sp, fp) := Split(table[key].properties, instance);
            && (forall i :: 0 <= i < |sp| && RefersToMemoised(sp[i].value, factory, c0) ==>
                  effects[marks[i]]
                  == SetterCall(a.addr, Names.ToSetterName(sp[i].name), ObjRef(Target(sp[i].value, factory, c0).addr)))
            && (forall i :: 0 <= i < |fp| && RefersToMemoised(fp[i].value, factory, c0) ==>
                  effects[marks[|sp| + i]]
                  == FieldWrite(a.addr, fp[i].name, ObjRef(Target(fp[i].value, factory, c0).addr)))
  {
    var a := c0[factory[key]];
    var (sp, fp) := Split(table[key].properties, instance);
    forall i | 0 <= i < |sp| && RefersToMemoised(sp[i].value, factory, c0)
      ensures effects[marks[i]]
              == SetterCall(a.addr, Names.ToSetterName(sp[i].name), ObjRef(Target(sp[i].value, factory, c0).addr))
    {
      var h := factory[PropertyKey(sp[i].value.target)];
      assert marks[..|a.setters|][i] == marks[i];
      assert Later(c0[h], c1[h]);
    }
    forall i | 0 <= i < |fp| && RefersToMemoised(fp[i].value, factory, c0)
      ensures effects[marks[|sp| + i]] == FieldWrite(a.addr, fp[i].name, ObjRef(Target(fp[i].value, factory, c0).addr))
    {
      var h := factory[PropertyKey(fp[i].value.target)];
      assert marks[|a.setters|..][i] == marks[|sp| + i];
      assert Later(c0[h], c1[h]);
    }
  }

  /** In the configurations read from `props`, every property whose value
      refers to `t` has the value function `vf`. */
  predicate RefersAs(props: seq<Property>, instance: Obj, setters: seq<Config>, fields: seq<Config>,
                     t: string, vf: ValueFunc)
  {
    var (sp, fp) := Split(props, instance);
    && |setters| == |sp| && |fields| == |fp|
    && (forall i :: 0 <= i < |sp| && sp[i].value.Ref? && PropertyKey(sp[i].value.target) == t ==>
          setters[i].valueFunc == vf)
    && (forall i :: 0 <= i < |fp| && fp[i].value.Ref? && PropertyKey(fp[i].value.target) == t ==>
          fields[i].valueFunc == vf)
  }

  /** A reference to a singleton in configurations read while the ids in
      `bound` were bound is its accessor when it was bound, `undefined`
      otherwise. */
  lemma ConfiguredSingletonRefs(props: seq<Property>, instance: Obj, setters: seq<Config>, fields: seq<Config>,
                                factory: map<string, nat>, bound: set<string>, beans: map<string, Bean>, t: string)
    requires Configured(props, instance, setters, fields, factory, bound, beans) && IsSingleton(t, beans)
    ensures RefersAs(props, instance, setters, fields, t,
                     if t in bound && t in factory then Call(factory[t]) else Missing)
  {
  }

  /** Among the singletons, a reference from the configurations of the
      singleton `x` to the singleton `y` is its accessor when `y` was
      installed no later than `x`, and `undefined` when `y` comes later:
      `getFuncFromFactory` finds the earlier ones in the factory and falls
      through for the later ones (Beans.js:320-326). */
  lemma ReferencesBetweenSingletons(factory: map<string, nat>, closures: seq<Accessor>, heap: seq<Obj>,
                                    table: map<string, Bean>, singletons: seq<(string, Obj)>, x: nat, y: nat)
    requires AllInstalled(factory, closures, heap, table, singletons)
    requires forall a, b :: 0 <= a < b < |singletons| ==> singletons[a].0 != singletons[b].0
    requires x < |singletons| && y < |singletons| && IsSingleton(singletons[y].0, table)
    ensures && singletons[x].0 in factory && singletons[x].0 in table && singletons[y].0 in factory
            && factory[singletons[x].0] < |closures| && closures[factory[singletons[x].0]].Memoised?
            && var a := closures[factory[singletons[x].0]];
            && RefersAs(table[singletons[x].0].properties, singletons[x].1, a.setters, a.fields, singletons[y].0,
                        if y <= x then Call(factory[singletons[y].0]) else Missing)
  {
    var key, target := singletons[x].0, singletons[y].0;
    var b := Earlier(singletons, x + 1);
    assert Installed(factory, closures, heap, table, key, singletons[x].1, b);
    assert Installed(factory, closures, heap, table, target, singletons[y].1, Earlier(singletons, y + 1));
    if y > x {
      assert forall z :: 0 <= z < x + 1 ==> singletons[z].0 != target;
    }
    assert target in b <==> y <= x;
    var a := closures[factory[key]];
    ConfiguredSingletonRefs(table[key].properties, singletons[x].1, a.setters, a.fields, factory, b, table, target);
  }

  /** `value` refers to a bean the factory binds to a memoised accessor. */
  predicate RefersToMemoised(value: Value, factory: map<string, nat>, closures: seq<Accessor>)
  {
    && value.Ref? && PropertyKey(value.target) in factory && factory[PropertyKey(value.target)] < |closures|
    && closures[factory[PropertyKey(value.target)]].Memoised?
  }

  /** The accessor a reference is bound to. */
  function Target(value: Value, factory: map<string, nat>, closures: seq<Accessor>): Accessor
    requires RefersToMemoised(value, factory, closures)
  {
    closures[factory[PropertyKey(value.target)]]
  }

  /** The keys of the first `n` singletons. */
  function Earlier(singletons: seq<(string, Obj)>, n: nat): (r: set<string>)
    requires n <= |singletons|
    ensures forall y :: 0 <= y < n ==> singletons[y].0 in r
  {
    set y | 0 <= y < n :: singletons[y].0
  }

  /** The first `n` singletons are installed, each with its configurations
      read once it and the singletons before it were bound. */
  predicate InstalledUpTo(factory: map<string, nat>, closures: seq<Accessor>, heap: seq<Obj>,
                          table: map<string, Bean>, singletons: seq<(string, Obj)>, n: nat)
    requires n <= |singletons|
  {
    forall x :: 0 <= x < n ==>
      Installed(factory, closures, heap, table, singletons[x].0, singletons[x].1, Earlier(singletons, x + 1))
  }

  predicate AllInstalled(factory: map<string, nat>, closures: seq<Accessor>, heap: seq<Obj>,
                         table: map<string, Bean>, singletons: seq<(string, Obj)>)
  {
    InstalledUpTo(factory, closures, heap, table, singletons, |singletons|)
  }

  lemma InstalledKept(f0: map<string, nat>, c0: seq<Accessor>, h0: seq<Obj>,
                      f1: map<string, nat>, c1: seq<Accessor>, h1: seq<Obj>,
                      table: map<string, Bean>, singletons: seq<(string, Obj)>, n: nat)
    requires n <= |singletons|
    requires Includes(f0, f1) && c0 <= c1 && h0 <= h1
    requires InstalledUpTo(f0, c0, h0, table, singletons, n)
    ensures InstalledUpTo(f1, c1, h1, table, singletons, n)
  {
    forall x | 0 <= x < n
      ensures Installed(f1, c1, h1, table, singletons[x].0, singletons[x].1, Earlier(singletons, x + 1))
    {
      var key := singletons[x].0;
      var a := c0[f0[key]];
      var b := Earlier(singletons, x + 1);
      assert c1[f0[key]] == a;
      assert h1[a.addr] == h0[a.addr];
      ConfiguredGrows(table[key].properties, singletons[x].1, a.setters, a.fields, f0, f1, b, b, table);
    }
  }

  /** A key of an object differs from every other key. */
  lemma FirstsDistinct(singletons: seq<(string, Obj)>, x: nat, k: nat)
    requires x < |singletons| && k < |singletons| && x != k && Weaving.Distinct(Firsts(singletons))
    ensures singletons[x].0 != singletons[k].0
  {
    var fs := Firsts(singletons);
    if x < k {
      assert fs[x] != fs[k];
    } else {
      assert fs[k] != fs[x];
    }
  }



  /** Each key of `singletons` that `table` declares is declared there as a
      singleton: validation hands over the instances of the singleton
      beans. */
  predicate SingletonKeys(table: map<string, Bean>, singletons: seq<(string, Obj)>)
  {
    forall x :: 0 <= x < |singletons| && singletons[x].0 in table ==> table[singletons[x].0].scope == Singleton
  }

  /** The first loop of `buildBeanFactory` (Beans.js:298-310): each
      singleton gets a memoised accessor over the instance validation
      created, installed before its configurations are read. `singletons`
      stands for an object keyed by bean id, so its keys are distinct. */
  method InstallSingletons(rt: Runtime, table: map<string, Bean>, singletons: seq<(string, Obj)>) returns (r: Result<()>)
    requires rt.Valid() && rt.factory == map[]
    requires Weaving.Distinct(Firsts(singletons)) && SingletonKeys(table, singletons)
    modifies rt
    ensures rt.Valid()
    ensures rt.effects == old(rt.effects) && old(rt.heap) <= rt.heap && Extends(old(rt.closures), rt.closures)
    ensures r.Ok? ==> forall id :: id in rt.factory ==> id in table
    ensures r.Ok? ==> AllInstalled(rt.factory, rt.closures, rt.heap, table, singletons)
  {
    var k := 0;
    while k < |singletons|
      invariant 0 <= k <= |singletons|
      invariant rt.Valid() && rt.effects == old(rt.effects) && old(rt.heap) <= rt.heap
      invariant Extends(old(rt.closures), rt.closures)
      invariant forall id :: id in rt.factory ==> id in table
      invariant forall x :: k <= x < |singletons| ==> singletons[x].0 !in rt.factory
      invariant SameSingletons(rt.factory.Keys, Earlier(singletons, k), table)
      invariant InstalledUpTo(rt.factory, rt.closures, rt.heap, table, singletons, k)
    {
      var (key, instance) := singletons[k];
      forall x | 0 <= x < |singletons| && x != k
        ensures singletons[x].0 != key
      {
        FirstsDistinct(singletons, x, k);
      }
      ghost var f0, c0, h0 := rt.factory, rt.closures, rt.heap;
      var done := InstallSingleton(rt, table, key, instance);
      ExtendsTrans(old(rt.closures), c0, rt.closures);
      if done.Err? {
        return done;
      }
      InstalledNext(f0, c0, h0, rt.factory, rt.closures, rt.heap, table, singletons, k);
      k := k + 1;
    }
    return Ok(());
  }

  /** Installing the singleton `k` extends the installed prefix by one. */
  lemma InstalledNext(f0: map<string, nat>, c0: seq<Accessor>, h0: seq<Obj>,
                      f1: map<string, nat>, c1: seq<Accessor>, h1: seq<Obj>,
                      table: map<string, Bean>, singletons: seq<(string, Obj)>, k: nat)
    requires k < |singletons| && singletons[k].0 !in f0 && c0 <= c1 && h0 <= h1
    requires InstalledUpTo(f0, c0, h0, table, singletons, k) && SameSingletons(f0.Keys, Earlier(singletons, k), table)
    requires forall id :: id in f0 && id != singletons[k].0 ==> id in f1 && f1[id] == f0[id]
    requires forall id :: id in f1 ==>
               id in f0 || id == singletons[k].0 || (id in table && table[id].scope != Singleton)
    requires Installed(f1, c1, h1, table, singletons[k].0, singletons[k].1, f1.Keys)
    ensures InstalledUpTo(f1, c1, h1, table, singletons, k + 1)
    ensures SameSingletons(f1.Keys, Earlier(singletons, k + 1), table)
  {
    assert Includes(f0, f1);
    InstalledKept(f0, c0, h0, f1, c1, h1, table, singletons, k);
    SingletonsAfterInstall(f0.Keys, f1.Keys, table, singletons, k);
    InstalledRebound(f1, c1, h1, table, singletons[k].0, singletons[k].1, f1.Keys, Earlier(singletons, k + 1));
    forall x | 0 <= x < k + 1
      ensures Installed(f1, c1, h1, table, singletons[x].0, singletons[x].1, Earlier(singletons, x + 1))
    {
      if x < k {
        assert InstalledUpTo(f1, c1, h1, table, singletons, k);
      }
    }
  }

  /** One singleton of the first loop (Beans.js:299-309): the instance is
      stored, its memoised accessor installed under `key`, then the
      configurations of the bean declared under `key` are read from it. */
  method InstallSingleton(rt: Runtime, table: map<string, Bean>, key: string, instance: Obj) returns (r: Result<()>)
    requires rt.Valid()
    modifies rt
    ensures rt.Valid()
    ensures rt.effects == old(rt.effects) && old(rt.heap) <= rt.heap && Extends(old(rt.closures), rt.closures)
    ensures forall id :: id in old(rt.factory) && id != key ==> id in rt.factory && rt.factory[id] == old(rt.factory)[id]
    ensures forall id :: id in rt.factory ==>
              id in old(rt.factory) || id == key || (id in table && table[id].scope != Singleton)
    ensures key !in table ==> r.Err? && r.error.TypeError?
    ensures r.Ok? ==> key in table && Installed(rt.factory, rt.closures, rt.heap, table, key, instance, rt.factory.Keys)
  {
    var addr := |rt.heap|;
    ExtendsAppend(rt.closures, Memoised(addr, false, [], []));
    var h := Bind(rt, key, Memoised(addr, false, [], []), [instance]);
    if key !in table {
      return Err(TypeError("cannot read property 'properties' of undefined"));
    }
    ghost var f1, c1 := rt.factory, rt.closures;
    assert forall id :: id in old(rt.factory) && id != key ==> id in f1 && f1[id] == old(rt.factory)[id];
    var configs := ExtractSetterFieldConfig(rt, table[key], instance, table);
    ExtendsTrans(old(rt.closures), c1, rt.closures);
    if configs.Err? {
      return Err(configs.error);
    }
    var a := Memoised(addr, false, configs.value.0, configs.value.1);
    ExtendsReplace(old(rt.closures), rt.closures, h, a);
    SetConfigs(rt, h, configs.value.0, configs.value.1);
    InstalledHere(rt.factory, rt.closures, rt.heap, table, key, instance, h, a, rt.factory.Keys);
    return Ok(());
  }

  /** Installing the singleton `k` binds, among the singletons, exactly its
      key besides those bound before. */
  lemma SingletonsAfterInstall(b0: set<string>, b1: set<string>, table: map<string, Bean>,
                               singletons: seq<(string, Obj)>, k: nat)
    requires k < |singletons| && SameSingletons(b0, Earlier(singletons, k), table)
    requires singletons[k].0 in b1
    requires forall id :: id in b0 && id != singletons[k].0 ==> id in b1
    requires forall id :: id in b1 ==> id in b0 || id == singletons[k].0 || (id in table && table[id].scope != Singleton)
    ensures SameSingletons(b1, Earlier(singletons, k + 1), table)
  {
    assert Earlier(singletons, k + 1) == Earlier(singletons, k) + {singletons[k].0};
  }

  /** Installation over a set of bound ids that holds the same singletons. */
  lemma InstalledRebound(factory: map<string, nat>, closures: seq<Accessor>, heap: seq<Obj>,
                         table: map<string, Bean>, key: string, instance: Obj, b0: set<string>, b1: set<string>)
    requires Installed(factory, closures, heap, table, key, instance, b0) && SameSingletons(b0, b1, table)
    ensures Installed(factory, closures, heap, table, key, instance, b1)
  {
    var a := closures[factory[key]];
    ConfiguredGrows(table[key].properties, instance, a.setters, a.fields, factory, factory, b0, b1, table);
  }

  lemma InstalledHere(factory: map<string, nat>, closures: seq<Accessor>, heap: seq<Obj>,
                      table: map<string, Bean>, key: string, instance: Obj, h: nat, a: Accessor, bound: set<string>)
    requires key in factory && key in table && factory[key] == h && h < |closures| && closures[h] == a
    requires a.Memoised? && !a.injected && a.addr < |heap| && heap[a.addr] == instance
    requires Configured(table[key].properties, instance, a.setters, a.fields, factory, bound, table)
    ensures Installed(factory, closures, heap, table, key, instance, bound)
  {
  }

  /** The second loop of `buildBeanFactory` (Beans.js:312-315): every bean,
      in declaration order, is looked up in the factory, which installs the
      module and prototype beans still missing. */
  method InstallRest(rt: Runtime, beans: seq<Bean>, table: map<string, Bean>) returns (r: Result<()>)
    requires rt.Valid() && forall x :: 0 <= x < |beans| ==> beans[x].id in table
    modifies rt
    ensures rt.Valid() && Grew(rt)
    ensures Within(old(rt.factory), rt.factory, table)
    ensures r.Ok? ==> forall i :: 0 <= i < |beans| ==> beans[i].id in rt.factory || table[beans[i].id].scope == Singleton
  {
    var i := 0;
    while i < |beans|
      invariant 0 <= i <= |beans|
      invariant rt.Valid() && Grew(rt)
      invariant Within(old(rt.factory), rt.factory, table)
      invariant forall x :: 0 <= x < i ==> beans[x].id in rt.factory || table[beans[x].id].scope == Singleton
    {
      ghost var c0, f0 := rt.closures, rt.factory;
      var f := GetFuncFromFactory(rt, beans[i].id, table);
      ExtendsTrans(old(rt.closures), c0, rt.closures);
      IncludesTrans(old(rt.factory), f0, rt.factory);
      WithinTrans(old(rt.factory), f0, rt.factory, table);
      if f.Err? {
        return Err(f.error);
      }
      assert f0.Keys <= rt.factory.Keys;
      i := i + 1;
    }
    return Ok(());
  }

  /** `buildBeanFactory` (Beans.js:295-318): the singletons first, then the
      other beans. Nothing is injected and no accessor is called: every
      accessor is left unused. */
  method BuildBeanFactory(rt: Runtime, beans: seq<Bean>, singletons: seq<(string, Obj)>) returns (r: Result<()>)
    requires rt.Valid() && rt.factory == map[] && rt.closures == []
    requires Weaving.Distinct(Firsts(singletons)) && SingletonKeys(BeanTable(beans), singletons)
    modifies rt
    ensures rt.Valid()
    ensures rt.effects == old(rt.effects) && old(rt.heap) <= rt.heap
    ensures forall h :: 0 <= h < |rt.closures| ==> Unused(rt.closures[h])
    ensures r.Ok? ==> forall id :: id in rt.factory ==> id in Ids(beans)
    ensures r.Ok? ==> AllInstalled(rt.factory, rt.closures, rt.heap, BeanTable(beans), singletons)
    ensures r.Ok? ==> forall i :: 0 <= i < |beans| ==>
              beans[i].id in rt.factory || BeanTable(beans)[beans[i].id].scope == Singleton
  {
    var table := BeanTable(beans);
    r := InstallSingletons(rt, table, singletons);
    if r.Err? {
      return;
    }
    ghost var f0, c0, h0 := rt.factory, rt.closures, rt.heap;
    assert forall x :: 0 <= x < |beans| ==> beans[x].id in table by {
      forall x | 0 <= x < |beans| ensures beans[x].id in table {
        assert Ids(beans)[x] == beans[x].id;
      }
    }
    r := InstallRest(rt, beans, table);
    InstalledKept(f0, c0, h0, rt.factory, rt.closures, rt.heap, table, singletons, |singletons|);
  }
}
