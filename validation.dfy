/** Validation of the declared beans (Beans.js:222-282): every class can be
    loaded (and instantiated, unless the bean is a module), every property can
    be injected through a setter or an own field, and every reference that
    stands directly as a property value names a declared bean (references
    inside lists pass unchecked). The singletons created on the way are handed to the
    factory. */
module Validation {
  import opened Results
  import opened Js
  import Names
  import opened Declarations

  /** What `require` gives for a module path: the address of the exported
      value, and, when the export is a class, the object `new` creates from it
      (its constructor is not modelled beyond the object it leaves). */
  datatype Export = Export(addr: nat, template: Option<Obj>)

  /** Every exported value lives in the heap. */
  predicate Loaded(heap: seq<Obj>, modules: map<string, Export>)
  {
    forall path :: path in modules ==> modules[path].addr < |heap|
  }

  /** `require(getModuleRequirePath(aClass))`, failing on an unknown path. */
  function Require(modules: map<string, Export>, aClass: string, beanId: string): (r: Result<Export>)
    ensures r.Ok? <==> Names.GetModuleRequirePath(aClass) in modules
    ensures r.Ok? ==> r.value == modules[Names.GetModuleRequirePath(aClass)]
    ensures r.Err? ==> r.error == ImportFailed(aClass, beanId)
  {
    var path := Names.GetModuleRequirePath(aClass);
    if path in modules then Ok(modules[path]) else Err(ImportFailed(aClass, beanId))
  }

  /** The object a bean's properties are checked against: the exported value
      itself for a module, a new instance otherwise (a TypeError when the
      export is no class). */
  function Instance(bean: Bean, heap: seq<Obj>, modules: map<string, Export>): (r: Result<Obj>)
    requires Loaded(heap, modules)
    ensures r.Ok? ==> Names.GetModuleRequirePath(bean.aClass) in modules
    ensures bean.scope == Module && r.Ok? ==>
      Names.GetModuleRequirePath(bean.aClass) in modules && r.value == heap[modules[Names.GetModuleRequirePath(bean.aClass)].addr]
    ensures bean.scope != Module && r.Ok? ==>
      Names.GetModuleRequirePath(bean.aClass) in modules && Some(r.value) == modules[Names.GetModuleRequirePath(bean.aClass)].template
    ensures r.Err? && Names.GetModuleRequirePath(bean.aClass) in modules ==> bean.scope != Module
  {
    var m :- Require(modules, bean.aClass, bean.id);
    if bean.scope == Module then Ok(heap[m.addr])
    else if m.template.None? then Err(TypeError("TheModule is not a constructor"))
    else Ok(m.template.value)
  }

  /** A property can be injected into `instance`: through a setter when the
      setter name holds a function, otherwise through an own field, which is
      only allowed when the setter name holds nothing truthy. */
  predicate Injectable(instance: Obj, name: string)
    requires |name| > 0
  {
    var setter := Get(instance, Names.ToSetterName(name));
    IsFunction(setter) || (!Truthy(setter) && HasOwn(instance, name))
  }

  // ---------------------------------------------------------------------
  // validateValue (Beans.js:269-282)

  /** The reference targets a value mentions, lists included. */
  function Refs(value: Value): seq<Val>
    decreases value
  {
    match value
    case Literal(_) => []
    case Ref(target) => [target]
    case List(items) => RefsOfItems(items)
  }

  function RefsOfItems(items: seq<Value>): seq<Val>
    decreases items
  {
    if |items| == 0 then [] else Refs(items[0]) + RefsOfItems(items[1..])
  }

  /** Every reference is a string that names a declared bean. */
  predicate RefsResolve(value: Value, beanIds: seq<string>)
  {
    forall t :: t in Refs(value) ==> t.Str? && t.s in beanIds
  }

  /** The check as intended: a reference must be one of the bean ids (compared
      with `===`, so only a string can match), and every item of a list is
      checked in the same way. */
  function ValidateValue(value: Value, beanIds: seq<string>, beanId: string, name: string): (r: Result<()>)
    ensures r.Ok? <==> RefsResolve(value, beanIds)
    ensures r.Err? ==> r.error.RefNotFound? && r.error.name == name && r.error.beanId == beanId
    decreases value
  {
    match value
    case Literal(_) => Ok(())
    case Ref(target) =>
      if target.Str? && Names.Contains(beanIds, target.s) then Ok(())
      else Err(RefNotFound(PropertyKey(target), name, beanId))
    case List(items) => ValidateItems(items, beanIds, beanId, name)
  }

  function ValidateItems(items: seq<Value>, beanIds: seq<string>, beanId: string, name: string): (r: Result<()>)
    ensures r.Ok? <==> forall t :: t in RefsOfItems(items) ==> t.Str? && t.s in beanIds
    ensures r.Err? ==> r.error.RefNotFound? && r.error.name == name && r.error.beanId == beanId
    decreases items
  {
    if |items| == 0 then Ok(())
    else
      var _ :- ValidateValue(items[0], beanIds, beanId, name);
      ValidateItems(items[1..], beanIds, beanId, name)
  }

  /** A reference standing directly as the value is a string naming a
      declared bean; what a list holds is not looked at. */
  predicate TopRefResolves(value: Value, beanIds: seq<string>)
  {
    value.Ref? ==> value.target.Str? && value.target.s in beanIds
  }

  /** The check as the source writes it, and as validation runs it:
      `for (let v in list)` walks the indices "0", "1", ... of the list,
      which are strings without a `type`, so nothing inside a list is ever
      checked. */
  function ValidateValueAsWritten(value: Value, beanIds: seq<string>, beanId: string, name: string): (r: Result<()>)
    ensures r.Ok? <==> TopRefResolves(value, beanIds)
    ensures r.Err? ==> r.error == RefNotFound(PropertyKey(value.target), name, beanId)
    ensures value.List? ==> r.Ok?
    ensures !value.List? ==> r == ValidateValue(value, beanIds, beanId, name)
  {
    match value
    case Ref(target) =>
      if target.Str? && Names.Contains(beanIds, target.s) then Ok(())
      else Err(RefNotFound(PropertyKey(target), name, beanId))
    case _ => Ok(())
  }

  /** A list holding a reference to an undeclared bean passes the check as
      written and fails the intended one. */
  lemma ListRefsEscapeAsWritten()
    ensures ValidateValueAsWritten(List([Ref(Str("missing"))]), ["a"], "a", "p") == Ok(())
    ensures ValidateValue(List([Ref(Str("missing"))]), ["a"], "a", "p") == Err(RefNotFound("missing", "p", "a"))
  {
    assert Refs(List([Ref(Str("missing"))])) == [Str("missing")] by {
      assert RefsOfItems([Ref(Str("missing"))][1..]) == [];
    }
  }

  /** The intended check is the stricter one: whatever it accepts, the
      check as written accepts too. */
  lemma ValidateValueStricter(value: Value, beanIds: seq<string>, beanId: string, name: string)
    requires ValidateValue(value, beanIds, beanId, name).Ok?
    ensures ValidateValueAsWritten(value, beanIds, beanId, name).Ok?
  {
    if value.Ref? {
      assert value.target in Refs(value);
    }
  }

  // ---------------------------------------------------------------------
  // validateBeans (Beans.js:225-267)

  /** The checks of one property, in the order of the source, with the
      value checked as written. */
  function CheckProperty(property: Property, instance: Obj, beanIds: seq<string>, beanId: string): (r: Result<()>)
    ensures r.Ok? <==> |property.name| > 0 && Injectable(instance, property.name) && TopRefResolves(property.value, beanIds)
    ensures |property.name| == 0 ==> r == Err(InvalidPropertyName(beanId))
    ensures |property.name| > 0 && !Injectable(instance, property.name) ==> r == Err(NoSetterNorField(property.name, beanId))
  {
    if |property.name| < 1 then Err(InvalidPropertyName(beanId))
    else
      var setter := Get(instance, Names.ToSetterName(property.name));
      if (Truthy(setter) && !IsFunction(setter)) || (!Truthy(setter) && !HasOwn(instance, property.name)) then
        Err(NoSetterNorField(property.name, beanId))
      else ValidateValueAsWritten(property.value, beanIds, beanId, property.name)
  }

  /** The properties from index `i` on, stopping at the first failure. */
  function CheckPropertiesFrom(props: seq<Property>, i: nat, instance: Obj, beanIds: seq<string>, beanId: string): (r: Result<()>)
    requires i <= |props|
    decreases |props| - i
  {
    if i == |props| then Ok(())
    else
      var _ :- CheckProperty(props[i], instance, beanIds, beanId);
      CheckPropertiesFrom(props, i + 1, instance, beanIds, beanId)
  }

  /** The beans from index `i` on; `singletons` holds the singleton instances
      of the beans before `i`, in declaration order. */
  function ValidateFrom(beans: seq<Bean>, i: nat, heap: seq<Obj>, modules: map<string, Export>,
                        beanIds: seq<string>, singletons: seq<(string, Obj)>): Result<seq<(string, Obj)>>
    requires i <= |beans| && Loaded(heap, modules)
    decreases |beans| - i
  {
    if i == |beans| then Ok(singletons)
    else
      var bean := beans[i];
      var instance :- BeanChecked(bean, heap, modules, beanIds);
      ValidateFrom(beans, i + 1, heap, modules, beanIds,
                   if bean.scope == Singleton then singletons + [(bean.id, instance)] else singletons)
  }

  /** One bean: its class loaded, then its properties checked; the object
      checked when all pass. */
  function BeanChecked(bean: Bean, heap: seq<Obj>, modules: map<string, Export>, beanIds: seq<string>): Result<Obj>
    requires Loaded(heap, modules)
  {
    var instance :- Instance(bean, heap, modules);
    var _ :- CheckPropertiesFrom(bean.properties, 0, instance, beanIds, bean.id);
    Ok(instance)
  }

  function Validated(beans: seq<Bean>, heap: seq<Obj>, modules: map<string, Export>): Result<seq<(string, Obj)>>
    requires Loaded(heap, modules)
  {
    ValidateFrom(beans, 0, heap, modules, Ids(beans), [])
  }

  /** `validateBeans` (Beans.js:225-267): the ids are collected first, then
      each bean is loaded and its properties checked, in order; the first
      failure is thrown. */
  method ValidateBeans(beans: seq<Bean>, heap: seq<Obj>, modules: map<string, Export>)
    returns (r: Result<seq<(string, Obj)>>)
    requires Loaded(heap, modules)
    ensures r == Validated(beans, heap, modules)
  {
    var singletons: seq<(string, Obj)> := [];
    var beanIds: seq<string> := [];
    var j := 0;
    while j < |beans|
      invariant 0 <= j <= |beans|
      invariant beanIds == Ids(beans[..j])
    {
      assert beans[..j + 1][..j] == beans[..j];
      beanIds := beanIds + [beans[j].id];
      j := j + 1;
    }
    assert beans[..|beans|] == beans;

    var i := 0;
    while i < |beans|
      invariant 0 <= i <= |beans|
      invariant Validated(beans, heap, modules) == ValidateFrom(beans, i, heap, modules, beanIds, singletons)
    {
      var bean := beans[i];
      var instance := ValidateBean(bean, heap, modules, beanIds);
      if instance.Err? {
        return Err(instance.error);
      }
      if bean.scope == Singleton {
        singletons := singletons + [(bean.id, instance.value)];
      }
      i := i + 1;
    }
    return Ok(singletons);
  }

  /** One turn of the second loop of `validateBeans` (Beans.js:233-265):
      the bean's class is loaded (and instantiated unless the bean is a
      module) and each property checked; the object checked is returned. */
  method ValidateBean(bean: Bean, heap: seq<Obj>, modules: map<string, Export>, beanIds: seq<string>)
    returns (r: Result<Obj>)
    requires Loaded(heap, modules)
    ensures r == BeanChecked(bean, heap, modules, beanIds)
  {
    var loaded := Require(modules, bean.aClass, bean.id);
    if loaded.Err? {
      return Err(loaded.error);
    }
    var instance: Obj;
    if bean.scope == Module {
      instance := heap[loaded.value.addr];
    } else {
      if loaded.value.template.None? {
        return Err(TypeError("TheModule is not a constructor"));
      }
      instance := loaded.value.template.value;
    }
    var k := 0;
    while k < |bean.properties|
      invariant 0 <= k <= |bean.properties|
      invariant CheckPropertiesFrom(bean.properties, 0, instance, beanIds, bean.id)
             == CheckPropertiesFrom(bean.properties, k, instance, beanIds, bean.id)
    {
      var property := bean.properties[k];
      if |property.name| < 1 {
        return Err(InvalidPropertyName(bean.id));
      }
      var setter := Get(instance, Names.ToSetterName(property.name));
      if (Truthy(setter) && !IsFunction(setter)) || (!Truthy(setter) && !HasOwn(instance, property.name)) {
        return Err(NoSetterNorField(property.name, bean.id));
      }
      var checked := ValidateValueAsWritten(property.value, beanIds, bean.id, property.name);
      if checked.Err? {
        return Err(checked.error);
      }
      k := k + 1;
    }
    return Ok(instance);
  }

  // ---------------------------------------------------------------------
  // What validation guarantees

  /** The ids of the singleton beans, in declaration order. */
  function SingletonIds(beans: seq<Bean>): seq<string>
  {
    if |beans| == 0 then []
    else SingletonIds(beans[..|beans| - 1]) + (if beans[|beans| - 1].scope == Singleton then [beans[|beans| - 1].id] else [])
  }

  function Firsts(pairs: seq<(string, Obj)>): (r: seq<string>)
    ensures |r| == |pairs| && forall k :: 0 <= k < |pairs| ==> r[k] == pairs[k].0
  {
    if |pairs| == 0 then [] else Firsts(pairs[..|pairs| - 1]) + [pairs[|pairs| - 1].0]
  }

  /** The properties of a bean pass exactly when each passes on its own. */
  lemma {:induction false} CheckPropertiesAll(props: seq<Property>, i: nat, instance: Obj, beanIds: seq<string>, beanId: string)
    requires i <= |props|
    ensures CheckPropertiesFrom(props, i, instance, beanIds, beanId).Ok?
        <==> forall k :: i <= k < |props| ==> CheckProperty(props[k], instance, beanIds, beanId).Ok?
    decreases |props| - i
  {
    if i < |props| {
      CheckPropertiesAll(props, i + 1, instance, beanIds, beanId);
    }
  }

  /** A bean passes when it can be loaded and every property passes. */
  predicate BeanValid(bean: Bean, heap: seq<Obj>, modules: map<string, Export>, beanIds: seq<string>)
    requires Loaded(heap, modules)
  {
    && Instance(bean, heap, modules).Ok?
    && forall p :: p in bean.properties ==>
         CheckProperty(p, Instance(bean, heap, modules).value, beanIds, bean.id).Ok?
  }

  /** The singletons after bean `bean` has passed with instance `instance`. */
  function Record(singletons: seq<(string, Obj)>, bean: Bean, instance: Obj): seq<(string, Obj)>
  {
    if bean.scope == Singleton then singletons + [(bean.id, instance)] else singletons
  }

  /** One step of validation: bean `i` passes and the rest is validated. */
  lemma ValidateFromStep(beans: seq<Bean>, i: nat, heap: seq<Obj>, modules: map<string, Export>,
                         beanIds: seq<string>, singletons: seq<(string, Obj)>)
    requires i < |beans| && Loaded(heap, modules)
    ensures var r := ValidateFrom(beans, i, heap, modules, beanIds, singletons);
      && (r.Ok? <==> BeanValid(beans[i], heap, modules, beanIds)
                     && ValidateFrom(beans, i + 1, heap, modules, beanIds,
                          Record(singletons, beans[i], Instance(beans[i], heap, modules).value)).Ok?)
      && (r.Ok? ==> r == ValidateFrom(beans, i + 1, heap, modules, beanIds,
                          Record(singletons, beans[i], Instance(beans[i], heap, modules).value)))
  {
    var bean := beans[i];
    if Instance(bean, heap, modules).Ok? {
      var instance := Instance(bean, heap, modules).value;
      CheckPropertiesAll(bean.properties, 0, instance, beanIds, bean.id);
      assert BeanValid(bean, heap, modules, beanIds)
         <==> forall k :: 0 <= k < |bean.properties| ==> CheckProperty(bean.properties[k], instance, beanIds, bean.id).Ok?;
    }
  }

  lemma {:induction false} ValidateFromAccepts(beans: seq<Bean>, i: nat, heap: seq<Obj>, modules: map<string, Export>,
                                                beanIds: seq<string>, singletons: seq<(string, Obj)>)
    requires i <= |beans| && Loaded(heap, modules)
    ensures ValidateFrom(beans, i, heap, modules, beanIds, singletons).Ok?
        <==> forall k :: i <= k < |beans| ==> BeanValid(beans[k], heap, modules, beanIds)
    decreases |beans| - i
  {
    if i < |beans| {
      ValidateFromStep(beans, i, heap, modules, beanIds, singletons);
      if Instance(beans[i], heap, modules).Ok? {
        ValidateFromAccepts(beans, i + 1, heap, modules, beanIds,
                            Record(singletons, beans[i], Instance(beans[i], heap, modules).value));
      }
    }
  }

  /** An accepted bean hands its instance on to the rest of the beans. */
  lemma ValidateFromNext(beans: seq<Bean>, i: nat, heap: seq<Obj>, modules: map<string, Export>,
                         beanIds: seq<string>, singletons: seq<(string, Obj)>)
    requires i < |beans| && Loaded(heap, modules)
    requires ValidateFrom(beans, i, heap, modules, beanIds, singletons).Ok?
    ensures BeanChecked(beans[i], heap, modules, beanIds).Ok?
    ensures ValidateFrom(beans, i, heap, modules, beanIds, singletons)
         == ValidateFrom(beans, i + 1, heap, modules, beanIds,
                         Record(singletons, beans[i], BeanChecked(beans[i], heap, modules, beanIds).value))
  {
  }

  /** The singleton pairs grow by the bean's id exactly when it is a
      singleton. */
  lemma FirstsRecord(singletons: seq<(string, Obj)>, bean: Bean, instance: Obj)
    ensures Firsts(Record(singletons, bean, instance))
         == Firsts(singletons) + (if bean.scope == Singleton then [bean.id] else [])
  {
    if bean.scope == Singleton {
      var next := singletons + [(bean.id, instance)];
      assert next[..|next| - 1] == singletons;
    }
  }

  lemma {:induction false} ValidateFromSingletons(beans: seq<Bean>, i: nat, heap: seq<Obj>, modules: map<string, Export>,
                                                   beanIds: seq<string>, singletons: seq<(string, Obj)>)
    requires i <= |beans| && Loaded(heap, modules)
    requires ValidateFrom(beans, i, heap, modules, beanIds, singletons).Ok?
    ensures Firsts(ValidateFrom(beans, i, heap, modules, beanIds, singletons).value)
         == Firsts(singletons) + SingletonIds(beans[i..])
    decreases |beans| - i
  {
    if i < |beans| {
      var bean := beans[i];
      ValidateFromNext(beans, i, heap, modules, beanIds, singletons);
      var next := Record(singletons, bean, BeanChecked(bean, heap, modules, beanIds).value);
      ValidateFromSingletons(beans, i + 1, heap, modules, beanIds, next);
      var head := if bean.scope == Singleton then [bean.id] else [];
      FirstsRecord(singletons, bean, BeanChecked(bean, heap, modules, beanIds).value);
      SingletonIdsFront(beans[i..]);
      assert beans[i..][1..] == beans[i + 1..];
      AppendAssoc(Firsts(singletons), head, SingletonIds(beans[i + 1..]));
    } else {
      assert beans[i..] == [];
    }
  }

  lemma AppendAssoc<T>(a: seq<T>, b: seq<T>, c: seq<T>)
    ensures (a + b) + c == a + (b + c)
  {
  }

  /** `SingletonIds` read from the front. */
  lemma {:induction false} SingletonIdsFront(beans: seq<Bean>)
    requires |beans| > 0
    ensures SingletonIds(beans) == (if beans[0].scope == Singleton then [beans[0].id] else []) + SingletonIds(beans[1..])
  {
    if |beans| > 1 {
      SingletonIdsFront(beans[..|beans| - 1]);
      assert beans[..|beans| - 1][1..] == beans[1..][..|beans[1..]| - 1];
    } else {
      assert beans[1..] == [];
      assert beans[..0] == [];
    }
  }

  /** Validation accepts the beans exactly when every bean can be loaded and
      each of its properties is injectable and, when its value is a
      reference, refers to a declared bean;
      it then hands over one instance per singleton bean, in declaration
      order. */
  lemma ValidatedIff(beans: seq<Bean>, heap: seq<Obj>, modules: map<string, Export>)
    requires Loaded(heap, modules)
    ensures Validated(beans, heap, modules).Ok?
        <==> forall k :: 0 <= k < |beans| ==> BeanValid(beans[k], heap, modules, Ids(beans))
    ensures Validated(beans, heap, modules).Ok? ==> Firsts(Validated(beans, heap, modules).value) == SingletonIds(beans)
  {
    var ids := Ids(beans);
    ValidateFromAccepts(beans, 0, heap, modules, ids, []);
    var v := ValidateFrom(beans, 0, heap, modules, ids, []);
    if v.Ok? {
      ValidateFromSingletons(beans, 0, heap, modules, ids, []);
      assert beans[0..] == beans;
      assert Firsts([]) + SingletonIds(beans) == SingletonIds(beans);
    }
  }

  /** Every property of an accepted configuration can be injected, and a
      reference standing as its value names a declared bean (references
      inside lists are not checked). */
  lemma AcceptedPropertiesInjectable(beans: seq<Bean>, heap: seq<Obj>, modules: map<string, Export>, k: nat, p: Property)
    requires Loaded(heap, modules)
    requires Validated(beans, heap, modules).Ok?
    requires k < |beans| && p in beans[k].properties
    ensures Instance(beans[k], heap, modules).Ok?
    ensures |p.name| > 0 && Injectable(Instance(beans[k], heap, modules).value, p.name)
    ensures TopRefResolves(p.value, Ids(beans))
  {
    ValidatedIff(beans, heap, modules);
    assert BeanValid(beans[k], heap, modules, Ids(beans));
  }
}
