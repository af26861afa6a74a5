/** The `Beans` container object (Beans.js:4-52): `init` reads a
    configuration document, validates it, builds the bean factory and weaves
    the aspects; `getBean` calls the accessor a bean id is bound to. */
module BeansContainer {
  import opened Results
  import opened Js
  import opened Declarations
  import opened Validation
  import opened Container
  import opened Factory
  import opened Aspects
  import Weaving

  /** How `init` ends: the callback gets no error, the callback gets an
      error, or an exception escapes the parser's callback (the callback is
      never called). */
  datatype Outcome = Ready | Reported(error: Error) | Crashed(error: Error)

  /** The singleton ids of beans with distinct ids are distinct. */
  lemma {:induction false} SingletonIdsDistinct(beans: seq<Bean>)
    requires forall i, j :: 0 <= i < j < |beans| ==> beans[i].id != beans[j].id
    ensures Weaving.Distinct(SingletonIds(beans))
    ensures forall x :: x in SingletonIds(beans) ==> x in Ids(beans)
  {
    if |beans| > 0 {
      var init := beans[..|beans| - 1];
      SingletonIdsDistinct(init);
      var last := beans[|beans| - 1];
      forall x | x in Ids(init)
        ensures x != last.id
      {
        var k :| 0 <= k < |init| && Ids(init)[k] == x;
        assert init[k] == beans[k];
      }
      var prev := SingletonIds(init);
      if last.scope == Singleton {
        assert last.id !in prev;
        forall i, j | 0 <= i < j < |SingletonIds(beans)|
          ensures SingletonIds(beans)[i] != SingletonIds(beans)[j]
        {
          assert SingletonIds(beans) == prev + [last.id];
          if j == |prev| {
            assert SingletonIds(beans)[i] == prev[i];
            assert prev[i] in prev;
          }
        }
      } else {
        assert SingletonIds(beans) == prev;
      }
      forall x | x in SingletonIds(beans)
        ensures x in Ids(beans)
      {
        if x in SingletonIds(init) {
          var k :| 0 <= k < |init| && Ids(init)[k] == x;
          assert Ids(beans)[k] == beans[k].id == init[k].id;
        } else {
          assert Ids(beans)[|beans| - 1] == last.id;
        }
      }
    }
  }

  /** Every singleton id names a singleton bean. */
  lemma {:induction false} SingletonIdsScoped(beans: seq<Bean>, id: string)
    requires id in SingletonIds(beans)
    ensures exists i :: 0 <= i < |beans| && beans[i].id == id && beans[i].scope == Singleton
  {
    var last := beans[|beans| - 1];
    if id in SingletonIds(beans[..|beans| - 1]) {
      SingletonIdsScoped(beans[..|beans| - 1], id);
      var i :| 0 <= i < |beans| - 1 && beans[..|beans| - 1][i].id == id && beans[..|beans| - 1][i].scope == Singleton;
      assert beans[i] == beans[..|beans| - 1][i];
    } else {
      assert beans[|beans| - 1].id == id && last.scope == Singleton;
    }
  }

  /** The instances validation hands over belong to singleton beans, so in
      the table of beans by id their keys are singletons. */
  lemma SingletonKeysOf(beans: seq<Bean>, singletons: seq<(string, Obj)>)
    requires forall i, j :: 0 <= i < j < |beans| ==> beans[i].id != beans[j].id
    requires Firsts(singletons) == SingletonIds(beans)
    ensures SingletonKeys(BeanTable(beans), singletons)
  {
    BeanTableFinds(beans);
    forall x | 0 <= x < |singletons|
      ensures singletons[x].0 in BeanTable(beans) && BeanTable(beans)[singletons[x].0].scope == Singleton
    {
      assert Firsts(singletons)[x] == singletons[x].0;
      SingletonIdsScoped(beans, singletons[x].0);
      var i :| 0 <= i < |beans| && beans[i].id == singletons[x].0 && beans[i].scope == Singleton;
      assert BeanTable(beans)[beans[i].id] == beans[i];
    }
  }

  /** Whether an aspect was read from its element depends only on which ids
      the factory binds, not on the accessors they are bound to. */
  lemma ParsedKeys(node: Node, aop: Aop, f1: map<string, nat>, f2: map<string, nat>)
    requires Parsed(node, aop, f1) && (forall id :: id in f1 <==> id in f2)
    ensures Parsed(node, aop, f2)
  {
    assert AopHeader(node, f2) == AopHeader(node, f1);
    forall i | 0 <= i < |aop.refs|
      ensures RefHeader(Children(node, "ref")[i], f2) == Ok(aop.refs[i])
    {
      assert RefHeader(Children(node, "ref")[i], f2) == RefHeader(Children(node, "ref")[i], f1);
    }
  }

  class Beans {
    /** Whether `beanFactory` is set: it is null until `init` builds it. */
    var built: bool
    /** The bean factory and everything its accessors reach. */
    var rt: Runtime

    predicate Valid()
      reads this, rt
    {
      rt.Valid()
    }

    /** `new Beans()`: no factory yet. */
    constructor(heap: seq<Obj>, modules: map<string, Export>, code: Dispatch.Code, matches: (string, string) -> bool,
                validCut: string -> bool)
      requires Loaded(heap, modules)
      ensures Valid() && !built
      ensures rt.heap == heap && rt.modules == modules && rt.code == code && rt.matches == matches
      ensures rt.validCut == validCut
    {
      built := false;
      rt := new Runtime(heap, modules, code, matches, validCut);
    }

    /** `init` (Beans.js:9-46) on a parsed document. Declaration and
        validation errors are reported and leave no factory; an error while
        building the factory escapes and leaves no factory; an error while
        reading the aspects is reported with the factory already set; an
        error while weaving escapes with the factory set. When it is ready,
        exactly the declared ids are bound, and `aops` are the aspects read,
        one per `aop` element. */
    method Init(doc: Document, fuel: nat) returns (o: Outcome, ghost aops: seq<Aop>)
      requires Valid()
      modifies this, rt
      ensures Valid()
      ensures BeansOf(doc).Err? ==> o == Reported(BeansOf(doc).error) && !built
      ensures BeansOf(doc).Ok? && Validated(BeansOf(doc).value, old(rt.heap), old(rt.modules)).Err?
              ==> o == Reported(Validated(BeansOf(doc).value, old(rt.heap), old(rt.modules)).error) && !built
      ensures !o.Crashed? && built ==> BeansOf(doc).Ok? && Validated(BeansOf(doc).value, old(rt.heap), old(rt.modules)).Ok?
      ensures o.Crashed? ==> BeansOf(doc).Ok? && Validated(BeansOf(doc).value, old(rt.heap), old(rt.modules)).Ok?
      ensures BeansOf(doc).Ok? && Validated(BeansOf(doc).value, old(rt.heap), old(rt.modules)).Ok? ==>
                (!built ==> o.Crashed?) && (o.Reported? ==> built)
      ensures o.Ready? ==> built
      ensures o.Ready? ==> forall id :: id in rt.factory <==> id in Ids(BeansOf(doc).value)
      ensures o.Ready? ==> && |aops| == |Children(BeansElement(doc), "aop")|
                           && forall i :: 0 <= i < |aops| ==> Parsed(Children(BeansElement(doc), "aop")[i], aops[i], rt.factory)
      ensures rt.modules == old(rt.modules) && rt.code == old(rt.code) && rt.matches == old(rt.matches)
      ensures rt.validCut == old(rt.validCut)
    {
      aops := [];
      built := false;
      var beans := ParseBeans(doc);
      if beans.Err? {
        return Reported(beans.error), aops;
      }
      var singletons := ValidateBeans(beans.value, rt.heap, rt.modules);
      if singletons.Err? {
        return Reported(singletons.error), aops;
      }
      ValidatedIff(beans.value, rt.heap, rt.modules);
      BeansHaveDistinctIds(Children(BeansElement(doc), "bean"));
      SingletonIdsDistinct(beans.value);
      SingletonKeysOf(beans.value, singletons.value);
      var factory := new Runtime(rt.heap, rt.modules, rt.code, rt.matches, rt.validCut);
      rt := factory;
      var done := BuildBeanFactory(rt, beans.value, singletons.value);
      if done.Err? {
        return Crashed(done.error), aops;
      }
      built := true;
      BoundIds(beans.value, singletons.value, rt.factory, rt.closures, rt.heap);
      ghost var bound := rt.factory;
      var parsed := ParseAops(rt, doc, fuel);
      if parsed.Err? {
        return Reported(parsed.error), aops;
      }
      aops := parsed.value;
      ghost var f1 := rt.factory;
      assert f1 == bound;
      ghost var woven, samples;
      var weaved;
      weaved, woven, samples := BuildAops(rt, parsed.value, fuel);
      if weaved.Err? {
        return Crashed(weaved.error), aops;
      }
      forall i | 0 <= i < |aops|
        ensures Parsed(Children(BeansElement(doc), "aop")[i], aops[i], rt.factory)
      {
        ParsedKeys(Children(BeansElement(doc), "aop")[i], aops[i], f1, rt.factory);
      }
      return Ready, aops;
    }

    /** `getBean` (Beans.js:48-50): the accessor bound to `id`, called. Before
        a factory exists, or for an unbound id, it fails as a property read
        of null or undefined does. A singleton or module bean is the same
        object on every call. The first call of a singleton or module bean,
        and every call of a prototype bean, runs the injections of its
        accessor into the object it returns; `marks` locates them. */
    method GetBean(id: string, fuel: nat) returns (r: Result<Val>, ghost marks: seq<nat>)
      requires Valid()
      modifies rt
      ensures Valid() && rt.Progress()
      ensures !(built && id in rt.factory) ==> r.Err? && r.error.TypeError? && unchanged(rt)
      ensures r.Err? ==> EngineError(r.error)
      ensures r.Ok? ==> built && id in rt.factory && r.value.ObjRef? && r.value.addr < |rt.heap|
      ensures r.Ok? && old(rt.closures[rt.factory[id]]).Memoised?
              ==> r.value.addr == old(rt.closures[rt.factory[id]]).addr
      ensures r.Ok? ==>
        var a := old(rt.closures[rt.factory[id]]);
        (a.Prototype? || (a.Memoised? && !a.injected)) ==>
        Wired(rt.effects, marks, r.value.addr, a.setters, a.fields, rt.closures, |old(rt.effects)|)
    {
      marks := [];
      if !built {
        return Err(TypeError("cannot read property 'hasOwnProperty' of null")), marks;
      }
      if id !in rt.factory {
        return Err(TypeError("cannot read property '" + id + "' of undefined")), marks;
      }
      r, marks := rt.Call(rt.factory[id], fuel);
    }
  }

  /** After the factory is built, every declared id is bound and nothing
      else is. */
  lemma BoundIds(beans: seq<Bean>, singletons: seq<(string, Obj)>, factory: map<string, nat>,
                 closures: seq<Accessor>, heap: seq<Obj>)
    requires Firsts(singletons) == SingletonIds(beans)
    requires forall i, j :: 0 <= i < j < |beans| ==> beans[i].id != beans[j].id
    requires forall id :: id in factory ==> id in Ids(beans)
    requires AllInstalled(factory, closures, heap, BeanTable(beans), singletons)
    requires forall i :: 0 <= i < |beans| ==> beans[i].id in factory || BeanTable(beans)[beans[i].id].scope == Singleton
    ensures forall id :: id in factory <==> id in Ids(beans)
  {
    BeanTableFinds(beans);
    forall id | id in Ids(beans)
      ensures id in factory
    {
      var i :| 0 <= i < |beans| && Ids(beans)[i] == id;
      assert BeanTable(beans)[beans[i].id] == beans[i];
      if beans[i].scope == Singleton {
        SingletonIn(beans, i);
        var x :| 0 <= x < |singletons| && Firsts(singletons)[x] == id;
        assert Installed(factory, closures, heap, BeanTable(beans), singletons[x].0, singletons[x].1,
                         Earlier(singletons, x + 1));
      }
    }
  }

  /** A singleton bean's id is among the singleton ids. */
  lemma {:induction false} SingletonIn(beans: seq<Bean>, i: nat)
    requires i < |beans| && beans[i].scope == Singleton
    ensures beans[i].id in SingletonIds(beans)
  {
    if i < |beans| - 1 {
      SingletonIn(beans[..|beans| - 1], i);
    }
  }
}
