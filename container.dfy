/** The running container: the objects of the program, the accessor
    closures the factory holds (Beans.js:298-309, 325-359, 491-600), the
    factory table from bean id to accessor, and the log of injections. The
    JavaScript closures are values of `Accessor`, kept in `closures` and
    known by their index there, because the source captures and compares
    them by identity. Calling an accessor is `Runtime.Call`. */
module Container {
  import opened Results
  import opened Js
  import Names
  import opened Validation
  import opened Dispatch
  import opened Weaving

  /** The value function of a property (Beans.js:394-414): a constant, an
      accessor of the factory, a list of value functions, or `undefined` (what
      `getFuncFromFactory` gives for a singleton not yet in the table), whose
      call is a TypeError. */
  datatype ValueFunc = Const(v: Val) | Call(handle: nat) | ListOf(items: seq<ValueFunc>) | Missing

  /** One entry of `useSetter` or `useField`: the member to call or assign, and
      where its value comes from. */
  datatype Config = Config(name: string, valueFunc: ValueFunc)

  /** The closures the factory holds.
      `Memoised`: a singleton or module accessor; `injected` is its
      `isInstantiated` flag.
      `Prototype`: a prototype accessor; `template` is what `new` gives.
      `Woven`: the accessor `buildAop` returns; `aspect` and `inner` are the
      accessors of the aspect bean and of the woven bean. */
  datatype Accessor =
    | Memoised(addr: nat, injected: bool, setters: seq<Config>, fields: seq<Config>)
    | Prototype(template: Obj, setters: seq<Config>, fields: seq<Config>)
    | Woven(kind: AdviceKind, cut: string, surface: seq<string>, aspect: nat, inner: nat)

  /** An injection as it happened: a setter called with a value, or a field
      assigned one. The bodies of setters are user code and are not modelled
      beyond this record. */
  datatype Effect = SetterCall(addr: nat, name: string, value: Val) | FieldWrite(addr: nat, name: string, value: Val)

  /** A failure raised by the JavaScript engine rather than thrown by the
      library: calling an accessor can fail only this way. */
  predicate EngineError(e: Error)
  {
    e.TypeError? || e.StackOverflow?
  }

  predicate FuncOk(vf: ValueFunc, n: nat)
    decreases vf
  {
    match vf
    case Call(h) => h < n
    case ListOf(items) => forall i :: 0 <= i < |items| ==> FuncOk(items[i], n)
    case _ => true
  }

  predicate ConfigsOk(cs: seq<Config>, n: nat)
  {
    forall i :: 0 <= i < |cs| ==> FuncOk(cs[i].valueFunc, n)
  }

  /** Every address and handle an accessor holds is in range. */
  predicate AccessorOk(a: Accessor, heapSize: nat, n: nat)
  {
    match a
    case Memoised(addr, _, setters, fields) => addr < heapSize && ConfigsOk(setters, n) && ConfigsOk(fields, n)
    case Prototype(_, setters, fields) => ConfigsOk(setters, n) && ConfigsOk(fields, n)
    case Woven(_, _, _, aspect, inner) => aspect < n && inner < n
  }

  /** `b` is `a` after some calls: a memoised accessor may have set its flag,
      nothing else changes. */
  predicate Later(a: Accessor, b: Accessor)
  {
    if a.Memoised? then
      b.Memoised? && b.addr == a.addr && b.setters == a.setters && b.fields == a.fields && (a.injected ==> b.injected)
    else b == a
  }

  predicate AllLater(c0: seq<Accessor>, c1: seq<Accessor>)
  {
    |c0| == |c1| && forall h :: 0 <= h < |c0| ==> Later(c0[h], c1[h])
  }

  lemma {:induction false} FuncOkGrows(vf: ValueFunc, n: nat, m: nat)
    requires FuncOk(vf, n) && n <= m
    ensures FuncOk(vf, m)
    decreases vf
  {
    if vf.ListOf? {
      forall i | 0 <= i < |vf.items|
        ensures FuncOk(vf.items[i], m)
      {
        FuncOkGrows(vf.items[i], n, m);
      }
    }
  }

  lemma ConfigsOkGrow(cs: seq<Config>, n: nat, m: nat)
    requires ConfigsOk(cs, n) && n <= m
    ensures ConfigsOk(cs, m)
  {
    forall i | 0 <= i < |cs|
      ensures FuncOk(cs[i].valueFunc, m)
    {
      FuncOkGrows(cs[i].valueFunc, n, m);
    }
  }

  lemma AccessorOkGrows(a: Accessor, hs: nat, n: nat, hs2: nat, m: nat)
    requires AccessorOk(a, hs, n) && hs <= hs2 && n <= m
    ensures AccessorOk(a, hs2, m)
  {
    match a
    case Memoised(_, _, setters, fields) =>
      ConfigsOkGrow(setters, n, m);
      ConfigsOkGrow(fields, n, m);
    case Prototype(_, setters, fields) =>
      ConfigsOkGrow(setters, n, m);
      ConfigsOkGrow(fields, n, m);
    case Woven(_, _, _, _, _) =>
  }

  /** Appending an accessor whose handles are in range keeps every accessor's
      handles in range. */
  lemma AppendAccessor(cs: seq<Accessor>, a: Accessor, hs: nat, hs2: nat)
    requires forall h :: 0 <= h < |cs| ==> AccessorOk(cs[h], hs, |cs|)
    requires AccessorOk(a, hs2, |cs| + 1) && hs <= hs2
    ensures forall h :: 0 <= h < |cs + [a]| ==> AccessorOk((cs + [a])[h], hs2, |cs + [a]|)
  {
    forall h | 0 <= h < |cs + [a]|
      ensures AccessorOk((cs + [a])[h], hs2, |cs + [a]|)
    {
      if h < |cs| {
        AccessorOkGrows(cs[h], hs, |cs|, hs2, |cs| + 1);
      }
    }
  }

  /** `v` is a value calling `vf` can give: the constant itself; an object,
      and for a memoised accessor exactly its object; for a list, an array
      with one such value per item, in order. Calling `undefined` gives
      nothing. */
  predicate Yields(vf: ValueFunc, v: Val, closures: seq<Accessor>)
    decreases vf
  {
    match vf
    case Const(x) => v == x
    case Call(h) => v.ObjRef? && (h < |closures| && closures[h].Memoised? ==> v.addr == closures[h].addr)
    case ListOf(items) =>
      v.Arr? && |v.items| == |items| && forall i :: 0 <= i < |items| ==> Yields(items[i], v.items[i], closures)
    case Missing => false
  }

  /** Later calls do not change what a value function yields: a memoised
      accessor keeps its object. */
  lemma {:induction false} YieldsLater(vf: ValueFunc, v: Val, c0: seq<Accessor>, c1: seq<Accessor>)
    requires Yields(vf, v, c0) && AllLater(c0, c1)
    ensures Yields(vf, v, c1)
    decreases vf
  {
    match vf
    case Call(h) =>
      if h < |c1| {
        assert Later(c0[h], c1[h]);
      }
    case ListOf(items) =>
      forall i | 0 <= i < |items|
        ensures Yields(items[i], v.items[i], c1)
      {
        YieldsLater(items[i], v.items[i], c0, c1);
      }
    case Const(_) =>
  }

  /** The effect `e` is the injection `c` into the object at `addr`, with a
      value `c`'s value function yields. */
  predicate Records(e: Effect, addr: nat, c: Config, setter: bool, closures: seq<Accessor>)
  {
    && (if setter then e.SetterCall? else e.FieldWrite?)
    && e.addr == addr && e.name == c.name
    && Yields(c.valueFunc, e.value, closures)
  }

  /** `marks[x]` is the position in `effects` of the injection `configs[x]`. */
  predicate Logged(effects: seq<Effect>, marks: seq<nat>, addr: nat, configs: seq<Config>, setter: bool,
                   closures: seq<Accessor>)
  {
    && |marks| == |configs|
    && forall x :: 0 <= x < |marks| ==>
         marks[x] < |effects| && Records(effects[marks[x]], addr, configs[x], setter, closures)
  }

  predicate Increasing(marks: seq<nat>, lo: nat, hi: nat)
  {
    && (forall x, y :: 0 <= x < y < |marks| ==> marks[x] < marks[y])
    && (forall x :: 0 <= x < |marks| ==> lo <= marks[x] < hi)
  }

  /** A logged injection stays logged while later effects are appended and
      later calls set flags. */
  lemma LoggedGrows(e0: seq<Effect>, e1: seq<Effect>, c0: seq<Accessor>, c1: seq<Accessor>,
                    marks: seq<nat>, addr: nat, configs: seq<Config>, setter: bool)
    requires e0 <= e1 && AllLater(c0, c1) && Logged(e0, marks, addr, configs, setter, c0)
    ensures Logged(e1, marks, addr, configs, setter, c1)
  {
    forall x | 0 <= x < |marks|
      ensures marks[x] < |e1| && Records(e1[marks[x]], addr, configs[x], setter, c1)
    {
      assert e1[marks[x]] == e0[marks[x]];
      YieldsLater(configs[x].valueFunc, e0[marks[x]].value, c0, c1);
    }
  }

  lemma LoggedStep(effects: seq<Effect>, marks: seq<nat>, addr: nat, configs: seq<Config>, i: nat, setter: bool,
                   closures: seq<Accessor>)
    requires i < |configs| && |marks| == i + 1 && |effects| > 0 && marks[i] == |effects| - 1
    requires Logged(effects, marks[..i], addr, configs[..i], setter, closures)
    requires Records(effects[|effects| - 1], addr, configs[i], setter, closures)
    ensures Logged(effects, marks, addr, configs[..i + 1], setter, closures)
  {
    forall x | 0 <= x < i + 1
      ensures marks[x] < |effects| && Records(effects[marks[x]], addr, configs[..i + 1][x], setter, closures)
    {
      if x < i {
        assert marks[..i][x] == marks[x];
        assert configs[..i][x] == configs[x];
      }
    }
  }

  /** The injections of an accessor into `addr` happened, after position
      `lo` of the log and in order: each of `setters` is a setter call, then
      each of `fields` a field write, each with a value its value function
      yields. */
  predicate Wired(effects: seq<Effect>, marks: seq<nat>, addr: nat, setters: seq<Config>, fields: seq<Config>,
                  closures: seq<Accessor>, lo: nat)
  {
    && |marks| == |setters| + |fields|
    && Increasing(marks, lo, |effects|)
    && Logged(effects, marks[..|setters|], addr, setters, true, closures)
    && Logged(effects, marks[|setters|..], addr, fields, false, closures)
  }

  lemma WiredLater(effects: seq<Effect>, marks: seq<nat>, addr: nat, setters: seq<Config>, fields: seq<Config>,
                   c0: seq<Accessor>, c1: seq<Accessor>, lo: nat)
    requires Wired(effects, marks, addr, setters, fields, c0, lo) && AllLater(c0, c1)
    ensures Wired(effects, marks, addr, setters, fields, c1, lo)
  {
    LoggedGrows(effects, effects, c0, c1, marks[..|setters|], addr, setters, true);
    LoggedGrows(effects, effects, c0, c1, marks[|setters|..], addr, fields, false);
  }

  class Runtime {
    /** The objects, by address. */
    var heap: seq<Obj>
    /** The accessor closures, by handle. */
    var closures: seq<Accessor>
    /** The bean factory: bean id to accessor handle. */
    var factory: map<string, nat>
    /** The injections performed so far, in order. */
    var effects: seq<Effect>
    /** What `require` finds. */
    const modules: map<string, Export>
    /** The user methods and advice bodies. */
    const code: Code
    /** `new RegExp(cut).test(name)`. */
    const matches: (string, string) -> bool
    /** Whether `new RegExp(cut)` accepts the pattern `cut`. */
    const validCut: string -> bool

    constructor(heap: seq<Obj>, modules: map<string, Export>, code: Code, matches: (string, string) -> bool,
                validCut: string -> bool)
      requires Loaded(heap, modules)
      ensures Valid()
      ensures this.heap == heap && this.modules == modules && this.code == code && this.matches == matches
      ensures this.validCut == validCut
      ensures closures == [] && factory == map[] && effects == []
    {
      this.heap := heap;
      this.closures := [];
      this.factory := map[];
      this.effects := [];
      this.modules := modules;
      this.code := code;
      this.matches := matches;
      this.validCut := validCut;
    }

    predicate Valid()
      reads this
    {
      && Loaded(heap, modules)
      && (forall h :: 0 <= h < |closures| ==> AccessorOk(closures[h], |heap|, |closures|))
      && (forall id :: id in factory ==> factory[id] < |closures|)
    }

    /** What a call of an accessor may change: objects are added or written,
        memoised accessors set their flags, injections are logged. */
    twostate predicate Progress()
      reads this
    {
      && |old(heap)| <= |heap|
      && AllLater(old(closures), closures)
      && factory == old(factory)
      && old(effects) <= effects
    }

    lemma ValidAfterProgress(h0: seq<Obj>, c0: seq<Accessor>)
      requires Loaded(h0, modules) && |h0| <= |heap| && AllLater(c0, closures)
      requires forall h :: 0 <= h < |c0| ==> AccessorOk(c0[h], |h0|, |c0|)
      requires forall id :: id in factory ==> factory[id] < |closures|
      ensures Valid()
    {
      forall h | 0 <= h < |closures|
        ensures AccessorOk(closures[h], |heap|, |closures|)
      {
        assert Later(c0[h], closures[h]);
      }
    }

    /** Calls the accessor `h` with `fuel` frames of stack left. `marks`
        locates the injections the call runs into the object it returns. */
    method Call(h: nat, fuel: nat) returns (r: Result<Val>, ghost marks: seq<nat>)
      requires Valid() && h < |closures|
      modifies this
      ensures Valid() && Progress()
      ensures r.Err? ==> EngineError(r.error)
      ensures r.Ok? ==> r.value.ObjRef? && r.value.addr < |heap|
      ensures fuel == 0 ==> r == Err(StackOverflow) && unchanged(this)
      ensures old(closures[h]).Memoised? && r.Ok? ==> r.value.addr == old(closures[h]).addr && closures[h].injected
      ensures old(closures[h]).Memoised? && old(closures[h]).injected && fuel > 0
              ==> r == Ok(ObjRef(old(closures[h]).addr)) && unchanged(this)
      ensures old(closures[h]).Prototype? && r.Ok? ==> r.value.addr == |old(heap)|
      ensures old(closures[h]).Woven? && r.Ok? ==> |old(heap)| <= r.value.addr == |heap| - 1
      ensures old(closures[h]).Memoised? && !old(closures[h]).injected && r.Ok? ==>
        Wired(effects, marks, old(closures[h]).addr, old(closures[h]).setters, old(closures[h]).fields,
              closures, |old(effects)|)
      ensures old(closures[h]).Prototype? && r.Ok? ==>
        Wired(effects, marks, |old(heap)|, old(closures[h]).setters, old(closures[h]).fields, closures, |old(effects)|)
      decreases fuel, 0
    {
      marks := [];
      if fuel == 0 {
        return Err(StackOverflow), marks;
      }
      match closures[h] {
        case Memoised(_, _, _, _) => r, marks := CallMemoised(h, fuel - 1);
        case Prototype(_, _, _) => r, marks := CallPrototype(h, fuel - 1);
        case Woven(_, _, _, _, _) =>
          ghost var b, a;
          r, b, a := CallWoven(h, fuel - 1);
      }
    }

    /** A singleton or module accessor (Beans.js:302-308, 332-338): the
        injections run while the flag is unset, the flag is set after them,
        and the same object is returned every time. */
    method CallMemoised(h: nat, fuel: nat) returns (r: Result<Val>, ghost marks: seq<nat>)
      requires Valid() && h < |closures| && closures[h].Memoised?
      modifies this
      ensures Valid() && Progress()
      ensures r.Err? ==> EngineError(r.error)
      ensures r.Ok? ==> r == Ok(ObjRef(old(closures[h]).addr)) && closures[h].injected
      ensures old(closures[h]).injected ==> r == Ok(ObjRef(old(closures[h]).addr)) && unchanged(this)
      ensures !old(closures[h]).injected && r.Ok? ==>
        Wired(effects, marks, old(closures[h]).addr, old(closures[h]).setters, old(closures[h]).fields,
              closures, |old(effects)|)
      decreases fuel, 5
    {
      var a := closures[h];
      marks := [];
      if !a.injected {
        var done;
        done, marks := HandleInjections(a.addr, a.setters, a.fields, fuel);
        if done.Err? {
          return Err(done.error), marks;
        }
        assert Later(a, closures[h]);
        ghost var c1 := closures;
        closures := closures[h := closures[h].(injected := true)];
        WiredLater(effects, marks, a.addr, a.setters, a.fields, c1, closures, |old(effects)|);
      }
      return Ok(ObjRef(a.addr)), marks;
    }

    /** A prototype accessor (Beans.js:350-354): a new object on every call,
        injected before it is returned. */
    method CallPrototype(h: nat, fuel: nat) returns (r: Result<Val>, ghost marks: seq<nat>)
      requires Valid() && h < |closures| && closures[h].Prototype?
      modifies this
      ensures Valid() && Progress()
      ensures r.Err? ==> EngineError(r.error)
      ensures r.Ok? ==> r == Ok(ObjRef(|old(heap)|)) && |old(heap)| < |heap|
      ensures r.Ok? ==>
        Wired(effects, marks, |old(heap)|, old(closures[h]).setters, old(closures[h]).fields, closures, |old(effects)|)
      decreases fuel, 5
    {
      var a := closures[h];
      heap := heap + [a.template];
      var addr := |heap| - 1;
      ConfigsOkGrow(a.setters, |closures|, |closures|);
      var done;
      done, marks := HandleInjections(addr, a.setters, a.fields, fuel);
      if done.Err? {
        return Err(done.error), marks;
      }
      return Ok(ObjRef(addr)), marks;
    }

    /** A woven accessor (Beans.js:516-531): gets the bean and the aspect
        through their accessors, then builds a new proxy over the bean. */
    method CallWoven(h: nat, fuel: nat) returns (r: Result<Val>, ghost beanAddr: nat, ghost aspectAddr: nat)
      requires Valid() && h < |closures| && closures[h].Woven?
      modifies this
      ensures Valid() && Progress()
      ensures r.Err? ==> EngineError(r.error)
      ensures r.Ok? ==> r.value.ObjRef? && var p := r.value.addr;
        && |old(heap)| <= p == |heap| - 1
        && beanAddr < p && aspectAddr < p
        && heap[p] == ProxyOf(heap[beanAddr], beanAddr, p, aspectAddr, old(closures[h]).kind,
                              old(closures[h]).cut, old(closures[h]).surface, matches)
      decreases fuel, 5
    {
      var a := closures[h];
      beanAddr, aspectAddr := 0, 0;
      ghost var m;
      var bean, aop;
      bean, m := Call(a.inner, fuel);
      if bean.Err? {
        return Err(bean.error), beanAddr, aspectAddr;
      }
      aop, m := Call(a.aspect, fuel);
      if aop.Err? {
        return Err(aop.error), beanAddr, aspectAddr;
      }
      var b, asp := bean.value.addr, aop.value.addr;
      beanAddr, aspectAddr := b, asp;
      var p := |heap|;
      var proxy := BuildProxy(heap[b], b, p, asp, a.kind, a.cut, a.surface, matches);
      heap := heap + [proxy];
      return Ok(ObjRef(p)), beanAddr, aspectAddr;
    }

    /** `handleInjections` (Beans.js:363-370): every setter in order, then
        every field in order, each with a freshly computed value. `marks`
        locates the injections into `addr` among the logged effects (value
        functions may run other injections in between). */
    method HandleInjections(addr: nat, setters: seq<Config>, fields: seq<Config>, fuel: nat)
      returns (r: Result<()>, ghost marks: seq<nat>)
      requires Valid() && addr < |heap| && ConfigsOk(setters, |closures|) && ConfigsOk(fields, |closures|)
      modifies this
      ensures Valid() && Progress()
      ensures r.Err? ==> EngineError(r.error)
      ensures r.Ok? ==> Wired(effects, marks, addr, setters, fields, closures, |old(effects)|)
      decreases fuel, 4
    {
      var done;
      ghost var m1, m2;
      done, m1 := Inject(addr, setters, true, fuel);
      if done.Err? {
        return done, m1;
      }
      ghost var e1, c1 := effects, closures;
      done, m2 := Inject(addr, fields, false, fuel);
      if done.Err? {
        return done, m1;
      }
      marks := m1 + m2;
      LoggedGrows(e1, effects, c1, closures, m1, addr, setters, true);
      assert marks[..|setters|] == m1 && marks[|setters|..] == m2;
      return Ok(()), marks;
    }

    /** One loop of `handleInjections`: calls the setters (`setter`) or assigns
        the fields (`!setter`) of `configs` on the object at `addr`, in order. */
    method Inject(addr: nat, configs: seq<Config>, setter: bool, fuel: nat) returns (r: Result<()>, ghost marks: seq<nat>)
      requires Valid() && addr < |heap| && ConfigsOk(configs, |closures|)
      modifies this
      ensures Valid() && Progress()
      ensures r.Err? ==> EngineError(r.error)
      ensures r.Ok? ==> |marks| == |configs| && Increasing(marks, |old(effects)|, |effects|)
                        && Logged(effects, marks, addr, configs, setter, closures)
      decreases fuel, 3
    {
      marks := [];
      var i := 0;
      while i < |configs|
        invariant 0 <= i <= |configs|
        invariant Valid() && Progress() && addr < |heap|
        invariant |marks| == i
        invariant Increasing(marks, |old(effects)|, |effects|)
        invariant Logged(effects, marks, addr, configs[..i], setter, closures)
      {
        ghost var before, c0 := effects, closures;
        ghost var value;
        var done;
        done, value := InjectOne(addr, configs[i], setter, fuel);
        if done.Err? {
          return Err(done.error), marks;
        }
        LoggedGrows(before, effects, c0, closures, marks, addr, configs[..i], setter);
        marks := marks + [|effects| - 1];
        LoggedStep(effects, marks, addr, configs, i, setter, closures);
        i := i + 1;
      }
      assert configs[..|configs|] == configs;
      return Ok(()), marks;
    }

    /** One injection of `handleInjections` (Beans.js:365, 368). For a
        setter, the member under the setter name is read first, then the
        value is computed, then the member is called with it: a TypeError
        when what was read is not a function, as JavaScript evaluates a
        callee before its arguments. For a field, the value is computed and
        assigned. Each injection is logged; `value` is the value computed. */
    method InjectOne(addr: nat, c: Config, setter: bool, fuel: nat) returns (r: Result<()>, ghost value: Result<Val>)
      requires Valid() && addr < |heap| && FuncOk(c.valueFunc, |closures|)
      modifies this
      ensures Valid() && Progress() && addr < |heap|
      ensures r.Err? ==> EngineError(r.error)
      ensures value.Err? ==> r == Err(value.error)
      ensures value.Ok? && setter && !IsFunction(Get(old(heap)[addr], c.name)) ==>
                r == Err(TypeError("instance[config.name] is not a function"))
      ensures value.Ok? && (!setter || IsFunction(Get(old(heap)[addr], c.name))) ==> r.Ok?
      ensures r.Ok? ==> && value.Ok? && |old(effects)| < |effects|
                        && effects[|effects| - 1].value == value.value
                        && Records(effects[|effects| - 1], addr, c, setter, closures)
                        && (!setter ==> Get(heap[addr], c.name) == value.value)
      decreases fuel, 2
    {
      var callee := Get(heap[addr], c.name);
      var v := EvalValueFunc(c.valueFunc, fuel);
      value := v;
      if v.Err? {
        return Err(v.error), value;
      }
      if setter {
        if !IsFunction(callee) {
          return Err(TypeError("instance[config.name] is not a function")), value;
        }
        effects := effects + [SetterCall(addr, c.name, v.value)];
      } else {
        heap := heap[addr := Assign(heap[addr], c.name, v.value)];
        effects := effects + [FieldWrite(addr, c.name, v.value)];
      }
      return Ok(()), value;
    }

    /** `config.valueFunc()` (Beans.js:394-414): a constant gives its value, an
        accessor its object, a list the values of its items in order. */
    method EvalValueFunc(vf: ValueFunc, fuel: nat) returns (r: Result<Val>)
      requires Valid() && FuncOk(vf, |closures|)
      modifies this
      ensures Valid() && Progress()
      ensures r.Err? ==> EngineError(r.error)
      ensures vf.Const? ==> r == Ok(vf.v) && unchanged(this)
      ensures vf.Missing? ==> r.Err? && r.error.TypeError? && unchanged(this)
      ensures vf.Call? && r.Ok? ==> r.value.ObjRef? && r.value.addr < |heap|
      ensures r.Ok? ==> Yields(vf, r.value, closures)
      decreases fuel, 1, vf
    {
      match vf {
        case Const(v) => return Ok(v);
        case Missing => return Err(TypeError("valueFunc is not a function"));
        case Call(h) =>
          ghost var marks;
          r, marks := Call(h, fuel);
          if r.Ok? && closures[h].Memoised? {
            assert Later(old(closures)[h], closures[h]);
          }
        case ListOf(items) =>
          var list: seq<Val> := [];
          var i := 0;
          while i < |items|
            invariant 0 <= i <= |items| && |list| == i
            invariant Valid() && Progress()
            invariant forall x :: 0 <= x < i ==> Yields(items[x], list[x], closures)
          {
            ghost var c0 := closures;
            var v := EvalValueFunc(items[i], fuel);
            if v.Err? {
              return Err(v.error);
            }
            forall x | 0 <= x < i
              ensures Yields(items[x], list[x], closures)
            {
              YieldsLater(items[x], list[x], c0, closures);
            }
            list := list + [v.value];
            i := i + 1;
          }
          return Ok(Arr(list));
      }
    }
  }
}
