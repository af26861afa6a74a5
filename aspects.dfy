/** The `aop` elements (Beans.js:416-489): each names an aspect bean and an
    advice kind, and lists the beans it wraps, each with a cut (a pattern on
    method names) and the methods the proxy must cover even when the sample
    bean lacks them. Parsing calls the aspect's and the wrapped beans'
    accessors to check that the named methods exist. */
module Aspects {
  import opened Results
  import opened Js
  import Names
  import opened Declarations
  import opened Dispatch
  import opened Container

  datatype AopRef = AopRef(cut: string, ref: string, methods: seq<string>)

  datatype Aop = Aop(aopBean: string, advice: AdviceKind, refs: seq<AopRef>)

  /** The advice kind an `advice` attribute names. */
  function AdviceOf(s: string): (r: Option<AdviceKind>)
    ensures r.Some? <==> s == "around" || s == "before" || s == "after"
    ensures r.Some? ==> AdviceName(r.value) == s
  {
    if s == "around" then Some(Around)
    else if s == "before" then Some(Before)
    else if s == "after" then Some(After)
    else None
  }

  lemma AdviceRoundTrip(kind: AdviceKind)
    ensures AdviceOf(AdviceName(kind)) == Some(kind)
  {
  }

  /** The checks of `parseAop` made before any accessor is called
      (Beans.js:433-447), in their order: the attributes, the `bean` and
      `advice` attributes, the advice kind, the aspect bean in the factory. */
  function AopHeader(node: Node, factory: map<string, nat>): (r: Result<(string, AdviceKind)>)
    ensures r.Ok? <==>
      && node.Elem? && node.attrs.Some?
      && HasAttr(node.attrs.value, "bean") && HasAttr(node.attrs.value, "advice")
      && AdviceOf(node.attrs.value["advice"]).Some?
      && node.attrs.value["bean"] in factory
    ensures r.Ok? ==> r.value.0 == node.attrs.value["bean"] && AdviceName(r.value.1) == node.attrs.value["advice"]
    ensures !(node.Elem? && node.attrs.Some?) ==> r == Err(AopMissingAttributes)
    ensures node.Elem? && node.attrs.Some? && !HasAttr(node.attrs.value, "bean") ==> r == Err(AopMissingBean)
  {
    if !(node.Elem? && node.attrs.Some?) then Err(AopMissingAttributes)
    else
      var attrs := node.attrs.value;
      if !HasAttr(attrs, "bean") then Err(AopMissingBean)
      else if !HasAttr(attrs, "advice") then Err(AopMissingAdvice)
      else if AdviceOf(attrs["advice"]).None? then Err(AopUnknownAdvice(attrs["advice"]))
      else if attrs["bean"] !in factory then Err(AopBeanNotFound(attrs["bean"]))
      else Ok((attrs["bean"], AdviceOf(attrs["advice"]).value))
  }

  /** What `parseAopRef` reads from a `ref` element before calling the bean
      (Beans.js:463-480): a plain name wraps every method of the bean; an
      element gives the cut (every name by default), the bean in its text and
      the `|`-separated methods. The bean must be in the factory. An element
      without attributes fails on reading them. */
  function RefHeader(node: Node, factory: map<string, nat>): (r: Result<AopRef>)
    ensures r.Ok? ==> r.value.ref in factory
    ensures r.Err? ==> r.error.AopRefNotFound? || r.error.TypeError?
    ensures node.Text? ==> r == (if node.s in factory then Ok(AopRef(".*", node.s, [])) else Err(AopRefNotFound(node.s)))
    ensures node.Elem? && node.attrs.None? ==> r.Err? && r.error.TypeError?
    ensures node.Elem? && node.attrs.Some? ==>
      var key := if node.text.Some? then node.text.value else "undefined";
      && (r.Ok? <==> key in factory)
      && (r.Ok? ==> r.value == AopRef(AttrOr(node.attrs.value, "cut", ".*"), key,
                                      Names.MethodNames(AttrOr(node.attrs.value, "methods", ""))))
  {
    match node
    case Text(s) =>
      if s in factory then Ok(AopRef(".*", s, [])) else Err(AopRefNotFound(s))
    case Elem(attrs, text, _) =>
      if attrs.None? then Err(TypeError("cannot read property 'cut' of undefined"))
      else
        var key := PropertyKey(if text.Some? then Str(text.value) else Undefined);
        if key !in factory then Err(AopRefNotFound(key))
        else Ok(AopRef(AttrOr(attrs.value, "cut", ".*"), key, Names.MethodNames(AttrOr(attrs.value, "methods", ""))))
  }

  /** `aop` was read from `node`: its header, and one reference per `ref`
      child, in order. */
  predicate Parsed(node: Node, aop: Aop, factory: map<string, nat>)
  {
    && AopHeader(node, factory) == Ok((aop.aopBean, aop.advice))
    && |aop.refs| == |Children(node, "ref")|
    && forall i :: 0 <= i < |aop.refs| ==> RefHeader(Children(node, "ref")[i], factory) == Ok(aop.refs[i])
  }

  /** Every bean an aspect names is in the factory, so weaving finds them. */
  lemma ParsedNamesKnown(node: Node, aop: Aop, factory: map<string, nat>)
    requires Parsed(node, aop, factory)
    ensures aop.aopBean in factory
    ensures forall i :: 0 <= i < |aop.refs| ==> aop.refs[i].ref in factory
  {
    forall i | 0 <= i < |aop.refs|
      ensures aop.refs[i].ref in factory
    {
      assert RefHeader(Children(node, "ref")[i], factory) == Ok(aop.refs[i]);
    }
  }

  /** `parseAopRef` (Beans.js:463-489). For an element, the bean is got
      through its accessor and every listed method must be a function of it;
      `sample` is the object checked. */
  method ParseAopRef(rt: Runtime, node: Node, fuel: nat) returns (r: Result<AopRef>, ghost sample: Obj)
    requires rt.Valid()
    modifies rt
    ensures rt.Valid() && rt.Progress()
    ensures node.Text? || RefHeader(node, old(rt.factory)).Err? ==> r == RefHeader(node, old(rt.factory)) && unchanged(rt)
    ensures r.Ok? ==> RefHeader(node, rt.factory) == r
    ensures r.Err? ==> r.error.AopRefNotFound? || r.error.AopMethodNotFound? || EngineError(r.error)
    ensures r.Err? && RefHeader(node, old(rt.factory)).Ok? ==> r.error.AopMethodNotFound? || EngineError(r.error)
    ensures r.Ok? ==> forall m :: m in r.value.methods ==> IsFunction(Get(sample, m))
    ensures r.Err? && r.error.AopMethodNotFound? ==>
      && RefHeader(node, rt.factory).Ok?
      && r.error.name in RefHeader(node, rt.factory).value.methods
      && !IsFunction(Get(sample, r.error.name))
  {
    sample := EmptyObject;
    var ref :- RefHeader(node, rt.factory);
    if node.Text? {
      return Ok(ref), sample;
    }
    ghost var marks;
    var bean;
    bean, marks := rt.Call(rt.factory[ref.ref], fuel);
    if bean.Err? {
      return Err(bean.error), sample;
    }
    var obj := rt.heap[bean.value.addr];
    sample := obj;
    var missing := FirstNonFunction(obj, ref.methods);
    if missing.Some? {
      return Err(AopMethodNotFound(missing.value, ref.ref)), sample;
    }
    return Ok(ref), sample;
  }

  /** The loop of `parseAopRef` over the listed methods (Beans.js:480-486):
      the first one that is not a function of `obj`, if any. */
  method FirstNonFunction(obj: Obj, methods: seq<string>) returns (r: Option<string>)
    ensures r.None? <==> forall m :: m in methods ==> IsFunction(Get(obj, m))
    ensures r.Some? ==> r.value in methods && !IsFunction(Get(obj, r.value))
    ensures r.Some? ==> exists i :: 0 <= i < |methods| && methods[i] == r.value
                                   && forall x :: 0 <= x < i ==> IsFunction(Get(obj, methods[x]))
  {
    var i := 0;
    while i < |methods|
      invariant 0 <= i <= |methods|
      invariant forall x :: 0 <= x < i ==> IsFunction(Get(obj, methods[x]))
    {
      if !IsFunction(Get(obj, methods[i])) {
        return Some(methods[i]);
      }
      i := i + 1;
    }
    return None;
  }

  /** `parseAop` (Beans.js:432-461): the header, then the aspect instance got
      through its accessor must hold a function under the advice name, then
      every `ref` child in order. `aspect` is the aspect object checked. */
  method ParseAop(rt: Runtime, node: Node, fuel: nat) returns (r: Result<Aop>, ghost aspect: Obj)
    requires rt.Valid()
    modifies rt
    ensures rt.Valid() && rt.Progress()
    ensures AopHeader(node, old(rt.factory)).Err? ==> r == Err(AopHeader(node, old(rt.factory)).error) && unchanged(rt)
    ensures r.Ok? ==> Parsed(node, r.value, rt.factory) && IsFunction(Get(aspect, AdviceName(r.value.advice)))
    ensures r.Err? && r.error.AopAdviceNotMethod? ==>
      AopHeader(node, rt.factory).Ok? && !IsFunction(Get(aspect, AdviceName(AopHeader(node, rt.factory).value.1)))
  {
    aspect := EmptyObject;
    var header :- AopHeader(node, rt.factory);
    var (bean, kind) := header;
    ghost var marks;
    var inst;
    inst, marks := rt.Call(rt.factory[bean], fuel);
    if inst.Err? {
      return Err(inst.error), aspect;
    }
    aspect := rt.heap[inst.value.addr];
    if !IsFunction(Get(rt.heap[inst.value.addr], AdviceName(kind))) {
      return Err(AopAdviceNotMethod(AdviceName(kind))), aspect;
    }
    ghost var failed;
    var refs;
    refs, failed := ParseRefs(rt, Children(node, "ref"), fuel);
    if refs.Err? {
      return Err(refs.error), aspect;
    }
    return Ok(Aop(bean, kind, refs.value)), aspect;
  }

  /** The loop of `parseAop` over the `ref` children (Beans.js:455-458):
      each is read in order, and the first failure is the result. */
  method ParseRefs(rt: Runtime, nodes: seq<Node>, fuel: nat) returns (r: Result<seq<AopRef>>, ghost failed: nat)
    requires rt.Valid()
    modifies rt
    ensures rt.Valid() && rt.Progress()
    ensures r.Ok? ==> |r.value| == |nodes| && forall x :: 0 <= x < |nodes| ==> RefHeader(nodes[x], rt.factory) == Ok(r.value[x])
    ensures r.Err? ==> r.error.AopRefNotFound? || r.error.AopMethodNotFound? || EngineError(r.error)
    ensures r.Err? ==>
      && failed < |nodes|
      && (forall x :: 0 <= x < failed ==> RefHeader(nodes[x], old(rt.factory)).Ok?)
      && (RefHeader(nodes[failed], old(rt.factory)).Err? ==> r == Err(RefHeader(nodes[failed], old(rt.factory)).error))
      && (RefHeader(nodes[failed], old(rt.factory)).Ok? ==>
            nodes[failed].Elem? && (r.error.AopMethodNotFound? || EngineError(r.error)))
  {
    failed := 0;
    ghost var f := rt.factory;
    var refs: seq<AopRef> := [];
    var i := 0;
    while i < |nodes|
      invariant 0 <= i <= |nodes| && |refs| == i
      invariant rt.Valid() && rt.Progress() && rt.factory == f
      invariant forall x :: 0 <= x < i ==> RefHeader(nodes[x], f) == Ok(refs[x])
    {
      ghost var s;
      var ref;
      ref, s := ParseAopRef(rt, nodes[i], fuel);
      if ref.Err? {
        return Err(ref.error), i;
      }
      refs := refs + [ref.value];
      i := i + 1;
    }
    return Ok(refs), failed;
  }

  /** `parseAops` (Beans.js:416-430): every `aop` child of the root, in
      document order; none when the root is not `beans`. */
  method ParseAops(rt: Runtime, doc: Document, fuel: nat) returns (r: Result<seq<Aop>>)
    requires rt.Valid()
    modifies rt
    ensures rt.Valid() && rt.Progress()
    ensures r.Ok? ==>
      && |r.value| == |Children(BeansElement(doc), "aop")|
      && forall i :: 0 <= i < |r.value| ==> Parsed(Children(BeansElement(doc), "aop")[i], r.value[i], rt.factory)
    ensures |Children(BeansElement(doc), "aop")| == 0 ==> r == Ok([]) && unchanged(rt)
  {
    var nodes := Children(BeansElement(doc), "aop");
    var aops: seq<Aop> := [];
    var i := 0;
    while i < |nodes|
      invariant 0 <= i <= |nodes| && |aops| == i
      invariant rt.Valid() && rt.Progress()
      invariant |nodes| == 0 ==> unchanged(rt)
      invariant forall x :: 0 <= x < i ==> Parsed(nodes[x], aops[x], rt.factory)
    {
      ghost var a;
      var aop;
      aop, a := ParseAop(rt, nodes[i], fuel);
      if aop.Err? {
        return Err(aop.error);
      }
      aops := aops + [aop.value];
      i := i + 1;
    }
    return Ok(aops);
  }

  // ---------------------------------------------------------------------
  // buildAops (Beans.js:491-600)

  /** One wrapping step of `buildAops`: an aspect, one of its references, and
      the position where the steps of that aspect begin. */
  datatype Step = Step(aopBean: string, advice: AdviceKind, ref: AopRef, start: nat)

  function Block(aop: Aop, start: nat): (r: seq<Step>)
    ensures |r| == |aop.refs|
    ensures forall j :: 0 <= j < |r| ==> r[j] == Step(aop.aopBean, aop.advice, aop.refs[j], start)
  {
    seq(|aop.refs|, j requires 0 <= j < |aop.refs| => Step(aop.aopBean, aop.advice, aop.refs[j], start))
  }

  /** The wrapping steps in the order `buildAops` takes them: aspect by
      aspect, reference by reference. */
  function Steps(aops: seq<Aop>): (r: seq<Step>)
    ensures forall j :: 0 <= j < |r| ==> r[j].start <= j
  {
    if |aops| == 0 then []
    else
      var prev := Steps(aops[..|aops| - 1]);
      prev + Block(aops[|aops| - 1], |prev|)
  }

  lemma {:induction false} StepsPrefix(aops: seq<Aop>, i: nat)
    requires i <= |aops|
    ensures Steps(aops[..i]) <= Steps(aops)
    decreases |aops| - i
  {
    if i < |aops| {
      StepsPrefix(aops, i + 1);
      assert aops[..i + 1][..i] == aops[..i];
    } else {
      assert aops[..i] == aops;
    }
  }

  lemma StepsNext(aops: seq<Aop>, i: nat)
    requires i < |aops|
    ensures Steps(aops[..i + 1]) == Steps(aops[..i]) + Block(aops[i], |Steps(aops[..i])|)
  {
    assert aops[..i + 1][..i] == aops[..i];
  }

  /** The steps of aspect `i` follow those of the aspects before it. */
  lemma StepsBlock(aops: seq<Aop>, i: nat)
    requires i < |aops|
    ensures |Steps(aops[..i])| + |aops[i].refs| == |Steps(aops[..i + 1])| <= |Steps(aops)|
    ensures forall j :: 0 <= j < |aops[i].refs| ==>
              Steps(aops)[|Steps(aops[..i])| + j] == Step(aops[i].aopBean, aops[i].advice, aops[i].refs[j], |Steps(aops[..i])|)
  {
    StepsPrefix(aops, i + 1);
    StepsNext(aops, i);
    forall j | 0 <= j < |aops[i].refs|
      ensures Steps(aops)[|Steps(aops[..i])| + j] == Step(aops[i].aopBean, aops[i].advice, aops[i].refs[j], |Steps(aops[..i])|)
    {
      StepAt(aops, i, j);
    }
  }

  lemma StepAt(aops: seq<Aop>, i: nat, j: nat)
    requires i < |aops| && j < |aops[i].refs|
    requires Steps(aops[..i + 1]) <= Steps(aops)
    requires Steps(aops[..i + 1]) == Steps(aops[..i]) + Block(aops[i], |Steps(aops[..i])|)
    ensures |Steps(aops[..i])| + j < |Steps(aops)|
    ensures Steps(aops)[|Steps(aops[..i])| + j] == Step(aops[i].aopBean, aops[i].advice, aops[i].refs[j], |Steps(aops[..i])|)
  {
    PrefixAt(Steps(aops[..i]), Block(aops[i], |Steps(aops[..i])|), Steps(aops), j);
  }

  lemma PrefixAt<T>(a: seq<T>, b: seq<T>, c: seq<T>, k: nat)
    requires a + b <= c && k < |b|
    ensures |a| + k < |c| && c[|a| + k] == b[k]
  {
    assert (a + b)[|a| + k] == b[k];
  }

  /** The step before `j` that last wrapped `id`, if any. */
  function LastIndex(steps: seq<Step>, id: string, j: nat): (r: Option<nat>)
    requires j <= |steps|
    ensures r.Some? ==> r.value < j && steps[r.value].ref.ref == id
    ensures r.None? ==> forall x :: 0 <= x < j ==> steps[x].ref.ref != id
  {
    if j == 0 then None
    else if steps[j - 1].ref.ref == id then Some(j - 1)
    else LastIndex(steps, id, j - 1)
  }

  /** The handle `id` has in the factory after the first `j` steps: the
      accessor of the last of them that wrapped `id`, or the one it had
      before weaving. */
  function HandleAt(f0: map<string, nat>, woven: seq<nat>, steps: seq<Step>, id: string, j: nat): nat
    requires j <= |steps| && j <= |woven| && id in f0
  {
    match LastIndex(steps, id, j)
    case Some(x) => woven[x]
    case None => f0[id]
  }

  /** Step `j` installed a woven accessor over the handle its bean had just
      before, with the aspect's handle as it was when the aspect's steps
      began, and the method surface of the sample bean. */
  predicate WovenStep(closures: seq<Accessor>, f0: map<string, nat>, woven: seq<nat>, samples: seq<Obj>,
                      steps: seq<Step>, j: nat)
    requires j < |woven| && j < |samples| && |woven| <= |steps|
  {
    && steps[j].ref.ref in f0 && steps[j].aopBean in f0 && steps[j].start <= j
    && woven[j] < |closures|
    && closures[woven[j]] == Woven(steps[j].advice, steps[j].ref.cut, Weaving.Surface(samples[j], steps[j].ref.methods),
                                   HandleAt(f0, woven, steps, steps[j].aopBean, steps[j].start),
                                   HandleAt(f0, woven, steps, steps[j].ref.ref, j))
  }

  /** The first `n` steps are done: step `j` appended the accessor
      `base + j`, and every id is bound to the accessor of the last step that
      wrapped it. */
  ghost predicate Weaved(closures: seq<Accessor>, factory: map<string, nat>, f0: map<string, nat>, base: nat,
                   woven: seq<nat>, samples: seq<Obj>, steps: seq<Step>)
  {
    && |woven| <= |steps| && |samples| == |woven| && |closures| == base + |woven|
    && (forall id :: id in factory <==> id in f0) && (forall id :: id in f0 ==> f0[id] < base)
    && (forall j :: 0 <= j < |woven| ==> woven[j] == base + j)
    && (forall j :: 0 <= j < |woven| ==> WovenStep(closures, f0, woven, samples, steps, j))
    && (forall id :: id in f0 ==> factory[id] == HandleAt(f0, woven, steps, id, |woven|))
  }

  /** A handle after `j` woven steps is an accessor that exists. */
  lemma HandleAtBound(closures: seq<Accessor>, factory: map<string, nat>, f0: map<string, nat>, base: nat,
                      woven: seq<nat>, samples: seq<Obj>, steps: seq<Step>, id: string, j: nat)
    requires Weaved(closures, factory, f0, base, woven, samples, steps) && id in f0 && j <= |woven|
    ensures HandleAt(f0, woven, steps, id, j) < |closures|
  {
  }

  /** The factory entry of a bound id is its handle after the steps so far. */
  lemma WeavedEntry(closures: seq<Accessor>, factory: map<string, nat>, f0: map<string, nat>, base: nat,
                    woven: seq<nat>, samples: seq<Obj>, steps: seq<Step>, id: string)
    requires Weaved(closures, factory, f0, base, woven, samples, steps) && id in factory
    ensures id in f0 && factory[id] == HandleAt(f0, woven, steps, id, |woven|)
  {
  }

  /** `c1` is `c0` after some calls, with accessors appended. */
  predicate Evolved(c0: seq<Accessor>, c1: seq<Accessor>)
  {
    |c0| <= |c1| && forall h :: 0 <= h < |c0| ==> Later(c0[h], c1[h])
  }

  lemma LaterRefl(c: seq<Accessor>)
    ensures Evolved(c, c)
  {
  }

  lemma HandleAtGrows(f0: map<string, nat>, woven: seq<nat>, h: nat, steps: seq<Step>, id: string, j: nat)
    requires j <= |steps| && j <= |woven| && id in f0
    ensures HandleAt(f0, woven + [h], steps, id, j) == HandleAt(f0, woven, steps, id, j)
  {
  }

  lemma LaterTrans(c0: seq<Accessor>, c1: seq<Accessor>, c2: seq<Accessor>)
    requires Evolved(c0, c1) && Evolved(c1, c2)
    ensures Evolved(c0, c2)
  {
  }

  /** Weaving one more step keeps the earlier steps' accessors (woven
      accessors never change) and rebinds only the wrapped id. */
  lemma WeavedStep(c: seq<Accessor>, c': seq<Accessor>, f: map<string, nat>, f0: map<string, nat>, base: nat,
                   woven: seq<nat>, samples: seq<Obj>, steps: seq<Step>, n: nat, sample: Obj)
    requires Weaved(c, f, f0, base, woven, samples, steps) && n == |woven|
    requires n < |steps| && steps[n].ref.ref in f0 && steps[n].aopBean in f0 && steps[n].start <= n
    requires |c'| == |c| + 1 && Evolved(c, c')
    requires c'[|c|] == Woven(steps[n].advice, steps[n].ref.cut, Weaving.Surface(sample, steps[n].ref.methods),
                              HandleAt(f0, woven, steps, steps[n].aopBean, steps[n].start), f[steps[n].ref.ref])
    ensures Weaved(c', f[steps[n].ref.ref := |c|], f0, base, woven + [|c|], samples + [sample], steps)
  {
    var woven' := woven + [|c|];
    var samples' := samples + [sample];
    var f' := f[steps[n].ref.ref := |c|];
    forall j | 0 <= j < n + 1
      ensures WovenStep(c', f0, woven', samples', steps, j)
    {
      if j < n {
        assert WovenStep(c, f0, woven, samples, steps, j);
        assert Later(c[woven[j]], c'[woven[j]]);
      }
      HandleAtGrows(f0, woven, |c|, steps, steps[j].aopBean, steps[j].start);
      HandleAtGrows(f0, woven, |c|, steps, steps[j].ref.ref, j);
    }
    forall id | id in f0
      ensures f'[id] == HandleAt(f0, woven', steps, id, n + 1)
    {
      HandleAtGrows(f0, woven, |c|, steps, id, n);
    }
  }

  /** Builds one woven accessor (Beans.js:502-531): the sample bean is got
      through the accessor `inner`, its method surface recorded, and an
      accessor over `inner` and `aspect` appended. */
  method BuildAop(rt: Runtime, kind: AdviceKind, cut: string, methods: seq<string>, aspect: nat, inner: nat, fuel: nat)
    returns (r: Result<nat>, ghost sample: Obj)
    requires rt.Valid() && aspect < |rt.closures| && inner < |rt.closures|
    modifies rt
    ensures rt.Valid()
    ensures rt.factory == old(rt.factory) && |old(rt.heap)| <= |rt.heap| && old(rt.effects) <= rt.effects
    ensures r.Err? ==> EngineError(r.error) && AllLater(old(rt.closures), rt.closures)
    ensures r.Ok? ==>
      && r.value == |old(rt.closures)| && |rt.closures| == r.value + 1
      && Evolved(old(rt.closures), rt.closures)
      && rt.closures[r.value] == Woven(kind, cut, Weaving.Surface(sample, methods), aspect, inner)
  {
    sample := EmptyObject;
    ghost var marks;
    var bean;
    bean, marks := rt.Call(inner, fuel);
    if bean.Err? {
      return Err(bean.error), sample;
    }
    sample := rt.heap[bean.value.addr];
    var surface := Weaving.MethodSurface(rt.heap[bean.value.addr], methods);
    var a := Woven(kind, cut, surface, aspect, inner);
    AppendAccessor(rt.closures, a, |rt.heap|, |rt.heap|);
    rt.closures := rt.closures + [a];
    return Ok(|rt.closures| - 1), sample;
  }

  /** What weaving changes: objects and accessors are added, memoised
      accessors may be injected by the sample calls, and ids are rebound but
      none added or removed. */
  twostate predicate Rewired(rt: Runtime)
    reads rt
  {
    && |old(rt.heap)| <= |rt.heap| && old(rt.effects) <= rt.effects
    && Evolved(old(rt.closures), rt.closures)
    && (forall id :: id in old(rt.factory) <==> id in rt.factory)
  }

  /** `buildAops` (Beans.js:491-500): for each aspect in order, its accessor
      is looked up once, then each wrapped bean's entry is replaced by a woven
      accessor over the entry it had. A bean wrapped twice is wrapped again
      over its first wrapping, so the aspect declared last is outermost.
      `woven` are the accessors installed, `samples` the sample beans. */
  method BuildAops(rt: Runtime, aops: seq<Aop>, fuel: nat) returns (r: Result<()>, ghost woven: seq<nat>, ghost samples: seq<Obj>)
    requires rt.Valid()
    modifies rt
    ensures rt.Valid() && Rewired(rt)
    ensures r.Ok? ==> |woven| == |Steps(aops)|
                      && Weaved(rt.closures, rt.factory, old(rt.factory), |old(rt.closures)|, woven, samples, Steps(aops))
  {
    ghost var steps := Steps(aops);
    ghost var f0 := rt.factory;
    ghost var base := |rt.closures|;
    woven, samples := [], [];
    LaterRefl(rt.closures);
    var i := 0;
    while i < |aops|
      invariant 0 <= i <= |aops| && |woven| == |Steps(aops[..i])|
      invariant rt.Valid() && Rewired(rt)
      invariant Weaved(rt.closures, rt.factory, f0, base, woven, samples, steps)
    {
      ghost var c0 := rt.closures;
      StepsBlock(aops, i);
      var done;
      done, woven, samples := WeaveNext(rt, aops[i], fuel, f0, base, steps, woven, samples);
      LaterTrans(old(rt.closures), c0, rt.closures);
      if done.Err? {
        return done, woven, samples;
      }
      i := i + 1;
    }
    assert aops[..|aops|] == aops;
    return Ok(()), woven, samples;
  }

  /** One turn of the outer loop of `buildAops` (Beans.js:492-499): the
      accessor of aspect `aop` is looked up, failing as reading a property of
      `undefined` does when it has none, and its references are woven. Its
      steps are `steps[start..start + |aop.refs|]`. */
  method WeaveNext(rt: Runtime, aop: Aop, fuel: nat, ghost f0: map<string, nat>, ghost base: nat,
                   ghost steps: seq<Step>, ghost woven0: seq<nat>, ghost samples0: seq<Obj>)
    returns (r: Result<()>, ghost woven: seq<nat>, ghost samples: seq<Obj>)
    requires rt.Valid() && Weaved(rt.closures, rt.factory, f0, base, woven0, samples0, steps)
    requires |woven0| + |aop.refs| <= |steps|
    requires forall j :: 0 <= j < |aop.refs| ==>
               steps[|woven0| + j] == Step(aop.aopBean, aop.advice, aop.refs[j], |woven0|)
    modifies rt
    ensures rt.Valid() && Rewired(rt)
    ensures r.Ok? ==> |woven| == |woven0| + |aop.refs| && Weaved(rt.closures, rt.factory, f0, base, woven, samples, steps)
  {
    ghost var start := |woven0|;
    woven, samples := woven0, samples0;
    if aop.aopBean !in rt.factory {
      LaterRefl(rt.closures);
      return Err(TypeError("cannot read property '" + aop.aopBean + "' of undefined")), woven, samples;
    }
    var aspect := rt.factory[aop.aopBean];
    WeavedEntry(rt.closures, rt.factory, f0, base, woven, samples, steps, aop.aopBean);
    r, woven, samples := WeaveAspect(rt, aop, aspect, fuel, f0, base, steps, start, woven, samples);
  }

  /** The inner loop of `buildAops` (Beans.js:494-498): each reference of
      `aop` in order is rebound to a woven accessor over its current entry,
      with the aspect accessor `aspect`. */
  method WeaveAspect(rt: Runtime, aop: Aop, aspect: nat, fuel: nat, ghost f0: map<string, nat>, ghost base: nat,
                     ghost steps: seq<Step>, ghost start: nat, ghost woven0: seq<nat>, ghost samples0: seq<Obj>)
    returns (r: Result<()>, ghost woven: seq<nat>, ghost samples: seq<Obj>)
    requires rt.Valid() && Weaved(rt.closures, rt.factory, f0, base, woven0, samples0, steps) && start == |woven0|
    requires start + |aop.refs| <= |steps|
    requires forall j :: 0 <= j < |aop.refs| ==> steps[start + j] == Step(aop.aopBean, aop.advice, aop.refs[j], start)
    requires aop.aopBean in f0 && aspect == HandleAt(f0, woven0, steps, aop.aopBean, start)
    modifies rt
    ensures rt.Valid() && Rewired(rt)
    ensures r.Ok? ==> |woven| == start + |aop.refs| && Weaved(rt.closures, rt.factory, f0, base, woven, samples, steps)
  {
    woven, samples := woven0, samples0;
    LaterRefl(rt.closures);
    var j := 0;
    while j < |aop.refs|
      invariant 0 <= j <= |aop.refs|
      invariant rt.Valid() && Rewired(rt)
      invariant |woven| == start + j && Weaved(rt.closures, rt.factory, f0, base, woven, samples, steps)
      invariant aspect == HandleAt(f0, woven, steps, aop.aopBean, start)
    {
      assert steps[start + j] == Step(aop.aopBean, aop.advice, aop.refs[j], start);
      ghost var c0 := rt.closures;
      var done;
      done, woven, samples := WeaveRef(rt, aop.advice, aop.refs[j], aspect, fuel, f0, base, steps, start + j, woven, samples);
      LaterTrans(old(rt.closures), c0, rt.closures);
      if done.Err? {
        return done, woven, samples;
      }
      j := j + 1;
    }
    return Ok(()), woven, samples;
  }

  /** One step of the inner loop of `buildAops` (Beans.js:495-497): the
      entry of `ref.ref` is replaced by a woven accessor over it. A reference
      to an id without an entry fails as reading a property of `undefined`
      does; a cut that is not a regular expression makes `new RegExp` throw
      a SyntaxError before the bean is sampled. */
  method WeaveRef(rt: Runtime, kind: AdviceKind, ref: AopRef, aspect: nat, fuel: nat, ghost f0: map<string, nat>,
                  ghost base: nat, ghost steps: seq<Step>, ghost n: nat, ghost woven0: seq<nat>, ghost samples0: seq<Obj>)
    returns (r: Result<()>, ghost woven: seq<nat>, ghost samples: seq<Obj>)
    requires rt.Valid() && Weaved(rt.closures, rt.factory, f0, base, woven0, samples0, steps) && n == |woven0|
    requires n < |steps| && steps[n].ref == ref && steps[n].advice == kind && steps[n].start <= n
    requires steps[n].aopBean in f0 && aspect == HandleAt(f0, woven0, steps, steps[n].aopBean, steps[n].start)
    modifies rt
    ensures rt.Valid() && Rewired(rt)
    ensures r.Ok? ==> && Weaved(rt.closures, rt.factory, f0, base, woven, samples, steps)
                      && |woven| == n + 1 && woven == woven0 + [woven[n]]
                      && HandleAt(f0, woven, steps, steps[n].aopBean, steps[n].start) == aspect
    ensures ref.ref !in old(rt.factory) ==>
      r == Err(TypeError("cannot read property '" + ref.ref + "' of undefined")) && unchanged(rt)
    ensures ref.ref in old(rt.factory) && !rt.validCut(ref.cut) ==> r == Err(SyntaxError(ref.cut)) && unchanged(rt)
  {
    woven, samples := woven0, samples0;
    if ref.ref !in rt.factory {
      LaterRefl(rt.closures);
      return Err(TypeError("cannot read property '" + ref.ref + "' of undefined")), woven, samples;
    }
    if !rt.validCut(ref.cut) {
      LaterRefl(rt.closures);
      return Err(SyntaxError(ref.cut)), woven, samples;
    }
    ghost var c0 := rt.closures;
    var inner := rt.factory[ref.ref];
    HandleAtBound(rt.closures, rt.factory, f0, base, woven, samples, steps, steps[n].aopBean, steps[n].start);
    var h;
    ghost var s;
    h, s := BuildAop(rt, kind, ref.cut, ref.methods, aspect, inner, fuel);
    if h.Err? {
      return Err(h.error), woven, samples;
    }
    WeavedStep(c0, rt.closures, rt.factory, f0, base, woven, samples, steps, n, s);
    rt.factory := rt.factory[ref.ref := h.value];
    HandleAtGrows(f0, woven, h.value, steps, steps[n].aopBean, steps[n].start);
    woven := woven + [h.value];
    samples := samples + [s];
    return Ok(()), woven, samples;
  }

  /** The aspect declared last is outermost: when steps `j < k` wrap the
      same bean and no step between them does, the accessor of step `k`
      wraps the accessor of step `j`. */
  lemma {:induction false} LastIndexFinds(steps: seq<Step>, id: string, j: nat, k: nat)
    requires j < k <= |steps| && steps[j].ref.ref == id
    requires forall x :: j < x < k ==> steps[x].ref.ref != id
    ensures LastIndex(steps, id, k) == Some(j)
    decreases k
  {
    if k - 1 != j {
      LastIndexFinds(steps, id, j, k - 1);
    }
  }

  lemma LaterAspectOutermost(closures: seq<Accessor>, factory: map<string, nat>, f0: map<string, nat>, base: nat,
                             woven: seq<nat>, samples: seq<Obj>, steps: seq<Step>, j: nat, k: nat)
    requires Weaved(closures, factory, f0, base, woven, samples, steps) && |woven| == |steps|
    requires j < k < |steps| && steps[j].ref.ref == steps[k].ref.ref
    requires forall x :: j < x < k ==> steps[x].ref.ref != steps[k].ref.ref
    ensures closures[woven[k]].Woven? && closures[woven[k]].inner == woven[j]
  {
    assert WovenStep(closures, f0, woven, samples, steps, k);
    LastIndexFinds(steps, steps[k].ref.ref, j, k);
  }

  /** After weaving, an id is bound to the accessor of the last step that
      wrapped it, and an id no aspect names keeps its accessor. */
  lemma FinalBinding(closures: seq<Accessor>, factory: map<string, nat>, f0: map<string, nat>, base: nat,
                     woven: seq<nat>, samples: seq<Obj>, steps: seq<Step>, id: string)
    requires Weaved(closures, factory, f0, base, woven, samples, steps) && |woven| == |steps| && id in f0
    ensures (forall x :: 0 <= x < |steps| ==> steps[x].ref.ref != id) ==> factory[id] == f0[id]
    ensures forall j :: 0 <= j < |steps| && steps[j].ref.ref == id && (forall x :: j < x < |steps| ==> steps[x].ref.ref != id)
              ==> factory[id] == woven[j] && closures[factory[id]].Woven?
  {
    forall j | 0 <= j < |steps| && steps[j].ref.ref == id && (forall x :: j < x < |steps| ==> steps[x].ref.ref != id)
      ensures factory[id] == woven[j] && closures[factory[id]].Woven?
    {
      LastIndexFinds(steps, id, j, |steps|);
      assert WovenStep(closures, f0, woven, samples, steps, j);
    }
  }
}
