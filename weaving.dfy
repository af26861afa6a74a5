/** The two loops of `buildAop` (Beans.js:503-514) and of a woven accessor
    (Beans.js:516-531): the method surface of a sample bean, and the proxy
    object built over the bean on every call. */
module Weaving {
  import opened Js
  import Names
  import opened Results
  import opened Dispatch

  predicate Distinct(s: seq<string>)
  {
    forall i, j :: 0 <= i < j < |s| ==> s[i] != s[j]
  }

  // ---------------------------------------------------------------------
  // The method surface (Beans.js:503-514)

  /** The keys among `keys` whose member in `sample` is a function, in order. */
  function FunctionKeys(sample: Obj, keys: seq<string>): (r: seq<string>)
    ensures forall k :: k in r <==> k in keys && IsFunction(Get(sample, k))
  {
    if |keys| == 0 then []
    else
      var last := keys[|keys| - 1];
      FunctionKeys(sample, keys[..|keys| - 1]) + (if IsFunction(Get(sample, last)) then [last] else [])
  }

  /** `recorded` followed by the names of `methods` not already recorded. */
  function AddMissing(recorded: seq<string>, methods: seq<string>): (r: seq<string>)
    ensures forall k :: k in r <==> k in recorded || k in methods
    ensures |recorded| <= |r| && r[..|recorded|] == recorded
  {
    if |methods| == 0 then recorded
    else
      var prev := AddMissing(recorded, methods[..|methods| - 1]);
      var m := methods[|methods| - 1];
      if m in prev then prev else prev + [m]
  }

  /** The names a proxy covers: the function-valued keys of the sample in
      enumeration order, then the declared methods it lacks. */
  function Surface(sample: Obj, methods: seq<string>): seq<string>
  {
    AddMissing(FunctionKeys(sample, sample.keys), methods)
  }

  method MethodSurface(sample: Obj, methods: seq<string>) returns (funcKeyRecorder: seq<string>)
    ensures funcKeyRecorder == Surface(sample, methods)
  {
    funcKeyRecorder := [];
    var i := 0;
    while i < |sample.keys|
      invariant 0 <= i <= |sample.keys|
      invariant funcKeyRecorder == FunctionKeys(sample, sample.keys[..i])
    {
      assert sample.keys[..i + 1][..i] == sample.keys[..i];
      var k := sample.keys[i];
      if IsFunction(Get(sample, k)) {
        funcKeyRecorder := funcKeyRecorder + [k];
      }
      i := i + 1;
    }
    assert sample.keys[..|sample.keys|] == sample.keys;
    ghost var recorded := funcKeyRecorder;
    var j := 0;
    while j < |methods|
      invariant 0 <= j <= |methods|
      invariant funcKeyRecorder == AddMissing(recorded, methods[..j])
    {
      assert methods[..j + 1][..j] == methods[..j];
      if !Names.Contains(funcKeyRecorder, methods[j]) {
        funcKeyRecorder := funcKeyRecorder + [methods[j]];
      }
      j := j + 1;
    }
    assert methods[..|methods|] == methods;
  }

  lemma {:induction false} FunctionKeysDistinct(sample: Obj, keys: seq<string>)
    requires Distinct(keys)
    ensures Distinct(FunctionKeys(sample, keys))
  {
    if |keys| > 0 {
      FunctionKeysDistinct(sample, keys[..|keys| - 1]);
      assert keys[|keys| - 1] !in keys[..|keys| - 1];
    }
  }

  lemma {:induction false} AddMissingDistinct(recorded: seq<string>, methods: seq<string>)
    requires Distinct(recorded)
    ensures Distinct(AddMissing(recorded, methods))
  {
    if |methods| > 0 {
      AddMissingDistinct(recorded, methods[..|methods| - 1]);
    }
  }

  /** The surface holds exactly the function-valued keys of the sample and the
      declared methods, the keys first and in enumeration order, and no name
      twice (the enumeration never repeats a key). */
  lemma SurfaceShape(sample: Obj, methods: seq<string>)
    requires Distinct(sample.keys)
    ensures forall k :: k in Surface(sample, methods)
              <==> (k in sample.keys && IsFunction(Get(sample, k))) || k in methods
    ensures Surface(sample, methods)[..|FunctionKeys(sample, sample.keys)|] == FunctionKeys(sample, sample.keys)
    ensures Distinct(Surface(sample, methods))
    ensures Surface(sample, []) == FunctionKeys(sample, sample.keys)
  {
    FunctionKeysDistinct(sample, sample.keys);
    AddMissingDistinct(FunctionKeys(sample, sample.keys), methods);
  }

  // ---------------------------------------------------------------------
  // The proxy (Beans.js:516-531, 545-560, 574-587)

  /** The member a proxy holds for `k`: a new intercepting function when `k`
      matches the cut, the bean's own member otherwise. */
  function ProxyMember(bean: Obj, beanAddr: nat, proxyAddr: nat, aspectAddr: nat, kind: AdviceKind,
                       k: string, wrapped: bool): Val
  {
    if wrapped then Fn(Interceptor(kind, k, beanAddr, proxyAddr, aspectAddr)) else Get(bean, k)
  }

  /** The proxy over `bean` covering `surface`: every name of the surface
      holds the wrapper when it matches the cut and the bean's member
      otherwise, and nothing else is on the proxy, so data members of the bean
      are not copied. */
  function ProxyOf(bean: Obj, beanAddr: nat, proxyAddr: nat, aspectAddr: nat, kind: AdviceKind,
                   cut: string, surface: seq<string>, matches: (string, string) -> bool): (p: Obj)
    ensures forall k :: k in surface ==> Get(p, k) == ProxyMember(bean, beanAddr, proxyAddr, aspectAddr, kind, k, matches(cut, k))
    ensures forall k :: k !in surface ==> Get(p, k) == Undefined
    ensures forall k :: HasOwn(p, k) <==> k in surface
    ensures forall k :: k in p.keys <==> k in surface
  {
    if |surface| == 0 then EmptyObject
    else
      var k := surface[|surface| - 1];
      Assign(ProxyOf(bean, beanAddr, proxyAddr, aspectAddr, kind, cut, surface[..|surface| - 1], matches),
             k, ProxyMember(bean, beanAddr, proxyAddr, aspectAddr, kind, k, matches(cut, k)))
  }

  method BuildProxy(bean: Obj, beanAddr: nat, proxyAddr: nat, aspectAddr: nat, kind: AdviceKind,
                    cut: string, surface: seq<string>, matches: (string, string) -> bool) returns (proxy: Obj)
    ensures proxy == ProxyOf(bean, beanAddr, proxyAddr, aspectAddr, kind, cut, surface, matches)
  {
    proxy := EmptyObject;
    var i := 0;
    while i < |surface|
      invariant 0 <= i <= |surface|
      invariant proxy == ProxyOf(bean, beanAddr, proxyAddr, aspectAddr, kind, cut, surface[..i], matches)
    {
      assert surface[..i + 1][..i] == surface[..i];
      var k := surface[i];
      if !matches(cut, k) {
        proxy := Assign(proxy, k, Get(bean, k));
      } else {
        proxy := Assign(proxy, k, Fn(Interceptor(kind, k, beanAddr, proxyAddr, aspectAddr)));
      }
      i := i + 1;
    }
    assert surface[..|surface|] == surface;
  }

  /** The proxy's keys are the surface in its own order: the proxy
      enumerates its names in the order the surface lists them. */
  lemma {:induction false} ProxyKeys(bean: Obj, beanAddr: nat, proxyAddr: nat, aspectAddr: nat, kind: AdviceKind,
                                     cut: string, surface: seq<string>, matches: (string, string) -> bool)
    requires Distinct(surface)
    ensures ProxyOf(bean, beanAddr, proxyAddr, aspectAddr, kind, cut, surface, matches).keys == surface
  {
    if |surface| > 0 {
      var init := surface[..|surface| - 1];
      ProxyKeys(bean, beanAddr, proxyAddr, aspectAddr, kind, cut, init, matches);
      assert surface[|surface| - 1] !in init;
      assert surface == init + [surface[|surface| - 1]];
    }
  }

  /** Calling through a proxy stored at `p` over the bean at `b`: a name that
      does not match the cut behaves as on the bean; a matching name runs the
      aspect's advice with the bean as target, one frame deeper; a name
      outside the surface is not a function of the proxy. */
  lemma ProxyDispatch(heap: seq<Obj>, code: Code, p: nat, b: nat, a: nat, kind: AdviceKind, cut: string,
                      surface: seq<string>, matches: (string, string) -> bool, k: string, args: seq<Val>, fuel: nat)
    requires b < |heap| && p < |heap|
    requires heap[p] == ProxyOf(heap[b], b, p, a, kind, cut, surface, matches)
    ensures k in surface && !matches(cut, k) ==> Apply(heap, code, p, k, args, fuel) == Apply(heap, code, b, k, args, fuel)
    ensures k in surface && matches(cut, k) ==> Apply(heap, code, p, k, args, fuel + 1) == Intercept(heap, code, kind, k, b, a, args, fuel)
    ensures k !in surface ==> Apply(heap, code, p, k, args, fuel).Err?
  {
  }
}
