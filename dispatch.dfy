/** Calling a method of a bean: directly, or through the intercepting
    function a woven proxy installs (Beans.js:516-600), which builds a
    `JoinPoint` (Beans.js:620-633) and runs the aspect's advice around the
    target method. Dispatch reads the heap and never writes it: user methods
    are pure functions of their arguments, and advice only changes its join
    point. */
module Dispatch {
  import opened Results
  import opened Js

  /** The part of a join point advice reads and writes: the arguments and the
      result. */
  datatype Frame = Frame(args: seq<Val>, result: Val)

  /** One step of an advice body: a change of the frame, or a call of
      `joinPoint.invoke()`. */
  datatype AdviceStep = Update(f: Frame -> Frame) | Invoke

  /** The user code the container calls into: what each user method returns
      for given arguments, and the body of each advice method. */
  datatype Code = Code(behaviour: (string, seq<Val>) -> Val, advice: string -> seq<AdviceStep>)

  /** The object at an address (an empty object for an address outside the
      heap). */
  function Lookup(heap: seq<Obj>, addr: nat): (o: Obj)
    ensures addr < |heap| ==> o == heap[addr]
  {
    if addr < |heap| then heap[addr] else EmptyObject
  }

  function AdviceName(kind: AdviceKind): (name: string)
    ensures name in {"before", "after", "around"}
  {
    match kind
    case Before => "before"
    case After => "after"
    case Around => "around"
  }

  /** `obj[name](...args)`: a user method gives its behaviour, an intercepting
      function runs its advice (one more frame on the stack), anything else is
      a TypeError. */
  function Apply(heap: seq<Obj>, code: Code, addr: nat, name: string, args: seq<Val>, fuel: nat): (r: Result<Val>)
    ensures Get(Lookup(heap, addr), name).Fn? && Get(Lookup(heap, addr), name).f.UserFn?
            ==> r == Ok(code.behaviour(Get(Lookup(heap, addr), name).f.id, args))
    ensures !Get(Lookup(heap, addr), name).Fn? ==> r.Err? && r.error.TypeError?
    decreases fuel, 0, 0
  {
    match Get(Lookup(heap, addr), name)
    case Fn(UserFn(id)) => Ok(code.behaviour(id, args))
    case Fn(Interceptor(kind, k, target, proxy, aspect)) =>
      if fuel == 0 then Err(StackOverflow)
      else Intercept(heap, code, kind, k, target, aspect, args, fuel - 1)
    case _ => Err(TypeError("is not a function"))
  }

  /** `joinPoint.invoke()`: the target method on the current arguments; the
      result is recorded and the arguments are kept. */
  function InvokeTarget(heap: seq<Obj>, code: Code, target: nat, name: string, frame: Frame, fuel: nat): (r: Result<Frame>)
    ensures r.Ok? ==> r.value.args == frame.args
    ensures r.Ok? <==> Apply(heap, code, target, name, frame.args, fuel).Ok?
    ensures r.Ok? ==> r.value.result == Apply(heap, code, target, name, frame.args, fuel).value
    decreases fuel, 1, 0
  {
    var v :- Apply(heap, code, target, name, frame.args, fuel);
    Ok(Frame(frame.args, v))
  }

  /** An advice body run on a frame, step by step. */
  function RunSteps(heap: seq<Obj>, code: Code, target: nat, name: string, steps: seq<AdviceStep>, frame: Frame, fuel: nat): Result<Frame>
    decreases fuel, 1, |steps|
  {
    if |steps| == 0 then Ok(frame)
    else
      var next :- match steps[0]
        case Update(f) => Ok(f(frame))
        case Invoke => InvokeTarget(heap, code, target, name, frame, fuel);
      RunSteps(heap, code, target, name, steps[1..], next, fuel)
  }

  /** The intercepting function of a proxy (Beans.js:516-531, 545-560,
      574-587): a join point with the call's arguments and no result, the
      advice of the aspect before, after or instead of `invoke`, and the
      join point's result returned. */
  function Intercept(heap: seq<Obj>, code: Code, kind: AdviceKind, name: string, target: nat, aspect: nat,
                     args: seq<Val>, fuel: nat): Result<Val>
    decreases fuel, 2, 0
  {
    var advice := Get(Lookup(heap, aspect), AdviceName(kind));
    if !(advice.Fn? && advice.f.UserFn?) then Err(TypeError("advice is not a user method"))
    else
      var steps := code.advice(advice.f.id);
      var start := Frame(args, Undefined);
      match kind
      case Before =>
        var f :- RunSteps(heap, code, target, name, steps, start, fuel);
        var g :- InvokeTarget(heap, code, target, name, f, fuel);
        Ok(g.result)
      case After =>
        var f :- InvokeTarget(heap, code, target, name, start, fuel);
        var g :- RunSteps(heap, code, target, name, steps, f, fuel);
        Ok(g.result)
      case Around =>
        var f :- RunSteps(heap, code, target, name, steps, start, fuel);
        Ok(f.result)
  }

  /** A join point (Beans.js:620-633): the call's arguments, the method name,
      the target object, the proxy, and the result once there is one. */
  class JoinPoint {
    var args: seq<Val>
    var methodName: string
    var target: nat
    var proxy: nat
    var result: Val

    constructor(args: seq<Val>, methodName: string, target: nat, proxy: nat)
      ensures this.args == args && this.methodName == methodName
      ensures this.target == target && this.proxy == proxy
      ensures this.result == Undefined
    {
      this.args := args;
      this.methodName := methodName;
      this.target := target;
      this.proxy := proxy;
      this.result := Undefined;
    }

    function State(): Frame
      reads this
    {
      Frame(args, result)
    }

    /** `invoke()`: applies the target method to the current arguments and
        records its result; a failing call leaves the join point as it was. */
    method Invoke(heap: seq<Obj>, code: Code, fuel: nat) returns (r: Result<Val>)
      modifies this
      ensures r == Apply(heap, code, target, methodName, args, fuel)
      ensures args == old(args) && methodName == old(methodName) && target == old(target) && proxy == old(proxy)
      ensures r.Ok? ==> result == r.value
      ensures r.Err? ==> result == old(result)
    {
      r := Apply(heap, code, target, methodName, args, fuel);
      if r.Ok? {
        result := r.value;
      }
    }
  }

  /** Runs an advice body on a join point. */
  method RunAdvice(jp: JoinPoint, heap: seq<Obj>, code: Code, steps: seq<AdviceStep>, fuel: nat) returns (r: Result<()>)
    modifies jp
    ensures jp.methodName == old(jp.methodName) && jp.target == old(jp.target) && jp.proxy == old(jp.proxy)
    ensures r.Ok? ==> RunSteps(heap, code, jp.target, jp.methodName, steps, old(jp.State()), fuel) == Ok(jp.State())
    ensures r.Err? ==> RunSteps(heap, code, jp.target, jp.methodName, steps, old(jp.State()), fuel) == Err(r.error)
  {
    var i := 0;
    while i < |steps|
      invariant 0 <= i <= |steps|
      invariant jp.methodName == old(jp.methodName) && jp.target == old(jp.target) && jp.proxy == old(jp.proxy)
      invariant RunSteps(heap, code, jp.target, jp.methodName, steps, old(jp.State()), fuel)
             == RunSteps(heap, code, jp.target, jp.methodName, steps[i..], jp.State(), fuel)
    {
      assert steps[i..][1..] == steps[i + 1..];
      match steps[i] {
        case Update(f) =>
          var next := f(jp.State());
          jp.args, jp.result := next.args, next.result;
        case Invoke =>
          var v := jp.Invoke(heap, code, fuel);
          if v.Err? {
            return Err(v.error);
          }
      }
      i := i + 1;
    }
    return Ok(());
  }

  /** The intercepting function installed for a matching method name: copies
      the arguments into a new join point and runs the advice. */
  method Intercepted(heap: seq<Obj>, code: Code, kind: AdviceKind, name: string, target: nat, proxy: nat,
                     aspect: nat, args: seq<Val>, fuel: nat) returns (r: Result<Val>)
    ensures r == Intercept(heap, code, kind, name, target, aspect, args, fuel)
  {
    var copied: seq<Val> := [];
    var i := 0;
    while i < |args|
      invariant 0 <= i <= |args| && copied == args[..i]
    {
      copied := copied + [args[i]];
      i := i + 1;
    }
    assert copied == args;
    var joinPoint := new JoinPoint(copied, name, target, proxy);
    var advice := Get(Lookup(heap, aspect), AdviceName(kind));
    if !(advice.Fn? && advice.f.UserFn?) {
      return Err(TypeError("advice is not a user method"));
    }
    var steps := code.advice(advice.f.id);
    var done: Result<()>;
    var invoked: Result<Val>;
    match kind {
      case Before =>
        done := RunAdvice(joinPoint, heap, code, steps, fuel);
        if done.Err? {
          return Err(done.error);
        }
        invoked := joinPoint.Invoke(heap, code, fuel);
        if invoked.Err? {
          return Err(invoked.error);
        }
      case After =>
        invoked := joinPoint.Invoke(heap, code, fuel);
        if invoked.Err? {
          return Err(invoked.error);
        }
        done := RunAdvice(joinPoint, heap, code, steps, fuel);
        if done.Err? {
          return Err(done.error);
        }
      case Around =>
        done := RunAdvice(joinPoint, heap, code, steps, fuel);
        if done.Err? {
          return Err(done.error);
        }
    }
    return Ok(joinPoint.result);
  }

  // ---------------------------------------------------------------------
  // Properties of dispatch

  /** With an empty advice body, `before` and `after` return exactly what the
      target method returns, while `around` never reaches the target and
      returns undefined. */
  lemma EmptyAdvice(heap: seq<Obj>, code: Code, name: string, target: nat, aspect: nat, args: seq<Val>, fuel: nat)
    requires var advice := Get(Lookup(heap, aspect), "before");
      advice.Fn? && advice.f.UserFn? && code.advice(advice.f.id) == []
    requires var advice := Get(Lookup(heap, aspect), "after");
      advice.Fn? && advice.f.UserFn? && code.advice(advice.f.id) == []
    requires var advice := Get(Lookup(heap, aspect), "around");
      advice.Fn? && advice.f.UserFn? && code.advice(advice.f.id) == []
    ensures Intercept(heap, code, Before, name, target, aspect, args, fuel) == Apply(heap, code, target, name, args, fuel)
    ensures Intercept(heap, code, After, name, target, aspect, args, fuel) == Apply(heap, code, target, name, args, fuel)
    ensures Intercept(heap, code, Around, name, target, aspect, args, fuel) == Ok(Undefined)
  {
  }

  /** An advice body without `invoke` never calls the target: it cannot fail
      and its effect is the composition of its updates. */
  lemma {:induction false} NoInvokeNoCall(heap: seq<Obj>, code: Code, target: nat, name: string,
                                          steps: seq<AdviceStep>, frame: Frame, fuel: nat)
    requires forall i :: 0 <= i < |steps| ==> steps[i].Update?
    ensures RunSteps(heap, code, target, name, steps, frame, fuel) == Ok(Compose(steps, frame))
    decreases |steps|
  {
    if |steps| > 0 {
      NoInvokeNoCall(heap, code, target, name, steps[1..], steps[0].f(frame), fuel);
    }
  }

  /** The frame after a sequence of updates. */
  function Compose(steps: seq<AdviceStep>, frame: Frame): Frame
    requires forall i :: 0 <= i < |steps| ==> steps[i].Update?
  {
    if |steps| == 0 then frame else Compose(steps[1..], steps[0].f(frame))
  }

  /** Running two advice bodies one after the other is running their
      concatenation. */
  lemma {:induction false} RunStepsAppend(heap: seq<Obj>, code: Code, target: nat, name: string,
                                          s: seq<AdviceStep>, t: seq<AdviceStep>, frame: Frame, fuel: nat)
    ensures RunSteps(heap, code, target, name, s + t, frame, fuel)
         == (var f :- RunSteps(heap, code, target, name, s, frame, fuel);
             RunSteps(heap, code, target, name, t, f, fuel))
    decreases |s|
  {
    if |s| > 0 {
      assert (s + t)[1..] == s[1..] + t;
      assert (s + t)[0] == s[0];
      var next := match s[0]
        case Update(f) => Ok(f(frame))
        case Invoke => InvokeTarget(heap, code, target, name, frame, fuel);
      if next.Ok? {
        RunStepsAppend(heap, code, target, name, s[1..], t, next.value, fuel);
      }
    } else {
      assert s + t == t;
    }
  }

  /** `before` advice is `around` advice that ends with `invoke`; `after`
      advice is `around` advice that starts with it. */
  lemma BeforeAfterAsAround(heap: seq<Obj>, code: Code, name: string, target: nat, aspect: nat,
                            args: seq<Val>, fuel: nat, steps: seq<AdviceStep>)
    ensures RunSteps(heap, code, target, name, steps + [Invoke], Frame(args, Undefined), fuel)
         == (var f :- RunSteps(heap, code, target, name, steps, Frame(args, Undefined), fuel);
             InvokeTarget(heap, code, target, name, f, fuel))
    ensures RunSteps(heap, code, target, name, [Invoke] + steps, Frame(args, Undefined), fuel)
         == (var f :- InvokeTarget(heap, code, target, name, Frame(args, Undefined), fuel);
             RunSteps(heap, code, target, name, steps, f, fuel))
  {
    RunStepsAppend(heap, code, target, name, steps, [Invoke], Frame(args, Undefined), fuel);
    var f := RunSteps(heap, code, target, name, steps, Frame(args, Undefined), fuel);
    if f.Ok? {
      var g := InvokeTarget(heap, code, target, name, f.value, fuel);
      assert RunSteps(heap, code, target, name, [Invoke], f.value, fuel) == g by {
        if g.Ok? {
          assert RunSteps(heap, code, target, name, [Invoke][1..], g.value, fuel) == Ok(g.value);
        }
      }
    }
    var h := InvokeTarget(heap, code, target, name, Frame(args, Undefined), fuel);
    assert ([Invoke] + steps)[1..] == steps;
  }
}
