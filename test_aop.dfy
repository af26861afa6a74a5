/** The aspect class of the AOP tests (test/TestAop.js): three advice
    methods that change the join point they are given, and the outcomes the
    AOP tests (test/test-aop.js) expect of them for a bean whose
    `doSomething` adds two to its argument. */
module TestAop {
  import opened Results
  import opened Js
  import opened Dispatch
  import Weaving

  /** `args[0] += 1`: the first argument plus one; on an empty argument list
      the first argument is created from undefined, so it is NaN. */
  function IncFirst(args: seq<Val>): (r: seq<Val>)
    ensures |r| == if |args| == 0 then 1 else |args|
    ensures |args| > 0 ==> r[0] == Add(args[0], 1) && r[1..] == args[1..]
    ensures |args| == 0 ==> r == [NaN]
  {
    if |args| == 0 then [Add(Undefined, 1)] else [Add(args[0], 1)] + args[1..]
  }

  function IncArg(f: Frame): Frame
  {
    Frame(IncFirst(f.args), f.result)
  }

  function AddTwo(f: Frame): Frame
  {
    Frame(f.args, Add(f.result, 2))
  }

  /** The three advice bodies as step programs, for dispatch. */
  function AroundSteps(): seq<AdviceStep>
  {
    [Update(IncArg), Invoke, Update(AddTwo)]
  }

  function BeforeSteps(): seq<AdviceStep>
  {
    [Update(IncArg)]
  }

  function AfterSteps(): seq<AdviceStep>
  {
    [Update(AddTwo)]
  }

  /** `around` (test/TestAop.js:3-7): the first argument is incremented, the
      target invoked on the new arguments, and two added to its result. */
  method Around(jp: JoinPoint, heap: seq<Obj>, code: Code, fuel: nat) returns (r: Result<()>)
    modifies jp
    ensures jp.methodName == old(jp.methodName) && jp.target == old(jp.target) && jp.proxy == old(jp.proxy)
    ensures r.Ok? <==> Apply(heap, code, jp.target, jp.methodName, IncFirst(old(jp.args)), fuel).Ok?
    ensures r.Ok? ==> && jp.args == IncFirst(old(jp.args))
                      && jp.result == Add(Apply(heap, code, jp.target, jp.methodName, jp.args, fuel).value, 2)
    ensures r.Ok? ==> RunSteps(heap, code, jp.target, jp.methodName, AroundSteps(), old(jp.State()), fuel) == Ok(jp.State())
    ensures r.Err? ==> RunSteps(heap, code, jp.target, jp.methodName, AroundSteps(), old(jp.State()), fuel) == Err(r.error)
  {
    AroundMeaning(heap, code, jp.target, jp.methodName, jp.State(), fuel);
    jp.args := IncFirst(jp.args);
    var v := jp.Invoke(heap, code, fuel);
    if v.Err? {
      return Err(v.error);
    }
    jp.result := Add(jp.result, 2);
    return Ok(());
  }

  /** `before` (test/TestAop.js:9-11): the first argument is incremented;
      the result is left alone. */
  method Before(jp: JoinPoint)
    modifies jp
    ensures jp.args == IncFirst(old(jp.args)) && jp.result == old(jp.result)
    ensures jp.methodName == old(jp.methodName) && jp.target == old(jp.target) && jp.proxy == old(jp.proxy)
  {
    jp.args := IncFirst(jp.args);
  }

  /** `after` (test/TestAop.js:13-15): two is added to the result; the
      arguments are left alone. */
  method After(jp: JoinPoint)
    modifies jp
    ensures jp.result == Add(old(jp.result), 2) && jp.args == old(jp.args)
    ensures jp.methodName == old(jp.methodName) && jp.target == old(jp.target) && jp.proxy == old(jp.proxy)
  {
    jp.result := Add(jp.result, 2);
  }

  // ---------------------------------------------------------------------
  // What the advice bodies do under dispatch

  /** The `around` body runs the target once, on the incremented arguments,
      and fails exactly when that call fails. */
  lemma AroundMeaning(heap: seq<Obj>, code: Code, target: nat, name: string, frame: Frame, fuel: nat)
    ensures RunSteps(heap, code, target, name, AroundSteps(), frame, fuel).Ok?
            <==> Apply(heap, code, target, name, IncFirst(frame.args), fuel).Ok?
    ensures RunSteps(heap, code, target, name, AroundSteps(), frame, fuel).Err?
            ==> RunSteps(heap, code, target, name, AroundSteps(), frame, fuel).error
                == Apply(heap, code, target, name, IncFirst(frame.args), fuel).error
    ensures RunSteps(heap, code, target, name, AroundSteps(), frame, fuel).Ok?
            ==> RunSteps(heap, code, target, name, AroundSteps(), frame, fuel).value
                == Frame(IncFirst(frame.args), Add(Apply(heap, code, target, name, IncFirst(frame.args), fuel).value, 2))
  {
    var s := AroundSteps();
    assert s[1..] == [Invoke, Update(AddTwo)] && s[1..][1..] == [Update(AddTwo)];
    var inv := InvokeTarget(heap, code, target, name, IncArg(frame), fuel);
    if inv.Ok? {
      assert RunSteps(heap, code, target, name, [Update(AddTwo)], inv.value, fuel) == Ok(AddTwo(inv.value)) by {
        assert [Update(AddTwo)][1..] == [];
      }
    }
  }

  /** `before` advice: the target is called once, on the incremented
      arguments, and its result is returned unchanged. */
  lemma BeforeMeaning(heap: seq<Obj>, code: Code, name: string, target: nat, aspect: nat,
                      args: seq<Val>, fuel: nat)
    requires Get(Lookup(heap, aspect), "before").Fn? && Get(Lookup(heap, aspect), "before").f.UserFn?
    requires code.advice(Get(Lookup(heap, aspect), "before").f.id) == BeforeSteps()
    ensures Intercept(heap, code, AdviceKind.Before, name, target, aspect, args, fuel) == Apply(heap, code, target, name, IncFirst(args), fuel)
  {
    var start := Frame(args, Undefined);
    assert BeforeSteps()[1..] == [];
    assert RunSteps(heap, code, target, name, BeforeSteps(), start, fuel) == Ok(IncArg(start));
  }

  /** `after` advice: the target is called once, on the original arguments,
      and two is added to its result. */
  lemma AfterMeaning(heap: seq<Obj>, code: Code, name: string, target: nat, aspect: nat, args: seq<Val>, fuel: nat)
    requires Get(Lookup(heap, aspect), "after").Fn? && Get(Lookup(heap, aspect), "after").f.UserFn?
    requires code.advice(Get(Lookup(heap, aspect), "after").f.id) == AfterSteps()
    ensures Intercept(heap, code, AdviceKind.After, name, target, aspect, args, fuel).Ok?
            <==> Apply(heap, code, target, name, args, fuel).Ok?
    ensures Intercept(heap, code, AdviceKind.After, name, target, aspect, args, fuel).Ok?
            ==> Intercept(heap, code, AdviceKind.After, name, target, aspect, args, fuel).value
                == Add(Apply(heap, code, target, name, args, fuel).value, 2)
  {
    var start := Frame(args, Undefined);
    var f := InvokeTarget(heap, code, target, name, start, fuel);
    if f.Ok? {
      assert AfterSteps()[1..] == [];
      assert RunSteps(heap, code, target, name, AfterSteps(), f.value, fuel) == Ok(AddTwo(f.value));
    }
  }

  // ---------------------------------------------------------------------
  // The outcomes test/test-aop.js expects

  /** The bean at `b` has a user method `doSomething` adding two to a
      number, and the aspect at `a` is a TestAop instance. */
  ghost predicate Fixture(heap: seq<Obj>, code: Code, b: nat, a: nat, name: string)
  {
    && Get(Lookup(heap, b), name) == Fn(UserFn(name))
    && (forall n: int :: code.behaviour(name, [Num(n)]) == Num(n + 2))
    && Get(Lookup(heap, a), "around") == Fn(UserFn("around")) && code.advice("around") == AroundSteps()
    && Get(Lookup(heap, a), "before") == Fn(UserFn("before")) && code.advice("before") == BeforeSteps()
    && Get(Lookup(heap, a), "after") == Fn(UserFn("after")) && code.advice("after") == AfterSteps()
  }

  /** test/test-aop.js:5-22, 23-40 and 41-58: `doSomething(3)` gives 8
      under `around`, 6 under `before` and 7 under `after`. */
  lemma AdviceOutcomes(heap: seq<Obj>, code: Code, b: nat, a: nat, fuel: nat)
    requires Fixture(heap, code, b, a, "doSomething")
    ensures Intercept(heap, code, AdviceKind.Around, "doSomething", b, a, [Num(3)], fuel) == Ok(Num(8))
    ensures Intercept(heap, code, AdviceKind.Before, "doSomething", b, a, [Num(3)], fuel) == Ok(Num(6))
    ensures Intercept(heap, code, AdviceKind.After, "doSomething", b, a, [Num(3)], fuel) == Ok(Num(7))
  {
    AroundMeaning(heap, code, b, "doSomething", Frame([Num(3)], Undefined), fuel);
    assert IncFirst([Num(3)]) == [Num(4)];
    assert code.behaviour("doSomething", [Num(4)]) == Num(6);
    BeforeMeaning(heap, code, "doSomething", b, a, [Num(3)], fuel);
    AfterMeaning(heap, code, "doSomething", b, a, [Num(3)], fuel);
    assert code.behaviour("doSomething", [Num(3)]) == Num(5);
  }

  /** test/test-aop.js:59-77: with the cut `doAnotherThing`, a proxy over
      the bean leaves `doSomething(3)` at 5 and gives 8 for
      `doAnotherThing(3)`. */
  lemma CutPointOutcomes(heap: seq<Obj>, code: Code, b: nat, a: nat, p: nat,
                         matches: (string, string) -> bool, fuel: nat)
    requires Fixture(heap, code, b, a, "doSomething") && Fixture(heap, code, b, a, "doAnotherThing")
    requires b < |heap| && p < |heap|
    requires heap[p] == Weaving.ProxyOf(heap[b], b, p, a, AdviceKind.Around, "doAnotherThing",
                                        ["doSomething", "doAnotherThing"], matches)
    requires !matches("doAnotherThing", "doSomething") && matches("doAnotherThing", "doAnotherThing")
    ensures Apply(heap, code, p, "doSomething", [Num(3)], fuel) == Ok(Num(5))
    ensures Apply(heap, code, p, "doAnotherThing", [Num(3)], fuel + 1) == Ok(Num(8))
  {
    var surface := ["doSomething", "doAnotherThing"];
    Weaving.ProxyDispatch(heap, code, p, b, a, AdviceKind.Around, "doAnotherThing", surface, matches,
                          "doSomething", [Num(3)], fuel);
    Weaving.ProxyDispatch(heap, code, p, b, a, AdviceKind.Around, "doAnotherThing", surface, matches,
                          "doAnotherThing", [Num(3)], fuel);
    assert code.behaviour("doSomething", [Num(3)]) == Num(5);
    AroundMeaning(heap, code, b, "doAnotherThing", Frame([Num(3)], Undefined), fuel);
    assert IncFirst([Num(3)]) == [Num(4)];
    assert code.behaviour("doAnotherThing", [Num(4)]) == Num(6);
  }
}
