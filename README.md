# beans4js in Dafny

A model of beans4js, a small inversion-of-control container for Node.js with
aspect-oriented method interception (`Beans.js`), together with the aspect
class its AOP tests use (`test/TestAop.js`).

A configuration document declares beans. Each bean has an id, a class (a
module path), a scope (`singleton`, `prototype` or `module`) and properties.
Each property is wired with a literal, a reference to another bean, or a
list of these. The document also declares aspects (`aop` elements). Each
aspect names an aspect bean and an advice kind (`before`, `after` or
`around`), and lists the beans it wraps, each with a cut pattern on method
names. `init` runs four stages:

1. It parses the declarations.
2. It validates them: every class loads, every property has a setter or an
   own field, and every reference that stands directly as a property value
   names a declared bean. References inside lists pass unchecked (see
   "Findings").
3. It builds the bean factory: a table from bean id to an accessor closure.
4. It parses the aspects and replaces the accessor of every wrapped bean with
   one that returns a new intercepting proxy on every call.

`getBean` calls the accessor a bean id is bound to.

The model follows the code where the project's own documentation differs
from it:

- Aspects are read from `aop` elements, as `Beans.js:422` does, not from
  `aspect` elements. The AOP tests write `aspect`, so as written they weave
  nothing. The test lemmas state the dispatch results the tests expect,
  through a proxy over the test's advice; they do not run a configuration
  through `init`.
- No check rejects a bean listed twice in one aspect; the code has none.
- An error while reading the aspects is reported after the factory is
  already set, as `Beans.js:32-40` does.

Modules, one per part of the source:

| module | file | part of the source |
|---|---|---|
| `Results` | results.dfy | success/error values and one error constructor per `throw` site |
| `Js` | js.dfy | the parsed XML tree, JavaScript values and objects, `+=`, property keys |
| `Names` | names.dfy | `array().contains`, `toSetterName`, `getModuleRequirePath`, `split`/`join` |
| `Declarations` | declarations.dfy | `parseBeans`, `parseBean`, `parseProperty`, `parseValue`, `conditionExpectingOne` |
| `Validation` | validation.dfy | `validateBeans`, `validateValue` |
| `Container` | container.dfy | the runtime: heap, accessor closures, factory table, injection log; calling an accessor, `handleInjections` |
| `Factory` | factory.dfy | `buildBeanFactory`, `getFuncFromFactory`, `extractSetterFieldConfig`, `extractValueFunc` |
| `Dispatch` | dispatch.dfy | `JoinPoint`, the intercepting functions, `before`/`after`/`around` dispatch |
| `Weaving` | weaving.dfy | the method surface and the proxy built by `buildAop` |
| `Aspects` | aspects.dfy | `parseAops`, `parseAop`, `parseAopRef`, `buildAops`, `buildAop` |
| `BeansContainer` | beans.dfy | the `Beans` class: `init` and `getBean` |
| `TestAop` | test_aop.dfy | the `around`, `before` and `after` advice, and the outcomes of the AOP tests |

Modelling choices:

- **JavaScript objects.** An object is a map from member name to value. It
  also keeps its enumeration order and its set of own members.
- **Closures.** The accessor closures are values of `Container.Accessor`.
  They are kept in `Runtime.closures` and known by their index there, because
  the source captures them and compares them by identity. A memoised
  accessor carries its `isInstantiated` flag. An injection is recorded in
  `Runtime.effects` as a setter call or a field write.
- **Stack depth.** Calling an accessor or a method takes a `fuel` argument:
  the stack frames left. Running out is the engine's `RangeError`. This is
  how the container behaves on circular references.
- **User code.** Methods and advice bodies come from `Dispatch.Code`. A user
  method is a function from its arguments to its result. An advice body is a
  program of join-point updates and `invoke` calls.
- **Module loading and cuts.** `require` is the `modules` map of the runtime.
  `new RegExp(cut).test(name)` is its `matches` parameter. Whether
  `new RegExp(cut)` accepts a pattern at all is its `validCut` parameter.
- **What an injection hands over.** `Container.Yields` relates a value
  function to the values its call can give. `Factory.Describes` relates it to
  the declared value and to the factory entry a reference was bound to when
  the configuration was read.

## Model

| member | source | states |
|---|---|---|
| Names.Contains | Beans.js:607-618 | the scan answers true exactly when the element occurs in the array |
| Names.UpperCase | Beans.js:292 | an ASCII lower-case letter becomes its upper-case letter; any other character is unchanged |
| Names.ToSetterName | Beans.js:291-293 | the setter name is "set", then the upper-cased first character, then the rest of the name; it is three characters longer; the name must be non-empty |
| Names.SetterNameCollision | Beans.js:291-293 | two property names share a setter exactly when they agree after upper-casing their first characters |
| Names.SetterNameIgnoresFirstCase | Beans.js:291-293 | "a" and "A" are both written through `setA` |
| Names.GetModuleRequirePath | Beans.js:284-289 | the result is a prefix of the class; exactly one trailing ".js" is removed when there is one, otherwise the class is returned unchanged |
| Names.RequirePathStripsOneSuffix | Beans.js:284-289 | `p + ".js"` gives `p` back, and of `p + ".js.js"` only one suffix is removed |
| Names.Split | Beans.js:476 | `split` gives at least one piece, and no piece holds the separator |
| Names.JoinSplit | Beans.js:476 | joining the pieces of a split with the separator gives the string back |
| Names.SplitJoin | Beans.js:476 | splitting a join of separator-free pieces gives the pieces back |
| Names.SplitSingleEmpty | Beans.js:476-479 | the split is the single empty piece exactly for the empty string |
| Names.MethodNames | Beans.js:475-479 | an empty `methods` attribute gives no names; otherwise names free of the bar separator that join back to the attribute |
| Js.Attrs | Beans.js:111 | a text node has no attributes |
| Js.AttrOr | Beans.js:470 | a truthy attribute is its value, otherwise the default |
| Js.Children | Beans.js:131 | a node without a child array of that name gives the empty list |
| Js.FirstChild | Beans.js:186 | `node[name][0]` is undefined exactly when there is no such child |
| Js.PropertyKey | Beans.js:321 | a string used as an object key is that string |
| Js.Add | test/TestAop.js:4 | `+=` of a number literal adds on a number, appends its decimal digits to a string, and gives NaN on undefined |
| Js.Assign | Beans.js:523 | after `o[k] = v`, `k` is an own member holding `v`, every other member is unchanged, and `k` is enumerated |
| Declarations.BeansElement | Beans.js:95 | a document whose root is not `beans` has no beans |
| Declarations.ConditionExpectingOne | Beans.js:170-182 | true exactly when exactly one of the conditions is true |
| Declarations.ElemValue | Beans.js:205-213 | a list `elem` is accepted exactly when it has one of `value` and `ref`, gives a literal or a reference from that attribute, and otherwise fails with the list message |
| Declarations.ElemValues | Beans.js:202-214 | the list is accepted exactly when every `elem` is, with one value per `elem` in order |
| Declarations.ElemValuesFirstError | Beans.js:204-211 | the first failing `elem` decides the error of the whole list |
| Declarations.ChildValue | Beans.js:184-220 | a child `value` wins over a child `ref`, which wins over a child `list`; a list without `elem` is rejected; a list value holds the checked `elem` values |
| Declarations.ParseValue | Beans.js:184-220 | the loop computes the child value of the property, error included |
| Declarations.PropertyOf | Beans.js:139-168 | an accepted property has a non-empty name not used before in its bean, and exactly one value source |
| Declarations.ParseProperty | Beans.js:139-168 | the method computes the property, error included |
| Declarations.PropertiesOf | Beans.js:131-135 | the properties of a bean are one per element, with non-empty, pairwise distinct names |
| Declarations.PropertiesNext | Beans.js:133-135 | each property is checked against the names of the properties before it |
| Declarations.PropertiesFirstError | Beans.js:133-135 | the first failing property decides the error of the bean |
| Declarations.BeanOf | Beans.js:110-137 | an accepted bean has its `id` (not used before) and its `class`; its scope is the one given, or singleton when none is given |
| Declarations.ParseBean | Beans.js:110-137 | the method computes the bean, error included |
| Declarations.BeansNext | Beans.js:103-105 | each bean is checked against the ids of the beans before it |
| Declarations.BeansFirstError | Beans.js:103-105 | the first failing bean decides the error of the document |
| Declarations.ParseBeans | Beans.js:94-108 | the method computes the beans of the document, error included |
| Declarations.BeansHaveDistinctIds | Beans.js:112-126 | accepted beans are one per element, with non-empty, pairwise distinct ids |
| Declarations.BeanRejections | Beans.js:112-123 | a bean is rejected, in this order, for a missing id, a duplicated id, a missing class, an unknown scope, each with its own message |
| Declarations.PropertyRejections | Beans.js:141-153 | a property is rejected, in this order, for a missing name, a duplicated name, or not exactly one value source |
| Declarations.ValueFromItsSource | Beans.js:155-163 | an accepted value comes from its single source: attribute `ref` or `value`, child `value` or `ref`, or child `list` |
| Declarations.ListsAreFlat | Beans.js:197-218 | a list holds one literal or reference per `elem`, in order, from whichever attribute it has |
| Validation.Require | Beans.js:236-240 | loading succeeds exactly when the resolved path is known; the error names the class and the bean |
| Validation.Instance | Beans.js:242-250 | a module bean is checked on the exported value, any other bean on a new instance of it |
| Validation.ValidateValue | Beans.js:270-282 | (corrected) a value passes exactly when every reference in it, list items included, names a declared bean; the error names the property and the bean |
| Validation.ValidateItems | Beans.js:276-281 | (corrected) a list passes exactly when every reference among its items names a declared bean |
| Validation.ValidateValueAsWritten | Beans.js:270-282 | (as written, and what validation runs) a value passes exactly when it is not a reference or is a string naming a declared bean; a list always passes; the error names the target, the property and the bean |
| Validation.ValidateValueStricter | Beans.js:270-282 | whatever the corrected check accepts, the check as written accepts too |
| Validation.ListRefsEscapeAsWritten | Beans.js:276-281 | a list referring to an undeclared bean passes the check as written and fails the corrected one |
| Validation.CheckProperty | Beans.js:252-264 | a property passes exactly when its name is non-empty, it is injectable (a setter function, or no setter and an own field) and, when its value is a reference, that reference names a declared bean (the check as written: references inside a list are not checked); the errors come in this order |
| Validation.CheckPropertiesAll | Beans.js:252-264 | the properties of a bean pass exactly when each passes on its own |
| Validation.ValidateBean | Beans.js:232-265 | one turn of the loop loads the class, instantiates it unless the bean is a module, and checks every property with the check as written |
| Validation.ValidateFromStep | Beans.js:232-265 | validation from bean `i` passes exactly when bean `i` and the rest pass |
| Validation.ValidateFromAccepts | Beans.js:232-265 | validation from bean `i` passes exactly when every later bean loads and each of its properties passes the check as written |
| Validation.ValidateFromNext | Beans.js:232-265 | an accepted bean hands its instance on to the rest of the beans |
| Validation.FirstsRecord | Beans.js:247-249 | the singleton table grows by the bean's id exactly when the bean is a singleton |
| Validation.ValidateFromSingletons | Beans.js:243-249 | validation hands over one instance per singleton bean, in declaration order |
| Validation.ValidateBeans | Beans.js:225-268 | the method computes the validation result, error included |
| Validation.ValidatedIff | Beans.js:225-268 | validation accepts exactly when every bean loads and each of its properties passes the check as written, and then returns the singleton instances keyed by the singleton ids in order |
| Validation.AcceptedPropertiesInjectable | Beans.js:252-264 | every property of an accepted configuration has a non-empty name and can be injected, and a reference standing as its value names a declared bean; references inside lists are not checked |
| Container.Runtime.constructor | Beans.js:296 | the factory starts empty, with no closures and no injections |
| Container.YieldsLater | Beans.js:302-308 | later calls do not change what a value function yields: a memoised accessor keeps its object |
| Container.Runtime.Call | Beans.js:303-355 | a memoised accessor returns its own object every time and does nothing once injected; its first successful call logs its injections into that object; a prototype accessor returns a new object and logs its injections into it; a woven accessor returns a new proxy; only engine errors occur; without stack left the call fails and changes nothing |
| Container.Runtime.CallMemoised | Beans.js:303-309 | a singleton or module accessor whose flag is unset logs every setter and then every field injection into its object, each with a value its value function yields, then sets the flag; once the flag is set it changes nothing; it returns the same object every time (also Beans.js:334-340) |
| Container.Runtime.CallPrototype | Beans.js:351-355 | a prototype accessor returns a freshly allocated object after logging every setter and then every field injection into it, each with a value its value function yields |
| Container.Runtime.CallWoven | Beans.js:575-600 | a woven accessor gets the bean and the aspect through their accessors, then returns a new object that is the proxy over that bean |
| Container.Runtime.HandleInjections | Beans.js:363-370 | every setter injection in order, then every field injection in order, each logged into the object under its name with a value its value function yields |
| Container.Runtime.Inject | Beans.js:364-369 | one loop of `handleInjections` logs one injection per configuration, in order, in that object, under the configuration's name, with a value its value function yields |
| Container.Runtime.InjectOne | Beans.js:364-369 | one injection reads the setter member, computes the value, then calls the member (exactly the TypeError `instance[config.name] is not a function` when it is not a function, an error of the value passed through otherwise) or writes the field, which then holds the value; it succeeds in every other case and logs the value under the configuration's name, a value its value function yields |
| Container.Runtime.EvalValueFunc | Beans.js:398-410 | a constant gives its value; an accessor an object, and a memoised accessor exactly its own object; a list an array of one such value per item, in order; a missing accessor is a TypeError |
| Dispatch.Apply | Beans.js:629 | calling a user method gives its behaviour on the arguments; calling a non-function is a TypeError |
| Dispatch.InvokeTarget | Beans.js:628-633 | `invoke` keeps the arguments and records as result what the target method returns on them |
| Dispatch.JoinPoint.constructor | Beans.js:621-626 | a join point holds the arguments, the method name, the target and the proxy, and no result yet |
| Dispatch.JoinPoint.Invoke | Beans.js:628-633 | `invoke` applies the target method to the current arguments and records its result; the rest of the join point is unchanged |
| Dispatch.RunAdvice | Beans.js:537 | running an advice body on a join point ends in the frame its step program computes |
| Dispatch.Intercepted | Beans.js:526-541 | the intercepting function copies the arguments into a new join point, runs the advice before, after or instead of `invoke`, and returns the join point's result |
| Dispatch.EmptyAdvice | Beans.js:516-600 | with empty advice, `before` and `after` return what the target returns, and `around` returns undefined without calling the target |
| Dispatch.NoInvokeNoCall | Beans.js:593-596 | an advice body without `invoke` never calls the target and cannot fail |
| Dispatch.RunStepsAppend | Beans.js:537-539 | running two advice bodies one after the other is running their concatenation |
| Dispatch.BeforeAfterAsAround | Beans.js:535-569 | `before` advice is `around` advice ending with `invoke`; `after` advice is `around` advice starting with it |
| Weaving.FunctionKeys | Beans.js:505-510 | the recorded keys are exactly the enumerated keys holding a function |
| Weaving.FunctionKeysDistinct | Beans.js:505-510 | the recorded keys are distinct when the enumeration is |
| Weaving.AddMissing | Beans.js:511-515 | the declared methods are added after the recorded keys, which stay first, and nothing else is added |
| Weaving.AddMissingDistinct | Beans.js:511-515 | adding the missing methods adds no name twice |
| Weaving.MethodSurface | Beans.js:503-515 | the loops compute the method surface of the sample bean |
| Weaving.SurfaceShape | Beans.js:503-515 | the surface holds exactly the function-valued keys of the sample, in enumeration order, then the declared methods; no name twice; no declared methods gives just the keys |
| Weaving.ProxyOf | Beans.js:578-599 | the proxy holds, for each name of the surface, a new wrapper when the name matches the cut and the bean's member otherwise, and nothing else |
| Weaving.BuildProxy | Beans.js:578-599 | the loop builds the proxy over the bean |
| Weaving.ProxyKeys | Beans.js:579-598 | the proxy enumerates exactly the surface, in its order |
| Weaving.ProxyDispatch | Beans.js:579-598 | through the proxy, a name outside the cut behaves as on the bean, a name in the cut runs the advice one frame deeper, and a name outside the surface is not a function |
| Factory.BeanTable | Beans.js:28-31 | the table binds exactly the declared ids, each to a declared bean with that id |
| Factory.BeanTableFinds | Beans.js:28-31 | with distinct ids, every bean is found under its own id |
| Factory.SplitPartitions | Beans.js:380-390 | every property goes to exactly one of the setter and field configurations |
| Factory.DescribesGrows | Beans.js:320-361 | entries are only added to the factory while it is built, so a reference keeps standing for the accessor it was bound to, and a reference to a singleton not yet bound for `undefined`, as long as no singleton is bound meanwhile |
| Factory.DescribedRefsKnown | Beans.js:320-326 | a value read successfully refers, list items included, only to ids that are bound or declared: any other reference makes reading it fail |
| Factory.ConfiguredSingletonRefs | Beans.js:320-326 | in configurations read while some ids were bound, a reference to a singleton is a call of its accessor when it was bound and `undefined` when it was not |
| Factory.ReferencesBetweenSingletons | Beans.js:298-310 | among the singletons, installed in order, a reference from one singleton's configurations to another is that singleton's accessor when it comes no later, `undefined` when it comes later |
| Factory.ConfiguredStep | Beans.js:373-391 | a property with a setter function adds a setter configuration under the setter name, any other a field configuration under its own name |
| Factory.GetFuncFromFactory | Beans.js:320-361 | an existing entry is returned and nothing changes; a singleton not yet installed gives undefined; an unknown id is a TypeError; a module or prototype bean gets a new unused accessor, installed before its configurations are read |
| Factory.Install | Beans.js:342-343 | the accessor is installed under the id first, then its configurations are read from the instance |
| Factory.Bind | Beans.js:342 | `factory[id] = func`: the accessor is appended and bound to the id; nothing else changes |
| Factory.SetConfigs | Beans.js:343 | the configurations are stored in the accessor; nothing else changes |
| Factory.ExtractSetterFieldConfig | Beans.js:372-392 | every property, in order, becomes a setter or a field configuration whose value function stands for its value: a reference calls exactly the accessor the factory binds its target to, except a reference to a singleton not bound when it was read, which is `undefined`; list items likewise |
| Factory.ConfigureProperty | Beans.js:373-391 | one property becomes a setter configuration when the instance has a setter function for it, a field configuration otherwise, with a value function that stands for its value: the bound accessor for a reference, `undefined` for a singleton not bound when it was read |
| Factory.ExtractValueFunc | Beans.js:394-414 | a literal becomes a constant, a reference a call of exactly the accessor the factory binds its target to, or `undefined` exactly for a singleton not yet bound, a list the value functions of its items, each standing for its item in the same way |
| Factory.ExtractItems | Beans.js:399-410 | the value functions of a list's items, in order, each standing for its item: the bound accessor for a reference, `undefined` exactly for a singleton not yet bound |
| Factory.InjectsReferencedObjects | Beans.js:363-369 | once an installed singleton has run its injections, every property referring to a bean bound to a memoised accessor was injected with exactly that bean's object, through its setter or as a field |
| Factory.InstallSingletons | Beans.js:298-311 | every singleton gets a memoised, not yet injected accessor over its validated instance, with the configurations of its bean; the singletons are those validation hands over |
| Factory.InstallSingleton | Beans.js:299-310 | one singleton's accessor is installed before its configurations are read; the other ids it binds are beans that are not singletons |
| Factory.InstallRest | Beans.js:313-315 | afterwards every declared bean is bound, except singletons, which are already installed |
| Factory.BuildBeanFactory | Beans.js:295-318 | building injects nothing and calls no accessor; it binds only declared ids, every non-singleton, and every singleton to its installed instance |
| Aspects.AdviceOf | Beans.js:440-443 | the advice attribute is accepted exactly for "around", "before" and "after" |
| Aspects.AdviceRoundTrip | Beans.js:442 | every advice kind is read back from its own name |
| Aspects.AopHeader | Beans.js:432-446 | the attributes, `bean`, `advice`, a known advice kind and an aspect bean in the factory are required, in this order, each with its own error |
| Aspects.RefHeader | Beans.js:464-479 | a plain reference wraps every method; an element gives the cut (".*" by default), the bean in its text and the listed methods; the bean must be bound |
| Aspects.ParsedNamesKnown | Beans.js:444-473 | every bean a parsed aspect names is bound in the factory |
| Aspects.FirstNonFunction | Beans.js:482-486 | the first listed method that is not a function of the bean, or none when all are |
| Aspects.ParseAopRef | Beans.js:463-489 | a reference is read from its element, and every listed method is a function of the bean got through its accessor; otherwise the error names the missing method |
| Aspects.ParseRefs | Beans.js:455-458 | every `ref` child is read, in order; on failure, every earlier child had a valid header, and the failing child's header error is the result, or, when its header was valid, a missing method or an engine error of getting its bean |
| Aspects.ParseAop | Beans.js:431-461 | header errors come first and change nothing; an accepted aspect's instance holds a function under the advice name, and its references are read in order |
| Aspects.ParseAops | Beans.js:416-429 | one aspect per `aop` element, in document order; none when there are no such elements |
| Aspects.Steps | Beans.js:492-499 | the wrapping steps are taken aspect by aspect, reference by reference |
| Aspects.StepsBlock | Beans.js:492-499 | the steps of an aspect follow those of the aspects before it |
| Aspects.LastIndex | Beans.js:497 | the last step before `j` that wrapped the bean, or none when no step did |
| Aspects.LastIndexFinds | Beans.js:497 | that last step is found when no later step wraps the same bean |
| Aspects.WeavedStep | Beans.js:496-497 | one more step appends a woven accessor over the entry the bean had, and rebinds only that bean |
| Aspects.BuildAop | Beans.js:502-515 | one woven accessor is appended over the bean's accessor and the aspect's, with the method surface of a sample bean; the factory is unchanged |
| Aspects.BuildAops | Beans.js:491-500 | every step installs a woven accessor over the entry its bean had before; no id is added or removed |
| Aspects.WeaveNext | Beans.js:492-499 | one aspect's accessor is looked up, then its references are woven |
| Aspects.WeaveAspect | Beans.js:495-498 | each reference of the aspect is rebound, in order, to a woven accessor over its current entry |
| Aspects.WeaveRef | Beans.js:496-497 | the entry of the wrapped bean is replaced by a woven accessor over it; an unbound bean is a TypeError and a cut `new RegExp` rejects is a SyntaxError, both changing nothing |
| Aspects.LaterAspectOutermost | Beans.js:491-500 | when a bean is wrapped twice, the later wrapping wraps the earlier one, so the aspect declared last is outermost |
| Aspects.FinalBinding | Beans.js:491-500 | after weaving, a wrapped id is bound to its last wrapping, and an id no aspect names keeps its accessor |
| BeansContainer.SingletonIdsDistinct | Beans.js:247-249 | the singleton ids of beans with distinct ids are distinct declared ids |
| BeansContainer.SingletonIn | Beans.js:247-249 | every singleton bean's id is among the singleton ids |
| BeansContainer.SingletonIdsScoped | Beans.js:247-249 | every singleton id is the id of a singleton bean |
| BeansContainer.SingletonKeysOf | Beans.js:247-249 | the instances validation hands over are keyed by ids the bean table declares as singletons |
| BeansContainer.ParsedKeys | Beans.js:444 | whether an aspect is accepted depends only on which ids are bound, not on their accessors |
| BeansContainer.BoundIds | Beans.js:295-318 | after building, exactly the declared ids are bound |
| BeansContainer.Beans.constructor | Beans.js:5-7 | a new container has no factory |
| BeansContainer.Beans.Init | Beans.js:9-46 | declaration errors and errors of the validation as written are reported and leave no factory; after validation passes, an error that leaves no factory (building) escapes, and a reported error (reading the aspects) comes with the factory set; a crash happens only after validation; when ready, exactly the declared ids are bound and one aspect is read per `aop` element |
| BeansContainer.Beans.GetBean | Beans.js:48-50 | without a factory or for an unbound id the call is a TypeError; otherwise the bean's accessor is called, a singleton or module bean is its own object, and a first call of it, or any call of a prototype bean, logs its injections into the object returned |
| TestAop.IncFirst | test/TestAop.js:4 | `args[0] += 1` increments the first argument and keeps the rest; with no arguments the first becomes NaN |
| TestAop.Around | test/TestAop.js:3-7 | `around` increments the first argument, invokes the target on the new arguments, and adds two to its result |
| TestAop.Before | test/TestAop.js:9-11 | `before` increments the first argument and leaves the result alone |
| TestAop.After | test/TestAop.js:13-15 | `after` adds two to the result and leaves the arguments alone |
| TestAop.AroundMeaning | test/TestAop.js:3-7 | the `around` body calls the target once, on the incremented arguments, fails exactly when that call fails, and adds two to its result |
| TestAop.BeforeMeaning | test/TestAop.js:9-11 | under `before` advice the woven method returns the target's result on the incremented arguments |
| TestAop.AfterMeaning | test/TestAop.js:13-15 | under `after` advice the woven method returns the target's result on the original arguments, plus two |
| TestAop.AdviceOutcomes | test/test-aop.js:5-58 | with `doSomething` adding two, `doSomething(3)` gives 8 under `around`, 6 under `before` and 7 under `after` |
| TestAop.CutPointOutcomes | test/test-aop.js:59-77 | with the cut `doAnotherThing`, `doSomething(3)` stays 5 and `doAnotherThing(3)` gives 8 |

## Left out

- XML parsing by xml2js (Beans.js:13-16) is not modelled. The model starts from the parsed tree (`Declarations.Document`), so a malformed document is out of its scope.
- The `init` callback is not modelled as a call. `BeansContainer.Outcome` says how `init` ends: the callback gets no error (`Ready`), the callback gets an error (`Reported`), or an exception escapes the parser's callback (`Crashed`).
- `require` is the `modules` map of the runtime, and a constructor is the object `new` gives. Constructor bodies are not modelled.
- The regular-expression engine is the `matches` parameter, and the pattern syntax `new RegExp` accepts is the `validCut` parameter. Nothing is assumed of either: `.test` is an unanchored search.
- The bodies of user methods and setters are user code. A method is a pure function of its arguments (`Dispatch.Code.behaviour`). A setter call is recorded in the injection log and changes no object.
- `this` binding and `apply` beyond the target and the arguments are not modelled.
- An advice function that is itself an intercepting wrapper is not run; calling one as advice is a TypeError in the model.
- Numbers are unbounded integers. Floating point and the number-to-string conversion of non-integers are not modelled.
- `toUpperCase` is modelled on ASCII letters only.
- `+= k` on a function, and a function used as an object key, are not modelled as JavaScript does. JavaScript uses the function's source text; the model gives NaN and "function".
- Object keys that look like array indices enumerate first in JavaScript. The model enumerates every key in insertion order.
- Members inherited from `Object.prototype` (`toString`, `constructor`, ...) are not modelled. An id or property name that collides with one of them behaves as an ordinary missing member.
- The two `throw` sites that cannot be reached are not modelled: the unknown value type (Beans.js:412) and the unknown advice (Beans.js:602). The types of the model exclude both cases.
- The check `if (!beans)` (Beans.js:96, 418) is dead code after `|| []` and has no counterpart.
- test/test-ioc.js:181-202 (circular references between singletons) does not follow from the code. A singleton referring to a later singleton gets an undefined value function, whose call is a TypeError. The flag of a memoised accessor is set only after injection, so a cycle recurses until the stack (`fuel`) is exhausted. The model states the code's behaviour, not that test's outcome.
- The "designate method" test (test/test-aop.js:79-99) has no lemma of its own. `Aspects.RefHeader` and `Weaving.SurfaceShape` state the behaviour it relies on.
- test/TestValueInjection.js is not part of this model. The test lemmas assume a bean whose `doSomething` and `doAnotherThing` add two to a number.
- test/GetFieldFactory.js, test/TestChangeProperty.js, the rest of test/test-ioc.js and the mocha and should test libraries are not modelled. They are fixtures and test plumbing with no library logic.
- Container.Runtime.Call: for a woven accessor it states only that a new proxy is returned. `Container.Runtime.CallWoven` states what that proxy holds.
- Container.Runtime.EvalValueFunc: the call of a prototype or woven accessor is stated to give an object, not which one. That object is allocated by the call itself, so `Container.Yields`, which relates a value function to a value without naming a heap, cannot name it. `Container.Runtime.Call` states its address.
- Container.Runtime.HandleInjections: an injected reference to a prototype or woven bean is stated to be an object, not which one, for the reason given for `Container.Runtime.EvalValueFunc`.
- Aspects.ParseAops: on failure it states only what the runtime may have changed, not which error occurred. `Aspects.ParseAop` classifies the errors of one element.
- Aspects.BuildAops: on failure it states only what weaving may have changed. Rewired entries stay rewired, as in the source.
- BeansContainer.Beans.Init: it does not restate the woven accessors. `Aspects.BuildAops` and `Aspects.FinalBinding` state them.
- Aspects.ParseAopRef, Aspects.ParseAop, Aspects.BuildAop, Container.Runtime.CallWoven: the sample object a check read is a ghost out-parameter. The model does not say which heap object it is.

## Findings

| source | as written | input that shows it | evidently intended | confidence | as-written member | corrected member |
|---|---|---|---|---|---|---|
| Beans.js:276-281 | `for (let v in list)` walks the indices "0", "1", ... of the list. Each index is a string without a `type`, so no item of a list is checked. | a property whose value is a list holding a `ref` to an undeclared bean, e.g. `<list><elem ref="missing"/></list>` | every reference in a list names a declared bean, as for a single `ref` | not executed | Validation.ValidateValueAsWritten, Validation.ListRefsEscapeAsWritten | Validation.ValidateValue |

Validation in the model runs the check as written (`Validation.CheckProperty`, `Validation.ValidateBean`), as the source does. Such a list therefore passes validation. Building the factory then reads the list, and reading it cannot succeed: `Factory.GetFuncFromFactory` gives a TypeError for an id that is neither bound nor declared, and `Factory.DescribedRefsKnown` shows that a value read successfully refers only to bound or declared ids, list items included. `BeansContainer.Beans.Init` states that a failure while building, after validation passed, escapes as `Crashed` with no factory set. `Validation.ValidateValue` is the corrected check, and `Validation.ValidateValueStricter` shows that it accepts less than the check as written.
