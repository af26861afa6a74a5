/** The JavaScript values the container works on: the tree the XML parser
    delivers, run-time values, and objects seen as finite maps from member
    name to value. */
module Js {
  import opened Results

  /** The generic tree of the XML parser (xml2js). An element with neither
      attributes nor child elements is delivered as its text (the empty string
      when it is empty); any other element as an object whose key `$` holds the
      attributes, `_` the text, and one array per child element name. */
  datatype Node =
    | Text(s: string)
    | Elem(attrs: Option<map<string, string>>, text: Option<string>, children: map<string, seq<Node>>)

  /** `node['$'] || {}`: the attributes, or none at all for a text node. */
  function Attrs(n: Node): (r: map<string, string>)
    ensures n.Text? ==> r == map[]
  {
    if n.Elem? && n.attrs.Some? then n.attrs.value else map[]
  }

  /** `attrs[name]` is truthy: present and not the empty string. */
  predicate HasAttr(attrs: map<string, string>, name: string)
  {
    name in attrs && attrs[name] != ""
  }

  /** `attrs[name] || dflt`. */
  function AttrOr(attrs: map<string, string>, name: string, dflt: string): (r: string)
    ensures HasAttr(attrs, name) ==> r == attrs[name]
    ensures !HasAttr(attrs, name) ==> r == dflt
  {
    if HasAttr(attrs, name) then attrs[name] else dflt
  }

  /** `node.hasOwnProperty(name)`, equally `!!node[name]`: a child array of
      that name is present (arrays are always truthy). */
  predicate HasChild(n: Node, name: string)
  {
    n.Elem? && name in n.children
  }

  /** `node[name] || []`. */
  function Children(n: Node, name: string): (r: seq<Node>)
    ensures !HasChild(n, name) ==> r == []
  {
    if HasChild(n, name) then n.children[name] else []
  }

  /** The three kinds of advice an aspect may declare. */
  datatype AdviceKind = Before | After | Around

  /** A function value: a function of user code, known only by its identity,
      or one of the intercepting wrappers a proxy installs (Beans.js:526, 555,
      584), which captures the method name, the target, the proxy and the
      aspect instance. */
  datatype Func =
    | UserFn(id: string)
    | Interceptor(kind: AdviceKind, methodName: string, target: nat, proxy: nat, aspect: nat)

  /** Run-time values. Objects live in a heap and are referred to by address;
      `Tree` is an element of the parsed configuration used as a value. */
  datatype Val =
    | Undefined
    | Str(s: string)
    | Num(n: int)
    | NaN
    | Tree(node: Node)
    | ObjRef(addr: nat)
    | Arr(items: seq<Val>)
    | Fn(f: Func)

  /** The value a parsed node stands for: its string, or the element object. */
  function FromNode(n: Node): (v: Val)
    ensures n.Text? <==> v.Str?
  {
    if n.Text? then Str(n.s) else Tree(n)
  }

  /** `node[name][0]`: undefined when there is no such child. */
  function FirstChild(n: Node, name: string): (v: Val)
    ensures v != Undefined <==> |Children(n, name)| > 0
  {
    var cs := Children(n, name);
    if |cs| == 0 then Undefined else FromNode(cs[0])
  }

  /** JavaScript truthiness. */
  predicate Truthy(v: Val)
  {
    match v
    case Undefined => false
    case Str(s) => s != ""
    case Num(n) => n != 0
    case NaN => false
    case _ => true
  }

  /** `typeof v === 'function'`. */
  predicate IsFunction(v: Val)
  {
    v.Fn?
  }

  /** The decimal notation of an integer, as `String(n)` writes it. */
  function DecimalString(n: int): (r: string)
    ensures |r| > 0
    ensures n >= 0 ==> r[0] != '-'
  {
    if n < 0 then "-" + NaturalString(-n) else NaturalString(n)
  }

  function NaturalString(n: nat): (r: string)
    ensures |r| > 0 && r[0] in "0123456789"
    ensures forall i :: 0 <= i < |r| ==> r[i] in "0123456789"
  {
    if n < 10 then ["0123456789"[n]] else NaturalString(n / 10) + ["0123456789"[n % 10]]
  }

  /** The property key a value is converted to when used as an object key
      (`factory[id]`, `factory.hasOwnProperty(id)`): a string is itself,
      undefined is "undefined", an object is "[object Object]", an array the
      keys of its elements joined by commas. */
  function PropertyKey(v: Val): (k: string)
    ensures v.Str? ==> k == v.s
  {
    match v
    case Undefined => "undefined"
    case Str(s) => s
    case Num(n) => DecimalString(n)
    case NaN => "NaN"
    case Tree(_) => "[object Object]"
    case ObjRef(_) => "[object Object]"
    case Arr(items) => JoinKeys(items)
    case Fn(_) => "function"
  }

  function JoinKeys(items: seq<Val>): string
    decreases items, 0
  {
    if |items| == 0 then ""
    else
      var head := if items[0].Undefined? then "" else PropertyKey(items[0]);
      if |items| == 1 then head else head + "," + JoinKeys(items[1..])
  }

  /** `v += k` for a non-negative number literal `k`: numeric addition on a
      number, concatenation of the decimal digits on a string or on a value
      whose string form is concatenated, NaN on undefined. */
  function Add(v: Val, k: nat): (r: Val)
    ensures v.Num? ==> r == Num(v.n + k)
    ensures v.Str? ==> r == Str(v.s + DecimalString(k))
    ensures v.Undefined? || v.NaN? ==> r == NaN
  {
    match v
    case Num(n) => Num(n + k)
    case Str(s) => Str(s + DecimalString(k))
    case Undefined => NaN
    case NaN => NaN
    case Tree(_) => Str("[object Object]" + DecimalString(k))
    case ObjRef(_) => Str("[object Object]" + DecimalString(k))
    case Arr(items) => Str(JoinKeys(items) + DecimalString(k))
    case Fn(_) => NaN
  }

  /** A JavaScript object: every member reachable by `o[k]` (own or
      inherited), the enumerable ones in `for...in` order, and the own ones. */
  datatype Obj = Obj(members: map<string, Val>, keys: seq<string>, own: set<string>)

  const EmptyObject := Obj(map[], [], {})

  /** `o[k]`: undefined when there is no such member. */
  function Get(o: Obj, k: string): Val
  {
    if k in o.members then o.members[k] else Undefined
  }

  /** `o.hasOwnProperty(k)`. */
  predicate HasOwn(o: Obj, k: string)
  {
    k in o.own
  }

  /** `o[k] = v`: an own, enumerable member; a new key is enumerated last. */
  function Assign(o: Obj, k: string, v: Val): (r: Obj)
    ensures Get(r, k) == v && HasOwn(r, k)
    ensures forall j :: j != k ==> Get(r, j) == Get(o, j) && (HasOwn(r, j) <==> HasOwn(o, j))
    ensures k in r.keys && (forall j :: j in o.keys ==> j in r.keys)
    ensures forall j :: j in r.keys ==> j in o.keys || j == k
  {
    Obj(o.members[k := v], if k in o.keys then o.keys else o.keys + [k], o.own + {k})
  }
}
