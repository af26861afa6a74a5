/** The string helpers of Beans.js: `array(arr).contains`, `toSetterName`,
    `getModuleRequirePath`, and the `split('|')` that reads a `methods`
    attribute. */
module Names {

  /** `array(arr).contains(elem)` (Beans.js:607-618): a scan with `===`. */
  function Contains<T(==)>(arr: seq<T>, elem: T): (r: bool)
    ensures r <==> elem in arr
  {
    if |arr| == 0 then false
    else if arr[0] == elem then true
    else Contains(arr[1..], elem)
  }

  /** `c.toUpperCase()` on one character, for the ASCII letters. */
  function UpperCase(c: char): (u: char)
    ensures 'a' <= c <= 'z' ==> 'A' <= u <= 'Z' && u as int == c as int - 32
    ensures !('a' <= c <= 'z') ==> u == c
  {
    if 'a' <= c <= 'z' then (c as int - 32) as char else c
  }

  /** `toSetterName(name)` (Beans.js:291-293): "set", the first letter in
      upper case, then the rest of the name. JavaScript fails on the empty
      name (`undefined.toUpperCase()`); every caller checks it first. */
  function ToSetterName(name: string): (r: string)
    requires |name| > 0
    ensures |r| == |name| + 3
    ensures r[..3] == "set"
    ensures r[3] == UpperCase(name[0])
    ensures r[4..] == name[1..]
  {
    "set" + [UpperCase(name[0])] + name[1..]
  }

  /** Two property names share a setter exactly when they agree after the
      first letter and their first letters agree up to case. */
  lemma SetterNameCollision(a: string, b: string)
    requires |a| > 0 && |b| > 0
    ensures ToSetterName(a) == ToSetterName(b)
        <==> (UpperCase(a[0]) == UpperCase(b[0]) && a[1..] == b[1..])
  {
    var sa, sb := ToSetterName(a), ToSetterName(b);
    if sa == sb {
      assert sa[3] == sb[3];
      assert sa[4..] == sb[4..];
    }
    if UpperCase(a[0]) == UpperCase(b[0]) && a[1..] == b[1..] {
      assert sa == "set" + [UpperCase(a[0])] + a[1..];
      assert sb == "set" + [UpperCase(b[0])] + b[1..];
    }
  }

  /** The property names "a" and "A" are both written through `setA`. */
  lemma SetterNameIgnoresFirstCase()
    ensures ToSetterName("a") == ToSetterName("A") == "setA"
  {
    SetterNameCollision("a", "A");
    assert ToSetterName("A") == "set" + ['A'] + "";
  }

  predicate EndsWithJs(path: string)
  {
    |path| >= 3 && path[|path| - 3..] == ".js"
  }

  /** `getModuleRequirePath(aClass)` (Beans.js:284-289): one trailing ".js" is
      removed, any other path is kept as it is. */
  function GetModuleRequirePath(aClass: string): (r: string)
    ensures |r| <= |aClass| && r == aClass[..|r|]
    ensures EndsWithJs(aClass) ==> r + ".js" == aClass
    ensures !EndsWithJs(aClass) ==> r == aClass
  {
    if EndsWithJs(aClass) then aClass[..|aClass| - 3] else aClass
  }

  /** Appending ".js" and resolving gives the path back, and only one suffix
      is ever removed: "m.js.js" resolves as "m.js". */
  lemma RequirePathStripsOneSuffix(path: string)
    ensures GetModuleRequirePath(path + ".js") == path
    ensures GetModuleRequirePath(path + ".js.js") == path + ".js"
  {
    assert (path + ".js")[|path + ".js"| - 3..] == ".js";
    assert (path + ".js.js")[|path + ".js.js"| - 3..] == ".js";
    assert (path + ".js.js") == (path + ".js") + ".js";
  }

  /** `s.split(sep)` for a one-character separator: the pieces between the
      separators, so there is one piece more than there are separators. */
  function Split(s: string, sep: char): (r: seq<string>)
    ensures |r| > 0
    ensures forall i :: 0 <= i < |r| ==> sep !in r[i]
  {
    if |s| == 0 then [""]
    else if s[0] == sep then [""] + Split(s[1..], sep)
    else
      var rest := Split(s[1..], sep);
      [[s[0]] + rest[0]] + rest[1..]
  }

  /** `parts.join(sep)`. */
  function Join(parts: seq<string>, sep: char): string
    requires |parts| > 0
  {
    if |parts| == 1 then parts[0] else parts[0] + [sep] + Join(parts[1..], sep)
  }

  lemma {:induction false} JoinSplit(s: string, sep: char)
    ensures Join(Split(s, sep), sep) == s
  {
    if |s| == 0 {
    } else if s[0] == sep {
      JoinSplit(s[1..], sep);
      assert s == [sep] + s[1..];
    } else {
      JoinSplit(s[1..], sep);
      var rest := Split(s[1..], sep);
      if |rest| == 1 {
        assert Join(rest, sep) == rest[0];
      } else {
        assert Join(rest, sep) == rest[0] + [sep] + Join(rest[1..], sep);
        assert ([[s[0]] + rest[0]] + rest[1..])[1..] == rest[1..];
      }
      assert s == [s[0]] + s[1..];
    }
  }

  lemma {:induction false} SplitJoin(parts: seq<string>, sep: char)
    requires |parts| > 0
    requires forall i :: 0 <= i < |parts| ==> sep !in parts[i]
    ensures Split(Join(parts, sep), sep) == parts
  {
    if |parts| == 1 {
      SplitNoSeparator(parts[0], sep);
    } else {
      SplitJoin(parts[1..], sep);
      SplitPrefix(parts[0], Join(parts[1..], sep), sep);
      assert parts == [parts[0]] + parts[1..];
    }
  }

  lemma {:induction false} SplitNoSeparator(s: string, sep: char)
    requires sep !in s
    ensures Split(s, sep) == [s]
  {
    if |s| > 0 {
      SplitNoSeparator(s[1..], sep);
      assert s == [s[0]] + s[1..];
    }
  }

  lemma {:induction false} SplitPrefix(p: string, t: string, sep: char)
    requires sep !in p
    ensures Split(p + [sep] + t, sep) == [p] + Split(t, sep)
  {
    if |p| == 0 {
      assert p + [sep] + t == [sep] + t;
      assert (p + [sep] + t)[1..] == t;
    } else {
      var s := p + [sep] + t;
      assert s[1..] == p[1..] + [sep] + t;
      SplitPrefix(p[1..], t, sep);
      assert [s[0]] + p[1..] == p;
    }
  }

  /** `split` gives the single empty piece exactly on the empty string. */
  lemma SplitSingleEmpty(s: string, sep: char)
    ensures Split(s, sep) == [""] <==> s == ""
  {
    if Split(s, sep) == [""] {
      JoinSplit(s, sep);
    }
  }

  /** The method names of an aspect reference (Beans.js:475-479): the pieces of
      the `methods` attribute between `|`, and none for the empty string. */
  function MethodNames(methods: string): (r: seq<string>)
    ensures methods == "" <==> r == []
    ensures r != [] ==> Join(r, '|') == methods
    ensures forall i :: 0 <= i < |r| ==> '|' !in r[i]
  {
    SplitSingleEmpty(methods, '|');
    JoinSplit(methods, '|');
    var parts := Split(methods, '|');
    if |parts| == 1 && parts[0] == "" then [] else parts
  }
}
