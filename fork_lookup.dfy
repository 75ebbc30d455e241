/**
 * Name-only method resolution as `ForkServer.getMethod` performs it: walk the
 * runtime class and then its superclasses; at each class, search the methods
 * of its interfaces (in declaration order) before the class's own methods;
 * return the first method whose name matches, or null.
 */
module ForkLookup {
  import opened Base
  import opened ForkWire

  /** The first method of `ms` called `name`. */
  function FindIn(ms: seq<MethodDesc>, name: string): (r: Option<MethodDesc>)
    ensures r.Some? ==> r.value in ms && r.value.name == name
    ensures r.None? <==> forall i :: 0 <= i < |ms| ==> ms[i].name != name
  {
    if ms == [] then None
    else if ms[0].name == name then Some(ms[0])
    else FindIn(ms[1..], name)
  }

  /** The first match over the interfaces, each searched in turn. */
  function FindInInterfaces(ifaces: seq<Interface>, name: string): (r: Option<MethodDesc>)
    ensures r.Some? ==> r.value.name == name && exists k :: 0 <= k < |ifaces| && r.value in ifaces[k].methods
    ensures r.None? <==> forall k :: 0 <= k < |ifaces| ==> FindIn(ifaces[k].methods, name).None?
  {
    if ifaces == [] then None
    else match FindIn(ifaces[0].methods, name)
      case Some(m) => Some(m)
      case None => FindInInterfaces(ifaces[1..], name)
  }

  /** One class: its interfaces first, then its own methods. */
  function FindInLevel(l: Level, name: string): (r: Option<MethodDesc>)
    ensures r.Some? ==> r.value.name == name
    ensures r.Some? ==> r.value in l.methods || exists k :: 0 <= k < |l.interfaces| && r.value in l.interfaces[k].methods
    ensures r.None? <==>
      (forall k :: 0 <= k < |l.interfaces| ==> FindIn(l.interfaces[k].methods, name).None?) &&
      (forall i :: 0 <= i < |l.methods| ==> l.methods[i].name != name)
  {
    match FindInInterfaces(l.interfaces, name)
    case Some(m) => Some(m)
    case None => FindIn(l.methods, name)
  }

  /** The whole chain, from the runtime class upwards. */
  function FindMethod(classes: seq<Level>, name: string): (r: Option<MethodDesc>)
    ensures r.Some? ==> r.value.name == name
  {
    if classes == [] then None
    else match FindInLevel(classes[0], name)
      case Some(m) => Some(m)
      case None => FindMethod(classes[1..], name)
  }

  /*
   * An independent description of the same search: the order in which
   * getMethod visits methods, flattened into one sequence.
   */

  function InterfaceOrder(ifaces: seq<Interface>): seq<MethodDesc>
  {
    if ifaces == [] then [] else ifaces[0].methods + InterfaceOrder(ifaces[1..])
  }

  function LevelOrder(l: Level): seq<MethodDesc>
  {
    InterfaceOrder(l.interfaces) + l.methods
  }

  /** Every method getMethod may look at, in the order it looks at them. */
  function SearchOrder(classes: seq<Level>): seq<MethodDesc>
  {
    if classes == [] then [] else LevelOrder(classes[0]) + SearchOrder(classes[1..])
  }

  /** `i` is the first position of `ms` holding a method called `name`. */
  predicate FirstNamedAt(ms: seq<MethodDesc>, name: string, i: int)
  {
    0 <= i < |ms| && ms[i].name == name && forall j :: 0 <= j < i ==> ms[j].name != name
  }

  lemma {:induction false} FindInConcat(a: seq<MethodDesc>, b: seq<MethodDesc>, name: string)
    ensures FindIn(a + b, name) == match FindIn(a, name) case Some(m) => Some(m) case None => FindIn(b, name)
  {
    if a != [] {
      assert (a + b)[1..] == a[1..] + b;
      FindInConcat(a[1..], b, name);
    } else {
      assert a + b == b;
    }
  }

  lemma {:induction false} FindInInterfacesIsFlat(ifaces: seq<Interface>, name: string)
    ensures FindInInterfaces(ifaces, name) == FindIn(InterfaceOrder(ifaces), name)
  {
    if ifaces != [] {
      FindInInterfacesIsFlat(ifaces[1..], name);
      FindInConcat(ifaces[0].methods, InterfaceOrder(ifaces[1..]), name);
    }
  }

  /** The nested walk finds what a single scan of the search order finds. */
  lemma {:induction false} FindMethodIsFlat(classes: seq<Level>, name: string)
    ensures FindMethod(classes, name) == FindIn(SearchOrder(classes), name)
  {
    if classes != [] {
      var l := classes[0];
      FindMethodIsFlat(classes[1..], name);
      FindInInterfacesIsFlat(l.interfaces, name);
      FindInConcat(InterfaceOrder(l.interfaces), l.methods, name);
      FindInConcat(LevelOrder(l), SearchOrder(classes[1..]), name);
    }
  }

  lemma {:induction false} FindInFirst(ms: seq<MethodDesc>, name: string)
    ensures FindIn(ms, name).Some? ==> exists i :: FirstNamedAt(ms, name, i) && FindIn(ms, name).value == ms[i]
  {
    if ms != [] && ms[0].name != name {
      FindInFirst(ms[1..], name);
      if FindIn(ms[1..], name).Some? {
        var i :| FirstNamedAt(ms[1..], name, i) && FindIn(ms[1..], name).value == ms[1..][i];
        assert FirstNamedAt(ms, name, i + 1);
      }
    } else if ms != [] {
      assert FirstNamedAt(ms, name, 0);
    }
  }

  /**
   * getMethod's result is the method at the first position of the search
   * order whose name matches, and null exactly when no method there has that name.
   */
  lemma FindMethodFirstMatch(classes: seq<Level>, name: string)
    ensures FindMethod(classes, name).Some? ==>
      exists i :: FirstNamedAt(SearchOrder(classes), name, i) && FindMethod(classes, name).value == SearchOrder(classes)[i]
    ensures FindMethod(classes, name).None? <==>
      forall i :: 0 <= i < |SearchOrder(classes)| ==> SearchOrder(classes)[i].name != name
  {
    FindMethodIsFlat(classes, name);
    FindInFirst(SearchOrder(classes), name);
  }

  lemma {:induction false} FindInInterfacesAt(ifaces: seq<Interface>, name: string, k: nat, m: MethodDesc)
    requires k < |ifaces| && FindIn(ifaces[k].methods, name) == Some(m)
    requires forall j :: 0 <= j < k ==> FindIn(ifaces[j].methods, name).None?
    ensures FindInInterfaces(ifaces, name) == Some(m)
  {
    if k > 0 {
      FindInInterfacesAt(ifaces[1..], name, k - 1, m);
    }
  }

  /** A method of one of the runtime class's interfaces wins over a same-named method of the class itself. */
  lemma InterfaceBeforeClass(classes: seq<Level>, name: string, k: nat, m: MethodDesc)
    requires |classes| > 0 && k < |classes[0].interfaces|
    requires FindIn(classes[0].interfaces[k].methods, name) == Some(m)
    requires forall j :: 0 <= j < k ==> FindIn(classes[0].interfaces[j].methods, name).None?
    ensures FindMethod(classes, name) == Some(m)
  {
    FindInInterfacesAt(classes[0].interfaces, name, k, m);
  }
}
