/** Objective-C selectors and method lookup: a two-level pointer index that agrees with dispatch
by name.
*/
module ObjCDispatch {
  import opened MachO

  type Addr = nat   // 0 is the null pointer

  /** A method implementation: the program's own, or one of the runtime's defaults. */
  datatype Fn = User(code: Addr) | AllocFn | SelfFn | NoopFn | FalseFn | NullFn | ZeroFn

  type Imp = Option<Fn>

  /** METHOD_REGISTRY and SELECTOR_REGISTRY; `strings` are the C strings that can be read through
      a valid pointer, the interned selectors among them. */
  datatype Runtime = Runtime(
    methods: map<(Addr, Addr), Imp>,
    selectors: map<string, Addr>,
    strings: map<Addr, string>)

  const LOW_PAGE: nat := 0x1000
  const USER_SPACE: nat := 0x8000_0000_0000
  const MAX_NAME: nat := 256

  /** What answers a name nobody registered. */
  function Default(name: string): (f: Fn) {
    if name == "alloc" || name == "allocWithZone:" then AllocFn
    else if name == "init" || name == "new" then SelfFn
    else if name == "retain" || name == "autorelease" || name == "self" then SelfFn
    else if name == "release" || name == "dealloc" then NoopFn
    else if name == "respondsToSelector:" || name == "conformsToProtocol:"
            || name == "isKindOfClass:" || name == "isMemberOfClass:" then FalseFn
    else if name == "class" || name == "superclass" || name == "description" || name == "debugDescription" then NullFn
    else if name == "hash" || name == "count" || name == "length" then ZeroFn
    else NullFn
  }

  /** An isa outside user space is treated as missing. */
  function SafeIsa(isa: Addr): (c: Addr) {
    if LOW_PAGE < isa < USER_SPACE then isa else 0
  }

  /** The entry for `sel` of the receiver (a class object), else of its isa. */
  function FindExact(r: Runtime, receiver: Addr, isa: Addr, sel: Addr): (f: Option<Imp>) {
    if receiver != 0 && (receiver, sel) in r.methods then Some(r.methods[(receiver, sel)])
    else if SafeIsa(isa) != 0 && (SafeIsa(isa), sel) in r.methods then Some(r.methods[(SafeIsa(isa), sel)])
    else None
  }

  /** The canonical pointer is tried only for a foreign pointer, above the low page, to a short name. */
  predicate TriesCanonical(r: Runtime, sel: Addr)
    requires sel in r.strings
  {
    var name := r.strings[sel];
    sel > LOW_PAGE && |name| < MAX_NAME && name in r.selectors && r.selectors[name] != sel
  }

  /** `grafted_lookup_method`. */
  function Lookup(r: Runtime, receiver: Addr, isa: Addr, sel: Addr): (f: Imp)
    requires sel in r.strings
  {
    if receiver == 0 then None
    else
      var name := r.strings[sel];
      match FindExact(r, receiver, isa, sel)
      case Some(imp) => imp
      case None =>
        if !TriesCanonical(r, sel) then Some(Default(name))
        else
          match FindExact(r, receiver, isa, r.selectors[name])
          case Some(imp) => imp
          case None => Some(Default(name))
  }

  // ---- Registration ----

  /** `sel_registerName` on a pointer to `name`; `at` is where a new copy would be allocated. */
  function Intern(r: Runtime, name: string, at: Addr): (n: Runtime) {
    if name in r.selectors then r
    else r.(selectors := r.selectors[name := at], strings := r.strings[at := name])
  }

  function AddMethod(r: Runtime, cls: Addr, sel: Addr, imp: Imp): (n: Runtime) {
    if (cls, sel) in r.methods then r else r.(methods := r.methods[(cls, sel) := imp])
  }

  // ---- Dispatch by name ----

  /** The table a programmer has in mind: per class and method name, an implementation. */
  type Table = map<(Addr, string), Imp>

  /** The isa is a user-space address above the low page: only then is it looked at. */
  predicate IsClassPointer(isa: Addr) {
    0x1000 < isa < 0x8000_0000_0000
  }

  function ByName(t: Table, receiver: Addr, isa: Addr, name: string): (f: Imp) {
    if receiver == 0 then None
    else if (receiver, name) in t then t[(receiver, name)]
    else if IsClassPointer(isa) && (isa, name) in t then t[(isa, name)]
    else Some(Default(name))
  }

  /** Interned pointers point to their own name, above the low page. */
  ghost predicate InternedOk(r: Runtime) {
    forall n :: n in r.selectors ==>
      r.selectors[n] > LOW_PAGE && r.selectors[n] in r.strings && r.strings[r.selectors[n]] == n
  }

  /** The pointer index holds exactly the table, each name through its interned pointer. */
  ghost predicate Implements(r: Runtime, t: Table) {
    && InternedOk(r)
    && (forall c, n :: (c, n) in t ==>
          n in r.selectors && (c, r.selectors[n]) in r.methods && r.methods[(c, r.selectors[n])] == t[(c, n)])
    && (forall c, p :: (c, p) in r.methods ==>
          p in r.strings && r.strings[p] in r.selectors && r.selectors[r.strings[p]] == p && (c, r.strings[p]) in t)
  }

  /** Interning is injective. */
  lemma InternInjective(r: Runtime, a: string, b: string)
    requires InternedOk(r) && a in r.selectors && b in r.selectors && r.selectors[a] == r.selectors[b]
    ensures a == b
  {
    assert r.strings[r.selectors[a]] == a;
  }

  /** Looking up an interned pointer is looking up its name. */
  lemma CanonicalExact(r: Runtime, t: Table, receiver: Addr, isa: Addr, name: string)
    requires Implements(r, t) && name in r.selectors && receiver != 0
    ensures var f := FindExact(r, receiver, isa, r.selectors[name]);
            ByName(t, receiver, isa, name) == if f.Some? then f.value else Some(Default(name))
  {
    hide Default;
    assert r.strings[r.selectors[name]] == name;
    assert (receiver, r.selectors[name]) in r.methods <==> (receiver, name) in t;
    assert (SafeIsa(isa), r.selectors[name]) in r.methods <==> (SafeIsa(isa), name) in t;
  }

  /** A pointer that is not the interned one has no entries of its own. */
  lemma ForeignExact(r: Runtime, t: Table, receiver: Addr, isa: Addr, sel: Addr)
    requires Implements(r, t) && sel in r.strings
    requires r.strings[sel] in r.selectors ==> r.selectors[r.strings[sel]] != sel
    ensures FindExact(r, receiver, isa, sel).None?
  {
  }

  /** A name that was never interned has no methods. */
  lemma UnknownName(r: Runtime, t: Table, receiver: Addr, isa: Addr, name: string)
    requires Implements(r, t) && name !in r.selectors && receiver != 0
    ensures ByName(t, receiver, isa, name) == Some(Default(name))
  {
  }

  /** The pointer is one the lookup resolves by name: interned, or short and above the low page. */
  predicate Resolvable(r: Runtime, sel: Addr)
    requires sel in r.strings
  {
    var name := r.strings[sel];
    (sel > 0x1000 && |name| < 256) || (name in r.selectors && r.selectors[name] == sel)
  }

  /** Method lookup is dispatch by name, whichever valid pointer carries the name: the receiver's
      entry, else the isa's, else the built-in default. It holds for interned pointers of any
      length, and for foreign pointers above the low page to names under 256 bytes. */
  lemma LookupRefines(r: Runtime, t: Table, receiver: Addr, isa: Addr, sel: Addr)
    requires Implements(r, t) && sel in r.strings && Resolvable(r, sel)
    ensures Lookup(r, receiver, isa, sel) == ByName(t, receiver, isa, r.strings[sel])
  {
    hide Default, Implements, FindExact, ByName;
    var name := r.strings[sel];
    if receiver == 0 {
      NullReceiver(t, isa, name);
    } else if name in r.selectors {
      CanonicalExact(r, t, receiver, isa, name);
      if r.selectors[name] != sel {
        ForeignExact(r, t, receiver, isa, sel);
      }
    } else {
      ForeignExact(r, t, receiver, isa, sel);
      UnknownName(r, t, receiver, isa, name);
    }
  }

  lemma NullReceiver(t: Table, isa: Addr, name: string)
    ensures ByName(t, 0, isa, name) == None
  {
  }

  /** Some class of the receiver answers the name itself. */
  predicate Overridden(t: Table, receiver: Addr, isa: Addr, name: string) {
    (receiver, name) in t || (IsClassPointer(isa) && (isa, name) in t)
  }

  /** A program registers its own code, or null. */
  ghost predicate ProgramCode(t: Table) {
    forall k :: k in t && t[k].Some? ==> t[k].value.User?
  }

  /** Any other pointer, a foreign one to a long name or in the low page, gets the default. */
  lemma LongNamesGetDefault(r: Runtime, t: Table, receiver: Addr, isa: Addr, sel: Addr)
    requires Implements(r, t) && sel in r.strings && receiver != 0 && !Resolvable(r, sel)
    ensures Lookup(r, receiver, isa, sel) == Some(Default(r.strings[sel]))
  {
    hide Default;
    ForeignExact(r, t, receiver, isa, sel);
  }

  /** Exactly when lookup is dispatch by name: the pointer is resolvable, or no class of the receiver
      answers the name. */
  lemma LookupExact(r: Runtime, t: Table, receiver: Addr, isa: Addr, sel: Addr)
    requires Implements(r, t) && ProgramCode(t) && sel in r.strings && receiver != 0
    ensures Lookup(r, receiver, isa, sel) == ByName(t, receiver, isa, r.strings[sel]) <==>
            Resolvable(r, sel) || !Overridden(t, receiver, isa, r.strings[sel])
  {
    hide Default, Implements, Lookup;
    if Resolvable(r, sel) {
      LookupRefines(r, t, receiver, isa, sel);
    } else {
      LongNamesGetDefault(r, t, receiver, isa, sel);
      DefaultsAreBuiltIn(r.strings[sel]);
    }
  }

  /** What a message reaches: the receiver's own method (a class object), else the method of the class
      its isa points to, else the built-in default. An isa outside user space supplies nothing. */
  lemma MethodFound(r: Runtime, t: Table, receiver: Addr, isa: Addr, sel: Addr)
    requires Implements(r, t) && sel in r.strings && Resolvable(r, sel) && receiver != 0
    ensures var name := r.strings[sel];
            Lookup(r, receiver, isa, sel) ==
              if (receiver, name) in t then t[(receiver, name)]
              else if IsClassPointer(isa) && (isa, name) in t then t[(isa, name)]
              else Some(Default(name))
  {
    hide Default, Implements, Lookup;
    LookupRefines(r, t, receiver, isa, sel);
  }

  /** A message to null reaches nothing. */
  lemma NullReceiverFindsNothing(r: Runtime, isa: Addr, sel: Addr)
    requires sel in r.strings
    ensures Lookup(r, 0, isa, sel) == None
  {
  }

  /** The built-in defaults, by the kind of answer they give. */
  lemma BuiltInDefaults(name: string)
    ensures Default(name) == AllocFn <==> name in ["alloc", "allocWithZone:"]
    ensures Default(name) == SelfFn <==> name in ["init", "new", "retain", "autorelease", "self"]
    ensures Default(name) == NoopFn <==> name in ["release", "dealloc"]
    ensures Default(name) == FalseFn <==>
            name in ["respondsToSelector:", "conformsToProtocol:", "isKindOfClass:", "isMemberOfClass:"]
    ensures Default(name) == ZeroFn <==> name in ["hash", "count", "length"]
    ensures !Default(name).User?
  {
  }

  /** A 256-byte name registered for the receiver is missed through a second pointer to it. */
  lemma LongNameMissed(name: string, at: Addr, other: Addr, receiver: Addr, code: Addr)
    requires |name| >= 256 && 0x1000 < at && at != other && receiver != 0
    ensures var r := Runtime(map[(receiver, at) := Some(User(code))], map[name := at], map[at := name, other := name]);
            var t: Table := map[(receiver, name) := Some(User(code))];
            Implements(r, t) && ByName(t, receiver, 0, name) == Some(User(code)) &&
            Lookup(r, receiver, 0, other) == Some(Default(name)) != Some(User(code))
  {
    hide Default;
    var r := Runtime(map[(receiver, at) := Some(User(code))], map[name := at], map[at := name, other := name]);
    var t: Table := map[(receiver, name) := Some(User(code))];
    assert (receiver, other) !in r.methods;
    DefaultsAreBuiltIn(name);
  }

  lemma DefaultsAreBuiltIn(name: string)
    ensures !Default(name).User?
  {
  }

  // ---- Runs ----

  /** A program registers names, and methods under the pointers that registering returned; `at` is
      where the allocator puts a new selector. Mapping a library makes its own selector strings
      readable. New strings lie apart from every readable one. */
  datatype Op =
    | RegisterName(name: string, at: Addr)
    | RegisterMethod(cls: Addr, name: string, at: Addr, imp: Imp)
    | MapString(at: Addr, name: string)

  predicate CanApply(r: Runtime, op: Op) {
    match op
    case MapString(at, _) => at !in r.strings
    case _ => op.name !in r.selectors ==> op.at > LOW_PAGE && op.at !in r.strings
  }

  function Apply(r: Runtime, op: Op): (n: Runtime) {
    match op
    case RegisterName(name, at) => Intern(r, name, at)
    case RegisterMethod(c, name, at, imp) =>
      var r1 := Intern(r, name, at);
      if name in r1.selectors then AddMethod(r1, c, r1.selectors[name], imp) else r1
    case MapString(at, name) => r.(strings := r.strings[at := name])
  }

  /** The first registration of a (class, name) wins. */
  function ApplyTable(t: Table, op: Op): (n: Table) {
    match op
    case RegisterName(_, _) => t
    case MapString(_, _) => t
    case RegisterMethod(c, n, _, imp) => if (c, n) in t then t else t[(c, n) := imp]
  }

  lemma KeepImplements(r: Runtime, t: Table, op: Op)
    requires Implements(r, t) && CanApply(r, op)
    ensures Implements(Apply(r, op), ApplyTable(t, op))
  {
    if !op.MapString? {
      InternKeeps(r, t, op);
    }
    if op.RegisterMethod? {
      AddKeeps(Intern(r, op.name, op.at), t, op.cls, op.name, op.imp);
    }
  }

  lemma InternKeeps(r: Runtime, t: Table, op: Op)
    requires Implements(r, t) && CanApply(r, op) && !op.MapString?
    ensures Implements(Intern(r, op.name, op.at), t) && op.name in Intern(r, op.name, op.at).selectors
  {
  }

  lemma AddKeeps(r: Runtime, t: Table, c: Addr, n: string, imp: Imp)
    requires Implements(r, t) && n in r.selectors
    ensures Implements(AddMethod(r, c, r.selectors[n], imp), if (c, n) in t then t else t[(c, n) := imp])
  {
    var p := r.selectors[n];
    assert r.strings[p] == n;
    assert (c, p) in r.methods <==> (c, n) in t;
    forall c', n' | (c', n') in t && (c', r.selectors[n']) == (c, p) ensures n' == n {
      InternInjective(r, n', n);
    }
  }

  const EMPTY := Runtime(map[], map[], map[])

  ghost predicate RunsTo(r0: Runtime, t0: Table, ops: seq<Op>, r1: Runtime, t1: Table)
    decreases ops
  {
    if ops == [] then r0 == r1 && t0 == t1
    else CanApply(r0, ops[0]) && RunsTo(Apply(r0, ops[0]), ApplyTable(t0, ops[0]), ops[1..], r1, t1)
  }

  /** Over every run of registrations the index implements the table; interned pointers and
      registered methods never change. */
  lemma {:induction false} RunImplements(r0: Runtime, t0: Table, ops: seq<Op>, r1: Runtime, t1: Table)
    requires Implements(r0, t0) && RunsTo(r0, t0, ops, r1, t1)
    ensures Implements(r1, t1)
    ensures forall n :: n in r0.selectors ==> n in r1.selectors && r1.selectors[n] == r0.selectors[n]
    ensures forall k :: k in t0 ==> k in t1 && t1[k] == t0[k]
    decreases ops
  {
    hide Implements;
    if ops != [] {
      KeepImplements(r0, t0, ops[0]);
      RunImplements(Apply(r0, ops[0]), ApplyTable(t0, ops[0]), ops[1..], r1, t1);
      StepGrows(r0, t0, ops[0]);
    }
  }

  lemma StepGrows(r: Runtime, t: Table, op: Op)
    ensures forall n :: n in r.selectors ==> n in Apply(r, op).selectors && Apply(r, op).selectors[n] == r.selectors[n]
    ensures forall k :: k in t ==> k in ApplyTable(t, op) && ApplyTable(t, op)[k] == t[k]
  {
  }

  /** Whatever a program registers and maps from the start, sending a message through any resolvable
      pointer is dispatch by name over what it registered first. */
  lemma RunDispatches(ops: seq<Op>, r: Runtime, t: Table, receiver: Addr, isa: Addr, sel: Addr)
    requires RunsTo(EMPTY, map[], ops, r, t) && sel in r.strings
    ensures Implements(r, t)
    ensures Resolvable(r, sel) && receiver != 0 ==>
              var name := r.strings[sel];
              Lookup(r, receiver, isa, sel) ==
                if (receiver, name) in t then t[(receiver, name)]
                else if IsClassPointer(isa) && (isa, name) in t then t[(isa, name)]
                else Some(Default(name))
  {
    hide Lookup, Default, RunsTo, Resolvable;
    assert Implements(EMPTY, map[]);
    RunImplements(EMPTY, map[], ops, r, t);
    if Resolvable(r, sel) && receiver != 0 {
      MethodFound(r, t, receiver, isa, sel);
    }
  }

  // ---- The runtime object ----

  class ObjCRuntime {
    var methods: map<(Addr, Addr), Imp>
    var selectors: map<string, Addr>
    var strings: map<Addr, string>

    function State(): (r: Runtime)
      reads this
    {
      Runtime(methods, selectors, strings)
    }

    constructor ()
      ensures State() == EMPTY
    {
      methods, selectors, strings := map[], map[], map[];
    }

    /** The binary's own selector strings become readable when it is mapped. */
    method MapString(p: Addr, text: string)
      requires CanApply(State(), Op.MapString(p, text))
      modifies this
      ensures State() == Apply(old(State()), Op.MapString(p, text))
    {
      strings := strings[p := text];
    }

    method SelRegisterName(name: Addr, at: Addr) returns (sel: Addr)
      requires name != 0 ==> name in strings && CanApply(State(), RegisterName(strings[name], at))
      modifies this
      ensures name == 0 ==> sel == 0 && State() == old(State())
      ensures name != 0 ==>
        var text := old(strings)[name];
        State() == Intern(old(State()), text, at) && text in selectors && sel == selectors[text]
    {
      if name == 0 {
        return 0;
      }
      var text := strings[name];
      if text in selectors {
        return selectors[text];
      }
      strings := strings[at := text];
      selectors := selectors[text := at];
      return at;
    }

    method ClassAddMethod(cls: Addr, sel: Addr, imp: Imp) returns (added: bool)
      modifies this
      ensures State() == AddMethod(old(State()), cls, sel, imp)
      ensures added <==> (cls, sel) !in old(methods)
    {
      if (cls, sel) in methods {
        return false;
      }
      methods := methods[(cls, sel) := imp];
      return true;
    }

    method LookupMethod(receiver: Addr, isa: Addr, selector: Addr) returns (imp: Imp)
      requires selector in strings
      ensures imp == Lookup(State(), receiver, isa, selector)
    {
      hide Default;
      if receiver == 0 {
        return None;
      }
      var safeIsa := if LOW_PAGE < isa < USER_SPACE then isa else 0;
      var classes := [receiver, safeIsa];
      assert |classes| == 2 && classes[0] == receiver && classes[1] == safeIsa == SafeIsa(isa);
      var found := FindIn(classes, selector);
      if found.Some? {
        assert FindExact(State(), receiver, isa, selector) == found;
        return found.value;
      }
      assert FindExact(State(), receiver, isa, selector) == None;
      var name := strings[selector];
      if selector > LOW_PAGE && |name| < MAX_NAME && name in selectors {
        var canonical := selectors[name];
        if canonical != selector {
          found := FindIn(classes, canonical);
          assert FindExact(State(), receiver, isa, canonical) == found;
          if found.Some? {
            return found.value;
          }
        }
      }
      return Some(Default(name));
    }

    /** The loop over the classes to check: the first non-null class with an entry. */
    method FindIn(classes: seq<Addr>, sel: Addr) returns (found: Option<Imp>)
      ensures found.None? ==> forall i :: 0 <= i < |classes| ==> classes[i] == 0 || (classes[i], sel) !in methods
      ensures found.Some? ==>
        exists i :: 0 <= i < |classes| && classes[i] != 0 && (classes[i], sel) in methods &&
          found.value == methods[(classes[i], sel)] &&
          forall k :: 0 <= k < i ==> classes[k] == 0 || (classes[k], sel) !in methods
    {
      for i := 0 to |classes|
        invariant forall k :: 0 <= k < i ==> classes[k] == 0 || (classes[k], sel) !in methods
      {
        if classes[i] == 0 {
          continue;
        }
        if (classes[i], sel) in methods {
          return Some(methods[(classes[i], sel)]);
        }
      }
      return None;
    }
  }
}
