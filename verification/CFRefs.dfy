/** CF reference counts: CFRetain, CFRelease, CFDictionary and CFArray over one heap, with an
exact ledger of who holds every reference.
*/
module CFRefs {
  import opened MachO

  type Ptr = nat   // 0 is the null pointer

  const MAX: nat := 0xFFFF_FFFF

  datatype Obj = Leaf | Dict(entries: map<Ptr, Ptr>) | Arr(values: seq<Ptr>)

  /** A heap cell: free, or an object behind a 32-bit `refcount`. */
  datatype Slot = Free | Live(rc: nat, obj: Obj)

  type Slots = seq<Slot>

  function At(h: Slots, p: Ptr): (s: Slot) {
    if p < |h| then h[p] else Free
  }

  /** `fetch_add` and `fetch_sub` on an AtomicU32 wrap around. */
  function RetainAt(h: Slots, p: Ptr): (r: Slots)
    ensures |r| == |h|
  {
    match At(h, p)
    case Free => h
    case Live(rc, o) => h[p := Live((rc + 1) % (MAX + 1), o)]
  }

  function ReleaseAt(h: Slots, p: Ptr): (r: Slots)
    ensures |r| == |h|
  {
    match At(h, p)
    case Free => h
    case Live(rc, o) =>
      if rc == 1 then h[p := Free] else h[p := Live(if rc == 0 then MAX else rc - 1, o)]
  }

  /** Allocation puts a new object in some free cell; null is never handed out. */
  predicate CanAllocate(h: Slots, at: Ptr) {
    0 < at <= |h| && At(h, at).Free?
  }

  function Allocate(h: Slots, at: Ptr, o: Obj): (r: Slots)
    requires CanAllocate(h, at)
  {
    if at == |h| then h + [Live(1, o)] else h[at := Live(1, o)]
  }

  // ---- Occurrences ----

  function KeysOf(e: map<Ptr, Ptr>, p: Ptr): (ks: set<Ptr>) {
    set k | k in e && e[k] == p
  }

  function CountSeq(s: seq<Ptr>, p: Ptr): (n: nat) {
    multiset(s)[p]
  }

  /** How often `p` occurs in an object. */
  function Count(o: Obj, p: Ptr): (n: nat) {
    match o
    case Leaf => 0
    case Dict(e) => |KeysOf(e, p)|
    case Arr(v) => CountSeq(v, p)
  }

  function CountSlot(s: Slot, p: Ptr): (n: nat) {
    if s.Live? then Count(s.obj, p) else 0
  }

  /** Occurrences of `p` in all live containers. */
  function Occ(h: Slots, p: Ptr): (n: nat) {
    if h == [] then 0 else Occ(h[..|h| - 1], p) + CountSlot(h[|h| - 1], p)
  }

  lemma {:induction false} OccUpdate(h: Slots, i: nat, s: Slot, p: Ptr)
    requires i < |h|
    ensures Occ(h[i := s], p) + CountSlot(h[i], p) == Occ(h, p) + CountSlot(s, p)
  {
    var n := |h| - 1;
    if i == n {
      assert h[i := s][..n] == h[..n];
    } else {
      assert h[i := s][..n] == h[..n][i := s];
      OccUpdate(h[..n], i, s, p);
    }
  }

  lemma OccAppend(h: Slots, s: Slot, p: Ptr)
    ensures Occ(h + [s], p) == Occ(h, p) + CountSlot(s, p)
  {
    assert (h + [s])[..|h|] == h;
  }

  lemma {:induction false} OccHolds(h: Slots, i: nat, p: Ptr)
    requires i < |h| && CountSlot(h[i], p) > 0
    ensures Occ(h, p) > 0
  {
    if i < |h| - 1 {
      OccHolds(h[..|h| - 1], i, p);
    }
  }

  lemma CountDictSet(e: map<Ptr, Ptr>, k: Ptr, v: Ptr, p: Ptr)
    ensures Count(Dict(e[k := v]), p) + (if k in e && e[k] == p then 1 else 0) ==
            Count(Dict(e), p) + (if v == p then 1 else 0)
  {
    var ks, ks' := KeysOf(e, p), KeysOf(e[k := v], p);
    assert ks' == (ks - {k}) + (if v == p then {k} else {});
  }

  lemma CountDictRemove(e: map<Ptr, Ptr>, k: Ptr, p: Ptr)
    ensures Count(Dict(e - {k}), p) + (if k in e && e[k] == p then 1 else 0) == Count(Dict(e), p)
  {
    assert KeysOf(e - {k}, p) == KeysOf(e, p) - {k};
  }

  // ---- The ledger ----

  /** The heap, and two ghost accounts: references owned by clients, and references nobody can
      give back any more. */
  datatype Ledger = Ledger(heap: Slots, owned: map<Ptr, nat>, leaked: map<Ptr, nat>)

  function Get(m: map<Ptr, nat>, p: Ptr): (n: nat) {
    if p in m then m[p] else 0
  }

  /** Add one reference to each occurrence of an element of `o`. */
  function LeakAll(m: map<Ptr, nat>, o: Obj): (r: map<Ptr, nat>)
    ensures forall p :: Get(r, p) == Get(m, p) + Count(o, p)
  {
    var r := map p | p in m.Keys + Elements(o) :: Get(m, p) + Count(o, p);
    forall p ensures Get(r, p) == Get(m, p) + Count(o, p) {
      if p !in r && Count(o, p) > 0 {
        CountedIsElement(o, p);
      }
    }
    r
  }

  function Elements(o: Obj): (s: set<Ptr>) {
    match o
    case Leaf => {}
    case Dict(e) => e.Values
    case Arr(v) => set x | x in v
  }

  lemma CountedIsElement(o: Obj, p: Ptr)
    ensures Count(o, p) > 0 <==> p in Elements(o)
  {
    match o
    case Leaf =>
    case Dict(e) =>
      if p in e.Values {
        var k :| k in e && e[k] == p;
        assert k in KeysOf(e, p);
      } else {
        assert KeysOf(e, p) == {};
      }
    case Arr(v) =>
  }

  function Add(m: map<Ptr, nat>, p: Ptr): (r: map<Ptr, nat>)
    ensures forall q :: Get(r, q) == Get(m, q) + if q == p then 1 else 0
  {
    m[p := Get(m, p) + 1]
  }

  function Drop(m: map<Ptr, nat>, p: Ptr): (r: map<Ptr, nat>)
    ensures forall q :: Get(r, q) == if q == p && Get(m, q) > 0 then Get(m, q) - 1 else Get(m, q)
  {
    if Get(m, p) > 0 then m[p := Get(m, p) - 1] else m
  }

  /** All references to `p`; `flight` are those an operation is about to store or to give back. */
  ghost function Refs(l: Ledger, flight: multiset<Ptr>, p: Ptr): (n: nat) {
    Get(l.owned, p) + Occ(l.heap, p) + Get(l.leaked, p) + flight[p]
  }

  ghost predicate BalancedAt(l: Ledger, flight: multiset<Ptr>, p: Ptr) {
    match At(l.heap, p)
    case Free => Refs(l, flight, p) == 0
    case Live(rc, _) => 1 <= rc <= MAX && rc == Refs(l, flight, p)
  }

  ghost predicate BalancedBut(l: Ledger, flight: multiset<Ptr>) {
    At(l.heap, 0).Free? && forall p: Ptr :: p > 0 ==> BalancedAt(l, flight, p)
  }

  /** The exact accounting identity: the reference count of every live object is the number of
      references owned by clients, plus its occurrences in live containers, plus the leaked ones;
      a free cell is referred to by nobody. */
  ghost predicate Balanced(l: Ledger) {
    BalancedBut(l, multiset{})
  }

  // ---- Elementary moves ----

  predicate Retainable(h: Slots, p: Ptr) {
    p == 0 || (At(h, p).Live? && At(h, p).rc < MAX)
  }

  lemma RetainBalance(l: Ledger, flight: multiset<Ptr>, p: Ptr)
    requires BalancedBut(l, flight) && Retainable(l.heap, p) && p != 0
    ensures BalancedBut(l.(heap := RetainAt(l.heap, p)), flight + multiset{p})
  {
    var l' := l.(heap := RetainAt(l.heap, p));
    forall q: Ptr | q > 0 ensures BalancedAt(l', flight + multiset{p}, q) {
      assert BalancedAt(l, flight, q);
      OccUpdate(l.heap, p, l'.heap[p], q);
    }
  }

  /** CFRelease on a counted reference; a freed container takes the references it holds with it. */
  function Released(l: Ledger, p: Ptr): (r: Ledger) {
    Ledger(ReleaseAt(l.heap, p), l.owned,
           if At(l.heap, p).Live? && At(l.heap, p).rc == 1 then LeakAll(l.leaked, At(l.heap, p).obj) else l.leaked)
  }

  lemma ReleaseBalance(l: Ledger, flight: multiset<Ptr>, p: Ptr)
    requires BalancedBut(l, flight) && p != 0 && p in flight
    ensures BalancedBut(Released(l, p), flight - multiset{p})
  {
    hide LeakAll, Count;
    assert BalancedAt(l, flight, p);
    var l' := Released(l, p);
    forall q: Ptr | q > 0 ensures BalancedAt(l', flight - multiset{p}, q) {
      assert BalancedAt(l, flight, q);
      OccUpdate(l.heap, p, l'.heap[p], q);
    }
  }

  /** Replace the contents of container `c`; `add` is the reference it gains, `gone` the one it
      gives up (0 for none). */
  lemma RewriteBalance(l: Ledger, c: Ptr, o: Obj, add: Ptr, gone: Ptr, flight: multiset<Ptr>)
    requires At(l.heap, c).Live? && BalancedBut(l, flight)
    requires forall p: Ptr :: p > 0 ==>
      Count(o, p) + (if p == gone then 1 else 0) == Count(At(l.heap, c).obj, p) + (if p == add then 1 else 0)
    requires add == 0 || add in flight
    ensures BalancedBut(l.(heap := l.heap[c := At(l.heap, c).(obj := o)]),
                        flight - multiset{add} + (if gone == 0 then multiset{} else multiset{gone}))
  {
    hide Count;
    var l' := l.(heap := l.heap[c := At(l.heap, c).(obj := o)]);
    var flight' := flight - multiset{add} + (if gone == 0 then multiset{} else multiset{gone});
    forall q: Ptr | q > 0 ensures BalancedAt(l', flight', q) {
      assert BalancedAt(l, flight, q);
      OccUpdate(l.heap, c, l'.heap[c], q);
    }
  }

  /** A new object: its elements are the references in flight, and the client owns it. */
  lemma AllocateBalance(l: Ledger, flight: multiset<Ptr>, at: Ptr, o: Obj)
    requires BalancedBut(l, flight) && CanAllocate(l.heap, at)
    requires forall p: Ptr :: p > 0 ==> flight[p] == Count(o, p)
    ensures Balanced(Ledger(Allocate(l.heap, at, o), Add(l.owned, at), l.leaked))
  {
    hide Count;
    var l' := Ledger(Allocate(l.heap, at, o), Add(l.owned, at), l.leaked);
    assert BalancedAt(l, flight, at);
    forall q: Ptr | q > 0 ensures BalancedAt(l', multiset{}, q) {
      assert BalancedAt(l, flight, q);
      if at == |l.heap| {
        OccAppend(l.heap, Live(1, o), q);
      } else {
        OccUpdate(l.heap, at, Live(1, o), q);
      }
    }
  }

  // ---- Operations ----

  function IsDict(h: Slots, d: Ptr): (b: bool) { At(h, d).Live? && At(h, d).obj.Dict? }

  function IsArr(h: Slots, a: Ptr): (b: bool) { At(h, a).Live? && At(h, a).obj.Arr? }

  function Entries(h: Slots, d: Ptr): (e: map<Ptr, Ptr>)
    requires IsDict(h, d)
  {
    At(h, d).obj.entries
  }

  function Put(h: Slots, c: Ptr, o: Obj): (r: Slots)
    requires At(h, c).Live?
  {
    h[c := At(h, c).(obj := o)]
  }

  /** The loop of CFDictionaryCreate after `n` pairs: every non-null value is retained; a value
      replaced by a later pair with the same key stays retained for ever. */
  function Fill(h: Slots, leaked: map<Ptr, nat>, ks: seq<Ptr>, vs: seq<Ptr>, n: nat)
    : (r: (Slots, map<Ptr, nat>, map<Ptr, Ptr>))
    requires n <= |ks| && n <= |vs|
    ensures |r.0| == |h|
  {
    if n == 0 then (h, leaked, map[])
    else
      var (h1, leaked1, e) := Fill(h, leaked, ks, vs, n - 1);
      var k, v := ks[n - 1], vs[n - 1];
      (RetainAt(h1, v), if k in e && e[k] != 0 then Add(leaked1, e[k]) else leaked1, e[k := v])
  }

  /** The loop of CFArrayCreate after `n` values. */
  function RetainAll(h: Slots, vs: seq<Ptr>, n: nat): (r: Slots)
    requires n <= |vs|
    ensures |r| == |h|
  {
    if n == 0 then h else RetainAt(RetainAll(h, vs, n - 1), vs[n - 1])
  }

  datatype Op =
    | CreateLeaf(at: Ptr)
    | CreateMutableDict(at: Ptr)
    | CreateMutableArr(at: Ptr)
    | CreateDict(at: Ptr, keys: Option<seq<Ptr>>, vals: Option<seq<Ptr>>, num: int)
    | CreateArr(at: Ptr, vals: Option<seq<Ptr>>, num: int)
    | Retain(p: Ptr)
    | Release(p: Ptr)
    | SetValue(dict: Ptr, key: Ptr, value: Ptr)
    | RemoveValue(dict: Ptr, key: Ptr)
    | Append(arr: Ptr, value: Ptr)

  /** How many pairs (values) a Create call reads: none when an array is missing. */
  function PairCount(keys: Option<seq<Ptr>>, vals: Option<seq<Ptr>>, num: int): (n: nat) {
    if keys.Some? && vals.Some? && num > 0 then num else 0
  }

  predicate Readable(s: Option<seq<Ptr>>, n: nat) {
    n == 0 || (s.Some? && n <= |s.value|)
  }

  function Items(s: Option<seq<Ptr>>): (r: seq<Ptr>) {
    if s.Some? then s.value else []
  }

  /** A disciplined client: it passes live objects or null, gives back only references it owns, and
      never holds 2^32 references to one object. */
  predicate Disciplined(l: Ledger, op: Op) {
    match op
    case CreateLeaf(at) => CanAllocate(l.heap, at)
    case CreateMutableDict(at) => CanAllocate(l.heap, at)
    case CreateMutableArr(at) => CanAllocate(l.heap, at)
    case CreateDict(at, ks, vs, num) =>
      var n := PairCount(ks, vs, num);
      CanAllocate(l.heap, at) && Readable(ks, n) && Readable(vs, n) && AllRetainable(l.heap, Items(vs), n)
    case CreateArr(at, vs, num) =>
      var n := PairCount(vs, vs, num);
      CanAllocate(l.heap, at) && Readable(vs, n) && AllRetainable(l.heap, Items(vs), n)
    case Retain(p) => Retainable(l.heap, p)
    case Release(p) => p == 0 || Get(l.owned, p) > 0
    case SetValue(d, _, v) => d == 0 || (IsDict(l.heap, d) && Retainable(l.heap, v))
    case RemoveValue(d, _) => d == 0 || IsDict(l.heap, d)
    case Append(a, v) => a == 0 || (IsArr(l.heap, a) && Retainable(l.heap, v))
  }

  /** Each of the first `n` values is null or live, with room for `n` more references. */
  predicate AllRetainable(h: Slots, vs: seq<Ptr>, n: nat) {
    n <= |vs| && forall i :: 0 <= i < n ==> vs[i] == 0 || (At(h, vs[i]).Live? && At(h, vs[i]).rc + n <= MAX)
  }

  function Apply(l: Ledger, op: Op): (r: Ledger)
    requires Disciplined(l, op)
  {
    match op
    case CreateLeaf(at) => l.(heap := Allocate(l.heap, at, Leaf), owned := Add(l.owned, at))
    case CreateMutableDict(at) => l.(heap := Allocate(l.heap, at, Dict(map[])), owned := Add(l.owned, at))
    case CreateMutableArr(at) => l.(heap := Allocate(l.heap, at, Arr([])), owned := Add(l.owned, at))
    case CreateDict(at, ks, vs, num) =>
      var n := PairCount(ks, vs, num);
      var (h, leaked, e) := Fill(l.heap, l.leaked, Items(ks), Items(vs), n);
      FillCells(l.heap, l.leaked, Items(ks), Items(vs), n, at);
      Ledger(Allocate(h, at, Dict(e)), Add(l.owned, at), leaked)
    case CreateArr(at, vs, num) =>
      var n := PairCount(vs, vs, num);
      var h := RetainAll(l.heap, Items(vs), n);
      RetainCells(l.heap, Items(vs), n, at);
      Ledger(Allocate(h, at, Arr(Items(vs)[..n])), Add(l.owned, at), l.leaked)
    case Retain(p) => if p == 0 then l else l.(heap := RetainAt(l.heap, p), owned := Add(l.owned, p))
    case Release(p) => if p == 0 then l else Released(l.(owned := Drop(l.owned, p)), p)
    case SetValue(d, k, v) =>
      if d == 0 then l
      else
        var h := RetainAt(l.heap, v);
        var e := Entries(h, d);
        var l1 := l.(heap := Put(h, d, Dict(e[k := v])));
        if k in e && e[k] != 0 then Released(l1, e[k]) else l1
    case RemoveValue(d, k) =>
      if d == 0 then l
      else
        var e := Entries(l.heap, d);
        var l1 := l.(heap := Put(l.heap, d, Dict(e - {k})));
        if k in e && e[k] != 0 then Released(l1, e[k]) else l1
    case Append(a, v) =>
      if a == 0 then l
      else
        var h := RetainAt(l.heap, v);
        l.(heap := Put(h, a, Arr(At(h, a).obj.values + [v])))
  }

  /** Filling a dictionary frees and allocates nothing. */
  lemma {:induction false} FillCells(h: Slots, leaked: map<Ptr, nat>, ks: seq<Ptr>, vs: seq<Ptr>, n: nat, p: Ptr)
    requires n <= |ks| && n <= |vs|
    ensures var r := Fill(h, leaked, ks, vs, n).0;
            At(r, p).Live? == At(h, p).Live? && (At(h, p).Live? ==> At(r, p).obj == At(h, p).obj)
  {
    if n > 0 {
      FillCells(h, leaked, ks, vs, n - 1, p);
    }
  }

  lemma {:induction false} RetainCells(h: Slots, vs: seq<Ptr>, n: nat, p: Ptr)
    requires n <= |vs|
    ensures var r := RetainAll(h, vs, n);
            At(r, p).Live? == At(h, p).Live? && (At(h, p).Live? ==> At(r, p).obj == At(h, p).obj)
  {
    if n > 0 {
      RetainCells(h, vs, n - 1, p);
    }
  }

  // ---- The accounting identity is kept ----

  /** The references a partly filled dictionary is about to hold. */
  ghost predicate FlightOf(flight: multiset<Ptr>, e: map<Ptr, Ptr>) {
    forall p: Ptr :: p > 0 ==> flight[p] == Count(Dict(e), p)
  }

  lemma {:induction false} FillBalance(l: Ledger, ks: seq<Ptr>, vs: seq<Ptr>, n: nat) returns (flight: multiset<Ptr>)
    requires Balanced(l) && n <= |ks| && AllRetainable(l.heap, vs, n)
    ensures var (h, leaked, e) := Fill(l.heap, l.leaked, ks, vs, n);
            BalancedBut(Ledger(h, l.owned, leaked), flight) && FlightOf(flight, e)
  {
    hide Count, Balanced;
    flight := multiset{};
    FillGrows(l.heap, l.leaked, ks, vs, 0);
    StartFlight(l);
    var i := 0;
    while i < n
      invariant i <= n
      invariant var (h, leaked, e) := Fill(l.heap, l.leaked, ks, vs, i);
                BalancedBut(Ledger(h, l.owned, leaked), flight) && FlightOf(flight, e)
    {
      FillGrows(l.heap, l.leaked, ks, vs, i);
      flight := FillOne(l, ks, vs, n, i, flight);
      i := i + 1;
    }
  }

  lemma StartFlight(l: Ledger)
    requires Balanced(l)
    ensures BalancedBut(l, multiset{}) && FlightOf(multiset{}, map[])
  {
    forall p: Ptr | p > 0 ensures Count(Dict(map[]), p) == 0 {
      assert KeysOf(map[], p) == {};
    }
  }

  /** Filling raises each count by at most the number of pairs read. */
  lemma {:induction false} FillGrows(h: Slots, leaked: map<Ptr, nat>, ks: seq<Ptr>, vs: seq<Ptr>, i: nat)
    requires i <= |ks| && i <= |vs|
    ensures var r := Fill(h, leaked, ks, vs, i).0;
            forall p :: At(h, p).Live? && At(h, p).rc + i <= MAX ==> At(r, p).Live? && At(r, p).rc <= At(h, p).rc + i
  {
    if i > 0 {
      FillGrows(h, leaked, ks, vs, i - 1);
    }
  }

  lemma FillOne(l: Ledger, ks: seq<Ptr>, vs: seq<Ptr>, n: nat, i: nat, flight: multiset<Ptr>) returns (flight': multiset<Ptr>)
    requires i < n <= |ks| && AllRetainable(l.heap, vs, n)
    requires var r := Fill(l.heap, l.leaked, ks, vs, i);
             BalancedBut(Ledger(r.0, l.owned, r.1), flight) && FlightOf(flight, r.2)
    requires var r := Fill(l.heap, l.leaked, ks, vs, i).0;
             forall p :: At(l.heap, p).Live? && At(l.heap, p).rc + i <= MAX ==> At(r, p).Live? && At(r, p).rc <= At(l.heap, p).rc + i
    ensures var r := Fill(l.heap, l.leaked, ks, vs, i + 1);
            BalancedBut(Ledger(r.0, l.owned, r.1), flight') && FlightOf(flight', r.2)
  {
    hide Count, BalancedBut;
    var (h, leaked, e) := Fill(l.heap, l.leaked, ks, vs, i);
    var k, v := ks[i], vs[i];
    flight' := flight;
    if v != 0 {
      RetainBalance(Ledger(h, l.owned, leaked), flight, v);
      flight' := flight + multiset{v};
    } else {
      RetainNull(Ledger(h, l.owned, leaked), flight);
    }
    forall p: Ptr ensures Count(Dict(e[k := v]), p) + (if k in e && e[k] == p then 1 else 0) ==
                          Count(Dict(e), p) + (if v == p then 1 else 0) {
      CountDictSet(e, k, v, p);
    }
    if k in e && e[k] != 0 {
      KeyCounted(e, k);
      LeakOne(Ledger(RetainAt(h, v), l.owned, leaked), flight', e[k]);
      flight' := flight' - multiset{e[k]};
    }
  }

  lemma KeyCounted(e: map<Ptr, Ptr>, k: Ptr)
    requires k in e
    ensures Count(Dict(e), e[k]) > 0
  {
    assert k in KeysOf(e, e[k]);
  }

  lemma RetainNull(l: Ledger, flight: multiset<Ptr>)
    requires BalancedBut(l, flight)
    ensures RetainAt(l.heap, 0) == l.heap && l.(heap := RetainAt(l.heap, 0)) == l
  {
  }

  /** A reference in flight that is dropped without a release is leaked. */
  lemma LeakOne(l: Ledger, flight: multiset<Ptr>, p: Ptr)
    requires BalancedBut(l, flight) && p in flight
    ensures BalancedBut(l.(leaked := Add(l.leaked, p)), flight - multiset{p})
  {
    var l' := l.(leaked := Add(l.leaked, p));
    forall q: Ptr | q > 0 ensures BalancedAt(l', flight - multiset{p}, q) {
      assert BalancedAt(l, flight, q);
    }
  }

  lemma RetainAllBalance(l: Ledger, vs: seq<Ptr>, n: nat)
    returns (flight: multiset<Ptr>)
    requires Balanced(l) && AllRetainable(l.heap, vs, n)
    ensures BalancedBut(l.(heap := RetainAll(l.heap, vs, n)), flight)
    ensures forall p: Ptr :: p > 0 ==> flight[p] == CountSeq(vs[..n], p)
  {
    hide BalancedBut, RetainAt;
    flight := multiset{};
    assert l.(heap := RetainAll(l.heap, vs, 0)) == l;
    var i := 0;
    while i < n
      invariant i <= n
      invariant BalancedBut(l.(heap := RetainAll(l.heap, vs, i)), flight)
      invariant forall p: Ptr :: p > 0 ==> flight[p] == CountSeq(vs[..i], p)
    {
      RetainAllGrows(l.heap, vs, i);
      var h := RetainAll(l.heap, vs, i);
      assert vs[..i + 1] == vs[..i] + [vs[i]];
      if vs[i] != 0 {
        RetainBalance(l.(heap := h), flight, vs[i]);
        flight := flight + multiset{vs[i]};
      } else {
        RetainNull(l.(heap := h), flight);
      }
      i := i + 1;
    }
  }

  lemma {:induction false} RetainAllGrows(h: Slots, vs: seq<Ptr>, i: nat)
    requires i <= |vs|
    ensures var r := RetainAll(h, vs, i);
            forall p :: At(h, p).Live? && At(h, p).rc + i <= MAX ==> At(r, p).Live? && At(r, p).rc <= At(h, p).rc + i
  {
    if i > 0 {
      RetainAllGrows(h, vs, i - 1);
    }
  }

  /** References the client owns and references in flight are interchangeable. */
  lemma OwnedToFlight(l: Ledger, p: Ptr)
    requires Balanced(l) && p != 0 && Get(l.owned, p) > 0
    ensures BalancedBut(l.(owned := Drop(l.owned, p)), multiset{p})
  {
    var l' := l.(owned := Drop(l.owned, p));
    forall q: Ptr | q > 0 ensures BalancedAt(l', multiset{p}, q) {
      assert BalancedAt(l, multiset{}, q);
    }
  }

  lemma FlightToOwned(l: Ledger, p: Ptr)
    requires BalancedBut(l, multiset{p}) && p != 0
    ensures Balanced(l.(owned := Add(l.owned, p)))
  {
    var l' := l.(owned := Add(l.owned, p));
    forall q: Ptr | q > 0 ensures BalancedAt(l', multiset{}, q) {
      assert BalancedAt(l, multiset{p}, q);
    }
  }

  /** Every disciplined operation keeps the accounts exact. */
  lemma KeepBalanced(l: Ledger, op: Op)
    requires Balanced(l) && Disciplined(l, op)
    ensures Balanced(Apply(l, op))
  {
    hide BalancedAt, Count, CountSeq, LeakAll, Elements, KeysOf, Add, Drop;
    match op
    case CreateLeaf(at) =>
      EmptyObjects();
      AllocateBalance(l, multiset{}, at, Leaf);
    case CreateMutableDict(at) =>
      EmptyObjects();
      AllocateBalance(l, multiset{}, at, Dict(map[]));
    case CreateMutableArr(at) =>
      EmptyObjects();
      AllocateBalance(l, multiset{}, at, Arr([]));
    case CreateDict(at, ks, vs, num) => CreateDictBalanced(l, op);
    case CreateArr(at, vs, num) => CreateArrBalanced(l, op);
    case Retain(p) =>
      if p != 0 {
        RetainBalance(l, multiset{}, p);
        assert multiset{} + multiset{p} == multiset{p};
        FlightToOwned(l.(heap := RetainAt(l.heap, p)), p);
      }
    case Release(p) =>
      if p != 0 {
        OwnedToFlight(l, p);
        ReleaseBalance(l.(owned := Drop(l.owned, p)), multiset{p}, p);
        assert multiset{p} - multiset{p} == multiset{};
      }
    case SetValue(d, k, v) => SetBalanced(l, d, k, v);
    case RemoveValue(d, k) => RemoveBalanced(l, d, k);
    case Append(a, v) => AppendBalanced(l, a, v);
  }

  lemma EmptyObjects()
    ensures forall p: Ptr :: Count(Leaf, p) == 0 && Count(Dict(map[]), p) == 0 && Count(Arr([]), p) == 0
  {
    forall p: Ptr ensures Count(Dict(map[]), p) == 0 {
      assert KeysOf(map[], p) == {};
    }
  }

  lemma CreateDictBalanced(l: Ledger, op: Op)
    requires Balanced(l) && Disciplined(l, op) && op.CreateDict?
    ensures Balanced(Apply(l, op))
  {
    hide BalancedBut, Count, LeakAll, KeysOf, Add, Fill;
    var n := PairCount(op.keys, op.vals, op.num);
    var flight := FillBalance(l, Items(op.keys), Items(op.vals), n);
    var r := Fill(l.heap, l.leaked, Items(op.keys), Items(op.vals), n);
    FillCells(l.heap, l.leaked, Items(op.keys), Items(op.vals), n, op.at);
    AllocateBalance(Ledger(r.0, l.owned, r.1), flight, op.at, Dict(r.2));
  }

  lemma CreateArrBalanced(l: Ledger, op: Op)
    requires Balanced(l) && Disciplined(l, op) && op.CreateArr?
    ensures Balanced(Apply(l, op))
  {
    hide BalancedBut, CountSeq, LeakAll, Add, RetainAll;
    var n := PairCount(op.vals, op.vals, op.num);
    var flight := RetainAllBalance(l, Items(op.vals), n);
    var h := RetainAll(l.heap, Items(op.vals), n);
    RetainCells(l.heap, Items(op.vals), n, op.at);
    AllocateBalance(l.(heap := h), flight, op.at, Arr(Items(op.vals)[..n]));
  }

  /** Retaining a value that may be null. */
  lemma RetainForStore(l: Ledger, v: Ptr)
    requires Balanced(l) && Retainable(l.heap, v)
    ensures BalancedBut(l.(heap := RetainAt(l.heap, v)), if v == 0 then multiset{} else multiset{v})
  {
    hide BalancedAt;
    if v == 0 {
      RetainNull(l, multiset{});
    } else {
      RetainBalance(l, multiset{}, v);
      assert multiset{} + multiset{v} == multiset{v};
    }
  }

  lemma SetBalanced(l: Ledger, d: Ptr, k: Ptr, v: Ptr)
    requires Balanced(l) && Disciplined(l, SetValue(d, k, v))
    ensures Balanced(Apply(l, SetValue(d, k, v)))
  {
    hide BalancedBut, Count, LeakAll, KeysOf;
    if d != 0 {
      RetainForStore(l, v);
      var l1 := l.(heap := RetainAt(l.heap, v));
      var e := Entries(l1.heap, d);
      var gone := if k in e then e[k] else 0;
      var flight := if v == 0 then multiset{} else multiset{v};
      forall p: Ptr | p > 0
        ensures Count(Dict(e[k := v]), p) + (if p == gone then 1 else 0) == Count(Dict(e), p) + (if p == v then 1 else 0)
      {
        CountDictSet(e, k, v, p);
      }
      RewriteBalance(l1, d, Dict(e[k := v]), v, gone, flight);
      assert flight - multiset{v} == multiset{};
      var l2 := l1.(heap := Put(l1.heap, d, Dict(e[k := v])));
      if gone == 0 {
        assert flight - multiset{v} + multiset{} == multiset{};
      } else {
        assert multiset{} + multiset{gone} == multiset{gone};
        ReleaseBalance(l2, multiset{gone}, gone);
        assert multiset{gone} - multiset{gone} == multiset{};
      }
    }
  }

  lemma RemoveBalanced(l: Ledger, d: Ptr, k: Ptr)
    requires Balanced(l) && Disciplined(l, RemoveValue(d, k))
    ensures Balanced(Apply(l, RemoveValue(d, k)))
  {
    hide BalancedBut, Count, LeakAll, KeysOf;
    if d != 0 {
      var e := Entries(l.heap, d);
      var gone := if k in e then e[k] else 0;
      forall p: Ptr | p > 0
        ensures Count(Dict(e - {k}), p) + (if p == gone then 1 else 0) == Count(Dict(e), p)
      {
        CountDictRemove(e, k, p);
      }
      RewriteBalance(l, d, Dict(e - {k}), 0, gone, multiset{});
      var none: multiset<Ptr> := multiset{};
      assert none - multiset{0} == none;
      if gone == 0 {
        assert none - multiset{0} + multiset{} == none;
      } else {
        assert multiset{} + multiset{gone} == multiset{gone};
        ReleaseBalance(l.(heap := Put(l.heap, d, Dict(e - {k}))), multiset{gone}, gone);
        assert multiset{gone} - multiset{gone} == multiset{};
      }
    }
  }

  lemma AppendBalanced(l: Ledger, a: Ptr, v: Ptr)
    requires Balanced(l) && Disciplined(l, Append(a, v))
    ensures Balanced(Apply(l, Append(a, v)))
  {
    hide BalancedBut, LeakAll;
    if a != 0 {
      RetainForStore(l, v);
      var l1 := l.(heap := RetainAt(l.heap, v));
      var vs := At(l1.heap, a).obj.values;
      var flight := if v == 0 then multiset{} else multiset{v};
      RewriteBalance(l1, a, Arr(vs + [v]), v, 0, flight);
      assert flight - multiset{v} + multiset{} == multiset{};
    }
  }

  // ---- What containers hold ----

  /** The container an operation is about; null for none. */
  function TargetOf(op: Op): (c: Ptr) {
    match op
    case CreateLeaf(at) => at
    case CreateMutableDict(at) => at
    case CreateMutableArr(at) => at
    case CreateDict(at, _, _, _) => at
    case CreateArr(at, _, _) => at
    case SetValue(d, _, _) => d
    case RemoveValue(d, _) => d
    case Append(a, _) => a
    case _ => 0
  }

  /** Neither a retain nor a release changes what is left of the objects. */
  lemma ObjectsKept(h: Slots, p: Ptr, c: Ptr)
    ensures At(RetainAt(h, p), c).Live? <==> At(h, c).Live?
    ensures At(h, c).Live? ==> At(RetainAt(h, p), c).obj == At(h, c).obj
    ensures At(ReleaseAt(h, p), c).Live? ==> At(h, c).Live? && At(ReleaseAt(h, p), c).obj == At(h, c).obj
  {
  }

  /** No operation changes what any other container holds. */
  lemma OthersHoldTheSame(l: Ledger, op: Op, c: Ptr)
    requires Balanced(l) && Disciplined(l, op) && c != TargetOf(op)
    ensures At(Apply(l, op).heap, c).Live? ==> At(l.heap, c).Live? && At(Apply(l, op).heap, c).obj == At(l.heap, c).obj
  {
    hide Balanced, Fill, RetainAll, LeakAll, RetainAt, ReleaseAt;
    match op
    case CreateDict(at, ks, vs, num) => FillCells(l.heap, l.leaked, Items(ks), Items(vs), PairCount(ks, vs, num), c);
    case CreateArr(at, vs, num) => RetainCells(l.heap, Items(vs), PairCount(vs, vs, num), c);
    case Retain(p) => ObjectsKept(l.heap, p, c);
    case Release(p) => ObjectsKept(l.heap, p, c);
    case SetValue(d, k, v) =>
      if d != 0 {
        ObjectsKept(l.heap, v, c);
        ObjectsKept(l.heap, v, d);
        var e := Entries(RetainAt(l.heap, v), d);
        if k in e && e[k] != 0 {
          ObjectsKept(Put(RetainAt(l.heap, v), d, Dict(e[k := v])), e[k], c);
        }
      }
    case RemoveValue(d, k) =>
      if d != 0 {
        var e: map<Ptr, Ptr> := Entries(l.heap, d);
        if k in e && e[k] != 0 {
          ObjectsKept(Put(l.heap, d, Dict(e - {k})), e[k], c);
        }
      }
    case Append(a, v) => ObjectsKept(l.heap, v, c);
    case _ =>
  }

  /** Every key but `k` has the same value in both, or none. */
  ghost predicate SameButKey(e: map<Ptr, Ptr>, e': map<Ptr, Ptr>, k: Ptr) {
    forall j :: j != k ==> ((j in e' <==> j in e) && (j in e ==> e'[j] == e[j]))
  }

  /** After a store the key has the value, and every other key what it had. */
  lemma StoredUnderKey(l: Ledger, d: Ptr, k: Ptr, v: Ptr)
    requires Disciplined(l, SetValue(d, k, v)) && d != 0
    ensures var h := Apply(l, SetValue(d, k, v)).heap;
            At(h, d).Live? ==>
              && IsDict(h, d) && k in Entries(h, d) && Entries(h, d)[k] == v
              && SameButKey(Entries(l.heap, d), Entries(h, d), k)
  {
    hide LeakAll, RetainAt, ReleaseAt;
    ObjectsKept(l.heap, v, d);
    var e := Entries(RetainAt(l.heap, v), d);
    if k in e && e[k] != 0 {
      ObjectsKept(Put(RetainAt(l.heap, v), d, Dict(e[k := v])), e[k], d);
    }
  }

  /** After a removal the key is gone, and every other key has what it had. */
  lemma RemovedKey(l: Ledger, d: Ptr, k: Ptr)
    requires Disciplined(l, RemoveValue(d, k)) && d != 0
    ensures var h := Apply(l, RemoveValue(d, k)).heap;
            At(h, d).Live? ==>
              && IsDict(h, d) && k !in Entries(h, d)
              && SameButKey(Entries(l.heap, d), Entries(h, d), k)
  {
    hide LeakAll, ReleaseAt;
    var e: map<Ptr, Ptr> := Entries(l.heap, d);
    if k in e && e[k] != 0 {
      ObjectsKept(Put(l.heap, d, Dict(e - {k})), e[k], d);
    }
  }

  function Values(h: Slots, a: Ptr): (vs: seq<Ptr>)
    requires IsArr(h, a)
  {
    At(h, a).obj.values
  }

  /** The value is appended last, and the earlier ones keep their places. */
  lemma AppendedLast(l: Ledger, a: Ptr, v: Ptr)
    requires Disciplined(l, Append(a, v)) && a != 0
    ensures var h := Apply(l, Append(a, v)).heap;
            && IsArr(h, a) && |Values(h, a)| == |Values(l.heap, a)| + 1
            && Values(h, a)[|Values(l.heap, a)|] == v
            && forall i :: 0 <= i < |Values(l.heap, a)| ==> Values(h, a)[i] == Values(l.heap, a)[i]
  {
    hide RetainAt;
    ObjectsKept(l.heap, v, a);
  }

  /** What a new container holds: nothing, the values given, in order, or for each key given the last
      value given for it. Nothing is read when an array is missing or the number is not positive. */
  lemma CreatedContents(l: Ledger, op: Op)
    requires Disciplined(l, op)
    ensures op.CreateMutableDict? ==> At(Apply(l, op).heap, op.at) == Live(1, Dict(map[]))
    ensures op.CreateMutableArr? ==> At(Apply(l, op).heap, op.at) == Live(1, Arr([]))
    ensures op.CreateArr? ==>
              At(Apply(l, op).heap, op.at) == Live(1, Arr(if op.vals.Some? && op.num > 0 then op.vals.value[..op.num] else []))
    ensures op.CreateDict? ==>
              var s := At(Apply(l, op).heap, op.at);
              && s.Live? && s.rc == 1 && s.obj.Dict?
              && if op.keys.Some? && op.vals.Some? && op.num > 0
                 then LastValues(s.obj.entries, op.keys.value, op.vals.value, op.num)
                 else s.obj.entries == map[]
  {
    hide Fill, RetainAll, LastValues, Overwrites;
    match op
    case CreateDict(at, ks, vs, num) =>
      var n := PairCount(ks, vs, num);
      FillCells(l.heap, l.leaked, Items(ks), Items(vs), n, at);
      FillOverwrites(l.heap, l.leaked, Items(ks), Items(vs), n);
      NothingFilledYet(l.heap, l.leaked, Items(ks), Items(vs));
    case CreateArr(at, vs, num) =>
      RetainCells(l.heap, Items(vs), PairCount(vs, vs, num), at);
    case _ =>
  }

  lemma NothingFilledYet(h: Slots, leaked: map<Ptr, nat>, ks: seq<Ptr>, vs: seq<Ptr>)
    ensures Fill(h, leaked, ks, vs, 0).2 == map[]
  {
  }

  // ---- Main results ----

  const INITIAL: Ledger := Ledger([Free], map[], map[])

  /** `l1` is reached from `l0` by a disciplined client performing `ops`. */
  ghost predicate RunsTo(l0: Ledger, ops: seq<Op>, l1: Ledger)
    decreases ops
  {
    if ops == [] then l0 == l1
    else Disciplined(l0, ops[0]) && RunsTo(Apply(l0, ops[0]), ops[1..], l1)
  }

  /** Over every run of disciplined clients the accounts are exact. */
  lemma {:induction false} RunBalanced(l0: Ledger, ops: seq<Op>, l1: Ledger)
    requires Balanced(l0) && RunsTo(l0, ops, l1)
    ensures Balanced(l1)
    decreases ops
  {
    hide Balanced, Apply, Disciplined;
    if ops != [] {
      KeepBalanced(l0, ops[0]);
      RunBalanced(Apply(l0, ops[0]), ops[1..], l1);
    }
  }

  lemma InitialBalanced()
    ensures Balanced(INITIAL)
  {
    forall p: Ptr | p > 0 ensures BalancedAt(INITIAL, multiset{}, p) {
      assert Occ([Free], p) == 0;
    }
  }

  /** No object held by a live container is ever freed. */
  lemma HeldIsLive(ops: seq<Op>, l: Ledger, c: Ptr, v: Ptr)
    requires RunsTo(INITIAL, ops, l)
    requires At(l.heap, c).Live? && v != 0 && v in Elements(At(l.heap, c).obj)
    ensures At(l.heap, v).Live?
  {
    hide Apply, Disciplined, Count, Elements, RunsTo;
    InitialBalanced();
    RunBalanced(INITIAL, ops, l);
    assert BalancedAt(l, multiset{}, v);
    CountedIsElement(At(l.heap, c).obj, v);
    OccHolds(l.heap, c, v);
  }

  /** Some pair read by CFDictionaryCreate replaces a non-null value stored under the same key. */
  predicate Overwrites(ks: seq<Ptr>, vs: seq<Ptr>, n: nat)
    requires n <= |ks| && n <= |vs|
  {
    exists i, k :: 0 <= i < k < n && ks[i] == ks[k] && vs[i] != 0
  }

  predicate Freed(l: Ledger, op: Op, p: Ptr)
    requires Disciplined(l, op)
  {
    At(l.heap, p).Live? && At(Apply(l, op).heap, p).Free?
  }

  /** What `p` holds when the operation frees it: a dictionary may free itself by giving up its last
      reference to itself, and then what was stored into it counts. */
  function HeldAtEnd(l: Ledger, op: Op, p: Ptr): (o: Obj)
    requires At(l.heap, p).Live?
  {
    match op
    case SetValue(d, k, v) => if p == d && IsDict(l.heap, d) then Dict(Entries(l.heap, d)[k := v]) else At(l.heap, p).obj
    case RemoveValue(d, k) => if p == d && IsDict(l.heap, d) then Dict(Entries(l.heap, d) - {k}) else At(l.heap, p).obj
    case _ => At(l.heap, p).obj
  }

  /** Exactly how leaks grow. CFDictionaryCreate leaks if and only if it overwrites a non-null value
      of a repeated key, and then the retains that the new dictionary does not hold. Any other
      operation leaks if it frees an object, exactly the references that object held, and nothing
      otherwise. */
  lemma LeaksOnly(l: Ledger, op: Op)
    requires Balanced(l) && Disciplined(l, op)
    ensures !op.CreateDict? ==>
              && (forall p, q :: Freed(l, op, p) ==>
                    Get(Apply(l, op).leaked, q) == Get(l.leaked, q) + Count(HeldAtEnd(l, op, p), q))
              && ((forall p :: !Freed(l, op, p)) ==> Apply(l, op).leaked == l.leaked)
    ensures op.CreateDict? ==>
              var n, d := PairCount(op.keys, op.vals, op.num), At(Apply(l, op).heap, op.at);
              && (Apply(l, op).leaked == l.leaked <==> !Overwrites(Items(op.keys), Items(op.vals), n))
              && d.Live? && forall p: Ptr :: p > 0 ==>
                Get(Apply(l, op).leaked, p) + Count(d.obj, p) == Get(l.leaked, p) + CountSeq(Items(op.vals)[..n], p)
  {
    hide BalancedAt, Count, LeakAll, KeysOf, Fill, RetainAll;
    match op
    case CreateDict(at, ks, vs, num) =>
      var n := PairCount(ks, vs, num);
      FillLeaks(l.heap, l.leaked, Items(ks), Items(vs), n);
      FillOverwrites(l.heap, l.leaked, Items(ks), Items(vs), n);
    case CreateArr(at, vs, num) =>
      forall p ensures !Freed(l, op, p) {
        RetainCells(l.heap, Items(vs), PairCount(vs, vs, num), p);
      }
    case Release(p) =>
      if p != 0 {
        ReleasedLeaks(l.(owned := Drop(l.owned, p)), p);
        assert !Freed(l, op, p) ==> Apply(l, op).leaked == l.leaked;
      }
    case SetValue(d, k, v) => SetLeaks(l, d, k, v);
    case RemoveValue(d, k) => RemoveLeaks(l, d, k);
    case _ =>
  }

  /** A release leaks what the freed object held, or nothing. */
  lemma ReleasedLeaks(l: Ledger, p: Ptr)
    ensures var r := Released(l, p);
            && (forall x :: At(l.heap, x).Live? && At(r.heap, x).Free? ==>
                  x == p && forall q :: Get(r.leaked, q) == Get(l.leaked, q) + Count(At(l.heap, p).obj, q))
            && ((At(l.heap, p).Live? && At(r.heap, p).Free?) || r.leaked == l.leaked)
  {
    hide Count, LeakAll;
  }

  lemma SetLeaks(l: Ledger, d: Ptr, k: Ptr, v: Ptr)
    requires Balanced(l) && Disciplined(l, SetValue(d, k, v))
    ensures var op := SetValue(d, k, v);
            && (forall p, q :: Freed(l, op, p) ==>
                  Get(Apply(l, op).leaked, q) == Get(l.leaked, q) + Count(HeldAtEnd(l, op, p), q))
            && ((forall p :: !Freed(l, op, p)) ==> Apply(l, op).leaked == l.leaked)
  {
    hide Balanced, Count, LeakAll, KeysOf;
    if d != 0 {
      var h := RetainAt(l.heap, v);
      var e := Entries(h, d);
      var l1 := l.(heap := Put(h, d, Dict(e[k := v])));
      if k in e && e[k] != 0 {
        ReleasedLeaks(l1, e[k]);
        assert !Freed(l, SetValue(d, k, v), e[k]) ==> Apply(l, SetValue(d, k, v)).leaked == l.leaked;
      }
    }
  }

  lemma RemoveLeaks(l: Ledger, d: Ptr, k: Ptr)
    requires Balanced(l) && Disciplined(l, RemoveValue(d, k))
    ensures var op := RemoveValue(d, k);
            && (forall p, q :: Freed(l, op, p) ==>
                  Get(Apply(l, op).leaked, q) == Get(l.leaked, q) + Count(HeldAtEnd(l, op, p), q))
            && ((forall p :: !Freed(l, op, p)) ==> Apply(l, op).leaked == l.leaked)
  {
    hide Balanced, Count, LeakAll, KeysOf;
    if d != 0 {
      var e: map<Ptr, Ptr> := Entries(l.heap, d);
      var rest: map<Ptr, Ptr> := e - {k};
      var l1 := l.(heap := Put(l.heap, d, Dict(rest)));
      if k in e && e[k] != 0 {
        ReleasedLeaks(l1, e[k]);
        assert !Freed(l, RemoveValue(d, k), e[k]) ==> Apply(l, RemoveValue(d, k)).leaked == l.leaked;
      }
    }
  }

  /** The table of a partly filled dictionary holds, for each key, the last value read. */
  ghost predicate LastValues(e: map<Ptr, Ptr>, ks: seq<Ptr>, vs: seq<Ptr>, n: nat)
    requires n <= |ks| && n <= |vs|
  {
    && (forall i :: 0 <= i < n ==> ks[i] in e)
    && (forall k :: k in e ==> exists i :: 0 <= i < n && ks[i] == k && vs[i] == e[k] && forall j :: i < j < n ==> ks[j] != k)
  }

  /** `now` has leaked more than `was`, or is `was`, as `more` says. */
  ghost predicate Grown(was: map<Ptr, nat>, now: map<Ptr, nat>, more: bool) {
    && (forall p :: Get(now, p) >= Get(was, p))
    && (if more then exists p :: Get(now, p) > Get(was, p) else now == was)
  }

  /** The creation loop leaks if and only if it overwrites. */
  lemma {:induction false} FillOverwrites(h: Slots, leaked: map<Ptr, nat>, ks: seq<Ptr>, vs: seq<Ptr>, n: nat)
    requires n <= |ks| && n <= |vs|
    ensures LastValues(Fill(h, leaked, ks, vs, n).2, ks, vs, n)
    ensures Grown(leaked, Fill(h, leaked, ks, vs, n).1, Overwrites(ks, vs, n))
  {
    hide RetainAt, LastValues, Grown, Overwrites;
    if n == 0 {
      NothingFilled(leaked, ks, vs);
    } else {
      FillOverwrites(h, leaked, ks, vs, n - 1);
      var (h1, leaked1, e) := Fill(h, leaked, ks, vs, n - 1);
      LastStored(e, ks, vs, n);
      OverwriteOne(leaked, leaked1, e, ks, vs, n);
    }
  }

  lemma NothingFilled(leaked: map<Ptr, nat>, ks: seq<Ptr>, vs: seq<Ptr>)
    ensures LastValues(map[], ks, vs, 0) && !Overwrites(ks, vs, 0) && Grown(leaked, leaked, false)
  {
  }

  lemma OverwriteOne(was: map<Ptr, nat>, now: map<Ptr, nat>, e: map<Ptr, Ptr>, ks: seq<Ptr>, vs: seq<Ptr>, n: nat)
    requires 0 < n <= |ks| && n <= |vs| && LastValues(e, ks, vs, n - 1)
    requires Grown(was, now, Overwrites(ks, vs, n - 1))
    ensures var k := ks[n - 1];
            Grown(was, if k in e && e[k] != 0 then Add(now, e[k]) else now, Overwrites(ks, vs, n))
  {
    hide Add;
    var k := ks[n - 1];
    if Overwrites(ks, vs, n - 1) {
      OverwritesLonger(ks, vs, n);
      var p :| Get(now, p) > Get(was, p);
      assert k in e && e[k] != 0 ==> Get(Add(now, e[k]), p) > Get(was, p);
    } else if k in e && e[k] != 0 {
      var i :| 0 <= i < n - 1 && ks[i] == k && vs[i] == e[k];
      assert Overwrites(ks, vs, n);
      assert Get(Add(now, e[k]), e[k]) > Get(was, e[k]);
    } else {
      NoOverwrite(e, ks, vs, n);
    }
  }

  lemma OverwritesLonger(ks: seq<Ptr>, vs: seq<Ptr>, n: nat)
    requires 0 < n <= |ks| && n <= |vs| && Overwrites(ks, vs, n - 1)
    ensures Overwrites(ks, vs, n)
  {
  }

  lemma LastStored(e: map<Ptr, Ptr>, ks: seq<Ptr>, vs: seq<Ptr>, n: nat)
    requires 0 < n <= |ks| && n <= |vs| && LastValues(e, ks, vs, n - 1)
    ensures LastValues(e[ks[n - 1] := vs[n - 1]], ks, vs, n)
  {
    var e' := e[ks[n - 1] := vs[n - 1]];
    forall k | k in e' ensures exists i :: 0 <= i < n && ks[i] == k && vs[i] == e'[k] && forall j :: i < j < n ==> ks[j] != k {
      if k == ks[n - 1] {
        assert ks[n - 1] == k && vs[n - 1] == e'[k];
      } else {
        var i :| 0 <= i < n - 1 && ks[i] == k && vs[i] == e[k] && forall j :: i < j < n - 1 ==> ks[j] != k;
        assert ks[i] == k && vs[i] == e'[k];
      }
    }
  }

  /** A pair that finds its key absent, or null under it, overwrites nothing. */
  lemma NoOverwrite(e: map<Ptr, Ptr>, ks: seq<Ptr>, vs: seq<Ptr>, n: nat)
    requires 0 < n <= |ks| && n <= |vs| && LastValues(e, ks, vs, n - 1) && !Overwrites(ks, vs, n - 1)
    requires ks[n - 1] in e ==> e[ks[n - 1]] == 0
    ensures !Overwrites(ks, vs, n)
  {
    forall i, k | 0 <= i < k < n && ks[i] == ks[k] ensures vs[i] == 0 {
      if k == n - 1 {
        var last :| 0 <= last < n - 1 && ks[last] == ks[k] && vs[last] == e[ks[k]] && forall j :: last < j < n - 1 ==> ks[j] != ks[k];
        assert i <= last;
      }
    }
  }

  lemma {:induction false} FillLeaks(h: Slots, leaked: map<Ptr, nat>, ks: seq<Ptr>, vs: seq<Ptr>, n: nat)
    requires n <= |ks| && n <= |vs|
    ensures var r := Fill(h, leaked, ks, vs, n);
            forall p: Ptr :: p > 0 ==> Get(r.1, p) + Count(Dict(r.2), p) == Get(leaked, p) + CountSeq(vs[..n], p)
  {
    hide Count, RetainAt, Add;
    if n == 0 {
      EmptyObjects();
    } else {
      FillLeaks(h, leaked, ks, vs, n - 1);
      var (h1, leaked1, e) := Fill(h, leaked, ks, vs, n - 1);
      assert vs[..n] == vs[..n - 1] + [vs[n - 1]];
      forall p: Ptr ensures Count(Dict(e[ks[n - 1] := vs[n - 1]]), p) + (if ks[n - 1] in e && e[ks[n - 1]] == p then 1 else 0) ==
                            Count(Dict(e), p) + (if vs[n - 1] == p then 1 else 0) {
        CountDictSet(e, ks[n - 1], vs[n - 1], p);
      }
    }
  }
}
