/** CF objects updated in place: reference counts, dictionaries and arrays as the C functions
change them, each tied to its entry in the ledger of `CFRefs`.
*/
module CFObjects {
  import opened MachO
  import opened CFRefs

  class CFHeap {
    var heap: Slots
    ghost var owned: map<Ptr, nat>    // references clients must still give back
    ghost var leaked: map<Ptr, nat>   // references nobody can give back

    ghost function State(): (l: Ledger)
      reads this
    {
      Ledger(heap, owned, leaked)
    }

    /** The accounting identity is the object invariant of the heap. */
    ghost predicate Valid()
      reads this
    {
      Balanced(State())
    }

    constructor ()
      ensures Valid() && State() == INITIAL
    {
      heap, owned, leaked := [Free], map[], map[];
      new;
      InitialBalanced();
    }

    // ---- CFRuntimeBase ----

    method IncRef(p: Ptr)
      requires At(heap, p).Live?
      modifies `heap
      ensures heap == RetainAt(old(heap), p)
    {
      var rc := heap[p].rc;
      heap := heap[p := heap[p].(rc := (rc + 1) % (MAX + 1))];
    }

    /** True when the object should be deallocated. */
    method DecRef(p: Ptr) returns (last: bool)
      requires At(heap, p).Live?
      modifies `heap
      ensures last <==> At(old(heap), p).rc == 1
      ensures !last ==> heap == ReleaseAt(old(heap), p)
      ensures last ==> heap == old(heap)[p := Live(0, At(old(heap), p).obj)]
    {
      var rc := heap[p].rc;
      heap := heap[p := heap[p].(rc := if rc == 0 then MAX else rc - 1)];
      last := rc == 1;
    }

    method Drop(p: Ptr)
      requires At(heap, p).Live?
      modifies `heap, `leaked
      ensures State() == Released(old(State()), p)
    {
      ghost var obj := heap[p].obj;
      var last := DecRef(p);
      if last {
        heap := heap[p := Free];
        leaked := LeakAll(leaked, obj);
      }
    }

    method CFRetain(p: Ptr) returns (r: Ptr)
      requires Valid() && Disciplined(State(), Retain(p))
      modifies this
      ensures Valid() && State() == Apply(old(State()), Retain(p)) && r == p
    {
      hide Balanced;
      KeepBalanced(State(), Retain(p));
      if p != 0 {
        IncRef(p);
        owned := Add(owned, p);
      }
      r := p;
    }

    method CFRelease(p: Ptr)
      requires Valid() && Disciplined(State(), Release(p))
      modifies this
      ensures Valid() && State() == Apply(old(State()), Release(p))
    {
      hide BalancedAt;
      KeepBalanced(State(), Release(p));
      if p == 0 { return; }
      OwnedIsLive(State(), p);
      owned := CFRefs.Drop(owned, p);
      Drop(p);
    }

    // ---- CFDictionary ----

    method CFDictionaryCreate(at: Ptr, keys: Option<seq<Ptr>>, vals: Option<seq<Ptr>>, num: int) returns (dict: Ptr)
      requires Valid() && Disciplined(State(), CreateDict(at, keys, vals, num))
      modifies this
      ensures Valid() && State() == Apply(old(State()), CreateDict(at, keys, vals, num)) && dict == at
    {
      hide Balanced;
      KeepBalanced(State(), CreateDict(at, keys, vals, num));
      var entries: map<Ptr, Ptr> := map[];
      if keys.Some? && vals.Some? && num > 0 {
        var ks, vs := keys.value, vals.value;
        for i := 0 to num
          invariant owned == old(owned)
          invariant (heap, leaked, entries) == Fill(old(heap), old(leaked), ks, vs, i)
        {
          FillCells(old(heap), old(leaked), ks, vs, i, vs[i]);
          if vs[i] != 0 {
            IncRef(vs[i]);
          } else {
            NullCell(heap, old(State()), ks, vs, i);
          }
          leaked := if ks[i] in entries && entries[ks[i]] != 0 then Add(leaked, entries[ks[i]]) else leaked;
          entries := entries[ks[i] := vs[i]];
        }
      }
      ghost var n := PairCount(keys, vals, num);
      FillCells(old(heap), old(leaked), Items(keys), Items(vals), n, at);
      heap := Allocate(heap, at, Dict(entries));
      owned := Add(owned, at);
      return at;
    }

    method CFDictionarySetValue(dict: Ptr, key: Ptr, value: Ptr)
      requires Valid() && Disciplined(State(), SetValue(dict, key, value))
      modifies this
      ensures Valid() && State() == Apply(old(State()), SetValue(dict, key, value))
    {
      hide BalancedAt;
      KeepBalanced(State(), SetValue(dict, key, value));
      if dict == 0 { return; }
      if value != 0 {
        OldIsLive(State(), dict, key);
        IncRef(value);
      } else {
        OldIsLive(State(), dict, key);
      }
      var e: map<Ptr, Ptr> := heap[dict].obj.entries;
      heap := heap[dict := heap[dict].(obj := Dict(e[key := value]))];
      if key in e && e[key] != 0 {
        Drop(e[key]);
      }
    }

    method CFDictionaryRemoveValue(dict: Ptr, key: Ptr)
      requires Valid() && Disciplined(State(), RemoveValue(dict, key))
      modifies this
      ensures Valid() && State() == Apply(old(State()), RemoveValue(dict, key))
    {
      hide BalancedAt;
      KeepBalanced(State(), RemoveValue(dict, key));
      if dict == 0 { return; }
      OldIsLive(State(), dict, key);
      var e: map<Ptr, Ptr> := heap[dict].obj.entries;
      heap := heap[dict := heap[dict].(obj := Dict(e - {key}))];
      if key in e && e[key] != 0 {
        Drop(e[key]);
      }
    }

    // ---- CFArray ----

    method CFArrayCreate(at: Ptr, vals: Option<seq<Ptr>>, num: int) returns (arr: Ptr)
      requires Valid() && Disciplined(State(), CreateArr(at, vals, num))
      modifies this
      ensures Valid() && State() == Apply(old(State()), CreateArr(at, vals, num)) && arr == at
    {
      hide Balanced;
      KeepBalanced(State(), CreateArr(at, vals, num));
      var vec: seq<Ptr> := [];
      if vals.Some? && num > 0 {
        var vs := vals.value;
        for i := 0 to num
          invariant owned == old(owned) && leaked == old(leaked)
          invariant heap == RetainAll(old(heap), vs, i) && vec == vs[..i]
        {
          RetainCells(old(heap), vs, i, vs[i]);
          RetainCells(old(heap), vs, i, 0);
          if vs[i] != 0 {
            IncRef(vs[i]);
          } else {
            assert At(old(heap), 0).Free? by { NullIsFree(old(State())); }
          }
          vec := vec + [vs[i]];
        }
      }
      ghost var n := PairCount(vals, vals, num);
      RetainCells(old(heap), Items(vals), n, at);
      assert vec == Items(vals)[..n];
      heap := Allocate(heap, at, Arr(vec));
      owned := Add(owned, at);
      return at;
    }

    method CFArrayAppendValue(arr: Ptr, value: Ptr)
      requires Valid() && Disciplined(State(), Append(arr, value))
      modifies this
      ensures Valid() && State() == Apply(old(State()), Append(arr, value))
    {
      hide BalancedAt;
      KeepBalanced(State(), Append(arr, value));
      if arr == 0 { return; }
      if value != 0 {
        IncRef(value);
      }
      heap := heap[arr := heap[arr].(obj := Arr(heap[arr].obj.values + [value]))];
    }
  }

  lemma NullIsFree(l: Ledger)
    requires Balanced(l)
    ensures At(l.heap, 0).Free?
  {
  }

  lemma NullCell(h: Slots, l: Ledger, ks: seq<Ptr>, vs: seq<Ptr>, i: nat)
    requires Balanced(l) && i <= |ks| && i <= |vs| && h == Fill(l.heap, l.leaked, ks, vs, i).0
    ensures At(h, 0).Free?
  {
    hide BalancedAt;
    FillCells(l.heap, l.leaked, ks, vs, i, 0);
  }

  lemma OwnedIsLive(l: Ledger, p: Ptr)
    requires Balanced(l) && p != 0 && Get(l.owned, p) > 0
    ensures At(l.heap, p).Live?
  {
    assert BalancedAt(l, multiset{}, p);
  }

  /** The value a dictionary is about to give up is live. */
  lemma OldIsLive(l: Ledger, d: Ptr, k: Ptr)
    requires Balanced(l) && IsDict(l.heap, d)
    ensures var e := Entries(l.heap, d); k in e && e[k] != 0 ==> At(l.heap, e[k]).Live?
  {
    hide KeysOf;
    var e := Entries(l.heap, d);
    if k in e && e[k] != 0 {
      KeyCounted(e, k);
      OccHolds(l.heap, d, e[k]);
      assert BalancedAt(l, multiset{}, e[k]);
    }
  }
}
