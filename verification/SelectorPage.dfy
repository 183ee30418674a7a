/** Allocation of per-thread selector bytes: `selector_page` and `alloc_thread_selector` as atomic
steps of any number of threads, in any interleaving.
*/
module SelectorPage {
  import opened Memory

  const PAGE_SIZE: nat := 4096

  type Addr = nat   // 0 is the null pointer

  /** Where a thread stands. The `ticket` counts the fetch_add that served it. */
  datatype Pc =
    | Start
    | MustMap                                    // SELECTOR_PAGE was null
    | Holding(page: Addr)                         // mmap returned `page`
    | Lost                                       // the compare-exchange failed
    | HasPage(page: Addr)
    | HasOffset(page: Addr, offset: nat, ticket: nat)
    | Done(page: Addr, offset: nat, ticket: nat)
    | Panicked

  datatype World = World(
    selectorPage: Addr,          // SELECTOR_PAGE
    selectorNext: nat,           // SELECTOR_NEXT, a 64-bit counter
    mapped: set<Addr>,           // pages the kernel has handed out
    tickets: nat,                // how many times fetch_add has run
    threads: map<nat, Pc>)

  const INITIAL_NEXT: nat := 0

  function Initial(ids: set<nat>): (w: World) {
    World(0, INITIAL_NEXT, {}, 0, map t | t in ids :: Start)
  }

  predicate PagesDisjoint(p: Addr, q: Addr) {
    Disjoint(p, PAGE_SIZE, q, PAGE_SIZE)
  }

  /** One atomic step of thread `t`. `newPage` is the address the kernel picks for an mmap: non-null,
      and apart from every page it has handed out. */
  ghost predicate CanStep(w: World, t: nat, newPage: Addr) {
    && t in w.threads
    && match w.threads[t] {
         case Done(_, _, _) => false
         case Panicked => false
         case MustMap => newPage != 0 && forall p :: p in w.mapped ==> PagesDisjoint(newPage, p)
         case _ => true
       }
  }

  function Step(w: World, t: nat, newPage: Addr): (r: World)
    requires t in w.threads
  {
    match w.threads[t]
    case Start =>
      w.(threads := w.threads[t := if w.selectorPage != 0 then HasPage(w.selectorPage) else MustMap])
    case MustMap =>
      w.(mapped := w.mapped + {newPage}, threads := w.threads[t := Holding(newPage)])
    case Holding(p) =>
      if w.selectorPage == 0 then w.(selectorPage := p, threads := w.threads[t := HasPage(p)])
      else w.(threads := w.threads[t := Lost])
    case Lost =>
      w.(threads := w.threads[t := HasPage(w.selectorPage)])
    case HasPage(p) =>
      var offset := w.selectorNext;
      w.(selectorNext := Wrap64(offset + 1), tickets := w.tickets + 1,
         threads := w.threads[t := if offset < PAGE_SIZE then HasOffset(p, offset, w.tickets) else Panicked])
    case HasOffset(p, offset, ticket) =>
      w.(threads := w.threads[t := Done(p, offset, ticket)])
    case Done(_, _, _) => w
    case Panicked => w
  }

  // ---- The invariant ----

  predicate Served(pc: Pc) { pc.HasOffset? || pc.Done? }

  ghost predicate PcOk(w: World, pc: Pc) {
    match pc
    case Start => true
    case MustMap => true
    case Holding(p) => p in w.mapped
    case Lost => w.selectorPage != 0
    case HasPage(p) => p != 0 && p == w.selectorPage
    case HasOffset(p, o, k) => p != 0 && p == w.selectorPage && o < PAGE_SIZE && k < w.tickets && o == Wrap64(k)
    case Done(p, o, k) => p != 0 && p == w.selectorPage && o < PAGE_SIZE && k < w.tickets && o == Wrap64(k)
    case Panicked => true
  }

  predicate Distinct(a: Pc, b: Pc) {
    Served(a) && Served(b) ==> a.ticket != b.ticket
  }

  ghost predicate Good(w: World) {
    && w.selectorNext == Wrap64(w.tickets)
    && (forall p :: p in w.mapped ==> p != 0)
    && (forall t :: t in w.threads ==> PcOk(w, w.threads[t]))
    && (forall t, u :: t in w.threads && u in w.threads && t != u ==> Distinct(w.threads[t], w.threads[u]))
  }

  lemma WrapNext(k: nat)
    ensures Wrap64(Wrap64(k) + 1) == Wrap64(k + 1)
  {
  }

  lemma KeepGood(w: World, t: nat, newPage: Addr)
    requires Good(w) && CanStep(w, t, newPage)
    ensures Good(Step(w, t, newPage))
  {
    hide Wrap64, PcOk, Distinct;
    var w' := Step(w, t, newPage);
    StepOwn(w, t, newPage);
    forall u | u in w.threads && u != t
      ensures PcOk(w', w.threads[u]) && Distinct(w'.threads[t], w.threads[u]) && Distinct(w.threads[u], w'.threads[t])
    {
      OtherKept(w, t, newPage, u);
    }
  }

  lemma StepOwn(w: World, t: nat, newPage: Addr)
    requires Good(w) && CanStep(w, t, newPage)
    ensures var w' := Step(w, t, newPage);
            PcOk(w', w'.threads[t]) && w'.selectorNext == Wrap64(w'.tickets) && forall p :: p in w'.mapped ==> p != 0
  {
    hide Wrap64, Distinct;
    WrapNext(w.tickets);
    assert PcOk(w, w.threads[t]);
  }

  lemma OtherKept(w: World, t: nat, newPage: Addr, u: nat)
    requires Good(w) && CanStep(w, t, newPage) && u in w.threads && u != t
    ensures var w' := Step(w, t, newPage);
            PcOk(w', w.threads[u]) && Distinct(w'.threads[t], w.threads[u]) && Distinct(w.threads[u], w'.threads[t])
  {
    hide Wrap64;
    assert PcOk(w, w.threads[t]) && PcOk(w, w.threads[u]);
    assert Distinct(w.threads[t], w.threads[u]);
  }

  lemma InitialGood(ids: set<nat>)
    ensures Good(Initial(ids))
  {
  }

  /** An interleaving: thread `moves[i].0` takes the step from `ws[i]` to `ws[i + 1]`. */
  ghost predicate IsRun(ws: seq<World>, moves: seq<(nat, Addr)>, ids: set<nat>) {
    && |ws| == |moves| + 1 && ws[0] == Initial(ids)
    && forall i :: 0 <= i < |moves| ==>
         CanStep(ws[i], moves[i].0, moves[i].1) && ws[i + 1] == Step(ws[i], moves[i].0, moves[i].1)
  }

  lemma {:induction false} RunGood(ws: seq<World>, moves: seq<(nat, Addr)>, ids: set<nat>, n: nat)
    requires IsRun(ws, moves, ids) && n <= |moves|
    ensures Good(ws[n]) && ws[n].tickets <= n
  {
    hide Good, Step, PagesDisjoint;
    if n == 0 {
      InitialGood(ids);
    } else {
      RunGood(ws, moves, ids, n - 1);
      assert ws[n - 1 + 1] == Step(ws[n - 1], moves[n - 1].0, moves[n - 1].1);
      KeepGood(ws[n - 1], moves[n - 1].0, moves[n - 1].1);
      OneTicket(ws[n - 1], moves[n - 1].0, moves[n - 1].1);
    }
  }

  lemma OneTicket(w: World, t: nat, newPage: Addr)
    requires CanStep(w, t, newPage)
    ensures Step(w, t, newPage).tickets <= w.tickets + 1
  {
  }

  /** In every interleaving, threads that completed allocation hold bytes of one common page, at
      pairwise different offsets below 4096, so nobody's ALLOW or BLOCK lands on another's byte. */
  lemma SelectorsDistinct(ws: seq<World>, moves: seq<(nat, Addr)>, ids: set<nat>, n: nat, t: nat, u: nat)
    requires IsRun(ws, moves, ids) && n <= |moves|
    requires t in ws[n].threads && u in ws[n].threads && t != u
    requires ws[n].threads[t].Done? && ws[n].threads[u].Done?
    requires ws[n].tickets <= TWO64
    ensures var a, b := ws[n].threads[t], ws[n].threads[u];
            && a.page == b.page == ws[n].selectorPage != 0
            && a.offset < PAGE_SIZE && b.offset < PAGE_SIZE && a.offset != b.offset
  {
    hide IsRun;
    IsRunLength(ws, moves, ids);
    RunGood(ws, moves, ids, n);
    assert PcOk(ws[n], ws[n].threads[t]) && PcOk(ws[n], ws[n].threads[u]);
  }

  lemma IsRunLength(ws: seq<World>, moves: seq<(nat, Addr)>, ids: set<nat>)
    requires IsRun(ws, moves, ids)
    ensures |ws| == |moves| + 1
  {
  }

  /** The bound on tickets is exact: the counter has 64 bits, so two tickets get the same offset
      exactly when they are congruent modulo 2^64, ticket 2^64 being the first to repeat one. */
  lemma TicketsCollide(j: nat, k: nat)
    requires j < k
    ensures Wrap64(j) == Wrap64(k) ==> k >= TWO64
    ensures Wrap64(j) == Wrap64(j + TWO64)
  {
    if k < TWO64 {
      assert Wrap64(j) == j && Wrap64(k) == k;
    }
  }

  // ---- Allocation succeeds ----

  /** Nobody gives up before 4096 threads have been served. */
  predicate NoneTurnedAway(w: World) {
    forall t :: t in w.threads && w.threads[t].Panicked? ==> w.tickets > 4096
  }

  lemma KeepNoneTurnedAway(w: World, t: nat, newPage: Addr)
    requires Good(w) && NoneTurnedAway(w) && CanStep(w, t, newPage)
    ensures NoneTurnedAway(Step(w, t, newPage))
  {
    hide PcOk, Distinct, PagesDisjoint;
  }

  lemma {:induction false} RunTurnsNoneAway(ws: seq<World>, moves: seq<(nat, Addr)>, ids: set<nat>, n: nat)
    requires IsRun(ws, moves, ids) && n <= |moves|
    ensures NoneTurnedAway(ws[n])
  {
    hide Good, Step, PagesDisjoint, NoneTurnedAway;
    if n == 0 {
      NonePanicked(ids);
    } else {
      RunTurnsNoneAway(ws, moves, ids, n - 1);
      RunGood(ws, moves, ids, n - 1);
      assert ws[n - 1 + 1] == Step(ws[n - 1], moves[n - 1].0, moves[n - 1].1);
      KeepNoneTurnedAway(ws[n - 1], moves[n - 1].0, moves[n - 1].1);
    }
  }

  lemma NonePanicked(ids: set<nat>)
    ensures NoneTurnedAway(Initial(ids))
  {
  }

  /** How many steps a thread has still to take. */
  function Remaining(pc: Pc): (n: nat) {
    match pc
    case Start => 6
    case MustMap => 5
    case Holding(_) => 4
    case Lost => 3
    case HasPage(_) => 2
    case HasOffset(_, _, _) => 1
    case Done(_, _, _) => 0
    case Panicked => 0
  }

  /** Each step of a thread brings it closer to its selector, no other thread's step changes where it
      stands, and a thread that is not through yet can always step, given a free page. */
  lemma AllocationProgresses(w: World, t: nat, newPage: Addr, u: nat)
    requires CanStep(w, t, newPage) && u in w.threads
    ensures var pc, pc' := w.threads[u], Step(w, t, newPage).threads[u];
            if u == t then Remaining(pc') < Remaining(pc) else pc' == pc
  {
  }

  lemma NeverStuck(w: World, t: nat, newPage: Addr)
    requires t in w.threads && Remaining(w.threads[t]) > 0
    requires newPage != 0 && forall p :: p in w.mapped ==> PagesDisjoint(newPage, p)
    ensures CanStep(w, t, newPage)
  {
  }
}
