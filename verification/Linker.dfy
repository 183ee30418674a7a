/** `load_dependencies`: a worklist over a dependency graph that may have cycles. */
module Linker {
  import opened MachO

  /** The outside world: the path resolver, the file parser and the segment mapper. */
  datatype Env = Env(
    resolve: (string, string, string, seq<string>) -> Option<string>,
    fromPath: string -> Option<Binary>,
    mapBinary: Binary -> Option<nat>)     // the slide; None is a mapping error

  datatype Work = Work(name: string, loaderPath: string, rpaths: seq<string>)

  /** How a name left the worklist, and the work item that settled it. */
  datatype Outcome =
    | Missing(work: Work)
    | Unreadable(work: Work, path: string)
    | Loaded(work: Work, path: string)

  datatype LinkResult = Ok | MapError

  function WorkFor(deps: seq<string>, path: string, rpaths: seq<string>): (w: seq<Work>)
    ensures |w| == |deps|
    ensures forall i :: 0 <= i < |w| ==> w[i] == Work(deps[i], path, rpaths)
  {
    seq(|deps|, i requires 0 <= i < |deps| => Work(deps[i], path, rpaths))
  }

  /** All names any readable library depends on lie in the finite set `names`. */
  ghost predicate ClosedUnder(env: Env, names: set<string>) {
    forall p, d :: env.fromPath(p).Some? && d in env.fromPath(p).value.dylibDeps ==> d in names
  }

  type Libraries = map<string, Binary>

  /** `name` is asked for by the main binary or by one of the libraries loaded so far. */
  ghost predicate AskedFor(main: Binary, libs: Libraries, order: seq<string>, name: string) {
    || name in main.dylibDeps
    || exists j :: 0 <= j < |order| && order[j] in libs && name in libs[order[j]].dylibDeps
  }

  /** Libraries are loaded once each, and only when something loaded before asks for them. */
  ghost predicate OrderOk(main: Binary, libs: Libraries, order: seq<string>) {
    && (forall i :: 0 <= i < |order| ==> order[i] in libs && AskedFor(main, libs, order[..i], order[i]))
    && (forall i, k :: 0 <= i < k < |order| ==> order[i] != order[k])
  }

  /** Every name that is asked for is settled, in the registry, or still on the worklist. */
  ghost predicate Covered(main: Binary, libs: Libraries, order: seq<string>, settled: set<string>,
                          registry: set<string>, work: seq<Work>)
  {
    forall d :: AskedFor(main, libs, order, d) ==> d in settled || d in registry || OnList(work, d)
  }

  ghost predicate OnList(work: seq<Work>, d: string) {
    exists i :: 0 <= i < |work| && work[i].name == d
  }

  /** The outcomes agree with what was loaded. */
  ghost predicate OutcomesOk(outcome: map<string, Outcome>, order: seq<string>) {
    forall n :: n in outcome && outcome[n].Loaded? <==> n in order
  }

  /** What the resolver answers to a work item. */
  function Resolved(env: Env, main: Binary, w: Work): (p: Option<string>) {
    env.resolve(w.name, main.path, w.loaderPath, w.rpaths)
  }

  /** What an outcome says of the world: nothing was resolved; what was resolved could not be parsed;
      or what was resolved and parsed was mapped, and stands in the table with its slide. */
  ghost predicate Explained(env: Env, main: Binary, libs: Libraries, n: string, o: Outcome) {
    && o.work.name == n
    && match o {
         case Missing(w) => Resolved(env, main, w) == None
         case Unreadable(w, p) => Resolved(env, main, w) == Some(p) && env.fromPath(p).None?
         case Loaded(w, p) =>
           && Resolved(env, main, w) == Some(p) && env.fromPath(p).Some?
           && env.mapBinary(env.fromPath(p).value).Some?
           && n in libs && libs[n] == env.fromPath(p).value.(slide := env.mapBinary(env.fromPath(p).value).value)
       }
  }

  /** The work item is one that the main binary, or a library loaded so far, gives rise to. */
  ghost predicate Generated(main: Binary, libs: Libraries, order: seq<string>, outcome: map<string, Outcome>, w: Work) {
    || (w.name in main.dylibDeps && w == Work(w.name, main.path, main.rpaths))
    || exists j :: 0 <= j < |order| && GivesRise(libs, outcome, order[j], w)
  }

  ghost predicate GivesRise(libs: Libraries, outcome: map<string, Outcome>, n: string, w: Work) {
    && n in libs && n in outcome && outcome[n].Loaded?
    && w.name in libs[n].dylibDeps && w == Work(w.name, outcome[n].path, libs[n].rpaths)
  }

  /** Every outcome is explained, and every work item, settled or not, has its origin among what was
      loaded before it. */
  ghost predicate AllExplained(env: Env, main: Binary, libs: Libraries, order: seq<string>,
                               outcome: map<string, Outcome>, work: seq<Work>)
  {
    && (forall n :: n in outcome ==> Explained(env, main, libs, n, outcome[n]))
    && (forall n :: n in outcome ==> Generated(main, libs, order, outcome, outcome[n].work))
    && (forall i :: 0 <= i < |order| ==>
          order[i] in outcome && Generated(main, libs, order[..i], outcome, outcome[order[i]].work))
    && (forall i :: 0 <= i < |work| ==> Generated(main, libs, order, outcome, work[i]))
  }

  /** `w` resolves and parses, and cannot be mapped. */
  ghost predicate FailsToMap(env: Env, main: Binary, w: Work) {
    && Resolved(env, main, w).Some? && env.fromPath(Resolved(env, main, w).value).Some?
    && env.mapBinary(env.fromPath(Resolved(env, main, w).value).value).None?
  }

  /** All of what a finished or interrupted load keeps. */
  ghost predicate LoadOk(main: Binary, libs: Libraries, order: seq<string>, outcome: map<string, Outcome>,
                         registry: set<string>, work: seq<Work>)
  {
    && OrderOk(main, libs, order)
    && OutcomesOk(outcome, order)
    && Covered(main, libs, order, outcome.Keys, registry, work)
    && (forall i :: 0 <= i < |work| ==> AskedFor(main, libs, order, work[i].name))
    && outcome.Keys !! registry
  }

  class DependencyLoader {
    const registry: set<string>
    const env: Env
    var loadedLibraries: Libraries

    constructor (r: set<string>, e: Env)
      ensures registry == r && env == e && loadedLibraries == map[]
    {
      registry, env, loadedLibraries := r, e, map[];
    }

    /** `names` is the finite set of names the graph can mention; it bounds the work. `order` lists
        the libraries mapped by this call, `outcome` says how each name was settled, and `failed` is
        the work item that could not be mapped. */
    method LoadDependencies(binary: Binary, ghost names: set<string>)
      returns (r: LinkResult, ghost order: seq<string>, ghost outcome: map<string, Outcome>, ghost failed: Work)
      requires ClosedUnder(env, names) && forall d :: d in binary.dylibDeps ==> d in names
      modifies this
      ensures OrderOk(binary, loadedLibraries, order) && OutcomesOk(outcome, order)
      ensures AllExplained(env, binary, loadedLibraries, order, outcome, [])
      ensures r.Ok? ==> Covered(binary, loadedLibraries, order, outcome.Keys, registry, [])
      ensures r.MapError? ==>
        && FailsToMap(env, binary, failed) && Generated(binary, loadedLibraries, order, outcome, failed)
        && failed.name !in outcome && failed.name !in registry
      ensures outcome.Keys !! registry
      ensures loadedLibraries.Keys == old(loadedLibraries).Keys + set n | n in order
      ensures forall n :: n in old(loadedLibraries) && n !in order ==> loadedLibraries[n] == old(loadedLibraries)[n]
    {
      hide LoadOk, ClosedUnder, AllExplained, Generated;
      var toLoad := WorkFor(binary.dylibDeps, binary.path, binary.rpaths);
      var loaded: set<string> := {};
      order, outcome, failed := [], map[], Work("", "", []);
      StartLoad(binary, loadedLibraries, registry);
      StartExplained(env, binary, loadedLibraries);
      while toLoad != []
        invariant LoadOk(binary, loadedLibraries, order, outcome, registry, toLoad)
        invariant AllExplained(env, binary, loadedLibraries, order, outcome, toLoad)
        invariant loaded == outcome.Keys <= names
        invariant forall i :: 0 <= i < |toLoad| ==> toLoad[i].name in names
        invariant loadedLibraries.Keys == old(loadedLibraries).Keys + set n | n in order
        invariant forall n :: n in old(loadedLibraries) && n !in order ==> loadedLibraries[n] == old(loadedLibraries)[n]
        decreases names - loaded, |toLoad|
      {
        var work := toLoad[|toLoad| - 1];
        ghost var before := toLoad;
        toLoad := toLoad[..|toLoad| - 1];
        assert before == toLoad + [work];
        PopExplained(env, binary, loadedLibraries, order, outcome, toLoad, work);
        if work.name in loaded || work.name in registry {
          SkipWork(binary, loadedLibraries, order, outcome, registry, toLoad, work);
          continue;
        }
        var linuxPath := env.resolve(work.name, binary.path, work.loaderPath, work.rpaths);
        if linuxPath.None? {
          SettleWork(binary, loadedLibraries, order, outcome, registry, toLoad, work, Missing(work));
          SettleExplained(env, binary, loadedLibraries, order, outcome, toLoad, Missing(work));
          outcome := outcome[work.name := Missing(work)];
          loaded := loaded + {work.name};
          continue;
        }
        var lib := env.fromPath(linuxPath.value);
        if lib.None? {
          SettleWork(binary, loadedLibraries, order, outcome, registry, toLoad, work, Unreadable(work, linuxPath.value));
          SettleExplained(env, binary, loadedLibraries, order, outcome, toLoad, Unreadable(work, linuxPath.value));
          outcome := outcome[work.name := Unreadable(work, linuxPath.value)];
          loaded := loaded + {work.name};
          continue;
        }
        var slide := env.mapBinary(lib.value);
        if slide.None? {
          Partial(binary, loadedLibraries, order, outcome, registry, before);
          NoWorkLeft(env, binary, loadedLibraries, order, outcome, toLoad);
          return MapError, order, outcome, work;
        }
        var libBinary := lib.value.(slide := slide.value);
        DepsInNames(env, names, linuxPath.value);
        LoadWork(binary, loadedLibraries, order, outcome, registry, toLoad, work, libBinary, linuxPath.value);
        LoadExplained(env, binary, loadedLibraries, order, outcome, toLoad, work, libBinary, linuxPath.value);
        toLoad := toLoad + WorkFor(libBinary.dylibDeps, linuxPath.value, libBinary.rpaths);
        loadedLibraries := loadedLibraries[work.name := libBinary];
        order := order + [work.name];
        outcome := outcome[work.name := Loaded(work, linuxPath.value)];
        loaded := loaded + {work.name};
      }
      Partial(binary, loadedLibraries, order, outcome, registry, []);
      return Ok, order, outcome, failed;
    }
  }

  lemma StartLoad(main: Binary, libs: Libraries, registry: set<string>)
    ensures LoadOk(main, libs, [], map[], registry, WorkFor(main.dylibDeps, main.path, main.rpaths))
  {
    var work := WorkFor(main.dylibDeps, main.path, main.rpaths);
    forall d | d in main.dylibDeps ensures OnList(work, d) {
      var i :| 0 <= i < |main.dylibDeps| && main.dylibDeps[i] == d;
      assert work[i].name == d;
    }
  }

  lemma Partial(main: Binary, libs: Libraries, order: seq<string>, outcome: map<string, Outcome>,
                registry: set<string>, work: seq<Work>)
    requires LoadOk(main, libs, order, outcome, registry, work)
    ensures OrderOk(main, libs, order) && OutcomesOk(outcome, order)
    ensures Covered(main, libs, order, outcome.Keys, registry, work) && outcome.Keys !! registry
  {
  }

  lemma DepsInNames(env: Env, names: set<string>, p: string)
    requires ClosedUnder(env, names) && env.fromPath(p).Some?
    ensures forall d :: d in env.fromPath(p).value.dylibDeps ==> d in names
  {
  }

  /** Only the popped name can leave the list. */
  lemma PopList(work: seq<Work>, w: Work, d: string)
    requires OnList(work + [w], d)
    ensures OnList(work, d) || d == w.name
  {
    var i :| 0 <= i < |work + [w]| && (work + [w])[i].name == d;
    if i < |work| {
      assert work[i].name == d;
    }
  }

  lemma SkipWork(main: Binary, libs: Libraries, order: seq<string>, outcome: map<string, Outcome>,
                 registry: set<string>, work: seq<Work>, w: Work)
    requires LoadOk(main, libs, order, outcome, registry, work + [w])
    requires w.name in outcome || w.name in registry
    ensures LoadOk(main, libs, order, outcome, registry, work)
  {
    hide OrderOk, OutcomesOk, AskedFor, OnList;
    forall d | AskedFor(main, libs, order, d) ensures d in outcome.Keys || d in registry || OnList(work, d) {
      if OnList(work + [w], d) {
        PopList(work, w, d);
      }
    }
    forall i | 0 <= i < |work| ensures AskedFor(main, libs, order, work[i].name) {
      assert (work + [w])[i] == work[i];
    }
  }

  /** A name that is not loaded is recorded. */
  lemma SettleWork(main: Binary, libs: Libraries, order: seq<string>, outcome: map<string, Outcome>,
                   registry: set<string>, work: seq<Work>, w: Work, o: Outcome)
    requires LoadOk(main, libs, order, outcome, registry, work + [w])
    requires w.name !in outcome && w.name !in registry && !o.Loaded?
    ensures LoadOk(main, libs, order, outcome[w.name := o], registry, work)
  {
    hide OrderOk, AskedFor, OnList;
    forall d | AskedFor(main, libs, order, d) ensures d in outcome[w.name := o].Keys || d in registry || OnList(work, d) {
      if OnList(work + [w], d) {
        PopList(work, w, d);
      }
    }
    forall i | 0 <= i < |work| ensures AskedFor(main, libs, order, work[i].name) {
      assert (work + [w])[i] == work[i];
    }
  }

  /** Loading one more library asks for its dependencies and for nothing else. */
  lemma AskedGrows(main: Binary, libs: Libraries, order: seq<string>, n: string, lib: Binary, d: string)
    requires n !in order && forall i :: 0 <= i < |order| ==> order[i] in libs
    ensures AskedFor(main, libs[n := lib], order + [n], d) <==>
            AskedFor(main, libs, order, d) || d in lib.dylibDeps
  {
    var libs', order' := libs[n := lib], order + [n];
    if d in lib.dylibDeps {
      assert order'[|order|] == n;
    }
    if exists j :: 0 <= j < |order| && order[j] in libs && d in libs[order[j]].dylibDeps {
      var j :| 0 <= j < |order| && order[j] in libs && d in libs[order[j]].dylibDeps;
      assert order'[j] == order[j];
    }
    if exists j :: 0 <= j < |order'| && order'[j] in libs' && d in libs'[order'[j]].dylibDeps {
      var j :| 0 <= j < |order'| && order'[j] in libs' && d in libs'[order'[j]].dylibDeps;
      if j < |order| {
        assert order[j] == order'[j];
      }
    }
  }

  /** The libraries loaded before are not affected by a later one. */
  lemma AskedPrefix(main: Binary, libs: Libraries, order: seq<string>, n: string, lib: Binary, d: string)
    requires n !in order && AskedFor(main, libs, order, d)
    ensures AskedFor(main, libs[n := lib], order, d)
  {
    if d !in main.dylibDeps {
      var j :| 0 <= j < |order| && order[j] in libs && d in libs[order[j]].dylibDeps;
      assert order[j] in libs[n := lib] && d in libs[n := lib][order[j]].dylibDeps;
    }
  }

  lemma LoadWork(main: Binary, libs: Libraries, order: seq<string>, outcome: map<string, Outcome>,
                 registry: set<string>, work: seq<Work>, w: Work, lib: Binary, path: string)
    requires LoadOk(main, libs, order, outcome, registry, work + [w])
    requires w.name !in outcome && w.name !in registry
    ensures LoadOk(main, libs[w.name := lib], order + [w.name], outcome[w.name := Loaded(w, path)], registry,
                   work + WorkFor(lib.dylibDeps, path, lib.rpaths))
  {
    hide AskedFor, OnList;
    var n := w.name;
    var libs', order', outcome' := libs[n := lib], order + [n], outcome[n := Loaded(w, path)];
    var more := WorkFor(lib.dylibDeps, path, lib.rpaths);
    assert (work + [w])[|work|] == w;
    assert n !in order;
    LoadOrder(main, libs, order, n, lib);
    forall d | AskedFor(main, libs', order', d) ensures d in outcome'.Keys || d in registry || OnList(work + more, d) {
      AskedGrows(main, libs, order, n, lib, d);
      if d in lib.dylibDeps {
        ListAdded(work, lib, path, d);
      } else if OnList(work + [w], d) {
        PopList(work, w, d);
        if OnList(work, d) {
          ListKept(work, more, d);
        }
      }
    }
    forall i | 0 <= i < |work + more| ensures AskedFor(main, libs', order', (work + more)[i].name) {
      AskedGrows(main, libs, order, n, lib, (work + more)[i].name);
      if i < |work| {
        assert (work + [w])[i] == work[i];
      }
    }
  }

  lemma LoadOrder(main: Binary, libs: Libraries, order: seq<string>, n: string, lib: Binary)
    requires OrderOk(main, libs, order) && n !in order && AskedFor(main, libs, order, n)
    ensures OrderOk(main, libs[n := lib], order + [n])
  {
    hide AskedFor;
    var libs', order' := libs[n := lib], order + [n];
    forall i | 0 <= i < |order'| ensures order'[i] in libs' && AskedFor(main, libs', order'[..i], order'[i]) {
      assert order'[..i] == order[..i];
      if i < |order| {
        assert AskedFor(main, libs, order[..i], order[i]);
        AskedPrefix(main, libs, order[..i], n, lib, order[i]);
      } else {
        assert order[..i] == order;
        AskedPrefix(main, libs, order, n, lib, n);
      }
    }
  }

  lemma ListAdded(work: seq<Work>, lib: Binary, path: string, d: string)
    requires d in lib.dylibDeps
    ensures OnList(work + WorkFor(lib.dylibDeps, path, lib.rpaths), d)
  {
    var more := WorkFor(lib.dylibDeps, path, lib.rpaths);
    var i :| 0 <= i < |lib.dylibDeps| && lib.dylibDeps[i] == d;
    assert (work + more)[|work| + i] == more[i];
  }

  lemma ListKept(work: seq<Work>, more: seq<Work>, d: string)
    requires OnList(work, d)
    ensures OnList(work + more, d)
  {
    var i :| 0 <= i < |work| && work[i].name == d;
    assert (work + more)[i] == work[i];
  }

  // ---- Where outcomes and work items come from ----

  lemma StartExplained(env: Env, main: Binary, libs: Libraries)
    ensures AllExplained(env, main, libs, [], map[], WorkFor(main.dylibDeps, main.path, main.rpaths))
  {
  }

  lemma PopExplained(env: Env, main: Binary, libs: Libraries, order: seq<string>, outcome: map<string, Outcome>,
                     work: seq<Work>, w: Work)
    requires AllExplained(env, main, libs, order, outcome, work + [w])
    ensures AllExplained(env, main, libs, order, outcome, work) && Generated(main, libs, order, outcome, w)
  {
    hide Explained, Generated;
    assert (work + [w])[|work|] == w;
    assert forall i :: 0 <= i < |work| ==> (work + [w])[i] == work[i];
  }

  lemma NoWorkLeft(env: Env, main: Binary, libs: Libraries, order: seq<string>, outcome: map<string, Outcome>,
                   work: seq<Work>)
    requires AllExplained(env, main, libs, order, outcome, work)
    ensures AllExplained(env, main, libs, order, outcome, [])
  {
    hide Explained, Generated;
  }

  ghost predicate SameBut(libs: Libraries, libs': Libraries, n: string) {
    forall k :: k in libs && k != n ==> k in libs' && libs'[k] == libs[k]
  }

  /** Origins stay when another name is settled, or another library loaded. */
  lemma GeneratedGrows(main: Binary, libs: Libraries, order: seq<string>, outcome: map<string, Outcome>, w: Work,
                       libs': Libraries, more: seq<string>, n: string, o: Outcome)
    requires Generated(main, libs, order, outcome, w) && n !in outcome
    requires SameBut(libs, libs', n)
    ensures Generated(main, libs', order + more, outcome[n := o], w)
  {
    if j :| 0 <= j < |order| && GivesRise(libs, outcome, order[j], w) {
      assert (order + more)[j] == order[j];
      assert GivesRise(libs', outcome[n := o], order[j], w);
    }
  }

  lemma SettleExplained(env: Env, main: Binary, libs: Libraries, order: seq<string>, outcome: map<string, Outcome>,
                        work: seq<Work>, o: Outcome)
    requires AllExplained(env, main, libs, order, outcome, work) && Generated(main, libs, order, outcome, o.work)
    requires o.work.name !in outcome && Explained(env, main, libs, o.work.name, o)
    ensures AllExplained(env, main, libs, order, outcome[o.work.name := o], work)
  {
    hide Generated;
    Later(main, libs, libs, order, [], outcome, o.work.name, o);
    assert order + [] == order;
    forall i | 0 <= i < |order|
      ensures Generated(main, libs, order[..i], outcome[o.work.name := o], outcome[order[i]].work)
    {
      Later(main, libs, libs, order[..i], [], outcome, o.work.name, o);
      assert order[..i] + [] == order[..i];
    }
  }

  lemma LoadExplained(env: Env, main: Binary, libs: Libraries, order: seq<string>, outcome: map<string, Outcome>,
                      work: seq<Work>, w: Work, lib: Binary, path: string)
    requires AllExplained(env, main, libs, order, outcome, work) && Generated(main, libs, order, outcome, w)
    requires w.name !in outcome && Explained(env, main, libs[w.name := lib], w.name, Loaded(w, path))
    ensures AllExplained(env, main, libs[w.name := lib], order + [w.name], outcome[w.name := Loaded(w, path)],
                         work + WorkFor(lib.dylibDeps, path, lib.rpaths))
  {
    hide Generated;
    var n, o := w.name, Loaded(w, path);
    var libs', order', outcome' := libs[n := lib], order + [n], outcome[n := o];
    var more := WorkFor(lib.dylibDeps, path, lib.rpaths);
    Later(main, libs, libs', order, [n], outcome, n, o);
    forall i | 0 <= i < |order'|
      ensures order'[i] in outcome' && Generated(main, libs', order'[..i], outcome', outcome'[order'[i]].work)
    {
      if i < |order| {
        assert order'[..i] == order[..i];
        Later(main, libs, libs', order[..i], [], outcome, n, o);
        assert order[..i] + [] == order[..i];
      } else {
        assert order'[..i] == order;
        Later(main, libs, libs', order, [], outcome, n, o);
        assert order + [] == order;
      }
    }
    forall i | 0 <= i < |work + more| ensures Generated(main, libs', order', outcome', (work + more)[i]) {
      if i >= |work| {
        NewWork(main, libs', order, outcome', n, more[i - |work|], w, path);
      }
    }
  }

  lemma Later(main: Binary, libs: Libraries, libs': Libraries, order: seq<string>, more: seq<string>,
              outcome: map<string, Outcome>, n: string, o: Outcome)
    requires n !in outcome && SameBut(libs, libs', n)
    ensures forall w :: Generated(main, libs, order, outcome, w) ==>
              Generated(main, libs', order + more, outcome[n := o], w)
  {
    hide Generated;
    forall w | Generated(main, libs, order, outcome, w) ensures Generated(main, libs', order + more, outcome[n := o], w) {
      GeneratedGrows(main, libs, order, outcome, w, libs', more, n, o);
    }
  }

  /** The dependencies of the library just loaded have it as their origin. */
  lemma NewWork(main: Binary, libs: Libraries, order: seq<string>, outcome: map<string, Outcome>, n: string, v: Work,
                w: Work, path: string)
    requires n in libs && n in outcome && outcome[n] == Loaded(w, path)
    requires v in WorkFor(libs[n].dylibDeps, path, libs[n].rpaths)
    ensures Generated(main, libs, order + [n], outcome, v)
  {
    assert (order + [n])[|order|] == n;
    assert GivesRise(libs, outcome, n, v);
  }

  // ---- Reachability ----

  /** `path` leads from the main binary to its last element, through loaded libraries. */
  ghost predicate Chain(main: Binary, libs: Libraries, path: seq<string>) {
    && path != [] && path[0] in main.dylibDeps
    && (forall k :: 0 <= k < |path| ==> path[k] in libs)
    && forall k :: 0 <= k < |path| - 1 ==> path[k + 1] in libs[path[k]].dylibDeps
  }

  /** Every library that was loaded is reachable through a chain of loaded libraries. */
  lemma {:induction false} LoadedReachable(main: Binary, libs: Libraries, order: seq<string>, i: nat)
    returns (path: seq<string>)
    requires OrderOk(main, libs, order) && i < |order|
    ensures Chain(main, libs, path) && path[|path| - 1] == order[i]
    ensures forall k :: 0 <= k < |path| ==> path[k] in order
    decreases i
  {
    assert AskedFor(main, libs, order[..i], order[i]);
    if order[i] in main.dylibDeps {
      path := [order[i]];
    } else {
      var j :| 0 <= j < |order[..i]| && order[..i][j] in libs && order[i] in libs[order[..i][j]].dylibDeps;
      assert order[..i][j] == order[j];
      var prefix := LoadedReachable(main, libs, order, j);
      path := prefix + [order[i]];
    }
  }

  /** On success, for each dependency of the main binary and of each library this call loaded: the
      registry supplies it, or some request for it that the binary or a loaded library makes found no
      file, or found a file that cannot be read, or found the library that is now loaded under its name. */
  lemma DependenciesSettled(env: Env, main: Binary, libs: Libraries, order: seq<string>, outcome: map<string, Outcome>,
                            registry: set<string>, d: string)
    returns (w: Work)
    requires OutcomesOk(outcome, order) && Covered(main, libs, order, outcome.Keys, registry, [])
    requires OrderOk(main, libs, order) && AllExplained(env, main, libs, order, outcome, [])
    requires d in main.dylibDeps || exists n :: n in order && n in libs && d in libs[n].dylibDeps
    ensures d in registry || (w.name == d && Generated(main, libs, order, outcome, w) && Answered(env, main, libs, order, w))
  {
    hide Generated;
    if d !in main.dylibDeps {
      var n :| n in order && n in libs && d in libs[n].dylibDeps;
      var j :| 0 <= j < |order| && order[j] == n;
      assert order[j] in libs && d in libs[order[j]].dylibDeps;
    }
    assert AskedFor(main, libs, order, d);
    w := if d in outcome then outcome[d].work else Work(d, "", []);
  }

  /** A request came to nothing, or its library is loaded. */
  ghost predicate Answered(env: Env, main: Binary, libs: Libraries, order: seq<string>, w: Work) {
    match Resolved(env, main, w)
    case None => true
    case Some(p) =>
      match env.fromPath(p)
      case None => true
      case Some(lib) =>
        && w.name in order && w.name in libs
        && env.mapBinary(lib).Some? && libs[w.name] == lib.(slide := env.mapBinary(lib).value)
  }
}
