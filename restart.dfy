/** The supervisor's thread bookkeeping: which workers are started, and which
    are respawned by one pass of the monitoring loop, given which threads are
    alive at that moment.

    Threads are numbered in creation order: `runs[id]` is the worker thread `id`
    runs. `bound` holds the handles kept in `thread1`, `thread2` and `thread3`
    (a worker absent from `bound` never had its name assigned). `dead` holds the
    threads some cycle has found not alive; a thread that has ended stays ended,
    so a later liveness snapshot never contains them. */
module Restart {
  import opened Config
  import opened Workers

  datatype State = State(flags: Flags, bound: map<Worker, nat>, runs: seq<Worker>, dead: set<nat>)

  /** The workers each cycle inspects, in list order: the relay always, each
      camera only while its flag is set. */
  function Eligible(f: Flags): (ws: seq<Worker>)
    ensures Mavproxy in ws
    ensures T265 in ws <==> f.t265
    ensures D4xx in ws <==> f.d4xx
    ensures forall a, b :: 0 <= a < b < |ws| ==> ws[a] != ws[b]
  {
    [Mavproxy] + (if f.t265 then [T265] else []) + (if f.d4xx then [D4xx] else [])
  }

  /** Every worker a cycle may inspect has a recorded handle, and every handle
      and every known-dead thread is one that was created. */
  predicate Valid(s: State) {
    && (forall w :: w in Eligible(s.flags) ==> w in s.bound)
    && (forall w :: w in s.bound ==> s.bound[w] < |s.runs| && s.runs[s.bound[w]] == w)
    && (forall id :: id in s.dead ==> id < |s.runs|)
  }

  /** Each created thread is either known to have ended or is the one recorded
      for its worker. */
  predicate Replaced(s: State)
    requires Valid(s)
  {
    forall id :: 0 <= id < |s.runs| && id !in s.dead ==> s.runs[id] in s.bound && s.bound[s.runs[id]] == id
  }

  /** A liveness snapshot that agrees with what has been seen: no thread found
      dead earlier is alive again. */
  predicate Consistent(s: State, alive: set<nat>) {
    forall id :: id in alive ==> id !in s.dead
  }

  /** No worker has two live threads in the snapshot. */
  predicate AtMostOneLive(s: State, alive: set<nat>) {
    forall i, j :: 0 <= i < j < |s.runs| && i in alive && j in alive ==> s.runs[i] != s.runs[j]
  }

  /** A new thread for `w`, recorded as `w`'s handle. */
  function Spawn(s: State, w: Worker): State {
    s.(bound := s.bound[w := |s.runs|], runs := s.runs + [w])
  }

  /** Start-up: the relay thread first, then a thread for each enabled camera,
      in that order, each recorded under its own name. */
  function Launch(f: Flags): (r: State)
    ensures r.flags == f && r.runs == Eligible(f) && r.dead == {}
    ensures forall w :: w in r.bound ==> r.bound[w] < |r.runs| && r.runs[r.bound[w]] == w
  {
    var relay := Spawn(State(f, map[], [], {}), Mavproxy);
    var tracking := if f.t265 then Spawn(relay, T265) else relay;
    if f.d4xx then Spawn(tracking, D4xx) else tracking
  }

  /** Thread `id` of `s` is the one recorded for its worker, for every id,
      every recorded worker has a thread and none is known to have ended. */
  predicate Fresh(s: State) {
    && s.dead == {}
    && (forall w :: w in s.bound <==> w in s.runs)
    && (forall id :: 0 <= id < |s.runs| ==> s.runs[id] in s.bound && s.bound[s.runs[id]] == id)
  }

  /** Starting a worker that has no thread yet keeps a fresh state fresh. */
  lemma SpawnKeepsFresh(s: State, w: Worker)
    requires Fresh(s) && w !in s.runs
    ensures Fresh(Spawn(s, w))
  {
    var t := Spawn(s, w);
    forall id | 0 <= id < |t.runs|
      ensures t.runs[id] in t.bound && t.bound[t.runs[id]] == id
    {
      if id < |s.runs| {
        assert t.runs[id] == s.runs[id] != w;
      }
    }
  }

  /** Start-up creates one thread per eligible worker, in list order, each
      recorded for its worker and none yet found dead. */
  lemma LaunchStartsEligible(f: Flags)
    ensures Valid(Launch(f)) && Replaced(Launch(f))
    ensures Launch(f).flags == f && Launch(f).runs == Eligible(f) && Launch(f).dead == {}
    ensures forall w :: w in Launch(f).bound <==> w in Eligible(f)
  {
    LaunchIsFresh(f);
    FreshIsValid(Launch(f));
  }

  /** Start-up spawns the eligible workers in list order, each once. */
  lemma LaunchIsFresh(f: Flags)
    ensures Fresh(Launch(f)) && Launch(f).runs == Eligible(f) && Launch(f).flags == f
  {
    var relay := Spawn(State(f, map[], [], {}), Mavproxy);
    SpawnKeepsFresh(State(f, map[], [], {}), Mavproxy);
    var tracking := if f.t265 then Spawn(relay, T265) else relay;
    var cameras := if f.t265 then [T265] else [];
    assert tracking.runs == [Mavproxy] + cameras;
    if f.t265 {
      SpawnKeepsFresh(relay, T265);
    }
    if f.d4xx {
      assert D4xx !in tracking.runs;
      SpawnKeepsFresh(tracking, D4xx);
    }
  }

  /** A fresh state whose threads are those of the eligible workers is valid,
      and every thread in it is the recorded one. */
  lemma FreshIsValid(s: State)
    requires Fresh(s) && s.runs == Eligible(s.flags)
    ensures Valid(s) && Replaced(s)
    ensures forall w :: w in s.bound <==> w in Eligible(s.flags)
  {
  }

  /** The workers of `todo`, in order, whose recorded thread is not alive. */
  function Respawn(bound: map<Worker, nat>, todo: seq<Worker>, alive: set<nat>): (ws: seq<Worker>)
    requires forall w :: w in todo ==> w in bound
    ensures |ws| <= |todo|
  {
    if todo == [] then
      []
    else
      var rest := Respawn(bound, todo[1..], alive);
      if bound[todo[0]] in alive then rest else [todo[0]] + rest
  }

  /** `Respawn` keeps exactly the visited workers whose thread is not alive. */
  lemma {:induction false} RespawnMembers(bound: map<Worker, nat>, todo: seq<Worker>, alive: set<nat>)
    requires forall w :: w in todo ==> w in bound
    ensures forall w :: w in Respawn(bound, todo, alive) <==> w in todo && bound[w] !in alive
  {
    if todo != [] {
      RespawnMembers(bound, todo[1..], alive);
      assert forall w :: w in todo <==> w == todo[0] || w in todo[1..];
    }
  }

  /** The workers one cycle respawns: exactly the eligible ones whose recorded
      thread is not alive. */
  function Respawned(s: State, alive: set<nat>): (ws: seq<Worker>)
    requires Valid(s)
    ensures Mavproxy in ws <==> s.bound[Mavproxy] !in alive
    ensures T265 in ws <==> s.flags.t265 && s.bound[T265] !in alive
    ensures D4xx in ws <==> s.flags.d4xx && s.bound[D4xx] !in alive
  {
    RespawnMembers(s.bound, Eligible(s.flags), alive);
    Respawn(s.bound, Eligible(s.flags), alive)
  }

  /** Visits worker `w`: if its recorded thread is not alive, a new thread is
      created for it and the old one is known to have ended; with `rebind` the
      new handle replaces the recorded one. */
  function Step(s: State, w: Worker, alive: set<nat>, rebind: bool): (t: State)
    requires Valid(s) && w in Eligible(s.flags)
    ensures Valid(t) && t.flags == s.flags
    ensures t.runs == s.runs + if s.bound[w] in alive then [] else [w]
    ensures t.dead == if s.bound[w] in alive then s.dead else s.dead + {s.bound[w]}
    ensures t.bound.Keys == s.bound.Keys
    ensures forall v :: v in s.bound && v != w ==> t.bound[v] == s.bound[v]
    ensures !rebind ==> t.bound == s.bound
  {
    var h := s.bound[w];
    if h in alive then
      s
    else
      var t := State(s.flags, if rebind then s.bound[w := |s.runs|] else s.bound, s.runs + [w], s.dead + {h});
      assert forall v :: v in s.bound ==> s.runs[s.bound[v]] == t.runs[s.bound[v]];
      t
  }

  /** Storing the new handle back keeps every thread either ended or the
      recorded one: the replaced thread is the one just found not alive. */
  lemma RebindingStepKeepsReplaced(s: State, w: Worker, alive: set<nat>, rebind: bool)
    requires Valid(s) && w in Eligible(s.flags)
    ensures rebind && Replaced(s) ==> Replaced(Step(s, w, alive, rebind))
  {
    var t := Step(s, w, alive, rebind);
    if rebind && Replaced(s) && s.bound[w] !in alive {
      forall id | 0 <= id < |t.runs| && id !in t.dead
        ensures t.runs[id] in t.bound && t.bound[t.runs[id]] == id
      {
        if id < |s.runs| {
          assert t.runs[id] == s.runs[id];
        }
      }
    }
  }

  /** A visit with rebinding leaves a live thread alone, and otherwise starts a
      new thread for `w` and records it. */
  lemma StepRebinding(s: State, w: Worker, alive: set<nat>)
    requires Valid(s) && w in Eligible(s.flags)
    ensures s.bound[w] in alive ==> Step(s, w, alive, true) == s
    ensures s.bound[w] !in alive ==>
              Step(s, w, alive, true) ==
              s.(bound := s.bound[w := |s.runs|], runs := s.runs + [w], dead := s.dead + {s.bound[w]})
  {
  }

  /** Visits the workers of `todo` in order. */
  function Visit(s: State, todo: seq<Worker>, alive: set<nat>, rebind: bool): (t: State)
    requires Valid(s)
    requires forall w :: w in todo ==> w in Eligible(s.flags)
    requires forall a, b :: 0 <= a < b < |todo| ==> todo[a] != todo[b]
    ensures Valid(t) && t.flags == s.flags
    ensures !rebind ==> t.bound == s.bound
    ensures s.dead <= t.dead && forall id :: id in t.dead && id !in s.dead ==> id !in alive
    ensures rebind && Replaced(s) ==> Replaced(t)
    decreases |todo|
  {
    if todo == [] then
      s
    else
      var w, rest := todo[0], todo[1..];
      var s1 := Step(s, w, alive, rebind);
      assert forall a :: 0 <= a < |rest| ==> rest[a] == todo[a + 1];
      RebindingStepKeepsReplaced(s, w, alive, rebind);
      Visit(s1, rest, alive, rebind)
  }

  /** A pass creates one new thread for each visited worker whose recorded
      thread is not alive, in visiting order. */
  lemma {:induction false} VisitSpawnsRespawn(s: State, todo: seq<Worker>, alive: set<nat>, rebind: bool)
    requires Valid(s)
    requires forall w :: w in todo ==> w in Eligible(s.flags)
    requires forall a, b :: 0 <= a < b < |todo| ==> todo[a] != todo[b]
    ensures Visit(s, todo, alive, rebind).runs == s.runs + Respawn(s.bound, todo, alive)
    decreases |todo|
  {
    if todo != [] {
      var w, rest := todo[0], todo[1..];
      var s1 := Step(s, w, alive, rebind);
      assert forall a :: 0 <= a < |rest| ==> rest[a] == todo[a + 1];
      assert forall v :: v in rest ==> v != w;
      RespawnFrame(s.bound, s1.bound, rest, alive);
      VisitSpawnsRespawn(s1, rest, alive, rebind);
      var here, later := if s.bound[w] in alive then [] else [w], Respawn(s.bound, rest, alive);
      assert Respawn(s.bound, todo, alive) == here + later;
      assert s1.runs == s.runs + here;
      ConcatAssociates(s.runs, here, later);
      assert Visit(s, todo, alive, rebind) == Visit(s1, rest, alive, rebind);
    }
  }

  /** The recorded threads of the workers of `todo` that are not alive. */
  function Ended(bound: map<Worker, nat>, todo: seq<Worker>, alive: set<nat>): (ids: set<nat>)
    requires forall w :: w in todo ==> w in bound
    ensures forall id :: id in ids ==> id !in alive
  {
    if todo == [] then
      {}
    else
      Ended(bound, todo[1..], alive) + if bound[todo[0]] in alive then {} else {bound[todo[0]]}
  }

  /** `Ended` collects exactly the recorded threads of the visited workers
      that are not alive. */
  lemma {:induction false} EndedMembers(bound: map<Worker, nat>, todo: seq<Worker>, alive: set<nat>)
    requires forall w :: w in todo ==> w in bound
    ensures forall id :: id in Ended(bound, todo, alive) <==> id !in alive && exists w :: w in todo && bound[w] == id
  {
    if todo != [] {
      EndedMembers(bound, todo[1..], alive);
      assert forall w :: w in todo <==> w == todo[0] || w in todo[1..];
    }
  }

  /** Visiting one more worker adds its thread to `Respawn` and `Ended` when
      that thread is not alive. */
  lemma {:induction false} VisitOneMore(bound: map<Worker, nat>, todo: seq<Worker>, w: Worker, alive: set<nat>)
    requires forall v :: v in todo ==> v in bound
    requires w in bound
    ensures Respawn(bound, todo + [w], alive) == Respawn(bound, todo, alive) + if bound[w] in alive then [] else [w]
    ensures Ended(bound, todo + [w], alive) == Ended(bound, todo, alive) + if bound[w] in alive then {} else {bound[w]}
  {
    if todo != [] {
      assert (todo + [w])[1..] == todo[1..] + [w];
      VisitOneMore(bound, todo[1..], w, alive);
    }
  }

  /** `Ended` only looks at the handles of the workers it visits. */
  lemma {:induction false} EndedFrame(b1: map<Worker, nat>, b2: map<Worker, nat>, todo: seq<Worker>, alive: set<nat>)
    requires forall w :: w in todo ==> w in b1 && w in b2 && b1[w] == b2[w]
    ensures Ended(b1, todo, alive) == Ended(b2, todo, alive)
  {
    if todo != [] {
      EndedFrame(b1, b2, todo[1..], alive);
    }
  }

  /** Visiting the first worker of `todo` adds its recorded thread to the
      known-dead ones when it is not alive, which is what `Ended` takes for that
      worker, and leaves the recorded threads of the rest as they were. */
  lemma StepEnds(s: State, todo: seq<Worker>, alive: set<nat>, rebind: bool)
    requires Valid(s) && todo != []
    requires forall w :: w in todo ==> w in Eligible(s.flags)
    requires forall a, b :: 0 <= a < b < |todo| ==> todo[a] != todo[b]
    ensures var h := s.bound[todo[0]];
            var here := if h in alive then {} else {h};
            var s1 := Step(s, todo[0], alive, rebind);
            && s1.dead == s.dead + here
            && Ended(s.bound, todo, alive) == Ended(s.bound, todo[1..], alive) + here
            && Ended(s1.bound, todo[1..], alive) == Ended(s.bound, todo[1..], alive)
  {
    TailAvoidsHead(todo);
    StepKeepsOthers(s, todo[0], todo[1..], alive, rebind);
  }

  /** In a sequence without repetitions the head does not occur in the tail. */
  lemma TailAvoidsHead<T>(todo: seq<T>)
    requires todo != []
    requires forall a, b :: 0 <= a < b < |todo| ==> todo[a] != todo[b]
    ensures forall v :: v in todo[1..] ==> v in todo && v != todo[0]
  {
    assert forall a :: 0 <= a < |todo[1..]| ==> todo[1..][a] == todo[a + 1];
  }

  /** Visiting `w` leaves the recorded threads of the other workers as they were. */
  lemma StepKeepsOthers(s: State, w: Worker, rest: seq<Worker>, alive: set<nat>, rebind: bool)
    requires Valid(s) && w in Eligible(s.flags)
    requires forall v :: v in rest ==> v in Eligible(s.flags) && v != w
    ensures Ended(Step(s, w, alive, rebind).bound, rest, alive) == Ended(s.bound, rest, alive)
  {
    var s1 := Step(s, w, alive, rebind);
    forall v | v in rest
      ensures v in s1.bound && v in s.bound && s1.bound[v] == s.bound[v]
    {
    }
    EndedFrame(s1.bound, s.bound, rest, alive);
  }

  /** `VisitOneMore` for the prefixes of one sequence of workers. */
  lemma PrefixOneMore(bound: map<Worker, nat>, ws: seq<Worker>, i: nat, alive: set<nat>)
    requires forall v :: v in ws ==> v in bound
    requires i < |ws|
    ensures bound[ws[i]] in alive ==>
              Respawn(bound, ws[..i + 1], alive) == Respawn(bound, ws[..i], alive) &&
              Ended(bound, ws[..i + 1], alive) == Ended(bound, ws[..i], alive)
    ensures bound[ws[i]] !in alive ==>
              Respawn(bound, ws[..i + 1], alive) == Respawn(bound, ws[..i], alive) + [ws[i]] &&
              Ended(bound, ws[..i + 1], alive) == Ended(bound, ws[..i], alive) + {bound[ws[i]]}
  {
    assert ws[..i + 1] == ws[..i] + [ws[i]];
    VisitOneMore(bound, ws[..i], ws[i], alive);
    if bound[ws[i]] in alive {
      assert Respawn(bound, ws[..i], alive) + [] == Respawn(bound, ws[..i], alive);
      assert Ended(bound, ws[..i], alive) + {} == Ended(bound, ws[..i], alive);
    }
  }

  /** A pass adds to the known-dead threads exactly the recorded threads of the
      visited workers that are not alive. */
  lemma {:induction false} VisitEnds(s: State, todo: seq<Worker>, alive: set<nat>, rebind: bool)
    requires Valid(s)
    requires forall w :: w in todo ==> w in Eligible(s.flags)
    requires forall a, b :: 0 <= a < b < |todo| ==> todo[a] != todo[b]
    ensures Visit(s, todo, alive, rebind).dead == s.dead + Ended(s.bound, todo, alive)
    decreases |todo|
  {
    if todo != [] {
      var h := s.bound[todo[0]];
      var s1 := Step(s, todo[0], alive, rebind);
      VisitFirst(s, todo, alive, rebind);
      StepEnds(s, todo, alive, rebind);
      VisitEnds(s1, todo[1..], alive, rebind);
      UnionRegroups(s.dead, if h in alive then {} else {h}, Ended(s.bound, todo[1..], alive));
    }
  }

  /** A pass with rebinding records the `k`-th respawned worker's new thread,
      which is the `k`-th one created, and keeps the handle of every other
      worker. */
  lemma {:induction false} VisitRebinds(s: State, todo: seq<Worker>, alive: set<nat>)
    requires Valid(s)
    requires forall w :: w in todo ==> w in Eligible(s.flags)
    requires forall a, b :: 0 <= a < b < |todo| ==> todo[a] != todo[b]
    ensures var t, r := Visit(s, todo, alive, true), Respawn(s.bound, todo, alive);
            && (forall k :: 0 <= k < |r| ==> r[k] in t.bound && t.bound[r[k]] == |s.runs| + k)
            && (forall w :: w in s.bound && w !in r ==> w in t.bound && t.bound[w] == s.bound[w])
    decreases |todo|
  {
    if todo != [] {
      var w, rest := todo[0], todo[1..];
      var s1 := Step(s, w, alive, true);
      VisitFirst(s, todo, alive, true);
      TailAvoidsHead(todo);
      RespawnFrame(s.bound, s1.bound, rest, alive);
      RespawnMembers(s.bound, rest, alive);
      VisitRebinds(s1, rest, alive);
      var t, r1 := Visit(s1, rest, alive, true), Respawn(s.bound, rest, alive);
      var r := Respawn(s.bound, todo, alive);
      assert Visit(s, todo, alive, true) == t;
      assert w !in r1;
      if s.bound[w] in alive {
        assert s1 == s && r == r1;
      } else {
        StepRebinding(s, w, alive);
        assert r == [w] + r1 && |s1.runs| == |s.runs| + 1;
        HandlesInOrder(t.bound, w, r1, |s.runs|);
      }
    }
  }

  /** Handles numbered from `n + 1` for `rest`, and `n` for `w`, number the
      workers of `[w] + rest` from `n`. */
  lemma HandlesInOrder(bound: map<Worker, nat>, w: Worker, rest: seq<Worker>, n: nat)
    requires w in bound && bound[w] == n
    requires forall k :: 0 <= k < |rest| ==> rest[k] in bound && bound[rest[k]] == n + 1 + k
    ensures forall k :: 0 <= k < |[w] + rest| ==> ([w] + rest)[k] in bound && bound[([w] + rest)[k]] == n + k
  {
    forall k | 0 <= k < |[w] + rest|
      ensures ([w] + rest)[k] in bound && bound[([w] + rest)[k]] == n + k
    {
      if k > 0 {
        assert ([w] + rest)[k] == rest[k - 1];
      }
    }
  }

  /** A pass visits the first worker, then the rest from the state that left. */
  lemma VisitFirst(s: State, todo: seq<Worker>, alive: set<nat>, rebind: bool)
    requires Valid(s) && todo != []
    requires forall w :: w in todo ==> w in Eligible(s.flags)
    requires forall a, b :: 0 <= a < b < |todo| ==> todo[a] != todo[b]
    ensures forall w :: w in todo[1..] ==> w in Eligible(Step(s, todo[0], alive, rebind).flags)
    ensures forall a, b :: 0 <= a < b < |todo[1..]| ==> todo[1..][a] != todo[1..][b]
    ensures Visit(s, todo, alive, rebind) == Visit(Step(s, todo[0], alive, rebind), todo[1..], alive, rebind)
  {
    assert forall a :: 0 <= a < |todo[1..]| ==> todo[1..][a] == todo[a + 1];
  }

  /** A pass over `todo` followed by `w` is the pass over `todo`, then a visit
      of `w`. */
  lemma {:induction false} VisitAppend(s: State, todo: seq<Worker>, w: Worker, alive: set<nat>, rebind: bool)
    requires Valid(s) && w in Eligible(s.flags) && w !in todo
    requires forall v :: v in todo ==> v in Eligible(s.flags)
    requires forall a, b :: 0 <= a < b < |todo| ==> todo[a] != todo[b]
    ensures forall v :: v in todo + [w] ==> v in Eligible(s.flags)
    ensures forall a, b :: 0 <= a < b < |todo + [w]| ==> (todo + [w])[a] != (todo + [w])[b]
    ensures Visit(s, todo + [w], alive, rebind) == Step(Visit(s, todo, alive, rebind), w, alive, rebind)
    decreases |todo|
  {
    AppendStaysDistinct(todo, w);
    VisitFirst(s, todo + [w], alive, rebind);
    if todo == [] {
      assert (todo + [w])[1..] == [];
    } else {
      var s1 := Step(s, todo[0], alive, rebind);
      TailOfAppend(todo, w);
      VisitFirst(s, todo, alive, rebind);
      TailAvoidsHead(todo);
      VisitAppend(s1, todo[1..], w, alive, rebind);
    }
  }

  /** The state after a pass has visited the first `i` eligible workers. */
  function Visited(s: State, i: nat, alive: set<nat>, rebind: bool): (t: State)
    requires Valid(s) && i <= |Eligible(s.flags)|
    ensures Valid(t) && t.flags == s.flags
  {
    var ws := Eligible(s.flags);
    assert forall a, b :: 0 <= a < b < i ==> ws[..i][a] != ws[..i][b];
    Visit(s, ws[..i], alive, rebind)
  }

  /** Visiting one more eligible worker is one more `Step`; visiting all of
      them is a whole pass. */
  lemma VisitedStep(s: State, i: nat, alive: set<nat>, rebind: bool)
    requires Valid(s) && i < |Eligible(s.flags)|
    ensures var ws := Eligible(s.flags);
            Visited(s, i + 1, alive, rebind) == Step(Visited(s, i, alive, rebind), ws[i], alive, rebind)
  {
    var ws := Eligible(s.flags);
    assert ws[..i + 1] == ws[..i] + [ws[i]];
    assert forall a, b :: 0 <= a < b < i ==> ws[..i][a] != ws[..i][b];
    VisitAppend(s, ws[..i], ws[i], alive, rebind);
  }

  /** The handles `t` records for the eligible workers from `i` on are still
      those of `s`. */
  predicate Untouched(s: State, t: State, i: nat)
    requires i <= |Eligible(s.flags)|
  {
    var ws := Eligible(s.flags);
    forall k :: i <= k < |ws| ==> ws[k] in s.bound && ws[k] in t.bound && t.bound[ws[k]] == s.bound[ws[k]]
  }

  /** Visiting `w`, whose recorded thread is `h`, with rebinding. */
  function Advance(t: State, w: Worker, h: nat, alive: set<nat>): State {
    if h in alive then t else t.(bound := t.bound[w := |t.runs|], runs := t.runs + [w], dead := t.dead + {h})
  }

  /** One iteration of a rebinding pass over the eligible workers: after `i`
      of them, visiting worker `i` either leaves the state alone (its thread
      is alive) or starts and records a new thread for it, and the handles of
      the workers still to visit stay as they were. */
  lemma RebindingLoopStep(s0: State, st: State, i: nat, alive: set<nat>)
    requires Valid(s0) && i < |Eligible(s0.flags)|
    requires st == Visited(s0, i, alive, true) && Untouched(s0, st, i)
    ensures var ws := Eligible(s0.flags);
            var next := Visited(s0, i + 1, alive, true);
            next == Advance(st, ws[i], s0.bound[ws[i]], alive) && Untouched(s0, next, i + 1)
  {
    var ws := Eligible(s0.flags);
    assert forall k :: i < k < |ws| ==> ws[k] != ws[i];
    VisitedStep(s0, i, alive, true);
    StepRebinding(st, ws[i], alive);
  }

  /** Visiting every eligible worker with rebinding is the corrected cycle. */
  lemma VisitedAll(s: State, alive: set<nat>)
    requires Valid(s)
    ensures Visited(s, |Eligible(s.flags)|, alive, true) == CycleRebinding(s, alive)
    ensures Respawn(s.bound, Eligible(s.flags)[..|Eligible(s.flags)|], alive) == Respawned(s, alive)
  {
    var ws := Eligible(s.flags);
    assert ws[..|ws|] == ws;
  }

  lemma TailOfAppend<T>(todo: seq<T>, w: T)
    requires todo != []
    ensures (todo + [w])[0] == todo[0] && (todo + [w])[1..] == todo[1..] + [w]
  {
  }

  /** Appending a new element to a sequence without repetitions gives one
      without repetitions. */
  lemma AppendStaysDistinct<T>(todo: seq<T>, w: T)
    requires w !in todo
    requires forall a, b :: 0 <= a < b < |todo| ==> todo[a] != todo[b]
    ensures forall v :: v in todo + [w] <==> v in todo || v == w
    ensures forall a, b :: 0 <= a < b < |todo + [w]| ==> (todo + [w])[a] != (todo + [w])[b]
  {
    forall a, b | 0 <= a < b < |todo + [w]|
      ensures (todo + [w])[a] != (todo + [w])[b]
    {
      assert (todo + [w])[a] == todo[a];
      assert b < |todo| ==> (todo + [w])[b] == todo[b];
    }
  }

  lemma UnionRegroups<T>(a: set<T>, b: set<T>, c: set<T>)
    ensures (a + b) + c == a + (c + b)
  {
  }

  lemma UnionAssociates<T>(a: set<T>, b: set<T>, c: set<T>)
    ensures (a + b) + c == a + (b + c)
  {
  }

  lemma ConcatAssociates<T>(a: seq<T>, b: seq<T>, c: seq<T>)
    ensures (a + b) + c == a + (b + c)
  {
  }

  /** `Respawn` only looks at the handles of the workers it visits. */
  lemma {:induction false} RespawnFrame(b1: map<Worker, nat>, b2: map<Worker, nat>, todo: seq<Worker>, alive: set<nat>)
    requires forall w :: w in todo ==> w in b1 && w in b2 && b1[w] == b2[w]
    ensures Respawn(b1, todo, alive) == Respawn(b2, todo, alive)
  {
    if todo != [] {
      RespawnFrame(b1, b2, todo[1..], alive);
    }
  }

  /** One pass of the monitoring loop as written: a new thread is started for
      every eligible worker whose recorded thread is not alive, but the handle
      is bound only to the loop variable, so the recorded handles never change. */
  function CycleAsWritten(s: State, alive: set<nat>): (t: State)
    requires Valid(s)
    ensures Valid(t) && t.flags == s.flags && t.bound == s.bound
    ensures t.runs == s.runs + Respawned(s, alive)
    ensures t.dead == s.dead + Ended(s.bound, Eligible(s.flags), alive)
  {
    VisitSpawnsRespawn(s, Eligible(s.flags), alive, false);
    VisitEnds(s, Eligible(s.flags), alive, false);
    Visit(s, Eligible(s.flags), alive, false)
  }

  /** One pass of the monitoring loop with the new handle stored back as the
      worker's recorded thread. */
  function CycleRebinding(s: State, alive: set<nat>): (t: State)
    requires Valid(s)
    ensures Valid(t) && t.flags == s.flags
    ensures t.runs == s.runs + Respawned(s, alive)
    ensures t.dead == s.dead + Ended(s.bound, Eligible(s.flags), alive)
    ensures forall k :: 0 <= k < |Respawned(s, alive)| ==>
              Respawned(s, alive)[k] in t.bound && t.bound[Respawned(s, alive)[k]] == |s.runs| + k
    ensures forall w :: w in s.bound && w !in Respawned(s, alive) ==> w in t.bound && t.bound[w] == s.bound[w]
    ensures Replaced(s) ==> Replaced(t)
  {
    VisitSpawnsRespawn(s, Eligible(s.flags), alive, true);
    VisitEnds(s, Eligible(s.flags), alive, true);
    VisitRebinds(s, Eligible(s.flags), alive);
    Visit(s, Eligible(s.flags), alive, true)
  }

  /** The loop of a rebinding pass over the watch list `threads` (each
      eligible worker with its recorded handle): the state it leaves, and the
      workers respawned, in visiting order. */
  method RebindingPass(s: State, threads: seq<(nat, Worker)>, alive: set<nat>) returns (t: State, respawned: seq<Worker>)
    requires Valid(s)
    requires var ws := Eligible(s.flags);
             |threads| == |ws| && forall k :: 0 <= k < |ws| ==> threads[k] == (s.bound[ws[k]], ws[k])
    ensures t == CycleRebinding(s, alive)
    ensures respawned == Respawned(s, alive)
  {
    ghost var ws := Eligible(s.flags);
    t, respawned := s, [];
    var i := 0;
    while i < |threads|
      invariant 0 <= i <= |threads|
      invariant t == Visited(s, i, alive, true) && Untouched(s, t, i)
      invariant respawned == Respawn(s.bound, ws[..i], alive)
    {
      var (thread, w) := threads[i];
      PrefixOneMore(s.bound, ws, i, alive);
      RebindingLoopStep(s, t, i, alive);
      t := Advance(t, w, thread, alive);
      if thread !in alive {
        respawned := respawned + [w];
      }
      i := i + 1;
    }
    VisitedAll(s, alive);
  }

  /** With every replaced thread known to have ended, no consistent snapshot
      shows two live threads of one worker. */
  lemma ReplacedGivesOneLiveRun(s: State, alive: set<nat>)
    requires Valid(s) && Replaced(s) && Consistent(s, alive)
    ensures AtMostOneLive(s, alive)
  {
  }

  /** With the handle stored back, the supervisor keeps at most one live thread
      per worker: started that way, every cycle keeps it so for every later
      snapshot consistent with what it has seen. */
  lemma RebindingKeepsOneLiveRun(s: State, alive: set<nat>, next: set<nat>)
    requires Valid(s) && Replaced(s)
    requires Consistent(CycleRebinding(s, alive), next)
    ensures Replaced(CycleRebinding(s, alive))
    ensures AtMostOneLive(CycleRebinding(s, alive), next)
  {
    ReplacedGivesOneLiveRun(CycleRebinding(s, alive), next);
  }

  /** Successive corrected passes, one per liveness snapshot in `snaps`. */
  function Passes(s: State, snaps: seq<set<nat>>): (t: State)
    requires Valid(s)
    ensures Valid(t) && t.flags == s.flags
    ensures |s.runs| <= |t.runs|
    ensures Replaced(s) ==> Replaced(t)
    decreases |snaps|
  {
    if snaps == [] then s else Passes(CycleRebinding(s, snaps[0]), snaps[1..])
  }

  /** With the handle stored back, no number of passes after start-up ever
      leaves a worker with two live threads in a snapshot consistent with what
      has been seen. */
  lemma RebindingNeverDuplicates(f: Flags, snaps: seq<set<nat>>, next: set<nat>)
    ensures Valid(Launch(f))
    ensures Consistent(Passes(Launch(f), snaps), next) ==> AtMostOneLive(Passes(Launch(f), snaps), next)
  {
    LaunchStartsEligible(f);
    var t := Passes(Launch(f), snaps);
    assert Replaced(t);
    if Consistent(t, next) {
      ReplacedGivesOneLiveRun(t, next);
    }
  }

  /** As written, a single pass already breaks `Replaced`: with only the relay
      enabled and thread 0 not alive, thread 1 is started but `thread1` still
      holds thread 0, which is why a later pass can start a second live relay
      thread. */
  lemma AsWrittenLosesReplaced()
    ensures var s0 := Launch(Flags(false, false));
            && Valid(s0) && Replaced(s0)
            && var s1 := CycleAsWritten(s0, {});
               Valid(s1) && !Replaced(s1)
  {
    var f := Flags(false, false);
    var s0 := Launch(f);
    LaunchStartsEligible(f);
    assert s0.bound[Mavproxy] == 0 && s0.runs == [Mavproxy] && s0.dead == {};
    FirstPassKeepsOldHandle(s0);
  }

  /** The pass of `AsWrittenLosesReplaced`: thread 1 is started and not ended,
      but the relay's recorded thread is still thread 0. */
  lemma FirstPassKeepsOldHandle(s0: State)
    requires Valid(s0) && !s0.flags.t265 && !s0.flags.d4xx
    requires s0.bound[Mavproxy] == 0 && s0.runs == [Mavproxy] && s0.dead == {}
    ensures !Replaced(CycleAsWritten(s0, {}))
  {
    RelayRestartedAsWritten(s0, {});
    var s1 := CycleAsWritten(s0, {});
    assert s1.runs == [Mavproxy, Mavproxy] && s1.bound == s0.bound && s1.dead == {0};
    assert 1 !in s1.dead && s1.runs[1] == Mavproxy && s1.bound[Mavproxy] == 0;
  }

  /** Flags only ever being cleared keeps every worker a cycle may inspect
      bound to a handle: the loop never reads `thread2` or `thread3` unless
      they were assigned at start-up. */
  lemma ValidAfterFlagsFall(s: State, f: Flags)
    requires Valid(s) && Falls(s.flags, f)
    ensures Valid(s.(flags := f))
    ensures Replaced(s) ==> Replaced(s.(flags := f))
  {
  }

  /** With both cameras disabled a pass visits the relay alone. */
  lemma RelayOnlyPass(s: State, alive: set<nat>, rebind: bool)
    requires Valid(s) && !s.flags.t265 && !s.flags.d4xx
    ensures var h := s.bound[Mavproxy];
            Visit(s, Eligible(s.flags), alive, rebind) ==
              if h in alive then s
              else State(s.flags, if rebind then s.bound[Mavproxy := |s.runs|] else s.bound,
                         s.runs + [Mavproxy], s.dead + {h})
  {
    assert Eligible(s.flags) == [Mavproxy];
    VisitFirst(s, [Mavproxy], alive, rebind);
  }

  /** With only the relay enabled, a pass as written that finds the relay's
      recorded thread not alive starts one relay thread and changes nothing
      else. */
  lemma RelayRestartedAsWritten(s: State, alive: set<nat>)
    requires Valid(s) && !s.flags.t265 && !s.flags.d4xx && s.bound[Mavproxy] !in alive
    ensures CycleAsWritten(s, alive) == s.(runs := s.runs + [Mavproxy], dead := s.dead + {s.bound[Mavproxy]})
  {
    RelayOnlyPass(s, alive, false);
  }

  /** The monitoring loop as written duplicates workers. With only the relay
      enabled: its first thread (0) ends, the next cycle starts thread 1, but
      `thread1` still holds thread 0, so while thread 1 is alive the cycle after
      starts thread 2 as well, and both relay threads are then alive. */
  lemma DuplicateRunsAsWritten()
    ensures var s0 := Launch(Flags(false, false));
            && Valid(s0)
            && var s1 := CycleAsWritten(s0, {});
               var s2 := CycleAsWritten(s1, {1});
               && s2.runs == [Mavproxy, Mavproxy, Mavproxy]
               && Consistent(s1, {1}) && Consistent(s2, {1, 2})
               && !AtMostOneLive(s2, {1, 2})
  {
    var f := Flags(false, false);
    var s0 := Launch(f);
    LaunchStartsEligible(f);
    assert s0.bound[Mavproxy] == 0 && s0.runs == [Mavproxy] && s0.dead == {};
    RelayRestartedAsWritten(s0, {});
    var s1 := CycleAsWritten(s0, {});
    assert s1.bound[Mavproxy] == 0 && s1.runs == [Mavproxy, Mavproxy] && s1.dead == {0};
    SecondPassDuplicates(s1);
  }

  /** The second pass of `DuplicateRunsAsWritten`: the relay's recorded thread
      is still thread 0, so with thread 1 alive a third relay thread starts. */
  lemma SecondPassDuplicates(s1: State)
    requires Valid(s1) && !s1.flags.t265 && !s1.flags.d4xx
    requires s1.bound[Mavproxy] == 0 && s1.runs == [Mavproxy, Mavproxy] && s1.dead == {0}
    ensures var s2 := CycleAsWritten(s1, {1});
            && s2.runs == [Mavproxy, Mavproxy, Mavproxy]
            && Consistent(s2, {1, 2})
            && !AtMostOneLive(s2, {1, 2})
  {
    RelayRestartedAsWritten(s1, {1});
    var s2 := CycleAsWritten(s1, {1});
    assert s2.runs == [Mavproxy, Mavproxy, Mavproxy] && s2.dead == {0};
    assert !AtMostOneLive(s2, {1, 2}) by {
      assert 1 in {1, 2} && 2 in {1, 2} && s2.runs[1] == s2.runs[2];
    }
  }

  /** Storing the handle back, the same two cycles start one relay thread only:
      the second cycle finds the recorded thread 1 alive. */
  lemma NoDuplicateWhenRebinding()
    ensures var s0 := Launch(Flags(false, false));
            && Valid(s0)
            && var r1 := CycleRebinding(s0, {});
               var r2 := CycleRebinding(r1, {1});
               && r2.runs == [Mavproxy, Mavproxy]
               && Consistent(r2, {1}) && AtMostOneLive(r2, {1})
  {
    var f := Flags(false, false);
    var s0 := Launch(f);
    LaunchStartsEligible(f);
    assert s0.bound[Mavproxy] == 0 && s0.runs == [Mavproxy] && s0.dead == {};
    FirstPassRestartsRelay(s0);
    SecondPassFindsRelayAlive(CycleRebinding(s0, {}));
  }

  /** The first pass of `NoDuplicateWhenRebinding`: thread 0 is not alive, so
      thread 1 is started and recorded as the relay's handle. */
  lemma FirstPassRestartsRelay(s0: State)
    requires Valid(s0) && !s0.flags.t265 && !s0.flags.d4xx
    requires s0.bound[Mavproxy] == 0 && s0.runs == [Mavproxy] && s0.dead == {}
    ensures var r1 := CycleRebinding(s0, {});
            && r1.flags == s0.flags
            && r1.bound[Mavproxy] == 1 && r1.runs == [Mavproxy, Mavproxy] && r1.dead == {0}
  {
    RelayOnlyPass(s0, {}, true);
    assert CycleRebinding(s0, {}) == State(s0.flags, s0.bound[Mavproxy := 1], [Mavproxy, Mavproxy], {0});
  }

  /** The second pass of `NoDuplicateWhenRebinding`: the recorded thread is
      thread 1, which is alive, so nothing is started. */
  lemma SecondPassFindsRelayAlive(r1: State)
    requires Valid(r1) && !r1.flags.t265 && !r1.flags.d4xx
    requires r1.bound[Mavproxy] == 1 && r1.runs == [Mavproxy, Mavproxy] && r1.dead == {0}
    ensures CycleRebinding(r1, {1}) == r1
    ensures Consistent(r1, {1}) && AtMostOneLive(r1, {1})
  {
    RelayOnlyPass(r1, {1}, true);
  }
}
