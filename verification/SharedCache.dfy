/** rrulebase._iter_cached: any number of iterators, in any number of threads, that fill and read one cache. */
module SharedCache {
  import opened Sequences

  /** Where an iterator stands. */
  datatype Pc =
    | Start      // __iter__: choose how to iterate
    | Whole      // iterating over the finished cache itself
    | Enter      // gen = self._cache_gen
    | Loop       // while gen, and the comparison with len(cache)
    | Acquire    // waiting for the lock
    | Locked     // if self._cache_complete
    | Fill(j: nat)   // for j in range(10)
    | Stop       // self._cache_gen = gen = None
    | Complete   // self._cache_complete = True
    | Release
    | Yield
    | Tail       // while i < self._len
    | Finished
    | Failed     // the generator raised something else than StopIteration
    | Crashed    // an IndexError or a TypeError of the iterator itself

  /** What self._iter() does: it yields its values, and then it returns or raises. */
  datatype Source<T> = Source(values: seq<T>, raises: bool)

  /** An iterator: its locals i and gen, and what it has yielded. */
  datatype Iterator<T> = Iterator(pc: Pc, i: nat, gen: bool, out: seq<T>)

  /** The rule object and its iterators. The generator has produced its first `produced` values; gen tells
      whether self._cache_gen is still a generator, raised whether the generator has raised, after which it is
      closed; the lock remembers who took it. */
  datatype State<T> = State(cache: seq<T>, complete: bool, len: Option<nat>, gen: bool, produced: nat, raised: bool,
                            lock: Option<nat>, iters: seq<Iterator<T>>)

  datatype Choice = Spawn | Turn(t: nat)

  function Initial<T>(): State<T> {
    State([], false, None, true, 0, false, None, [])
  }

  function At<T>(s: State<T>, t: nat, it: Iterator<T>): State<T>
    requires t < |s.iters|
  {
    s.(iters := s.iters[t := it])
  }

  /** yield cache[i]; i += 1 */
  function YieldNext<T>(cache: seq<T>, it: Iterator<T>, next: Pc): Iterator<T> {
    if it.i < |cache| then Iterator(next, it.i + 1, it.gen, it.out + [cache[it.i]]) else it.(pc := Crashed)
  }

  /** One step of iterator t. A blocked or ended iterator stays. */
  function Step<T>(g: Source<T>, s: State<T>, t: nat): State<T>
    requires t < |s.iters|
  {
    var it := s.iters[t];
    match it.pc
    case Start => At(s, t, it.(pc := if s.complete then Whole else Enter))
    case Whole => At(s, t, if it.i < |s.cache| then YieldNext(s.cache, it, Whole) else it.(pc := Finished))
    case Enter => At(s, t, it.(pc := Loop, gen := s.gen))
    case Loop => At(s, t, it.(pc := if !it.gen then Tail else if it.i == |s.cache| then Acquire else Yield))
    case Acquire => if s.lock.Some? then s else At(s.(lock := Some(t)), t, it.(pc := Locked))
    case Locked => At(s, t, it.(pc := if s.complete then Tail else Fill(0)))
    case Fill(j) =>
      if j == 10 then At(s, t, it.(pc := Release))
      else if s.produced < |g.values| then
        At(s.(cache := s.cache + [g.values[s.produced]], produced := s.produced + 1), t, it.(pc := Fill(j + 1)))
      else if g.raises && !s.raised then At(s.(raised := true), t, it.(pc := Failed))
      else At(if g.raises then s else s.(len := Some(s.produced)), t, it.(pc := Stop))
    case Stop => At(s.(gen := false), t, it.(pc := Complete, gen := false))
    case Complete => At(s.(complete := true), t, it.(pc := Tail))
    case Release => At(s.(lock := None), t, it.(pc := Yield))
    case Yield => At(s, t, YieldNext(s.cache, it, Loop))
    case Tail =>
      if s.len.None? then At(s, t, it.(pc := Crashed))
      else At(s, t, if it.i < s.len.value then YieldNext(s.cache, it, Tail) else it.(pc := Finished))
    case Finished => s
    case Failed => s
    case Crashed => s
  }

  function Act<T>(g: Source<T>, s: State<T>, c: Choice): State<T> {
    match c
    case Spawn => s.(iters := s.iters + [Iterator(Start, 0, false, [])])
    case Turn(t) => if t < |s.iters| then Step(g, s, t) else s
  }

  function Fold<S, C>(f: (S, C) -> S, s: S, cs: seq<C>): S
    decreases |cs|
  {
    if cs == [] then s else f(Fold(f, s, cs[..|cs| - 1]), cs[|cs| - 1])
  }

  lemma {:induction false} FoldAppend<S, C>(f: (S, C) -> S, s: S, a: seq<C>, b: seq<C>)
    ensures Fold(f, s, a + b) == Fold(f, Fold(f, s, a), b)
    decreases |b|
  {
    if b == [] {
      assert a + b == a;
    } else {
      var last := |b| - 1;
      FoldAppend(f, s, a, b[..last]);
      assert (a + b)[..|a + b| - 1] == a + b[..last];
    }
  }

  function Actor<T>(g: Source<T>): (State<T>, Choice) -> State<T> {
    (s: State<T>, c) => Act(g, s, c)
  }

  /** The state after any interleaving. */
  function Run<T>(g: Source<T>, schedule: seq<Choice>): State<T> {
    Fold(Actor(g), Initial(), schedule)
  }

  // ---- The invariant ----

  /** Inside the section that the lock protects. */
  predicate Critical(pc: Pc) {
    pc.Locked? || pc.Fill? || pc.Stop? || pc.Complete? || pc.Release?
  }

  ghost predicate Shared<T>(g: Source<T>, s: State<T>) {
    && s.produced <= |g.values| && s.cache == g.values[..s.produced]
    && (s.len.Some? ==> s.len.value == |g.values| == s.produced && !g.raises)
    && (!s.gen ==> s.len.Some? && s.lock.Some?)
    && (s.raised ==> g.raises && s.produced == |g.values| && s.gen && s.lock.Some?)
    && (s.complete ==> !s.gen)
    && (s.lock.Some? ==> s.lock.value < |s.iters|)
  }

  ghost predicate Local<T>(g: Source<T>, s: State<T>, it: Iterator<T>) {
    && it.i <= s.produced <= |g.values| && it.out == g.values[..it.i]
    && match it.pc
       case Start => it.i == 0 && !it.gen
       case Whole => s.complete && !it.gen
       case Enter => !it.gen
       case Loop => !it.gen ==> !s.gen
       case Acquire => it.gen
       case Locked => it.gen && s.gen && !s.raised
       case Fill(j) => it.gen && s.gen && !s.raised && it.i + j <= s.produced && j <= 10
       case Stop => s.gen && s.len.Some?
       case Complete => !s.gen && !it.gen
       case Release => it.gen && s.gen && !s.raised && it.i < s.produced
       case Yield => it.gen && it.i < s.produced
       case Tail => !s.gen && !it.gen
       case Finished => it.i == |g.values| && !it.gen && !s.gen
       case Failed => s.raised
       case Crashed => false
  }

  /** The lock is with the iterator in the critical section, and once the generator is gone or has raised, with
      the one that used it up or got the error. */
  ghost predicate Holds<T>(s: State<T>, t: nat, it: Iterator<T>) {
    && (Critical(it.pc) || it.pc.Failed? ==> s.lock == Some(t))
    && (s.raised && s.lock == Some(t) ==> it.pc.Failed?)
    && (!s.gen && s.lock == Some(t) ==> it.pc.Complete? || it.pc.Tail? || it.pc.Finished?)
  }

  ghost predicate Good<T>(g: Source<T>, s: State<T>) {
    Shared(g, s) && forall t :: 0 <= t < |s.iters| ==> Local(g, s, s.iters[t]) && Holds(s, t, s.iters[t])
  }

  lemma Snoc<T>(values: seq<T>, n: nat)
    requires n < |values|
    ensures values[..n] + [values[n]] == values[..n + 1]
  {
  }

  /** What the acting iterator owes after its step. */
  ghost predicate ActorGood<T>(g: Source<T>, s: State<T>, t: nat) {
    t < |s.iters| && Shared(g, s) && Local(g, s, s.iters[t]) && Holds(s, t, s.iters[t])
  }

  lemma YieldKeeps<T>(g: Source<T>, s: State<T>, t: nat)
    requires ActorGood(g, s, t) && (s.iters[t].pc.Whole? || s.iters[t].pc.Yield? || s.iters[t].pc.Tail?)
    ensures ActorGood(g, Step(g, s, t), t)
  {
    if s.iters[t].i < |s.cache| {
      Snoc(g.values, s.iters[t].i);
    }
  }

  lemma FillKeeps<T>(g: Source<T>, s: State<T>, t: nat)
    requires ActorGood(g, s, t) && s.iters[t].pc.Fill?
    ensures ActorGood(g, Step(g, s, t), t)
  {
    if s.produced < |g.values| {
      Snoc(g.values, s.produced);
    }
  }

  lemma ActorKeeps<T>(g: Source<T>, s: State<T>, t: nat)
    requires ActorGood(g, s, t)
    ensures ActorGood(g, Step(g, s, t), t)
  {
    match s.iters[t].pc
    case Fill(_) => FillKeeps(g, s, t);
    case Whole => YieldKeeps(g, s, t);
    case Yield => YieldKeeps(g, s, t);
    case Tail => YieldKeeps(g, s, t);
    case _ =>
  }

  lemma OtherKeeps<T>(g: Source<T>, s: State<T>, t: nat, u: nat)
    requires Good(g, s) && t < |s.iters| && u < |s.iters| && u != t
    ensures var s2 := Step(g, s, t); s2.iters[u] == s.iters[u] && Local(g, s2, s.iters[u]) && Holds(s2, u, s.iters[u])
  {
    assert Local(g, s, s.iters[t]) && Holds(s, t, s.iters[t]);
    assert Local(g, s, s.iters[u]) && Holds(s, u, s.iters[u]);
  }

  lemma ActKeeps<T>(g: Source<T>, s: State<T>, c: Choice)
    requires Good(g, s)
    ensures Good(g, Act(g, s, c))
  {
    var s2 := Act(g, s, c);
    match c
    case Spawn =>
      forall t | 0 <= t < |s2.iters|
        ensures Local(g, s2, s2.iters[t]) && Holds(s2, t, s2.iters[t])
      {
        if t < |s.iters| {
          assert Local(g, s, s.iters[t]) && Holds(s, t, s.iters[t]);
        }
      }
    case Turn(a) =>
      if a < |s.iters| {
        assert ActorGood(g, s, a);
        ActorKeeps(g, s, a);
        forall t | 0 <= t < |s2.iters|
          ensures Local(g, s2, s2.iters[t]) && Holds(s2, t, s2.iters[t])
        {
          if t != a {
            OtherKeeps(g, s, a, t);
          }
        }
      }
  }

  lemma {:induction false} RunIsGood<T>(g: Source<T>, schedule: seq<Choice>)
    ensures Good(g, Run(g, schedule))
  {
    if schedule != [] {
      RunIsGood(g, schedule[..|schedule| - 1]);
      ActKeeps(g, Run(g, schedule[..|schedule| - 1]), schedule[|schedule| - 1]);
    }
  }

  /** Under every interleaving the cache is an initial part of what the generator produces; every iterator has
      yielded an initial part of it, all of it when it has finished; the only error that an iterator ends with is
      the generator's own, raised after its last value, and one iterator at most gets it; at most one is inside
      the critical section; and a complete cache is everything, with _len its length. */
  lemma Safety<T>(g: Source<T>, schedule: seq<Choice>)
    ensures var s := Run(g, schedule);
            && s.cache <= g.values
            && (s.complete ==> s.cache == g.values && s.len == Some(|g.values|) && !g.raises)
            && (forall t :: 0 <= t < |s.iters| ==>
                  && s.iters[t].out <= g.values && !s.iters[t].pc.Crashed?
                  && (s.iters[t].pc.Finished? ==> s.iters[t].out == g.values && !g.raises)
                  && (s.iters[t].pc.Failed? ==> g.raises && s.raised && s.cache == g.values))
            && (forall t, u :: 0 <= t < |s.iters| && 0 <= u < |s.iters| && s.iters[t].pc.Failed? && s.iters[u].pc.Failed? ==> t == u)
            && (forall t, u :: 0 <= t < |s.iters| && 0 <= u < |s.iters| && Critical(s.iters[t].pc) && Critical(s.iters[u].pc) ==> t == u)
  {
    RunIsGood(g, schedule);
    var s := Run(g, schedule);
    forall t | 0 <= t < |s.iters|
      ensures s.iters[t].out <= g.values && !s.iters[t].pc.Crashed?
      ensures s.iters[t].pc.Finished? ==> s.iters[t].out == g.values && !g.raises
      ensures s.iters[t].pc.Failed? ==> g.raises && s.raised && s.cache == g.values
      ensures Critical(s.iters[t].pc) || s.iters[t].pc.Failed? ==> s.lock == Some(t)
    {
      assert Local(g, s, s.iters[t]) && Holds(s, t, s.iters[t]);
    }
  }

  /** The lock will not be given back: the generator is used up or has raised. */
  predicate LockLost<T>(s: State<T>) {
    !s.gen || s.raised
  }

  lemma WaitStep<T>(g: Source<T>, s: State<T>, c: Choice, t: nat)
    requires Good(g, s) && LockLost(s) && t < |s.iters| && s.iters[t].pc.Acquire?
    ensures var s2 := Act(g, s, c); LockLost(s2) && t < |s2.iters| && s2.iters[t] == s.iters[t]
  {
  }

  /** The lock is not given back at the end: once the generator is used up, or has raised, an iterator that waits
      for the lock waits for ever. */
  lemma {:induction false} WaitsForEver<T>(g: Source<T>, before: seq<Choice>, after: seq<Choice>, t: nat)
    requires var s := Run(g, before); LockLost(s) && t < |s.iters| && s.iters[t].pc.Acquire?
    ensures var s := Run(g, before + after); LockLost(s) && t < |s.iters| && s.iters[t] == Run(g, before).iters[t]
  {
    if after == [] {
      assert before + after == before;
    } else {
      var last := |after| - 1;
      WaitsForEver(g, before, after[..last], t);
      RunStep(g, before + after[..last], after[last], before + after);
      WaitStep(g, Run(g, before + after[..last]), after[last], t);
    }
  }

  // ---- Which iterators can finish ----

  lemma GenIsKept<T>(g: Source<T>, s: State<T>, c: Choice, t: nat)
    requires Good(g, s) && !s.gen && t < |s.iters| && s.iters[t].gen
    ensures var s2 := Act(g, s, c); !s2.gen && t < |s2.iters| && s2.iters[t].gen
  {
    assert Local(g, s, s.iters[t]);
  }

  /** An iterator that still has the generator when it is used up, in the loop or waiting, never finishes. */
  lemma {:induction false} LostForEver<T>(g: Source<T>, before: seq<Choice>, after: seq<Choice>, t: nat)
    requires var s := Run(g, before); !s.gen && t < |s.iters| && s.iters[t].gen
    ensures var s := Run(g, before + after); !s.gen && t < |s.iters| && s.iters[t].gen && !s.iters[t].pc.Finished?
  {
    if after == [] {
      assert before + after == before;
      RunIsGood(g, before);
      HolderIsUnfinished(g, Run(g, before), t);
    } else {
      var last := |after| - 1;
      LostForEver(g, before, after[..last], t);
      RunStep(g, before + after[..last], after[last], before + after);
      GenIsKept(g, Run(g, before + after[..last]), after[last], t);
      HolderIsUnfinished(g, Run(g, before + after), t);
    }
  }

  lemma RunStep<T>(g: Source<T>, before: seq<Choice>, c: Choice, schedule: seq<Choice>)
    requires schedule == before + [c]
    ensures Good(g, Run(g, before)) && Good(g, Run(g, schedule))
    ensures Run(g, schedule) == Act(g, Run(g, before), c)
  {
    assert schedule[..|schedule| - 1] == before;
    RunIsGood(g, before);
    RunIsGood(g, schedule);
  }

  lemma HolderIsUnfinished<T>(g: Source<T>, s: State<T>, t: nat)
    requires Good(g, s) && t < |s.iters| && s.iters[t].gen
    ensures !s.iters[t].pc.Finished?
  {
    assert Local(g, s, s.iters[t]);
  }

  /** How far an iterator is from its next element or its end. */
  function Distance(pc: Pc): nat {
    match pc
    case Start => 30 case Enter => 29 case Loop => 28 case Acquire => 27 case Locked => 26
    case Fill(j) => if j <= 10 then 25 - j else 0
    case Release => 14 case Yield => 13 case Stop => 12 case Complete => 11 case Tail => 10 case Whole => 9
    case Finished => 0 case Failed => 0 case Crashed => 0
  }

  /** A step of an iterator brings it nearer to its next element, or to its end. */
  predicate Nearer<T>(g: Source<T>, it: Iterator<T>, it2: Iterator<T>) {
    it.i <= it2.i <= |g.values| && (it.i < it2.i || Distance(it2.pc) < Distance(it.pc))
  }

  lemma FreeStep<T>(g: Source<T>, s: State<T>, t: nat)
    requires Good(g, s) && !s.gen && t < |s.iters| && !s.iters[t].gen && !s.iters[t].pc.Finished?
    ensures var s2 := Act(g, s, Turn(t));
            Good(g, s2) && !s2.gen && t < |s2.iters| && !s2.iters[t].gen && Nearer(g, s.iters[t], s2.iters[t])
  {
    ActKeeps(g, s, Turn(t));
    var s2 := Act(g, s, Turn(t));
    assert Local(g, s, s.iters[t]) && Holds(s, t, s.iters[t]);
    assert Local(g, s2, s2.iters[t]);
  }

  /** An iterator without the generator runs to its end. */
  lemma {:induction false} FreeFinishes<T>(g: Source<T>, s: State<T>, t: nat) returns (after: seq<Choice>)
    requires Good(g, s) && !s.gen && t < |s.iters| && !s.iters[t].gen
    ensures var s2 := Fold(Actor(g), s, after); t < |s2.iters| && s2.iters[t].pc.Finished?
    decreases |g.values| - s.iters[t].i, Distance(s.iters[t].pc)
  {
    assert Local(g, s, s.iters[t]);
    if s.iters[t].pc.Finished? {
      after := [];
    } else {
      FreeStep(g, s, t);
      var rest := FreeFinishes(g, Act(g, s, Turn(t)), t);
      after := [Turn(t)] + rest;
      FoldFirst(Actor(g), s, Turn(t), rest);
    }
  }

  lemma FoldFirst<S, C>(f: (S, C) -> S, s: S, c: C, rest: seq<C>)
    ensures Fold(f, s, [c] + rest) == Fold(f, f(s, c), rest)
  {
    FoldAppend(f, s, [c], rest);
    assert [c][..0] == [];
  }

  /** After `before` and then `after` iterator t has finished. */
  ghost predicate FinishesAfter<T>(g: Source<T>, before: seq<Choice>, after: seq<Choice>, t: nat) {
    var s := Run(g, before + after);
    t < |s.iters| && s.iters[t].pc.Finished?
  }

  /** Over a generator that raises no iterator ever finishes. */
  lemma NoneFinishes<T>(g: Source<T>, schedule: seq<Choice>, t: nat)
    requires g.raises && t < |Run(g, schedule).iters|
    ensures !Run(g, schedule).iters[t].pc.Finished?
  {
    RunIsGood(g, schedule);
    var s := Run(g, schedule);
    assert Local(g, s, s.iters[t]);
  }

  /** Once the lock is lost, an iterator can still finish exactly when the generator did not raise and the iterator
      does not hold it: one that does, in its loop or waiting for the lock, is lost whatever happens. */
  lemma CanFinishIff<T>(g: Source<T>, before: seq<Choice>, t: nat)
    requires var s := Run(g, before); LockLost(s) && t < |s.iters|
    ensures (exists after :: FinishesAfter(g, before, after, t)) <==>
              !Run(g, before).raised && !Run(g, before).iters[t].gen
  {
    RunIsGood(g, before);
    if Run(g, before).raised {
      forall after
        ensures !FinishesAfter(g, before, after, t)
      {
        if t < |Run(g, before + after).iters| {
          NoneFinishes(g, before + after, t);
        }
      }
    } else if Run(g, before).iters[t].gen {
      forall after
        ensures !FinishesAfter(g, before, after, t)
      {
        LostForEver(g, before, after, t);
      }
    } else {
      var after := FreeFinishes(g, Run(g, before), t);
      FoldAppend(Actor(g), Initial(), before, after);
      assert FinishesAfter(g, before, after, t);
    }
  }

  // ---- One iterator after another ----

  ghost predicate AllFinished<T>(s: State<T>) {
    forall t :: 0 <= t < |s.iters| ==> s.iters[t].pc.Finished?
  }

  predicate Ended(pc: Pc) {
    pc.Finished? || pc.Failed?
  }

  ghost predicate AllEnded<T>(s: State<T>) {
    forall t :: 0 <= t < |s.iters| ==> Ended(s.iters[t].pc)
  }

  /** Every iterator is started when all before it have ended, in whatever way. */
  ghost predicate Serial<T>(g: Source<T>, schedule: seq<Choice>)
    decreases |schedule|
  {
    schedule != [] ==>
      var before := schedule[..|schedule| - 1];
      Serial(g, before) && (schedule[|schedule| - 1].Spawn? ==> AllEnded(Run(g, before)))
  }

  /** Only the last iterator can be unfinished, it has the generator only while there is one, and it never finds
      the lock taken. */
  ghost predicate Orderly<T>(s: State<T>) {
    if s.iters == [] then s.gen && s.lock == None
    else
      var last := |s.iters| - 1;
      && (forall t :: 0 <= t < last ==> s.iters[t].pc.Finished?)
      && (last > 0 ==> s.complete)
      && AloneOk(s, s.iters[last])
  }

  predicate AloneOk<T>(s: State<T>, it: Iterator<T>) {
    && (it.gen ==> s.gen) && (!s.gen ==> s.complete || it.pc.Complete?)
    && (it.pc.Tail? || it.pc.Finished? ==> s.complete)
    && (s.gen && s.lock.Some? ==> Critical(it.pc))
  }

  lemma AloneStep<T>(g: Source<T>, s: State<T>, t: nat)
    requires !g.raises && ActorGood(g, s, t) && AloneOk(s, s.iters[t]) && (t > 0 ==> s.complete)
    ensures var s2 := Step(g, s, t); AloneOk(s2, s2.iters[t]) && (t > 0 ==> s2.complete)
    ensures !s.iters[t].pc.Finished? ==> Nearer(g, s.iters[t], Step(g, s, t).iters[t])
  {
    AloneGoesOn(g, s, t);
    if !s.iters[t].pc.Finished? {
      AloneComesNearer(g, s, t);
    }
  }

  lemma AloneGoesOn<T>(g: Source<T>, s: State<T>, t: nat)
    requires !g.raises && ActorGood(g, s, t) && AloneOk(s, s.iters[t]) && (t > 0 ==> s.complete)
    ensures var s2 := Step(g, s, t); AloneOk(s2, s2.iters[t]) && (t > 0 ==> s2.complete)
  {
  }

  lemma AloneComesNearer<T>(g: Source<T>, s: State<T>, t: nat)
    requires !g.raises && ActorGood(g, s, t) && AloneOk(s, s.iters[t]) && !s.iters[t].pc.Finished?
    ensures Nearer(g, s.iters[t], Step(g, s, t).iters[t])
  {
  }

  lemma OrderlyTurn<T>(g: Source<T>, s: State<T>, t: nat)
    requires !g.raises && Good(g, s) && Orderly(s) && t < |s.iters|
    ensures Orderly(Act(g, s, Turn(t)))
    ensures t == |s.iters| - 1 && !s.iters[t].pc.Finished? ==>
              Nearer(g, s.iters[t], Act(g, s, Turn(t)).iters[t])
  {
    assert Local(g, s, s.iters[t]) && Holds(s, t, s.iters[t]);
    if t == |s.iters| - 1 {
      assert ActorGood(g, s, t);
      AloneStep(g, s, t);
    }
  }

  lemma OrderlySpawn<T>(g: Source<T>, s: State<T>)
    requires !g.raises && Good(g, s) && Orderly(s) && AllEnded(s)
    ensures Orderly(Act(g, s, Spawn))
  {
    forall t | 0 <= t < |s.iters|
      ensures s.iters[t].pc.Finished?
    {
      assert Local(g, s, s.iters[t]);
    }
  }

  lemma {:induction false} SerialIsOrderly<T>(g: Source<T>, schedule: seq<Choice>)
    requires !g.raises && Serial(g, schedule)
    ensures Orderly(Run(g, schedule))
    decreases |schedule|
  {
    if schedule != [] {
      var before := schedule[..|schedule| - 1];
      SerialIsOrderly(g, before);
      RunIsGood(g, before);
      match schedule[|schedule| - 1]
      case Spawn => OrderlySpawn(g, Run(g, before));
      case Turn(t) =>
        if t < |Run(g, before).iters| {
          OrderlyTurn(g, Run(g, before), t);
        }
    }
  }

  function Turns(t: nat, n: nat): (turns: seq<Choice>)
    ensures |turns| == n
  {
    seq(n, _ => Turn(t))
  }

  lemma MoreTurns(t: nat, n: nat)
    ensures Turns(t, n + 1) == [Turn(t)] + Turns(t, n)
  {
  }

  lemma {:induction false} LastFinishes<T>(g: Source<T>, s: State<T>) returns (n: nat)
    requires !g.raises && Good(g, s) && Orderly(s) && s.iters != []
    ensures AllFinished(Fold(Actor(g), s, Turns(|s.iters| - 1, n)))
    decreases |g.values| - s.iters[|s.iters| - 1].i, Distance(s.iters[|s.iters| - 1].pc)
  {
    var t := |s.iters| - 1;
    if s.iters[t].pc.Finished? {
      n := 0;
      assert Turns(t, 0) == [];
    } else {
      var s2 := LastStep(g, s);
      var m := LastFinishes(g, s2);
      n := m + 1;
      OneTurnMore(g, s, t, m);
    }
  }

  lemma OneTurnMore<T>(g: Source<T>, s: State<T>, t: nat, m: nat)
    ensures Fold(Actor(g), s, Turns(t, m + 1)) == Fold(Actor(g), Actor(g)(s, Turn(t)), Turns(t, m))
  {
    MoreTurns(t, m);
    FoldFirst(Actor(g), s, Turn(t), Turns(t, m));
  }

  lemma LastStep<T>(g: Source<T>, s: State<T>) returns (s2: State<T>)
    requires !g.raises && Good(g, s) && Orderly(s) && s.iters != [] && !s.iters[|s.iters| - 1].pc.Finished?
    ensures s2 == Act(g, s, Turn(|s.iters| - 1)) == Actor(g)(s, Turn(|s.iters| - 1))
    ensures Good(g, s2) && Orderly(s2) && |s2.iters| == |s.iters|
    ensures Nearer(g, s.iters[|s.iters| - 1], s2.iters[|s.iters| - 1])
  {
    s2 := Act(g, s, Turn(|s.iters| - 1));
    ActKeeps(g, s, Turn(|s.iters| - 1));
    OrderlyTurn(g, s, |s.iters| - 1);
  }

  /** n turns of the last iterator leave all of them finished. */
  ghost predicate FinishedByTurns<T>(g: Source<T>, schedule: seq<Choice>, n: nat)
    requires Run(g, schedule).iters != []
  {
    AllFinished(Run(g, schedule + Turns(|Run(g, schedule).iters| - 1, n)))
  }

  /** Iterators that are started one after another, each when the one before has ended, all finish exactly when the
      generator does not raise: then the last one, left to itself, finishes, and so all of them do. */
  lemma SerialFinishes<T>(g: Source<T>, schedule: seq<Choice>)
    requires Serial(g, schedule) && Run(g, schedule).iters != []
    ensures (exists n :: FinishedByTurns(g, schedule, n)) <==> !g.raises
    ensures g.raises ==> forall after :: !(Run(g, schedule + after).iters != [] && AllFinished(Run(g, schedule + after)))
  {
    if g.raises {
      forall after
        ensures !(Run(g, schedule + after).iters != [] && AllFinished(Run(g, schedule + after)))
      {
        if Run(g, schedule + after).iters != [] {
          NoneFinishes(g, schedule + after, 0);
        }
      }
      forall n: nat
        ensures !FinishedByTurns(g, schedule, n)
      {
        StillThere(g, schedule, Turns(|Run(g, schedule).iters| - 1, n));
      }
    } else {
      SerialIsOrderly(g, schedule);
      RunIsGood(g, schedule);
      var s := Run(g, schedule);
      var n := LastFinishes(g, s);
      FoldAppend(Actor(g), Initial(), schedule, Turns(|s.iters| - 1, n));
      assert FinishedByTurns(g, schedule, n);
    }
  }

  /** Iterators do not go away. */
  lemma {:induction false} StillThere<T>(g: Source<T>, before: seq<Choice>, after: seq<Choice>)
    ensures |Run(g, before).iters| <= |Run(g, before + after).iters|
    decreases |after|
  {
    if after == [] {
      assert before + after == before;
    } else {
      StillThere(g, before, after[..|after| - 1]);
      var s, s2 := RunLast(g, before, after);
      ActKeepsIterators(g, s, after[|after| - 1]);
    }
  }

  lemma RunLast<T>(g: Source<T>, before: seq<Choice>, after: seq<Choice>) returns (s: State<T>, s2: State<T>)
    requires after != []
    ensures s == Run(g, before + after[..|after| - 1]) && s2 == Run(g, before + after)
    ensures s2 == Act(g, s, after[|after| - 1])
  {
    s, s2 := Run(g, before + after[..|after| - 1]), Run(g, before + after);
    RunStep(g, before + after[..|after| - 1], after[|after| - 1], before + after);
  }

  lemma ActKeepsIterators<T>(g: Source<T>, s: State<T>, c: Choice)
    ensures |s.iters| <= |Act(g, s, c).iters|
    ensures c.Turn? ==> |s.iters| == |Act(g, s, c).iters|
    ensures forall t :: 0 <= t < |s.iters| && s.iters[t].pc.Failed? ==> Act(g, s, c).iters[t] == s.iters[t]
  {
    match c
    case Spawn =>
    case Turn(t) =>
      if t < |s.iters| {
        var it := StepChangesOne(g, s, t);
      }
  }

  lemma StepChangesOne<T>(g: Source<T>, s: State<T>, t: nat) returns (it: Iterator<T>)
    requires t < |s.iters|
    ensures Step(g, s, t).iters == s.iters[t := it]
    ensures s.iters[t].pc.Failed? ==> it == s.iters[t]
  {
    it := Step(g, s, t).iters[t];
  }

  // ---- After the generator has raised ----

  lemma RaisedStep<T>(g: Source<T>, s: State<T>, t: nat)
    requires Good(g, s) && s.raised && t < |s.iters| && !s.iters[t].pc.Failed? && !s.iters[t].pc.Acquire?
    ensures var s2 := Act(g, s, Turn(t));
            && Good(g, s2) && s2.raised && |s2.iters| == |s.iters| && !s2.iters[t].pc.Failed?
            && Nearer(g, s.iters[t], s2.iters[t])
            && (s2.iters[t].pc.Acquire? ==> s2.iters[t].out == g.values)
  {
    ActKeeps(g, s, Turn(t));
    var s2 := Act(g, s, Turn(t));
    assert Local(g, s, s.iters[t]) && Holds(s, t, s.iters[t]);
    assert Local(g, s2, s2.iters[t]);
  }

  /** An iterator that has not ended reads the whole cache and comes to the lock. */
  lemma {:induction false} RaisedReachesLock<T>(g: Source<T>, s: State<T>, t: nat) returns (n: nat)
    requires Good(g, s) && s.raised && t < |s.iters| && !s.iters[t].pc.Failed? && !s.iters[t].pc.Acquire?
    ensures var s2 := Fold(Actor(g), s, Turns(t, n));
            Good(g, s2) && s2.raised && t < |s2.iters| && s2.iters[t].pc.Acquire? && s2.iters[t].out == g.values
    decreases |g.values| - s.iters[t].i, Distance(s.iters[t].pc)
  {
    RaisedStep(g, s, t);
    var s2 := Act(g, s, Turn(t));
    var m: nat := 0;
    if s2.iters[t].pc.Acquire? {
      assert Turns(t, 0) == [];
    } else {
      m := RaisedReachesLock(g, s2, t);
    }
    n := m + 1;
    OneTurnMore(g, s, t, m);
  }

  /** Iterator t stands at the lock, and no continuation changes that. */
  ghost predicate Stuck<T>(g: Source<T>, schedule: seq<Choice>, t: nat) {
    && t < |Run(g, schedule).iters| && Run(g, schedule).iters[t].pc.Acquire?
    && forall more :: StaysAt(g, schedule, more, t)
  }

  ghost predicate StaysAt<T>(g: Source<T>, schedule: seq<Choice>, more: seq<Choice>, t: nat)
    requires t < |Run(g, schedule).iters|
  {
    t < |Run(g, schedule + more).iters| && Run(g, schedule + more).iters[t] == Run(g, schedule).iters[t]
  }

  lemma LostAtLock<T>(g: Source<T>, schedule: seq<Choice>, t: nat)
    requires var s := Run(g, schedule); LockLost(s) && t < |s.iters| && s.iters[t].pc.Acquire?
    ensures Stuck(g, schedule, t)
  {
    forall more
      ensures StaysAt(g, schedule, more, t)
    {
      WaitsForEver(g, schedule, more, t);
    }
  }

  /** t has yielded everything and is stuck after n more turns. */
  ghost predicate StuckByTurns<T>(g: Source<T>, before: seq<Choice>, t: nat, n: nat) {
    var schedule := before + Turns(t, n);
    Stuck(g, schedule, t) && Run(g, schedule).iters[t].out == g.values
  }

  /** After the generator has raised nothing ever ends again: an iterator at the lock is stuck, whatever it has
      yielded, and every other one but the one that got the error reads the whole cache and is then stuck. */
  lemma AfterRaise<T>(g: Source<T>, before: seq<Choice>, t: nat)
    requires var s := Run(g, before); s.raised && t < |s.iters| && !s.iters[t].pc.Failed?
    ensures Run(g, before).iters[t].pc.Acquire? ==> Stuck(g, before, t)
    ensures !Run(g, before).iters[t].pc.Acquire? ==> exists n :: StuckByTurns(g, before, t, n)
  {
    RunIsGood(g, before);
    if Run(g, before).iters[t].pc.Acquire? {
      LostAtLock(g, before, t);
    } else {
      var n := RaisedReachesLock(g, Run(g, before), t);
      FoldAppend(Actor(g), Initial(), before, Turns(t, n));
      LostAtLock(g, before + Turns(t, n), t);
      assert StuckByTurns(g, before, t, n);
    }
  }

  // ---- One iterator after another over a generator that raises ----

  /** The only iterator over a generator that raises: the cache grows in tens. */
  ghost predicate Lone<T>(g: Source<T>, s: State<T>) {
    && g.raises && |s.iters| == 1 && s.gen && !s.complete
    && var it := s.iters[0];
       && (s.raised <==> it.pc.Failed?) && (s.lock.Some? ==> Critical(it.pc) || it.pc.Failed?)
       && match it.pc
          case Start => s.produced == 0
          case Enter => s.produced == 0
          case Loop => it.gen && s.produced % 10 == 0
          case Acquire => it.i == s.produced && s.produced % 10 == 0
          case Locked => it.i == s.produced && s.produced % 10 == 0
          case Fill(j) => s.produced == it.i + j && it.i % 10 == 0
          case Release => s.produced % 10 == 0
          case Yield => s.produced % 10 == 0
          case Failed => it.i == |g.values| - |g.values| % 10
          case _ => false
  }

  lemma LoneStep<T>(g: Source<T>, s: State<T>)
    requires Good(g, s) && Lone(g, s) && !s.iters[0].pc.Failed?
    ensures var s2 := Act(g, s, Turn(0)); Good(g, s2) && Lone(g, s2) && Nearer(g, s.iters[0], s2.iters[0])
  {
    ActKeeps(g, s, Turn(0));
    assert Local(g, s, s.iters[0]) && Holds(s, 0, s.iters[0]);
    var s2 := Act(g, s, Turn(0));
    assert Local(g, s2, s2.iters[0]);
  }

  lemma {:induction false} LoneFails<T>(g: Source<T>, s: State<T>) returns (n: nat)
    requires Good(g, s) && Lone(g, s)
    ensures var s2 := Fold(Actor(g), s, Turns(0, n)); Good(g, s2) && Lone(g, s2) && s2.iters[0].pc.Failed?
    decreases |g.values| - s.iters[0].i, Distance(s.iters[0].pc)
  {
    if s.iters[0].pc.Failed? {
      n := 0;
      assert Turns(0, 0) == [];
    } else {
      LoneStep(g, s);
      assert Local(g, s, s.iters[0]);
      var m := LoneFails(g, Act(g, s, Turn(0)));
      n := m + 1;
      OneTurnMore(g, s, 0, m);
    }
  }

  lemma {:induction false} SerialTurns<T>(g: Source<T>, before: seq<Choice>, t: nat, n: nat)
    requires Serial(g, before)
    ensures Serial(g, before + Turns(t, n))
    decreases n
  {
    var schedule := before + Turns(t, n);
    if n == 0 {
      assert schedule == before;
    } else {
      SerialTurns(g, before, t, n - 1);
      assert schedule[..|schedule| - 1] == before + Turns(t, n - 1);
      assert schedule[|schedule| - 1] == Turn(t);
    }
  }

  lemma SerialSpawn<T>(g: Source<T>, before: seq<Choice>)
    requires Serial(g, before) && AllEnded(Run(g, before))
    ensures Serial(g, before + [Spawn])
  {
    assert (before + [Spawn])[..|before|] == before;
  }

  /** Two iterators one after another: the first got the error and has yielded the full tens only, since what was
      read after them was cached but not yielded; the second has yielded everything and waits for ever. */
  ghost predicate SecondLost<T>(g: Source<T>, schedule: seq<Choice>) {
    && Serial(g, schedule) && Stuck(g, schedule, 1)
    && var its := Run(g, schedule).iters;
       && |its| == 2 && its[0].pc.Failed? && its[0].out == g.values[..|g.values| - |g.values| % 10]
       && its[1].out == g.values
  }

  /** The first of two serial iterators, run to the error. */
  lemma FirstFails<T>(g: Source<T>) returns (schedule: seq<Choice>)
    requires g.raises
    ensures Serial(g, schedule) && Good(g, Run(g, schedule)) && Lone(g, Run(g, schedule))
    ensures Run(g, schedule).iters[0].pc.Failed?
  {
    var start: seq<Choice> := [];
    SerialSpawn(g, start);
    RunIsGood(g, start);
    RunStep(g, start, Spawn, start + [Spawn]);
    var n := LoneFails(g, Run(g, start + [Spawn]));
    schedule := start + [Spawn] + Turns(0, n);
    SerialTurns(g, start + [Spawn], 0, n);
    FoldAppend(Actor(g), Initial(), start + [Spawn], Turns(0, n));
  }

  /** Whatever a generator yields before it raises, two iterators one after another come to this. */
  lemma SecondWaits<T>(g: Source<T>)
    requires g.raises
    ensures exists schedule :: SecondLost(g, schedule)
  {
    var first := FirstFails(g);
    var s1 := Run(g, first);
    assert Local(g, s1, s1.iters[0]);
    SerialSpawn(g, first);
    RunStep(g, first, Spawn, first + [Spawn]);
    AfterRaise(g, first + [Spawn], 1);
    var n :| StuckByTurns(g, first + [Spawn], 1, n);
    SerialTurns(g, first + [Spawn], 1, n);
    FirstStays(g, first + [Spawn], Turns(1, n), 0);
    assert SecondLost(g, first + [Spawn] + Turns(1, n));
  }

  /** An iterator that got the error stays as it is, and turns start no iterator. */
  lemma {:induction false} FirstStays<T>(g: Source<T>, before: seq<Choice>, after: seq<Choice>, t: nat)
    requires t < |Run(g, before).iters| && Run(g, before).iters[t].pc.Failed?
    requires forall i :: 0 <= i < |after| ==> after[i].Turn?
    ensures var s := Run(g, before + after); |s.iters| == |Run(g, before).iters| && s.iters[t] == Run(g, before).iters[t]
    decreases |after|
  {
    if after == [] {
      assert before + after == before;
    } else {
      FirstStays(g, before, after[..|after| - 1], t);
      var s, s2 := RunLast(g, before, after);
      ActKeepsIterators(g, s, after[|after| - 1]);
    }
  }

  function FoldFront<S, C>(f: (S, C) -> S, s: S, cs: seq<C>): S
    decreases |cs|
  {
    if cs == [] then s else FoldFront(f, f(s, cs[0]), cs[1..])
  }

  lemma {:induction false} FoldFrontIsFold<S, C>(f: (S, C) -> S, s: S, cs: seq<C>)
    ensures FoldFront(f, s, cs) == Fold(f, s, cs)
    decreases |cs|
  {
    if cs != [] {
      FoldFrontIsFold(f, f(s, cs[0]), cs[1..]);
      FoldAppend(f, s, [cs[0]], cs[1..]);
      assert [cs[0]] + cs[1..] == cs;
      assert Fold(f, s, [cs[0]]) == f(s, cs[0]);
    }
  }

  /** Two iterators over an empty rule are enough: the second can be left waiting. */
  lemma SomeIteratorCanWait<T>()
    ensures exists schedule :: var s := Run<T>(Source([], false), schedule); !s.gen && |s.iters| > 1 && s.iters[1].pc.Acquire?
  {
    SecondComes<T>();
    FirstTakesLock<T>();
    FirstUsesUp<T>();
    var s1: State<T>, s2: State<T> := Waiting(Start, false, None), Waiting(Locked, true, Some(0));
    var first := RunOn([], [Spawn, Spawn, Turn(1), Turn(1), Turn(1)], Initial<T>());
    var second := RunOn(first, [Turn(0), Turn(0), Turn(0), Turn(0)], s1);
    var third := RunOn(second, [Turn(0), Turn(0), Turn(0)], s2);
    assert !Run<T>(Source([], false), third).gen;
  }

  /** A schedule that goes on after `before`. */
  lemma RunOn<T>(before: seq<Choice>, more: seq<Choice>, s: State<T>) returns (schedule: seq<Choice>)
    requires Run<T>(Source([], false), before) == s
    ensures Run<T>(Source([], false), schedule) == FoldFront(Actor<T>(Source([], false)), s, more)
  {
    schedule := before + more;
    FoldFrontIsFold(Actor<T>(Source([], false)), s, more);
    FoldAppend(Actor<T>(Source([], false)), Initial<T>(), before, more);
  }

  /** Iterator 1 waits at the lock and iterator 0 stands at pc, nothing generated. */
  function Waiting<T>(pc: Pc, gen: bool, lock: Option<nat>): State<T> {
    State([], false, None, true, 0, false, lock, [Iterator(pc, 0, gen, []), Iterator(Acquire, 0, true, [])])
  }

  lemma SecondComes<T>()
    ensures FoldFront(Actor<T>(Source([], false)), Initial(), [Spawn, Spawn, Turn(1), Turn(1), Turn(1)]) == Waiting(Start, false, None)
  {
  }

  lemma FirstTakesLock<T>()
    ensures FoldFront(Actor<T>(Source([], false)), Waiting(Start, false, None), [Turn(0), Turn(0), Turn(0), Turn(0)])
            == Waiting(Locked, true, Some(0))
  {
  }

  lemma FirstUsesUp<T>()
    ensures var s := FoldFront(Actor<T>(Source([], false)), Waiting(Locked, true, Some(0)), [Turn(0), Turn(0), Turn(0)]);
            !s.gen && |s.iters| == 2 && s.iters[1].pc.Acquire?
  {
  }
}
