/** Safety, liveness and schedule independence of the fan-out. */
module FanOutProofs {
  import opened Wrappers
  import opened FanOut

  // ---------------------------------------------------------------- counting goroutines

  function Count<G(!new)>(gs: seq<G>, weight: G -> nat): nat {
    if gs == [] then 0 else Count(gs[..|gs| - 1], weight) + weight(gs[|gs| - 1])
  }

  lemma {:induction false} CountUpdate<G(!new)>(gs: seq<G>, i: nat, g: G, weight: G -> nat)
    requires i < |gs|
    ensures Count(gs[i := g], weight) + weight(gs[i]) == Count(gs, weight) + weight(g)
  {
    var n := |gs| - 1;
    if i < n {
      assert gs[i := g][..n] == gs[..n][i := g];
      CountUpdate(gs[..n], i, g, weight);
    } else {
      assert gs[i := g][..n] == gs[..n];
    }
  }

  lemma {:induction false} CountZero<G(!new)>(gs: seq<G>, weight: G -> nat)
    ensures Count(gs, weight) == 0 <==> forall i | 0 <= i < |gs| :: weight(gs[i]) == 0
  {
    if gs != [] {
      CountZero(gs[..|gs| - 1], weight);
      assert forall i | 0 <= i < |gs| - 1 :: gs[i] == gs[..|gs| - 1][i];
    }
  }

  /** Holds a token of the channel: in flight. */
  function Holds<R, V>(g: Goroutine<R, V>): nat {
    if g.Running? then 1 else 0
  }

  /** Counted by the wait group. */
  function Awaited<R, V>(g: Goroutine<R, V>): nat {
    if g.Running? || g.Released? then 1 else 0
  }

  // ---------------------------------------------------------------- control invariant

  /** The number of goroutines spawned so far. */
  function Spawned<R, V>(s: State<R, V>): nat {
    if s.main.AtSend? || s.main.AtAdd? || s.main.AtSpawn? then s.main.i else |s.gs|
  }

  ghost predicate Control<R(!new), V(!new)>(progs: seq<Program<R, V>>, limit: int, s: State<R, V>) {
    && |s.gs| == |progs|
    && (s.main.AtSend? || s.main.AtAdd? || s.main.AtSpawn? ==> s.main.i < |s.gs|)
    && (forall j | 0 <= j < |s.gs| :: s.gs[j].Idle? <==> Spawned(s) <= j)
    && s.tokens == Count(s.gs, Holds) + (if s.main.AtAdd? || s.main.AtSpawn? then 1 else 0)
    && s.wg == Count(s.gs, Awaited) + (if s.main.AtSpawn? then 1 else 0)
    && (s.tokens == 0 || s.tokens <= limit)
    && (s.main.AtClose? || s.main.Returned? ==> s.wg == 0)
  }

  /** At most one goroutine is inside the mutex, and what it has loaded is still current. */
  ghost predicate Exclusive<R(!new), V(!new)>(progs: seq<Program<R, V>>, s: State<R, V>) {
    && |s.gs| == |progs|
    && (s.mutex.Some? ==> s.mutex.value < |s.gs|)
    && forall i | 0 <= i < |s.gs| && s.gs[i].Running? ::
         var g := s.gs[i];
         && g.pc <= |progs[i]|
         && (s.mutex == Some(i) <==> !g.section.Outside?)
         && (!g.section.Outside? ==> g.pc < |progs[i]| && !progs[i][g.pc].Add?)
         && (g.section.Loaded? ==> g.section.rows == s.shared.rows && g.section.table == s.shared.table)
  }

  ghost predicate MutexHolderRuns<R(!new), V(!new)>(s: State<R, V>) {
    s.mutex.Some? ==> s.mutex.value < |s.gs| && s.gs[s.mutex.value].Running?
  }

  lemma {:induction false} CountIdle<R(!new), V(!new)>(n: nat)
    ensures Count<Goroutine<R, V>>(seq(n, _ => Idle), Holds) == 0
    ensures Count<Goroutine<R, V>>(seq(n, _ => Idle), Awaited) == 0
  {
    var gs: seq<Goroutine<R, V>> := seq(n, _ => Idle);
    CountZero(gs, Holds);
    CountZero(gs, Awaited);
  }

  lemma InitHolds<R(!new), V(!new)>(progs: seq<Program<R, V>>, limit: int, shared: Shared<R, V>)
    ensures Control(progs, limit, Init(|progs|, shared)) && Exclusive(progs, Init(|progs|, shared))
    ensures MutexHolderRuns(Init<R, V>(|progs|, shared))
  {
    CountIdle<R, V>(|progs|);
  }

  lemma StepGoroutineControl<R(!new), V(!new)>(progs: seq<Program<R, V>>, limit: int, s: State<R, V>, i: nat)
    requires Control(progs, limit, s) && Enabled(progs, limit, s, Go(i))
    ensures Control(progs, limit, After(progs, limit, s, Go(i)))
  {
    hide Count;
    var next := After(progs, limit, s, Go(i));
    CountUpdate(s.gs, i, next.gs[i], Holds);
    CountUpdate(s.gs, i, next.gs[i], Awaited);
    assert next.gs == s.gs[i := next.gs[i]];
  }

  lemma StepControl<R(!new), V(!new)>(progs: seq<Program<R, V>>, limit: int, s: State<R, V>, e: Event)
    requires Control(progs, limit, s) && Enabled(progs, limit, s, e)
    ensures Control(progs, limit, After(progs, limit, s, e))
  {
    hide Count, StepGoroutine;
    match e
    case Spawn =>
      CountUpdate(s.gs, s.main.i, Running(0, Outside), Holds);
      CountUpdate(s.gs, s.main.i, Running(0, Outside), Awaited);
    case Go(i) => StepGoroutineControl(progs, limit, s, i);
    case _ =>
  }

  lemma StepExclusive<R(!new), V(!new)>(progs: seq<Program<R, V>>, limit: int, s: State<R, V>, e: Event)
    requires Exclusive(progs, s) && MutexHolderRuns(s) && Enabled(progs, limit, s, e)
    ensures Exclusive(progs, After(progs, limit, s, e)) && MutexHolderRuns(After(progs, limit, s, e))
  {
  }

  // ---------------------------------------------------------------- what has been done so far

  datatype Tally<R> = Tally(rows: multiset<R>, errors: nat, timeouts: nat, retries: nat)

  function Plus<R>(a: Tally<R>, b: Tally<R>): Tally<R> {
    Tally(a.rows + b.rows, a.errors + b.errors, a.timeouts + b.timeouts, a.retries + b.retries)
  }

  function Nothing<R>(): Tally<R> {
    Tally(multiset{}, 0, 0, 0)
  }

  function TallyOf<R, V>(s: Shared<R, V>): Tally<R> {
    Tally(multiset(s.rows), s.errors, s.timeouts, s.retries)
  }

  function EffectTally<R, V>(e: Effect<R, V>): Tally<R> {
    match e
    case Add(errors, timeouts, retries) => Tally(multiset{}, errors, timeouts, retries)
    case Append(rows) => Tally(multiset(rows), 0, 0, 0)
    case Put(_, _) => Nothing()
  }

  function ProgramTally<R, V>(prog: Program<R, V>): Tally<R> {
    if prog == [] then Nothing() else Plus(ProgramTally(prog[..|prog| - 1]), EffectTally(prog[|prog| - 1]))
  }

  function Sum<R>(ts: seq<Tally<R>>): Tally<R> {
    if ts == [] then Nothing() else Plus(Sum(ts[..|ts| - 1]), ts[|ts| - 1])
  }

  /** The number of effects of its program a goroutine has completed. */
  function Done<R, V>(prog: Program<R, V>, g: Goroutine<R, V>): (d: nat)
    ensures d <= |prog|
  {
    match g
    case Idle => 0
    case Running(pc, section) => if pc >= |prog| then |prog| else if section.Stored? then pc + 1 else pc
    case _ => |prog|
  }

  function Contributions<R, V>(progs: seq<Program<R, V>>, gs: seq<Goroutine<R, V>>): seq<Tally<R>>
    requires |gs| == |progs|
  {
    seq(|gs|, i requires 0 <= i < |gs| => ProgramTally(progs[i][..Done(progs[i], gs[i])]))
  }

  function Lookup<V>(table: map<string, V>, key: string): Option<V> {
    if key in table then Some(table[key]) else None
  }

  /** What a key holds after the program's effects, from what it held before. */
  function LastPut<R, V>(prog: Program<R, V>, before: Option<V>): Option<V> {
    if prog == [] then before
    else
      var e := prog[|prog| - 1];
      if e.Put? then Some(e.value) else LastPut(prog[..|prog| - 1], before)
  }

  /** The shared state is the initial one plus exactly the completed effects, whatever their interleaving. */
  ghost predicate Content<R(!new), V(!new)>(progs: seq<Program<R, V>>, keys: seq<string>, shared0: Shared<R, V>,
    s: State<R, V>)
  {
    && |s.gs| == |progs| == |keys|
    && TallyOf(s.shared) == Plus(TallyOf(shared0), Sum(Contributions(progs, s.gs)))
    && (forall i | 0 <= i < |keys| ::
          Lookup(s.shared.table, keys[i])
            == LastPut(progs[i][..Done(progs[i], s.gs[i])], Lookup(shared0.table, keys[i])))
    && (forall k | k !in keys :: Lookup(s.shared.table, k) == Lookup(shared0.table, k))
  }

  lemma DoTally<R(!new), V(!new)>(e: Effect<R, V>, s: Shared<R, V>)
    ensures TallyOf(Do(e, s)) == Plus(TallyOf(s), EffectTally(e))
  {
  }

  lemma PlusNothing<R(!new)>(a: Tally<R>)
    ensures Plus(a, Nothing()) == a && Plus(Nothing(), a) == a
  {
    assert a.rows + multiset{} == a.rows && multiset{} + a.rows == a.rows;
  }

  lemma PlusAssociates<R(!new)>(a: Tally<R>, b: Tally<R>, c: Tally<R>)
    ensures Plus(Plus(a, b), c) == Plus(a, Plus(b, c))
  {
    assert (a.rows + b.rows) + c.rows == a.rows + (b.rows + c.rows);
  }

  lemma PlusCommutes<R(!new)>(a: Tally<R>, b: Tally<R>)
    ensures Plus(a, b) == Plus(b, a)
  {
    assert a.rows + b.rows == b.rows + a.rows;
  }

  lemma PlusCancels<R(!new)>(a: Tally<R>, b: Tally<R>, c: Tally<R>)
    requires Plus(a, b) == Plus(a, c)
    ensures b == c
  {
    assert b.rows == (a.rows + b.rows) - a.rows;
    assert c.rows == (a.rows + c.rows) - a.rows;
  }

  lemma {:induction false} SumUpdate<R(!new)>(ts: seq<Tally<R>>, i: nat, t: Tally<R>)
    requires i < |ts|
    ensures Plus(Sum(ts[i := t]), ts[i]) == Plus(Sum(ts), t)
  {
    hide Plus;
    var n := |ts| - 1;
    if i < n {
      assert ts[i := t][..n] == ts[..n][i := t];
      SumUpdate(ts[..n], i, t);
      Swap(Sum(ts[..n][i := t]), ts[n], ts[i]);
      Swap(Sum(ts[..n]), t, ts[n]);
    } else {
      assert ts[i := t][..n] == ts[..n];
      Swap(Sum(ts[..n]), t, ts[n]);
    }
  }

  lemma Swap<R(!new)>(a: Tally<R>, b: Tally<R>, c: Tally<R>)
    ensures Plus(Plus(a, b), c) == Plus(Plus(a, c), b)
  {
    assert a.rows + b.rows + c.rows == a.rows + c.rows + b.rows;
  }

  /** A goroutine that moves without completing an effect leaves the accounts as they are. */
  lemma ContentUnmoved<R(!new), V(!new)>(progs: seq<Program<R, V>>, keys: seq<string>, shared0: Shared<R, V>,
    s: State<R, V>, next: State<R, V>, i: nat)
    requires Content(progs, keys, shared0, s) && i < |s.gs| && |next.gs| == |s.gs| && next.gs == s.gs[i := next.gs[i]]
    requires next.shared == s.shared && Done(progs[i], next.gs[i]) == Done(progs[i], s.gs[i])
    ensures Content(progs, keys, shared0, next)
  {
    hide LastPut, Sum, Plus, TallyOf, ProgramTally, Done;
    assert Contributions(progs, next.gs) == Contributions(progs, s.gs);
  }

  lemma LastPutSnoc<R(!new), V(!new)>(prog: Program<R, V>, d: nat, before: Option<V>)
    requires d < |prog|
    ensures LastPut(prog[..d + 1], before) == if prog[d].Put? then Some(prog[d].value) else LastPut(prog[..d], before)
  {
    assert prog[..d + 1][..d] == prog[..d];
  }

  lemma TableMoved<R(!new), V(!new)>(progs: seq<Program<R, V>>, keys: seq<string>, shared0: Shared<R, V>,
    s: State<R, V>, next: State<R, V>, i: nat, j: nat)
    requires OwnKeys(progs, keys) && i < |s.gs| == |next.gs| == |progs| && next.gs == s.gs[i := next.gs[i]]
    requires j < |keys|
    requires Lookup(s.shared.table, keys[j])
      == LastPut(progs[j][..Done(progs[j], s.gs[j])], Lookup(shared0.table, keys[j]))
    requires
      var d := Done(progs[i], s.gs[i]);
      d < |progs[i]| && Done(progs[i], next.gs[i]) == d + 1 && next.shared == Do(progs[i][d], s.shared)
    ensures
      Lookup(next.shared.table, keys[j])
        == LastPut(progs[j][..Done(progs[j], next.gs[j])], Lookup(shared0.table, keys[j]))
  {
    hide Done, LastPut;
    var d := Done(progs[i], s.gs[i]);
    if j == i {
      LastPutSnoc(progs[i], d, Lookup(shared0.table, keys[j]));
    } else {
      assert next.gs[j] == s.gs[j];
      assert keys[j] != keys[i];
    }
  }

  /** A goroutine that completes one effect moves that effect into the accounts. */
  lemma ContentMoved<R(!new), V(!new)>(progs: seq<Program<R, V>>, keys: seq<string>, shared0: Shared<R, V>,
    s: State<R, V>, next: State<R, V>, i: nat)
    requires OwnKeys(progs, keys) && Content(progs, keys, shared0, s) && i < |s.gs| == |next.gs|
    requires next.gs == s.gs[i := next.gs[i]]
    requires
      var d := Done(progs[i], s.gs[i]);
      d < |progs[i]| && Done(progs[i], next.gs[i]) == d + 1 && next.shared == Do(progs[i][d], s.shared)
    ensures Content(progs, keys, shared0, next)
  {
    hide Done, LastPut, Sum, Plus, TallyOf, Contributions;
    TallyMoved(progs, shared0, s, next, i);
    forall j | 0 <= j < |keys|
      ensures Lookup(next.shared.table, keys[j]) ==
        LastPut(progs[j][..Done(progs[j], next.gs[j])], Lookup(shared0.table, keys[j]))
    {
      TableMoved(progs, keys, shared0, s, next, i, j);
    }
  }

  lemma TallyMoved<R(!new), V(!new)>(progs: seq<Program<R, V>>, shared0: Shared<R, V>, s: State<R, V>,
    next: State<R, V>, i: nat)
    requires i < |s.gs| == |next.gs| == |progs| && next.gs == s.gs[i := next.gs[i]]
    requires TallyOf(s.shared) == Plus(TallyOf(shared0), Sum(Contributions(progs, s.gs)))
    requires
      var d := Done(progs[i], s.gs[i]);
      d < |progs[i]| && Done(progs[i], next.gs[i]) == d + 1 && next.shared == Do(progs[i][d], s.shared)
    ensures TallyOf(next.shared) == Plus(TallyOf(shared0), Sum(Contributions(progs, next.gs)))
  {
    hide Done, TallyOf, Sum, Plus, EffectTally, Do;
    var d := Done(progs[i], s.gs[i]);
    var e := EffectTally(progs[i][d]);
    assert progs[i][..d + 1][..d] == progs[i][..d];
    var before, after := Contributions(progs, s.gs), Contributions(progs, next.gs);
    assert after == before[i := Plus(before[i], e)];
    SumUpdate(before, i, Plus(before[i], e));
    DoTally(progs[i][d], s.shared);
    PlusMoves(Sum(after), before[i], Sum(before), e);
    PlusAssociates(TallyOf(shared0), Sum(before), e);
  }

  lemma PlusMoves<R(!new)>(after: Tally<R>, old0: Tally<R>, before: Tally<R>, e: Tally<R>)
    requires Plus(after, old0) == Plus(before, Plus(old0, e))
    ensures after == Plus(before, e)
  {
    hide Plus;
    PlusCommutes(after, old0);
    PlusCommutes(old0, e);
    PlusAssociates(before, e, old0);
    PlusCommutes(Plus(before, e), old0);
    PlusCancels(old0, after, Plus(before, e));
  }

  lemma StepContent<R(!new), V(!new)>(progs: seq<Program<R, V>>, keys: seq<string>, limit: int, shared0: Shared<R, V>,
    s: State<R, V>, e: Event)
    requires OwnKeys(progs, keys) && Exclusive(progs, s) && Content(progs, keys, shared0, s)
    requires Enabled(progs, limit, s, e)
    ensures Content(progs, keys, shared0, After(progs, limit, s, e))
  {
    hide OwnKeys, Content;
    var next := After(progs, limit, s, e);
    match e
    case Spawn => ContentUnmoved(progs, keys, shared0, s, next, s.main.i);
    case Go(i) =>
      assert next.gs == s.gs[i := next.gs[i]];
      var g := s.gs[i];
      if g.Running? && g.pc < |progs[i]| && (g.section.Loaded? || progs[i][g.pc].Add?) {
        ContentMoved(progs, keys, shared0, s, next, i);
      } else {
        ContentUnmoved(progs, keys, shared0, s, next, i);
      }
    case _ => SameContent(progs, keys, shared0, s, next);
  }

  lemma SameContent<R(!new), V(!new)>(progs: seq<Program<R, V>>, keys: seq<string>, shared0: Shared<R, V>,
    s: State<R, V>, next: State<R, V>)
    requires Content(progs, keys, shared0, s) && next.gs == s.gs && next.shared == s.shared
    ensures Content(progs, keys, shared0, next)
  {
  }

  lemma {:induction false} SumNothing<R(!new)>(ts: seq<Tally<R>>)
    requires forall i | 0 <= i < |ts| :: ts[i] == Nothing()
    ensures Sum(ts) == Nothing()
  {
    hide Plus, Nothing;
    PlusNothing<R>(Nothing());
    if ts != [] {
      SumNothing(ts[..|ts| - 1]);
    }
  }

  lemma InitContent<R(!new), V(!new)>(progs: seq<Program<R, V>>, keys: seq<string>, shared: Shared<R, V>)
    requires OwnKeys(progs, keys)
    ensures Content(progs, keys, shared, Init(|progs|, shared))
  {
    hide Plus, Sum, TallyOf, Nothing;
    var s := Init<R, V>(|progs|, shared);
    assert forall i | 0 <= i < |progs| :: progs[i][..Done(progs[i], s.gs[i])] == [];
    SumNothing(Contributions(progs, s.gs));
    PlusNothing(TallyOf(shared));
  }

  // ---------------------------------------------------------------- the sequential loop

  lemma {:induction false} DoAllSnoc<R(!new), V(!new)>(prog: Program<R, V>, e: Effect<R, V>, s: Shared<R, V>)
    ensures DoAll(prog + [e], s) == Do(e, DoAll(prog, s))
    decreases prog
  {
    hide Do;
    if prog == [] {
      assert (prog + [e])[1..] == [];
    } else {
      assert (prog + [e])[1..] == prog[1..] + [e];
      DoAllSnoc(prog[1..], e, Do(prog[0], s));
    }
  }

  lemma {:induction false} DoAllContent<R(!new), V(!new)>(prog: Program<R, V>, key: string, s: Shared<R, V>)
    requires forall k | 0 <= k < |prog| :: prog[k].Put? ==> prog[k].key == key
    ensures
      var end := DoAll(prog, s);
      && TallyOf(end) == Plus(TallyOf(s), ProgramTally(prog))
      && Lookup(end.table, key) == LastPut(prog, Lookup(s.table, key))
      && forall k | k != key :: Lookup(end.table, k) == Lookup(s.table, k)
    decreases |prog|
  {
    hide Plus, TallyOf, Nothing, EffectTally;
    if prog == [] {
      PlusNothing(TallyOf(s));
    } else {
      var n := |prog| - 1;
      assert prog == prog[..n] + [prog[n]];
      DoAllSnoc(prog[..n], prog[n], s);
      DoAllContent(prog[..n], key, s);
      DoTally(prog[n], DoAll(prog[..n], s));
      PlusAssociates(TallyOf(s), ProgramTally(prog[..n]), EffectTally(prog[n]));
    }
  }

  lemma {:induction false} SumCons<R(!new)>(t: Tally<R>, ts: seq<Tally<R>>)
    ensures Sum([t] + ts) == Plus(t, Sum(ts))
  {
    hide Plus, Nothing;
    if ts == [] {
      assert ([t] + ts)[..0] == [];
      PlusNothing(t);
    } else {
      var n := |ts| - 1;
      assert ([t] + ts)[..n + 1] == [t] + ts[..n];
      SumCons(t, ts[..n]);
      PlusAssociates(t, Sum(ts[..n]), ts[n]);
    }
  }

  /** The tally of a program is the sum over its parts. */
  lemma {:induction false} TallyAppend<R(!new), V(!new)>(a: Program<R, V>, b: Program<R, V>)
    ensures ProgramTally(a + b) == Plus(ProgramTally(a), ProgramTally(b))
    decreases |b|
  {
    hide Plus, Nothing, EffectTally;
    if b == [] {
      assert a + b == a;
      PlusNothing(ProgramTally(a));
    } else {
      var n := |b| - 1;
      assert (a + b)[..|a + b| - 1] == a + b[..n];
      TallyAppend(a, b[..n]);
      PlusAssociates(ProgramTally(a), ProgramTally(b[..n]), EffectTally(b[n]));
    }
  }

  lemma TallyOne<R(!new), V(!new)>(e: Effect<R, V>)
    ensures ProgramTally([e]) == EffectTally(e)
  {
    hide Plus, Nothing, EffectTally;
    assert [e][..0] == [];
    PlusNothing(EffectTally(e));
  }

  lemma TallyNone<R(!new), V(!new)>()
    ensures ProgramTally<R, V>([]) == Nothing()
  {
  }

  function ProgramTallies<R, V>(progs: seq<Program<R, V>>): seq<Tally<R>> {
    seq(|progs|, i requires 0 <= i < |progs| => ProgramTally(progs[i]))
  }

  lemma {:induction false} SequentialContent<R(!new), V(!new)>(progs: seq<Program<R, V>>, keys: seq<string>,
    s: Shared<R, V>)
    requires OwnKeys(progs, keys)
    ensures
      var end := Sequential(progs, s);
      && TallyOf(end) == Plus(TallyOf(s), Sum(ProgramTallies(progs)))
      && (forall i | 0 <= i < |keys| :: Lookup(end.table, keys[i]) == LastPut(progs[i], Lookup(s.table, keys[i])))
      && (forall k | k !in keys :: Lookup(end.table, k) == Lookup(s.table, k))
    decreases |progs|
  {
    hide LastPut, ProgramTally, DoAll, Plus, TallyOf, Lookup, Nothing;
    if progs == [] {
      PlusNothing(TallyOf(s));
    } else {
      var mid := DoAll(progs[0], s);
      DoAllContent(progs[0], keys[0], s);
      assert OwnKeys(progs[1..], keys[1..]);
      SequentialContent(progs[1..], keys[1..], mid);
      assert ProgramTallies(progs) == [ProgramTally(progs[0])] + ProgramTallies(progs[1..]);
      SumCons(ProgramTally(progs[0]), ProgramTallies(progs[1..]));
      PlusAssociates(TallyOf(s), ProgramTally(progs[0]), Sum(ProgramTallies(progs[1..])));
      assert keys == [keys[0]] + keys[1..];
      assert forall i | 0 < i < |keys| :: keys[i] == keys[1..][i - 1] && progs[i] == progs[1..][i - 1];
      assert keys[0] !in keys[1..];
    }
  }

  // ---------------------------------------------------------------- reachable states

  ghost predicate Inv<R(!new), V(!new)>(progs: seq<Program<R, V>>, keys: seq<string>, limit: int,
    shared0: Shared<R, V>, s: State<R, V>)
  {
    && Control(progs, limit, s) && Exclusive(progs, s) && MutexHolderRuns(s) && Content(progs, keys, shared0, s)
  }

  /** The invariant holds in every reachable state. */
  lemma {:induction false} RunKeepsInv<R(!new), V(!new)>(progs: seq<Program<R, V>>, keys: seq<string>, limit: int,
    shared0: Shared<R, V>, s: State<R, V>, events: seq<Event>)
    requires OwnKeys(progs, keys) && Inv(progs, keys, limit, shared0, s) && CanRun(progs, limit, s, events)
    ensures Inv(progs, keys, limit, shared0, End(progs, limit, s, events))
    decreases |events|
  {
    hide OwnKeys, Control, Exclusive, MutexHolderRuns, Content, Enabled, After;
    if events != [] {
      StepControl(progs, limit, s, events[0]);
      StepExclusive(progs, limit, s, events[0]);
      StepContent(progs, keys, limit, shared0, s, events[0]);
      RunKeepsInv(progs, keys, limit, shared0, After(progs, limit, s, events[0]), events[1..]);
    }
  }

  lemma Reachable<R(!new), V(!new)>(progs: seq<Program<R, V>>, keys: seq<string>, limit: int, shared0: Shared<R, V>,
    events: seq<Event>)
    requires OwnKeys(progs, keys) && CanRun(progs, limit, Init(|progs|, shared0), events)
    ensures Inv(progs, keys, limit, shared0, End(progs, limit, Init(|progs|, shared0), events))
  {
    hide OwnKeys, Control, Exclusive, MutexHolderRuns, Content, Enabled, After;
    InitHolds(progs, limit, shared0);
    InitContent(progs, keys, shared0);
    RunKeepsInv(progs, keys, limit, shared0, Init(|progs|, shared0), events);
  }

  /**
   * Safety, in every reachable state: no more than `limit` jobs are in flight, the buffered tokens are those
   * jobs plus at most one about to be spawned, and two goroutines are never inside the mutex together. Once the
   * channel is about to be closed it is empty and every goroutine is finished with it.
   */
  lemma FanOutSafety<R(!new), V(!new)>(progs: seq<Program<R, V>>, keys: seq<string>, limit: int,
    shared0: Shared<R, V>, events: seq<Event>)
    requires OwnKeys(progs, keys) && limit >= 0 && CanRun(progs, limit, Init(|progs|, shared0), events)
    ensures
      var s := End(progs, limit, Init(|progs|, shared0), events);
      && Count(s.gs, Holds) <= s.tokens <= limit && s.tokens <= Count(s.gs, Holds) + 1
      && (forall i, j | 0 <= i < j < |s.gs| && s.gs[i].Running? && s.gs[j].Running? ::
            s.gs[i].section.Outside? || s.gs[j].section.Outside?)
      && (s.main.AtClose? || s.main.Returned? ==> s.tokens == 0 && forall i | 0 <= i < |s.gs| :: s.gs[i].Finished?)
  {
    hide Content, Enabled, After, Count, OwnKeys;
    Reachable(progs, keys, limit, shared0, events);
    var s := End(progs, limit, Init(|progs|, shared0), events);
    CountZero(s.gs, Awaited);
    CountZero(s.gs, Holds);
  }

  /** Something can happen until the fan-out has returned, if the limit is at least 1. */
  lemma SomeStep<R(!new), V(!new)>(progs: seq<Program<R, V>>, limit: int, s: State<R, V>) returns (e: Event)
    requires Control(progs, limit, s) && Exclusive(progs, s) && MutexHolderRuns(s)
    requires limit >= 1 && !s.main.Returned?
    ensures Enabled(progs, limit, s, e)
  {
    hide Count;
    CountZero(s.gs, Awaited);
    CountZero(s.gs, Holds);
    if s.mutex.Some? {
      e := Go(s.mutex.value);
    } else if i: nat :| i < |s.gs| && (s.gs[i].Running? || s.gs[i].Released?) {
      assert Awaited(s.gs[i]) != 0;
      assert s.gs[i].Running? ==> Holds(s.gs[i]) != 0;
      e := Go(i);
    } else {
      match s.main
      case AtSend(_) => e := Send;
      case AtAdd(_) => e := WgAdd;
      case AtSpawn(_) => e := Spawn;
      case AtWait => e := Wait;
      case AtClose => e := Close;
    }
  }

  // ---------------------------------------------------------------- termination

  function StepsLeft<R, V>(prog: Program<R, V>, g: Goroutine<R, V>): nat {
    match g
    case Idle => 4 * |prog| + 2
    case Running(pc, section) =>
      if pc >= |prog| then 2
      else
        var stage := match section case Outside => 0 case Locked => 1 case Loaded(_, _) => 2 case Stored => 3;
        4 * (|prog| - pc) + 2 - stage
    case Released => 1
    case Finished => 0
  }

  function MainLeft<R, V>(s: State<R, V>): nat {
    var n := |s.gs|;
    match s.main
    case AtSend(i) => if i < n then 3 * (n - i) + 2 else 0
    case AtAdd(i) => if i < n then 3 * (n - i) + 1 else 0
    case AtSpawn(i) => if i < n then 3 * (n - i) else 0
    case AtWait => 2
    case AtClose => 1
    case Returned => 0
  }

  function AllStepsLeft<R, V>(progs: seq<Program<R, V>>, gs: seq<Goroutine<R, V>>): seq<nat>
    requires |gs| == |progs|
  {
    seq(|gs|, i requires 0 <= i < |gs| => StepsLeft(progs[i], gs[i]))
  }

  function Measure<R, V>(progs: seq<Program<R, V>>, s: State<R, V>): nat
    requires |s.gs| == |progs|
  {
    MainLeft(s) + Count(AllStepsLeft(progs, s.gs), (n: nat) => n)
  }

  lemma GoroutineAdvances<R(!new), V(!new)>(prog: Program<R, V>, i: nat, s: State<R, V>)
    requires i < |s.gs| && (s.gs[i].Released? || s.gs[i].Running?)
    requires s.gs[i].Released? ==> s.wg > 0
    requires s.gs[i].Running? ==> if s.gs[i].pc < |prog| then true else s.gs[i].section.Outside? && s.tokens > 0
    ensures
      var next := StepGoroutine(prog, i, s);
      && next.main == s.main && next.gs == s.gs[i := next.gs[i]]
        && StepsLeft(prog, next.gs[i]) < StepsLeft(prog, s.gs[i])
  {
    hide Do;
  }

  lemma MainAdvances<R(!new), V(!new)>(progs: seq<Program<R, V>>, limit: int, s: State<R, V>, e: Event)
    requires Control(progs, limit, s) && Enabled(progs, limit, s, e) && !e.Go?
    ensures
      var next := After(progs, limit, s, e);
      && MainLeft(next) < MainLeft(s) && |next.gs| == |s.gs|
      && (if e.Spawn? then
            s.main.i < |s.gs| && next.gs == s.gs[s.main.i := next.gs[s.main.i]]
            && StepsLeft(progs[s.main.i], next.gs[s.main.i]) <= StepsLeft(progs[s.main.i], s.gs[s.main.i])
          else next.gs == s.gs)
  {
    hide Count;
  }

  lemma StepDecreases<R(!new), V(!new)>(progs: seq<Program<R, V>>, limit: int, s: State<R, V>, e: Event)
    requires Control(progs, limit, s) && Exclusive(progs, s) && Enabled(progs, limit, s, e)
    ensures |After(progs, limit, s, e).gs| == |progs| && Measure(progs, After(progs, limit, s, e)) < Measure(progs, s)
  {
    hide Count, StepsLeft, StepGoroutine;
    if e.Go? {
      GoroutineAdvances(progs[e.i], e.i, s);
    } else {
      MainAdvances(progs, limit, s, e);
    }
    var next := After(progs, limit, s, e);
    var before, after := AllStepsLeft(progs, s.gs), AllStepsLeft(progs, next.gs);
    if e.Go? || e.Spawn? {
      var i := if e.Go? then e.i else s.main.i;
      assert after == before[i := StepsLeft(progs[i], next.gs[i])];
      CountUpdate(before, i, StepsLeft(progs[i], next.gs[i]), (n: nat) => n);
    }
  }

  lemma {:induction false} RunIsShort<R(!new), V(!new)>(progs: seq<Program<R, V>>, keys: seq<string>, limit: int,
    shared0: Shared<R, V>, s: State<R, V>, events: seq<Event>)
    requires OwnKeys(progs, keys) && Inv(progs, keys, limit, shared0, s) && CanRun(progs, limit, s, events)
    requires |s.gs| == |progs|
    ensures |events| <= Measure(progs, s)
    decreases |events|
  {
    hide OwnKeys, Control, Exclusive, MutexHolderRuns, Content, Enabled, After, Measure;
    if events != [] {
      StepControl(progs, limit, s, events[0]);
      StepExclusive(progs, limit, s, events[0]);
      StepContent(progs, keys, limit, shared0, s, events[0]);
      StepDecreases(progs, limit, s, events[0]);
      RunIsShort(progs, keys, limit, shared0, After(progs, limit, s, events[0]), events[1..]);
    }
  }

  /** The number of effects of all programs. */
  function Effects<R, V>(progs: seq<Program<R, V>>): nat {
    if progs == [] then 0 else Effects(progs[..|progs| - 1]) + |progs[|progs| - 1]|
  }

  lemma {:induction false} InitSteps<R(!new), V(!new)>(progs: seq<Program<R, V>>)
    ensures Count(AllStepsLeft(progs, seq(|progs|, _ => Idle)), (n: nat) => n) == 4 * Effects(progs) + 2 * |progs|
  {
    if progs != [] {
      var n := |progs| - 1;
      InitSteps(progs[..n]);
      var all := AllStepsLeft(progs, seq(|progs|, _ => Idle));
      assert all[..n] == AllStepsLeft(progs[..n], seq(n, _ => Idle));
    }
  }

  // ---------------------------------------------------------------- main results

  /** Every run is finite, of a length known beforehand. */
  lemma FanOutTerminates<R(!new), V(!new)>(progs: seq<Program<R, V>>, keys: seq<string>, limit: int,
    shared0: Shared<R, V>, events: seq<Event>)
    requires OwnKeys(progs, keys) && CanRun(progs, limit, Init(|progs|, shared0), events)
    ensures |events| <= 4 * Effects(progs) + 5 * |progs| + 2
  {
    hide OwnKeys, Control, Exclusive, MutexHolderRuns, Content, Enabled, After, Count, AllStepsLeft;
    InitHolds(progs, limit, shared0);
    InitContent(progs, keys, shared0);
    InitSteps(progs);
    RunIsShort(progs, keys, limit, shared0, Init(|progs|, shared0), events);
  }

  /** A run that cannot go on has returned; no deadlock, for every interleaving. */
  lemma FanOutNeverDeadlocks<R(!new), V(!new)>(progs: seq<Program<R, V>>, keys: seq<string>, limit: int,
    shared0: Shared<R, V>, events: seq<Event>)
    requires OwnKeys(progs, keys) && CanRun(progs, limit, Init(|progs|, shared0), events)
    requires Stuck(progs, limit, End(progs, limit, Init(|progs|, shared0), events))
    ensures limit >= 1 || progs == [] ==> End(progs, limit, Init(|progs|, shared0), events).main.Returned?
    ensures limit < 1 && progs != [] ==> events == []
  {
    hide OwnKeys, Control, Exclusive, MutexHolderRuns, Content, Enabled, After;
    var s := End(progs, limit, Init(|progs|, shared0), events);
    Reachable(progs, keys, limit, shared0, events);
    if limit >= 1 && !s.main.Returned? {
      var e := SomeStep(progs, limit, s);
    }
    if limit < 1 {
      NoToken(progs, keys, limit, shared0, events);
    }
  }

  /** With no room in the channel the first send blocks for ever. */
  lemma NoToken<R(!new), V(!new)>(progs: seq<Program<R, V>>, keys: seq<string>, limit: int, shared0: Shared<R, V>,
    events: seq<Event>)
    requires OwnKeys(progs, keys) && limit < 1 && CanRun(progs, limit, Init(|progs|, shared0), events)
    ensures progs != [] ==> events == []
    ensures progs == [] && Stuck(progs, limit, End(progs, limit, Init(|progs|, shared0), events)) ==>
      End(progs, limit, Init(|progs|, shared0), events).main.Returned?
  {
    hide OwnKeys, Exclusive, MutexHolderRuns, Content;
    Reachable(progs, keys, limit, shared0, events);
    var s := End(progs, limit, Init(|progs|, shared0), events);
    if progs == [] && !s.main.Returned? {
      assert Enabled(progs, limit, s, if s.main.AtWait? then Wait else Close);
    }
  }

  /**
   * Schedule independence: whatever the interleaving, a finished fan-out leaves the rows (up to order), the table
   * and the totals that the devices processed one after the other would leave.
   */
  lemma FanOutIsSequential<R(!new), V(!new)>(progs: seq<Program<R, V>>, keys: seq<string>, limit: int,
    shared0: Shared<R, V>, events: seq<Event>)
    requires OwnKeys(progs, keys) && CanRun(progs, limit, Init(|progs|, shared0), events)
    requires End(progs, limit, Init(|progs|, shared0), events).main.Returned?
    ensures SameShared(End(progs, limit, Init(|progs|, shared0), events).shared, Sequential(progs, shared0))
  {
    hide OwnKeys, Exclusive, MutexHolderRuns, Enabled, After, Count, LastPut, Sum, Plus, ProgramTally, Sequential;
    var s := End(progs, limit, Init(|progs|, shared0), events);
    var q := Sequential(progs, shared0);
    Reachable(progs, keys, limit, shared0, events);
    SequentialContent(progs, keys, shared0);
    CountZero(s.gs, Awaited);
    AllDone(progs, s.gs);
    forall k ensures Lookup(s.shared.table, k) == Lookup(q.table, k) {
      if k in keys {
        var i :| 0 <= i < |keys| && keys[i] == k;
        assert progs[i][..|progs[i]|] == progs[i];
      }
    }
    SameTable(s.shared.table, q.table);
  }

  lemma AllDone<R(!new), V(!new)>(progs: seq<Program<R, V>>, gs: seq<Goroutine<R, V>>)
    requires |gs| == |progs| && forall i | 0 <= i < |gs| :: gs[i].Finished?
    ensures Contributions(progs, gs) == ProgramTallies(progs)
    ensures forall i | 0 <= i < |gs| :: Done(progs[i], gs[i]) == |progs[i]|
  {
    hide ProgramTally;
    assert forall i | 0 <= i < |gs| :: progs[i][..|progs[i]|] == progs[i];
  }

  lemma SameTable<V(!new)>(a: map<string, V>, b: map<string, V>)
    requires forall k :: Lookup(a, k) == Lookup(b, k)
    ensures a == b
  {
    forall k ensures k in a <==> k in b {
      assert Lookup(a, k) == Lookup(b, k);
    }
    forall k | k in a ensures a[k] == b[k] {
      assert Lookup(a, k) == Lookup(b, k);
    }
  }
}
