/** The bounded fan-out shared by the collectors: a token channel, a wait group, a mutex and atomic totals. */
module FanOut {
  import opened Wrappers

  /** What a goroutine does to the shared state: an atomic addition, or an update made under the mutex. */
  datatype Effect<R, V> =
    | Add(errors: nat, timeouts: nat, retries: nat)
    | Append(rows: seq<R>)
    | Put(key: string, value: V)

  type Program<R, V> = seq<Effect<R, V>>

  datatype Shared<R, V> = Shared(rows: seq<R>, table: map<string, V>, errors: nat, timeouts: nat, retries: nat)

  /** The effect, done in one go. */
  function Do<R, V>(e: Effect<R, V>, s: Shared<R, V>): Shared<R, V> {
    match e
    case Add(errors, timeouts, retries) =>
      s.(errors := s.errors + errors, timeouts := s.timeouts + timeouts, retries := s.retries + retries)
    case Append(rows) => s.(rows := s.rows + rows)
    case Put(key, value) => s.(table := s.table[key := value])
  }

  // ---------------------------------------------------------------- states

  /** Where a goroutine stands within an update made under the mutex. */
  datatype Section<R, V> = Outside | Locked | Loaded(rows: seq<R>, table: map<string, V>) | Stored

  datatype Goroutine<R, V> =
    | Idle
    | Running(pc: nat, section: Section<R, V>)
    | Released
    | Finished

  /** The main loop: about to send the token, to add to the wait group, to spawn; then to wait, to close. */
  datatype Main = AtSend(i: nat) | AtAdd(i: nat) | AtSpawn(i: nat) | AtWait | AtClose | Returned

  datatype State<R, V> = State(main: Main, tokens: nat, wg: nat, mutex: Option<nat>, gs: seq<Goroutine<R, V>>,
                               shared: Shared<R, V>)

  datatype Event = Send | WgAdd | Spawn | Wait | Close | Go(i: nat)

  function Init<R, V>(n: nat, shared: Shared<R, V>): State<R, V> {
    State(if n == 0 then AtWait else AtSend(0), 0, 0, None, seq(n, _ => Idle), shared)
  }

  /** Whether the event can happen; `limit` is the capacity of the token channel. */
  predicate Enabled<R, V>(progs: seq<Program<R, V>>, limit: int, s: State<R, V>, e: Event) {
    match e
    case Send => s.main.AtSend? && s.tokens < limit
    case WgAdd => s.main.AtAdd?
    case Spawn => s.main.AtSpawn? && s.main.i < |s.gs| && s.gs[s.main.i].Idle?
    case Wait => s.main.AtWait? && s.wg == 0
    case Close => s.main.AtClose?
    case Go(i) =>
      && i < |s.gs| && i < |progs|
      && match s.gs[i]
         case Idle => false
         case Finished => false
         case Released => s.wg > 0
         case Running(pc, section) =>
           match section
           case Outside =>
             if pc < |progs[i]| then progs[i][pc].Add? || s.mutex.None? else s.tokens > 0
           case _ => pc < |progs[i]|
  }

  function After<R, V>(progs: seq<Program<R, V>>, limit: int, s: State<R, V>, e: Event): State<R, V>
    requires Enabled(progs, limit, s, e)
  {
    match e
    case Send => s.(main := AtAdd(s.main.i), tokens := s.tokens + 1)
    case WgAdd => s.(main := AtSpawn(s.main.i), wg := s.wg + 1)
    case Spawn =>
      var i := s.main.i;
      s.(main := if i + 1 < |s.gs| then AtSend(i + 1) else AtWait, gs := s.gs[i := Running(0, Outside)])
    case Wait => s.(main := AtClose)
    case Close => s.(main := Returned)
    case Go(i) => StepGoroutine(progs[i], i, s)
  }

  function StepGoroutine<R, V>(prog: Program<R, V>, i: nat, s: State<R, V>): State<R, V>
    requires i < |s.gs| && (s.gs[i].Released? || s.gs[i].Running?)
    requires s.gs[i].Released? ==> s.wg > 0
    requires s.gs[i].Running? ==> if s.gs[i].pc < |prog| then true else s.gs[i].section.Outside? && s.tokens > 0
  {
    match s.gs[i]
    case Released => s.(wg := s.wg - 1, gs := s.gs[i := Finished])
    case Running(pc, section) =>
      if pc >= |prog| then s.(tokens := s.tokens - 1, gs := s.gs[i := Released])
      else
        var e := prog[pc];
        match section
        case Outside =>
          if e.Add? then s.(shared := Do(e, s.shared), gs := s.gs[i := Running(pc + 1, Outside)])
          else s.(mutex := Some(i), gs := s.gs[i := Running(pc, Locked)])
        case Locked => s.(gs := s.gs[i := Running(pc, Loaded(s.shared.rows, s.shared.table))])
        case Loaded(rows, table) =>
          var shared :=
            match e
            case Append(more) => s.shared.(rows := rows + more)
            case Put(key, value) => s.shared.(table := table[key := value])
            case Add(_, _, _) => s.shared;
          s.(shared := shared, gs := s.gs[i := Running(pc, Stored)])
        case Stored => s.(mutex := None, gs := s.gs[i := Running(pc + 1, Outside)])
  }

  /** A run: events, each enabled when it happens. */
  ghost predicate CanRun<R, V>(progs: seq<Program<R, V>>, limit: int, s: State<R, V>, events: seq<Event>)
    decreases events
  {
    events == []
      || (Enabled(progs, limit, s, events[0]) && CanRun(progs, limit, After(progs, limit, s, events[0]), events[1..]))
  }

  function End<R, V>(progs: seq<Program<R, V>>, limit: int, s: State<R, V>, events: seq<Event>): State<R, V>
    requires CanRun(progs, limit, s, events)
    decreases events
  {
    if events == [] then s else End(progs, limit, After(progs, limit, s, events[0]), events[1..])
  }

  /** Nothing can happen any more. */
  ghost predicate Stuck<R, V>(progs: seq<Program<R, V>>, limit: int, s: State<R, V>) {
    forall e :: !Enabled(progs, limit, s, e)
  }

  // ---------------------------------------------------------------- the sequential loop

  function DoAll<R, V>(prog: Program<R, V>, s: Shared<R, V>): Shared<R, V>
    decreases prog
  {
    if prog == [] then s else DoAll(prog[1..], Do(prog[0], s))
  }

  /** The devices one after the other. */
  function Sequential<R, V>(progs: seq<Program<R, V>>, s: Shared<R, V>): Shared<R, V> {
    if progs == [] then s else Sequential(progs[1..], DoAll(progs[0], s))
  }

  ghost predicate SameShared<R, V>(a: Shared<R, V>, b: Shared<R, V>) {
    multiset(a.rows) == multiset(b.rows) && a.(rows := []) == b.(rows := [])
  }

  /** Each job writes one key of the table, and no two jobs the same key. */
  ghost predicate OwnKeys<R, V>(progs: seq<Program<R, V>>, keys: seq<string>) {
    && |keys| == |progs|
    && (forall i, j | 0 <= i < j < |keys| :: keys[i] != keys[j])
    && (forall i, k | 0 <= i < |progs| && 0 <= k < |progs[i]| :: progs[i][k].Put? ==> progs[i][k].key == keys[i])
  }
}
