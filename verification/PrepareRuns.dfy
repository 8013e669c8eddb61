/** The promises of `prepare` over whole runs: whichever tier serves a call, an Ok result is what compiling the source
    gives (src/runtime.rs, src/cache.rs). */
module PrepareRuns {
  import opened Wrappers
  import opened Profiles
  import opened Prepare
  import opened PrepareProofs
  import Disk = DiskCache

  lemma {:induction false} RunKeepsInv(g: Config, states: seq<State>, events: seq<Event>, i: nat)
    requires Sound(g) && Run(g, states, events) && DiskOk(g, states[0].disk) && i < |states|
    ensures Inv(g, states[i])
  {
    if i > 0 {
      RunKeepsInv(g, states, events, i - 1);
      InvStep(g, states[i - 1], events[i - 1]);
    }
  }

  /** Whichever tier served it, in every interleaving with evictions, demotions, dropped tasks, crashes, failed
      publications and corrupted files: an Ok result is the component that compiling the source gives, under the one
      world it exports. */
  lemma PreparedIsCompiled(g: Config, states: seq<State>, events: seq<Event>, i: nat, id: nat, v: Prepared)
    requires Sound(g) && Run(g, states, events) && DiskOk(g, states[0].disk) && i < |states|
    requires At(states[i], id, Done(Ok(v)))
    ensures var source := states[i].tasks[id].source;
      && Compile(g, source).Some? && Compile(g, source).value.0 == v
      && g.tools.compile(source) == Some(v.component) && g.tools.serialize(v.component).Some?
      && Detected(v.component.exports, Ok(v.profile))
  {
    RunKeepsInv(g, states, events, i);
    assert TaskOk(g, states[i].disk.clients, id, states[i].tasks[id]);
    CompileMeans(g, states[i].tasks[id].source, v, Compile(g, states[i].tasks[id].source).value.1);
  }

  /** A call never fails on a source that compiles, except that the disk tier may reject its entry; a source that does
      not compile never succeeds. */
  lemma AnswerIsCompilers(g: Config, states: seq<State>, events: seq<Event>, i: nat, id: nat)
    requires Sound(g) && Run(g, states, events) && DiskOk(g, states[0].disk) && i < |states|
    requires id in states[i].tasks && states[i].tasks[id].pc.Done?
    ensures var task := states[i].tasks[id]; var v := Compile(g, task.source);
      || task.pc.result == (if v.Some? then Ok(v.value.0) else Err(CompileFailed))
      || (g.hasDisk && task.pc.result == Err(CacheRejected))
  {
    RunKeepsInv(g, states, events, i);
    assert TaskOk(g, states[i].disk.clients, id, states[i].tasks[id]);
  }

  /** Deserialization never fails a call: what the memory and disk tiers hand out is always loadable. */
  lemma NeverDeserializeFailed(g: Config, states: seq<State>, events: seq<Event>, i: nat, id: nat)
    requires Sound(g) && Run(g, states, events) && DiskOk(g, states[0].disk) && i < |states|
    ensures !At(states[i], id, Done(Err(DeserializeFailed)))
  {
    RunKeepsInv(g, states, events, i);
    if id in states[i].tasks { assert TaskOk(g, states[i].disk.clients, id, states[i].tasks[id]); }
  }

  // ---------------------------------------------------------------- where a rejection comes from

  const REJECTED: Pc := Done(Err(CacheRejected))

  predicate LoadFailed(s: State, id: nat)
  {
    id in s.disk.clients && s.disk.clients[id].Loader? && s.disk.clients[id].load.Loaded? &&
    s.disk.clients[id].load.result.Err?
  }

  /** The call that a step moves, if it moves one. */
  function Mover(e: Event): (id: Option<nat>)
  {
    match e
    case CallTier(_) => None
    case CallDemote(_) => None
    case DiskStep(_) => None
    case Crash => None
    case _ => Some(e.id)
  }

  lemma OthersStay(g: Config, s: State, e: Event, id: nat)
    requires Enabled(g, s, e) && Mover(e) != Some(id) && id in Do(g, s, e).tasks
    ensures id in s.tasks && Do(g, s, e).tasks[id] == s.tasks[id]
  {
  }

  lemma OnlyLoadsReject(g: Config, s: State, e: Event, id: nat)
    requires Enabled(g, s, e) && Mover(e) == Some(id) && At(Do(g, s, e), id, REJECTED)
    ensures e == FinishLoad(id) && LoadFailed(s, id)
  {
  }

  /** A call that answers that the cache entry was rejected has finished a load that failed. */
  lemma {:induction false} RejectedByLoad(g: Config, states: seq<State>, events: seq<Event>, i: nat, id: nat)
      returns (k: nat)
    requires Run(g, states, events) && i < |states| && At(states[i], id, REJECTED)
    ensures k < i && events[k] == FinishLoad(id) && LoadFailed(states[k], id)
  {
    var s, e := states[i - 1], events[i - 1];
    if Mover(e) == Some(id) {
      OnlyLoadsReject(g, s, e, id);
      k := i - 1;
    } else {
      OthersStay(g, s, e, id);
      k := RejectedByLoad(g, states, events, i - 1, id);
    }
  }

  // ---------------------------------------------------------------- the disk is searched before the compiler runs

  /** How many profiles of the disk tier lie behind a call at `pc`. */
  function Searched(pc: Pc): (n: nat)
  {
    match pc
    case BeforeLoad(k) => k
    case Loading(k) => k
    case Compiling => |ALL|
    case _ => 0
  }

  /** The call `id` has loaded the entry of profile `k` and found nothing. */
  predicate LoadMissed(s: State, id: nat, k: nat)
  {
    && id in s.tasks && s.tasks[id].pc == Loading(k)
    && id in s.disk.clients && s.disk.clients[id].Loader? && s.disk.clients[id].load == Disk.Loaded(Ok(None))
  }

  lemma SearchesOn(g: Config, s: State, e: Event, id: nat)
    requires g.hasDisk && Enabled(g, s, e) && Mover(e) == Some(id) && id in Do(g, s, e).tasks
    ensures var n := Searched(Do(g, s, e).tasks[id].pc);
      || n == 0
      || (id in s.tasks && Searched(s.tasks[id].pc) >= n)
      || (e == FinishLoad(id) && LoadMissed(s, id, n - 1))
  {
  }

  /** With a disk a call reaches the compiler only after it has found nothing under every profile. */
  lemma {:induction false} DiskTriedFirst(g: Config, states: seq<State>, events: seq<Event>, i: nat, id: nat, k: nat)
      returns (j: nat)
    requires g.hasDisk && Run(g, states, events) && i < |states| && id in states[i].tasks
    requires k < Searched(states[i].tasks[id].pc)
    ensures j < i && events[j] == FinishLoad(id) && LoadMissed(states[j], id, k)
  {
    var s, e := states[i - 1], events[i - 1];
    if Mover(e) == Some(id) {
      SearchesOn(g, s, e, id);
      if e == FinishLoad(id) && LoadMissed(s, id, k) {
        j := i - 1;
      } else {
        j := DiskTriedFirst(g, states, events, i - 1, id, k);
      }
    } else {
      OthersStay(g, s, e, id);
      j := DiskTriedFirst(g, states, events, i - 1, id, k);
    }
  }
}
