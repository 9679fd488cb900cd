/** The nick database: commits in memory, and the background threads that write them to disk
    under a lock, each checking that its generation is still the latest. */
module Persist {
  import opened Common

  /** The accounts by nick. The file holds its text form, which is the store again when read. */
  type Store = map<string, string>

  datatype AccountError = Io | Refused(reason: string)

  /** A writer thread: waiting for the lock, holding it, past the generation check, or finished. */
  datatype Writer =
    | Waiting(text: Store)
    | Locked(text: Store)
    | Checked(text: Store)
    | Finished(wrote: bool, failed: bool)

  /** `history[g]` is what generation `g` committed (a ghost of the model: nobody reads it). */
  datatype State = State(
    store: Store,
    disk: Store,
    diskGen: nat,
    gen: nat,
    async: bool,
    writers: map<nat, Writer>,
    lock: Option<nat>,
    failures: nat,
    history: seq<Store>)

  function Loaded(store: Store): State {
    State(store, store, 0, 0, false, map[], None, 0, [store])
  }

  datatype Event =
    | EnableAsync
    | Commit(next: Store, written: bool)
    | Acquire(g: nat)
    | Check(g: nat)
    | Write(g: nat, written: bool)

  // ---- Steps ----

  /** `commit`: in the background once that is enabled, otherwise on the spot. */
  function Committed(s: State, next: Store, written: bool): (State, Result<(), AccountError>)
    requires |s.history| > 0
  {
    if s.async then
      (s.(store := next, gen := s.gen + 1, writers := s.writers[s.gen + 1 := Waiting(next)], history := s.history + [next]), Ok(()))
    else if !written then (s, Err(Io))
    else (s.(store := next, disk := next, history := s.history[..|s.history| - 1] + [next]), Ok(()))
  }

  predicate Enabled(s: State, ev: Event) {
    match ev
    case EnableAsync => true
    case Commit(_, _) => |s.history| > 0
    case Acquire(g) => s.lock.None? && g in s.writers && s.writers[g].Waiting?
    case Check(g) => s.lock == Some(g) && g in s.writers && s.writers[g].Locked?
    case Write(g, _) => s.lock == Some(g) && g in s.writers && s.writers[g].Checked?
  }

  function Next(s: State, ev: Event): State
    requires Enabled(s, ev)
  {
    match ev
    case EnableAsync => s.(async := true)
    case Commit(next, written) => Committed(s, next, written).0
    case Acquire(g) => s.(lock := Some(g), writers := s.writers[g := Locked(s.writers[g].text)])
    case Check(g) =>
      if s.gen != g then s.(lock := None, writers := s.writers[g := Finished(false, false)])
      else s.(writers := s.writers[g := Checked(s.writers[g].text)])
    case Write(g, written) =>
      if written then
        s.(lock := None, disk := s.writers[g].text, diskGen := g, writers := s.writers[g := Finished(true, false)])
      else s.(lock := None, failures := s.failures + 1, writers := s.writers[g := Finished(false, true)])
  }

  // ---- The store in place ----

  class Accounts {
    var store: Store
    var disk: Store
    var gen: nat
    var async: bool
    var failures: nat
    var spawned: seq<(nat, Store)>

    ghost predicate Shows(s: State)
      reads this
    {
      s.store == store && s.disk == disk && s.gen == gen && s.async == async && s.failures == failures
    }

    constructor (loaded: Store)
      ensures Shows(Loaded(loaded)) && spawned == []
    {
      store, disk, gen, async, failures, spawned := loaded, loaded, 0, false, 0, [];
    }

    /** Persist `next`, then make it the store; or the other way round in the background. */
    method Commit(next: Store, written: bool, ghost s: State) returns (r: Result<(), AccountError>)
      requires Shows(s) && |s.history| > 0
      modifies this
      ensures Shows(Committed(s, next, written).0) && r == Committed(s, next, written).1
      ensures spawned == if old(async) then old(spawned) + [(gen, next)] else old(spawned)
    {
      if async {
        store := next;
        gen := gen + 1;
        spawned := spawned + [(gen, next)];
        return Ok(());
      }
      if !written {
        return Err(Io);
      }
      disk := next;
      store := next;
      return Ok(());
    }

    /** Apply `f` to a copy and commit that copy: a refusal, or a failed write, changes nothing. */
    method Mutate(f: Store -> Result<Store, AccountError>, written: bool, ghost s: State)
      returns (r: Result<(), AccountError>)
      requires Shows(s) && |s.history| > 0
      modifies this
      ensures r.Ok? <==> f(old(store)).Ok? && (old(async) || written)
      ensures r.Ok? ==> Ok(store) == f(old(store))
      ensures r.Err? ==> Shows(s) && spawned == old(spawned)
      ensures !old(async) && old(store) == old(disk) ==> store == disk
    {
      var next := f(store);
      if next.Err? {
        return Err(next.error);
      }
      r := Commit(next.value, written, s);
    }

    /** A writer thread with the lock: write only if no later generation was committed. */
    method RunWriter(g: nat, text: Store, written: bool, ghost s: State)
      requires Shows(s) && s.lock == Some(g) && g in s.writers && s.writers[g] == Locked(text)
      modifies this`disk, this`failures
      ensures var s1 := Next(s, Check(g));
              Shows(if s1.lock == Some(g) then Next(s1, Write(g, written)) else s1)
    {
      if gen != g {
        return;
      }
      if written {
        disk := text;
      } else {
        failures := failures + 1;
      }
    }
  }

  // ---- Any interleaving ----

  predicate TextOf(w: Writer, text: Store) { !w.Finished? ==> w.text == text }

  predicate WriterOk(s: State, g: nat)
    requires g in s.writers && |s.history| == s.gen + 1
  {
    && 1 <= g <= s.gen && TextOf(s.writers[g], s.history[g])
    && (s.writers[g].Locked? || s.writers[g].Checked? ==> s.lock == Some(g))
    && (s.writers[g].Checked? ==> s.diskGen <= g)
    && (s.writers[g].Finished? && s.writers[g].wrote ==> g <= s.diskGen)
    && (s.writers[g].Finished? && s.writers[g].failed ==> s.diskGen != g)
    && (!s.writers[g].Finished? ==> s.diskGen != g)
    && (g == s.gen && s.writers[g].Finished? ==> s.writers[g].wrote || s.writers[g].failed)
  }

  /** Store and file are both generations of one history; there is a thread for each generation
      committed in the background; the file is never newer than the store. */
  predicate StateOk(s: State) {
    && |s.history| == s.gen + 1 && s.diskGen <= s.gen
    && s.store == s.history[s.gen] && s.disk == s.history[s.diskGen]
    && (!s.async ==> s.gen == 0)
    && (forall g :: 1 <= g <= s.gen ==> g in s.writers)
    && (forall g :: g in s.writers ==> WriterOk(s, g))
    && (s.diskGen > 0 ==> s.writers[s.diskGen] == Finished(true, false))
  }

  lemma CommitKeeps(s: State, next: Store, written: bool)
    requires StateOk(s)
    ensures StateOk(Committed(s, next, written).0)
  {
    var s' := Committed(s, next, written).0;
    forall g | g in s'.writers ensures WriterOk(s', g) {
      if g in s.writers {
        assert WriterOk(s, g);
      }
    }
  }

  lemma WriterKeeps(s: State, ev: Event)
    requires StateOk(s) && Enabled(s, ev) && (ev.Acquire? || ev.Check? || ev.Write?)
    ensures StateOk(Next(s, ev)) && Next(s, ev).diskGen >= s.diskGen
  {
    var s' := Next(s, ev);
    assert WriterOk(s, ev.g);
    forall g | g in s'.writers ensures WriterOk(s', g) {
      assert WriterOk(s, g);
    }
  }

  /** Every step keeps the file a committed generation, and never takes it back to an older one. */
  lemma NextKeeps(s: State, ev: Event)
    requires StateOk(s) && Enabled(s, ev)
    ensures StateOk(Next(s, ev)) && Next(s, ev).diskGen >= s.diskGen
  {
    match ev
    case EnableAsync =>
      var s' := Next(s, ev);
      forall g | g in s'.writers ensures WriterOk(s', g) {
        assert WriterOk(s, g);
      }
    case Commit(next, written) => CommitKeeps(s, next, written);
    case Acquire(_) => WriterKeeps(s, ev);
    case Check(_) => WriterKeeps(s, ev);
    case Write(_, _) => WriterKeeps(s, ev);
  }

  ghost predicate IsRun(states: seq<State>, evs: seq<Event>) {
    && |states| == |evs| + 1
    && (exists store :: states[0] == Loaded(store))
    && forall i :: 0 <= i < |evs| ==> Enabled(states[i], evs[i]) && states[i + 1] == Next(states[i], evs[i])
  }

  lemma {:induction false} RunKeeps(states: seq<State>, evs: seq<Event>, n: nat)
    requires IsRun(states, evs) && n < |states|
    ensures StateOk(states[n])
  {
    if n > 0 {
      RunKeeps(states, evs, n - 1);
      NextKeeps(states[n - 1], evs[n - 1]);
    }
  }

  lemma DiskStepsForward(states: seq<State>, evs: seq<Event>, n: nat)
    requires IsRun(states, evs) && n < |evs|
    ensures states[n].diskGen <= states[n + 1].diskGen
  {
    RunKeeps(states, evs, n);
    NextKeeps(states[n], evs[n]);
  }

  /** Over any interleaving, the generation on disk never goes backwards. */
  lemma {:induction false} DiskNeverGoesBack(states: seq<State>, evs: seq<Event>, m: nat, n: nat)
    requires IsRun(states, evs) && m <= n < |states|
    ensures states[m].diskGen <= states[n].diskGen
  {
    if m < n {
      DiskNeverGoesBack(states, evs, m, n - 1);
      DiskStepsForward(states, evs, n - 1);
    }
  }

  /** No writer is still at work. */
  predicate Quiet(s: State) {
    forall g :: g in s.writers ==> s.writers[g].Finished?
  }

  /** When all writers have finished, the file is the latest generation exactly when the last
      one's write succeeded; it then equals the store, and otherwise an earlier commit. */
  lemma QuietDiskIsStore(states: seq<State>, evs: seq<Event>, n: nat)
    requires IsRun(states, evs) && n < |states| && Quiet(states[n])
    ensures var s := states[n];
            && StateOk(s)
            && s.store == s.history[s.gen] && s.disk == s.history[s.diskGen]
            && (s.gen > 0 ==> s.gen in s.writers && (s.diskGen == s.gen <==> s.writers[s.gen].wrote))
            && (s.gen > 0 && s.writers[s.gen].wrote ==> s.disk == s.store)
            && (s.gen > 0 && !s.writers[s.gen].wrote ==> s.writers[s.gen].failed && s.diskGen < s.gen)
            && (s.gen == 0 ==> s.disk == s.store)
  {
    RunKeeps(states, evs, n);
    var s := states[n];
    if s.gen > 0 {
      assert WriterOk(s, s.gen);
    }
  }

  function Failed(writers: map<nat, Writer>): set<nat> {
    set g | g in writers && writers[g].Finished? && writers[g].failed
  }

  lemma WritersKnown(s: State)
    requires StateOk(s)
    ensures forall g :: g in s.writers ==> g <= s.gen
  {
    forall g | g in s.writers ensures g <= s.gen {
      assert WriterOk(s, g);
    }
  }

  lemma FailedThen(writers: map<nat, Writer>, g: nat, w: Writer)
    requires g in writers ==> !writers[g].Finished?
    ensures |Failed(writers[g := w])| == |Failed(writers)| + (if w.Finished? && w.failed then 1 else 0)
  {
    assert g !in Failed(writers);
    assert Failed(writers[g := w]) == Failed(writers) + (if w.Finished? && w.failed then {g} else {});
  }

  lemma StepCountsFailures(s: State, ev: Event)
    requires StateOk(s) && Enabled(s, ev) && s.failures == |Failed(s.writers)|
    ensures Next(s, ev).failures == |Failed(Next(s, ev).writers)|
  {
    match ev
    case EnableAsync =>
    case Commit(next, written) =>
      WritersKnown(s);
      FailedThen(s.writers, s.gen + 1, Waiting(next));
    case Acquire(g) => FailedThen(s.writers, g, Locked(s.writers[g].text));
    case Check(g) => FailedThen(s.writers, g, if s.gen != g then Finished(false, false) else Checked(s.writers[g].text));
    case Write(g, written) => FailedThen(s.writers, g, if written then Finished(true, false) else Finished(false, true));
  }

  /** Each background write that failed is counted once. */
  lemma {:induction false} FailuresExactly(states: seq<State>, evs: seq<Event>, n: nat)
    requires IsRun(states, evs) && n < |states|
    ensures states[n].failures == |Failed(states[n].writers)|
  {
    if n > 0 {
      FailuresExactly(states, evs, n - 1);
      RunKeeps(states, evs, n - 1);
      StepCountsFailures(states[n - 1], evs[n - 1]);
    } else {
      assert Failed(states[0].writers) == {};
    }
  }
}
