/**
 * The sequence lock and the robust process mutex of seqlock.h: any number of writers and readers of one record of several
 * words, interleaved at every load and store, under sequential consistency.
 */
module Seqlock {
  import opened Layout

  const WRAP: nat := 0x1_0000_0000

  /** uint32_t increment */
  function Inc(s: nat): nat { (s + 1) % WRAP }

  lemma LowBit(total: nat)
    ensures (total % WRAP) % 2 == total % 2
  {
  }

  lemma IncParity(s: nat)
    ensures Inc(s) % 2 == (s + 1) % 2
  {
    LowBit(s + 1);
  }

  /** The increment changes parity, at the wrap too. */
  lemma IncFlips(s: nat)
    ensures Inc(s) % 2 == 1 <==> s % 2 == 0
  {
    hide Inc;
    IncParity(s);
    assert (s + 1) % 2 == 1 <==> s % 2 == 0;
  }

  /** The 32-bit counter. Each method is one call of the C++ class, run alone. */
  class SeqCounter {
    var value: nat

    constructor ()
      ensures value == 0
    {
      value := 0;
    }

    method WriteBegin()
      modifies this
      ensures value == Inc(old(value)) && (value % 2 == 1 <==> old(value) % 2 == 0)
    {
      var s := value;
      value := (s + 1) % WRAP;
      IncFlips(s);
    }

    method WriteEnd()
      modifies this
      ensures value == Inc(old(value)) && (value % 2 == 1 <==> old(value) % 2 == 0)
    {
      var s := value;
      value := (s + 1) % WRAP;
      IncFlips(s);
    }

    /** One round of the loop in read_begin: None while a write is under way. */
    method TryReadBegin() returns (r: Option<nat>)
      ensures r == if value % 2 == 1 then None else Some(value)
    {
      var s := value;
      r := if s % 2 == 1 then None else Some(s);
    }

    method ReadEnd(snapshot: nat) returns (ok: bool)
      ensures ok <==> value == snapshot
    {
      ok := value == snapshot;
    }
  }

  // ---------------------------------------------------------------- processes

  datatype Mutex = Unlocked | Held(owner: nat) | OwnerDead

  /** Where a writer is in SeqlockMWWriteGuard; a load and the store after it are two steps. */
  datatype Writer =
    | Outside
    | Locked
    | BeginLoaded(s: nat)
    | Writing
    | EndLoaded(s: nat)
    | Ended
    | Dead

  /** A reader in SEQLOCK_READ: its snapshot of the counter, and the words copied so far. `start` is ghost in spirit. */
  datatype Reader = NotReading | Reading(snapshot: nat, start: nat, copied: map<nat, int>)

  /** A copy that read_end has accepted: the counts at read_begin and at read_end, and the words. */
  datatype Accepted = Accepted(start: nat, end: nat, copy: map<nat, int>)

  /**
   * `counter` is the 32-bit word; `total` counts the same increments without wrapping; `commits` are the records that
   * completed writes left, the initial one first; `crashed` says that a writer died between write_begin and write_end.
   */
  datatype State = State(counter: nat, total: nat, mem: seq<int>, commits: seq<seq<int>>, crashed: bool, mutex: Mutex,
                         writers: seq<Writer>, readers: seq<Reader>, accepted: seq<Accepted>)

  datatype Action =
    | Lock(i: nat) | LoadBegin(i: nat) | StoreBegin(i: nat) | Put(i: nat, k: nat, v: int)
    | LoadEnd(i: nat) | StoreEnd(i: nat) | Unlock(i: nat) | Crash(i: nat)
    | ReadBegin(r: nat) | Get(r: nat, k: nat) | ReadEnd(r: nat)

  predicate WriterAt(s: State, i: nat, pc: Writer) { i < |s.writers| && s.writers[i] == pc }

  predicate IsReading(s: State, r: nat) { r < |s.readers| && s.readers[r].Reading? }

  predicate Complete(s: State, copied: map<nat, int>) { forall k: nat :: k < |s.mem| ==> k in copied }

  /** read_begin spins on an odd counter; read_end comes when every word has been copied. */
  predicate Enabled(s: State, a: Action) {
    match a
    case Lock(i) => WriterAt(s, i, Outside) && !s.mutex.Held?
    case LoadBegin(i) => WriterAt(s, i, Locked)
    case StoreBegin(i) => i < |s.writers| && s.writers[i].BeginLoaded?
    case Put(i, k, v) => WriterAt(s, i, Writing) && k < |s.mem|
    case LoadEnd(i) => WriterAt(s, i, Writing)
    case StoreEnd(i) => i < |s.writers| && s.writers[i].EndLoaded?
    case Unlock(i) => WriterAt(s, i, Ended)
    case Crash(i) => i < |s.writers| && s.writers[i] != Dead
    case ReadBegin(r) => r < |s.readers| && s.readers[r] == NotReading && s.counter % 2 == 0
    case Get(r, k) => IsReading(s, r) && k < |s.mem|
    case ReadEnd(r) => IsReading(s, r) && Complete(s, s.readers[r].copied)
  }

  function At(s: State, i: nat, pc: Writer): State
    requires i < |s.writers|
  {
    s.(writers := s.writers[i := pc])
  }

  function ReaderAt(s: State, r: nat, pc: Reader): State
    requires r < |s.readers|
  {
    s.(readers := s.readers[r := pc])
  }

  predicate InsideWrite(pc: Writer) { pc.Writing? || pc.EndLoaded? }

  function Apply(s: State, a: Action): State
    requires Enabled(s, a)
  {
    match a
    case Lock(i) => At(s, i, Locked).(mutex := Held(i))
    case LoadBegin(i) => At(s, i, BeginLoaded(s.counter))
    case StoreBegin(i) => At(s, i, Writing).(counter := Inc(s.writers[i].s), total := s.total + 1)
    case Put(i, k, v) => s.(mem := s.mem[k := v])
    case LoadEnd(i) => At(s, i, EndLoaded(s.counter))
    case StoreEnd(i) => At(s, i, Ended).(counter := Inc(s.writers[i].s), total := s.total + 1, commits := s.commits + [s.mem])
    case Unlock(i) => At(s, i, Outside).(mutex := Unlocked)
    case Crash(i) =>
      At(s, i, Dead).(mutex := if s.mutex == Held(i) then OwnerDead else s.mutex, crashed := s.crashed || InsideWrite(s.writers[i]))
    case ReadBegin(r) => ReaderAt(s, r, Reading(s.counter, s.total, map[]))
    case Get(r, k) =>
      var rd := s.readers[r];
      ReaderAt(s, r, Reading(rd.snapshot, rd.start, rd.copied[k := s.mem[k]]))
    case ReadEnd(r) =>
      var rd := s.readers[r];
      if s.counter == rd.snapshot
      then ReaderAt(s, r, NotReading).(accepted := s.accepted + [Accepted(rd.start, s.total, rd.copied)])
      else ReaderAt(s, r, NotReading)
  }

  /** All actions of the list can be taken, one after the other. */
  predicate Feasible(s: State, acts: seq<Action>)
    decreases |acts|
  {
    acts == [] || (Enabled(s, acts[0]) && Feasible(Apply(s, acts[0]), acts[1..]))
  }

  function Exec(s: State, acts: seq<Action>): State
    requires Feasible(s, acts)
    decreases |acts|
  {
    if acts == [] then s else Exec(Apply(s, acts[0]), acts[1..])
  }

  /** A new segment: counter 0, nobody inside. */
  predicate Initial(s: State) {
    && s.counter == 0 && s.total == 0 && s.commits == [s.mem] && !s.crashed && s.mutex == Unlocked
    && (forall i :: 0 <= i < |s.writers| ==> s.writers[i] == Outside)
    && (forall r :: 0 <= r < |s.readers| ==> s.readers[r] == NotReading)
    && s.accepted == []
  }

  // ---------------------------------------------------------------- the invariant

  predicate Active(pc: Writer) { !pc.Outside? && !pc.Dead? }

  /** Only the holder of the mutex is inside the guard, and what it has loaded is still current. */
  predicate WriterOk(s: State, i: nat)
    requires i < |s.writers|
  {
    && (Active(s.writers[i]) <==> s.mutex == Held(i))
    && (s.writers[i].BeginLoaded? || s.writers[i].EndLoaded? ==> s.writers[i].s == s.counter)
    && (Active(s.writers[i]) ==> (InsideWrite(s.writers[i]) <==> s.total % 2 == 1))
  }

  /** Between writes memory holds the last commit. */
  predicate MemoryOk(s: State) {
    && s.counter == s.total % WRAP && |s.commits| == s.total / 2 + 1
    && (s.total % 2 == 0 ==> s.mem == s.commits[s.total / 2])
    && (s.total % 2 == 1 ==> s.mutex.Held?) && (s.mutex.Held? ==> s.mutex.owner < |s.writers|)
    && (forall c :: 0 <= c < |s.commits| ==> |s.commits[c]| == |s.mem|)
  }

  predicate CopyOf(record: seq<int>, copied: map<nat, int>) { forall k :: k in copied ==> k < |record| && copied[k] == record[k] }

  /** As long as no increment has happened since read_begin, the words copied are those of the version then current. */
  predicate ReaderOk(s: State, rd: Reader)
    requires MemoryOk(s)
  {
    rd.Reading? ==>
      && rd.start <= s.total && rd.start % 2 == 0 && rd.snapshot == rd.start % WRAP
      && (rd.start == s.total ==> CopyOf(s.commits[rd.start / 2], rd.copied))
  }

  /** How many writes completed between two counts, the first of them even. */
  function Completed(start: nat, end: nat): int { end / 2 - start / 2 }

  /** The copy is exactly one committed version: the one that was current at read_begin. */
  predicate Untorn(commits: seq<seq<int>>, a: Accepted) {
    && a.start / 2 < |commits| && CopyOf(commits[a.start / 2], a.copy)
    && forall k: nat :: k < |commits[a.start / 2]| ==> k in a.copy
  }

  predicate AcceptedOk(s: State, a: Accepted) {
    a.start <= a.end <= s.total && (Completed(a.start, a.end) < 0x8000_0000 ==> Untorn(s.commits, a))
  }

  predicate Inv(s: State) {
    && MemoryOk(s)
    && (forall i: nat :: i < |s.writers| ==> WriterOk(s, i))
    && (forall r :: 0 <= r < |s.readers| ==> ReaderOk(s, s.readers[r]))
    && (forall a :: a in s.accepted ==> AcceptedOk(s, a))
  }

  // ---------------------------------------------------------------- safety

  lemma CounterIsBack(start: nat, total: nat)
    requires start <= total && start % 2 == 0
    ensures total % WRAP == start % WRAP <==> total % 2 == 0 && Completed(start, total) % 0x8000_0000 == 0
  {
    SameModWrap(total, start);
    if total % 2 == 0 {
      assert total - start == 2 * Completed(start, total);
      HalfMod(Completed(start, total));
    } else {
      OddNotMultiple(total - start);
    }
  }

  /** Under the wrapped counter read_end accepts exactly when a multiple of 2^31 writes has completed and none is under way. */
  lemma AcceptsIff(s: State, rd: Reader)
    requires MemoryOk(s) && rd.Reading? && ReaderOk(s, rd)
    ensures s.counter == rd.snapshot <==> s.total % 2 == 0 && Completed(rd.start, s.total) % 0x8000_0000 == 0
  {
    hide Completed;
    CounterIsBack(rd.start, s.total);
  }

  lemma SameModWrap(a: nat, b: nat)
    requires a >= b
    ensures a % WRAP == b % WRAP <==> (a - b) % WRAP == 0
  {
  }

  lemma HalfMod(h: nat)
    ensures (2 * h) % WRAP == 0 <==> h % 0x8000_0000 == 0
  {
  }

  lemma OddNotMultiple(d: nat)
    requires d % 2 == 1
    ensures d % WRAP != 0
  {
  }

  /** The total's parity turns with every increment. */
  lemma StoreWriterOk(s: State, a: Action, i: nat, j: nat)
    requires (a == StoreBegin(j) || a == StoreEnd(j)) && Enabled(s, a) && i < |s.writers| && WriterOk(s, i) && WriterOk(s, j)
    ensures WriterOk(Apply(s, a), i)
  {
    hide Inc;
    var t := Apply(s, a);
    assert t.total == s.total + 1 && t.mutex == s.mutex == Held(j);
    if i == j {
      assert InsideWrite(t.writers[i]) <==> !InsideWrite(s.writers[i]);
    } else {
      assert t.writers[i] == s.writers[i] && !Active(s.writers[i]);
    }
  }

  lemma WriterStepOk(s: State, a: Action, i: nat)
    requires Inv(s) && Enabled(s, a) && i < |s.writers|
    ensures var t := Apply(s, a); |t.writers| == |s.writers| && WriterOk(t, i)
  {
    assert s.total % 2 == 1 ==> s.mutex.Held?;
    hide MemoryOk, ReaderOk, AcceptedOk, Inc;
    assert WriterOk(s, i);
    match a
    case Lock(j) => assert WriterOk(s, j);
    case LoadBegin(j) => assert WriterOk(s, j);
    case StoreBegin(j) => assert WriterOk(s, j); StoreWriterOk(s, a, i, j);
    case Put(j, k, v) =>
    case LoadEnd(j) => assert WriterOk(s, j);
    case StoreEnd(j) => assert WriterOk(s, j); StoreWriterOk(s, a, i, j);
    case Unlock(j) => assert WriterOk(s, j);
    case Crash(j) => assert WriterOk(s, j);
    case _ =>
  }

  lemma StoreBeginMemoryOk(s: State, i: nat)
    requires MemoryOk(s) && Enabled(s, StoreBegin(i)) && WriterOk(s, i)
    ensures MemoryOk(Apply(s, StoreBegin(i)))
  {
    hide Inc;
    NextCount(s.total);
  }

  lemma StoreEndMemoryOk(s: State, i: nat)
    requires MemoryOk(s) && Enabled(s, StoreEnd(i)) && WriterOk(s, i)
    ensures MemoryOk(Apply(s, StoreEnd(i)))
  {
    hide Inc;
    NextCount(s.total);
  }

  /** The wrapped counter follows the total; every second increment completes a write. */
  lemma NextCount(total: nat)
    ensures Inc(total % WRAP) == (total + 1) % WRAP
    ensures (total + 1) / 2 == total / 2 + total % 2 && (total + 1) % 2 == 1 - total % 2
  {
  }

  lemma MemoryStepOk(s: State, a: Action)
    requires Inv(s) && Enabled(s, a) && !Apply(s, a).crashed
    ensures MemoryOk(Apply(s, a))
  {
    hide MemoryOk, ReaderOk, AcceptedOk;
    match a
    case StoreBegin(j) => assert WriterOk(s, j); StoreBeginMemoryOk(s, j);
    case StoreEnd(j) => assert WriterOk(s, j); StoreEndMemoryOk(s, j);
    case _ => OtherMemoryOk(s, a);
  }

  lemma OtherMemoryOk(s: State, a: Action)
    requires Inv(s) && Enabled(s, a) && !Apply(s, a).crashed && !a.StoreBegin? && !a.StoreEnd?
    ensures MemoryOk(Apply(s, a))
  {
    match a
    case Lock(j) => assert WriterOk(s, j);
    case Put(j, k, v) => assert WriterOk(s, j);
    case Unlock(j) => assert WriterOk(s, j);
    case Crash(j) => assert WriterOk(s, j);
    case _ =>
  }

  lemma ReaderStepOk(s: State, a: Action, r: nat)
    requires Inv(s) && Enabled(s, a) && MemoryOk(Apply(s, a)) && r < |s.readers|
    ensures var t := Apply(s, a); |t.readers| == |s.readers| && ReaderOk(t, t.readers[r])
  {
    assert ReaderOk(s, s.readers[r]);
    match a
    case Put(j, k, v) => assert WriterOk(s, j);
    case ReadBegin(q) => HalfEven(s.total);
    case _ =>
  }

  lemma HalfEven(n: nat)
    requires (n % WRAP) % 2 == 0
    ensures n % 2 == 0
  {
  }

  lemma AcceptedStepOk(s: State, a: Action, x: Accepted)
    requires Inv(s) && Enabled(s, a) && x in Apply(s, a).accepted
    ensures AcceptedOk(Apply(s, a), x)
  {
    if x in s.accepted {
      assert AcceptedOk(s, x);
    } else {
      var rd := s.readers[a.r];
      assert ReaderOk(s, rd);
      AcceptsIff(s, rd);
      if Completed(rd.start, s.total) < 0x8000_0000 {
        assert Completed(rd.start, s.total) == 0;
        assert rd.start == s.total;
      }
    }
  }

  lemma StepKeepsInv(s: State, a: Action)
    requires Inv(s) && Enabled(s, a) && !Apply(s, a).crashed
    ensures Inv(Apply(s, a))
  {
    hide MemoryOk, WriterOk, ReaderOk, AcceptedOk;
    var t := Apply(s, a);
    MemoryStepOk(s, a);
    WritersKept(s, a);
    forall i: nat | i < |t.writers| ensures WriterOk(t, i) { WriterStepOk(s, a, i); }
    forall r | 0 <= r < |t.readers| ensures ReaderOk(t, t.readers[r]) { ReaderStepOk(s, a, r); }
    forall x | x in t.accepted ensures AcceptedOk(t, x) { AcceptedStepOk(s, a, x); }
  }

  lemma WritersKept(s: State, a: Action)
    requires Enabled(s, a)
    ensures var t := Apply(s, a); |t.writers| == |s.writers| && |t.readers| == |s.readers| && (s.crashed ==> t.crashed)
  {
  }

  lemma {:induction false} CrashIsForever(s: State, acts: seq<Action>)
    requires Feasible(s, acts) && s.crashed
    ensures Exec(s, acts).crashed
    decreases |acts|
  {
    if acts != [] {
      WritersKept(s, acts[0]);
      CrashIsForever(Apply(s, acts[0]), acts[1..]);
    }
  }

  lemma {:induction false} RunsKeepInv(s: State, acts: seq<Action>)
    requires Inv(s) && Feasible(s, acts) && !Exec(s, acts).crashed
    ensures Inv(Exec(s, acts))
    decreases |acts|
  {
    hide Inv, Enabled, Apply;
    if acts != [] {
      var t := Apply(s, acts[0]);
      if t.crashed { CrashIsForever(t, acts[1..]); }
      StepKeepsInv(s, acts[0]);
      RunsKeepInv(t, acts[1..]);
    }
  }

  /**
   * In every run in which no writer dies between write_begin and write_end, writers dying elsewhere or not: a copy that
   * read_end accepts is the committed version that was current at read_begin, unless 2^31 or more writes completed meanwhile.
   */
  lemma NoTornReads(s: State, acts: seq<Action>, a: Accepted)
    requires Initial(s) && Feasible(s, acts) && !Exec(s, acts).crashed && a in Exec(s, acts).accepted
    ensures Completed(a.start, a.end) < 0x8000_0000 ==> Untorn(Exec(s, acts).commits, a)
  {
    RunsKeepInv(s, acts);
    assert AcceptedOk(Exec(s, acts), a);
  }

  /** Exactly the holder of the mutex is inside the guard; deaths of any kind leave that alone. */
  predicate MutexOk(s: State) {
    && (s.mutex.Held? ==> s.mutex.owner < |s.writers|)
    && forall i: nat :: i < |s.writers| ==> (Active(s.writers[i]) <==> s.mutex == Held(i))
  }

  lemma StepKeepsMutex(s: State, a: Action)
    requires MutexOk(s) && Enabled(s, a)
    ensures MutexOk(Apply(s, a))
  {
    hide Inc;
  }

  lemma {:induction false} RunsKeepMutex(s: State, acts: seq<Action>)
    requires MutexOk(s) && Feasible(s, acts)
    ensures MutexOk(Exec(s, acts))
    decreases |acts|
  {
    hide MutexOk, Enabled, Apply;
    if acts != [] {
      StepKeepsMutex(s, acts[0]);
      RunsKeepMutex(Apply(s, acts[0]), acts[1..]);
    }
  }

  /**
   * In every run, whoever dies wherever: two writers are never inside the guard together, and when none is, any writer can enter.
   */
  lemma WritersExclude(s: State, acts: seq<Action>, i: nat, j: nat)
    requires Initial(s) && Feasible(s, acts) && i < |s.writers| && j < |s.writers|
    ensures var t := Exec(s, acts);
            && |t.writers| == |s.writers|
            && (Active(t.writers[i]) && Active(t.writers[j]) ==> i == j)
            && (t.writers[i].Outside? && (forall k :: 0 <= k < |t.writers| ==> !Active(t.writers[k])) ==> Enabled(t, Lock(i)))
  {
    RunsKeepMutex(s, acts);
    WriterCount(s, acts);
  }

  lemma {:induction false} WriterCount(s: State, acts: seq<Action>)
    requires Feasible(s, acts)
    ensures |Exec(s, acts).writers| == |s.writers|
    decreases |acts|
  {
    if acts != [] {
      WritersKept(s, acts[0]);
      WriterCount(Apply(s, acts[0]), acts[1..]);
    }
  }

  // ---------------------------------------------------------------- the counter of the class

  lemma TwoSteps(s: State, a: Action, b: Action)
    requires Enabled(s, a) && Enabled(Apply(s, a), b)
    ensures Feasible(s, [a, b]) && Exec(s, [a, b]) == Apply(Apply(s, a), b)
  {
    assert [a, b][1..] == [b] && [b][1..] == [];
    assert Feasible(Apply(Apply(s, a), b), []) && Feasible(Apply(s, a), [b]);
    assert Exec(Apply(s, a), [b]) == Exec(Apply(Apply(s, a), b), []);
  }

  /**
   * The load and the store of write_begin together are SeqCounter.WriteBegin and leave the counter odd; those of write_end are
   * SeqCounter.WriteEnd and leave it even; and read_begin goes on exactly when SeqCounter.TryReadBegin gives its snapshot.
   */
  lemma StepsAreCounterCalls(s: State, i: nat, r: nat)
    requires Inv(s)
    ensures WriterAt(s, i, Locked) ==>
              && Feasible(s, [LoadBegin(i), StoreBegin(i)])
              && var t := Exec(s, [LoadBegin(i), StoreBegin(i)]);
                 t.counter == Inc(s.counter) && t.counter % 2 == 1 && WriterAt(t, i, Writing) && t.mem == s.mem
    ensures WriterAt(s, i, Writing) ==>
              && Feasible(s, [LoadEnd(i), StoreEnd(i)])
              && var t := Exec(s, [LoadEnd(i), StoreEnd(i)]);
                 t.counter == Inc(s.counter) && t.counter % 2 == 0 && WriterAt(t, i, Ended) && t.commits == s.commits + [s.mem]
    ensures r < |s.readers| && s.readers[r] == NotReading ==>
              (Enabled(s, ReadBegin(r)) <==> s.counter % 2 == 0)
              && (s.counter % 2 == 0 ==> Apply(s, ReadBegin(r)).readers[r] == Reading(s.counter, s.total, map[]))
  {
    if WriterAt(s, i, Locked) {
      assert WriterOk(s, i);
      TwoSteps(s, LoadBegin(i), StoreBegin(i));
      Parity(s.total);
    }
    if WriterAt(s, i, Writing) {
      assert WriterOk(s, i);
      TwoSteps(s, LoadEnd(i), StoreEnd(i));
      Parity(s.total);
    }
  }

  lemma Parity(total: nat)
    ensures Inc(total % WRAP) % 2 == 1 <==> total % 2 == 0
  {
    hide Inc;
    IncFlips(total % WRAP);
    LowBit(total);
  }

  // ---------------------------------------------------------------- the two exceptions

  ghost predicate NoVersion(commits: seq<seq<int>>, a: Accepted) { forall c :: 0 <= c < |commits| ==> !CopyOf(commits[c], a.copy) }

  /** acts can be taken from s0 and leads to t. */
  ghost predicate Leads(s0: State, acts: seq<Action>, t: State) { Feasible(s0, acts) && Exec(s0, acts) == t }

  lemma OneStep(s: State, a: Action)
    requires Enabled(s, a)
    ensures Leads(s, [a], Apply(s, a))
  {
    assert [a][1..] == [] && Feasible(Apply(s, a), []);
    assert Exec(Apply(s, a), []) == Apply(s, a);
  }

  lemma {:induction false} Then(s0: State, acts: seq<Action>, t: State, a: Action)
    requires Leads(s0, acts, t) && Enabled(t, a)
    ensures Leads(s0, acts + [a], Apply(t, a))
    decreases |acts|
  {
    hide Apply, Enabled;
    if acts == [] {
      assert [] + [a] == [a];
      OneStep(s0, a);
    } else {
      assert (acts + [a])[0] == acts[0] && (acts + [a])[1..] == acts[1..] + [a];
      Then(Apply(s0, acts[0]), acts[1..], t, a);
    }
  }

  /** Two words, so that a write takes two stores; w writers and one reader. */
  function TwoWords(w: nat): (s: State)
    ensures Initial(s)
  {
    State(0, 0, [0, 0], [[0, 0]], false, Unlocked, seq(w, _ => Outside), [NotReading], [])
  }

  /** Writer i enters the guard and stores v into the first word. */
  lemma StartWrite(s0: State, acts: seq<Action>, s: State, i: nat, v: int) returns (acts': seq<Action>)
    requires Leads(s0, acts, s) && WriterAt(s, i, Outside) && !s.mutex.Held? && |s.mem| == 2
    ensures Leads(s0, acts', s.(writers := s.writers[i := Writing], mutex := Held(i), counter := Inc(s.counter), total := s.total + 1,
                                mem := [v, s.mem[1]]))
  {
    hide Leads, Inc;
    Then(s0, acts, s, Lock(i));
    var s1 := s.(writers := s.writers[i := Locked], mutex := Held(i));
    assert Apply(s, Lock(i)) == s1;
    Then(s0, acts + [Lock(i)], s1, LoadBegin(i));
    var s2 := s1.(writers := s.writers[i := BeginLoaded(s.counter)]);
    assert Apply(s1, LoadBegin(i)) == s2;
    acts' := acts + [Lock(i)] + [LoadBegin(i)];
    Then(s0, acts', s2, StoreBegin(i));
    var s3 := s2.(writers := s.writers[i := Writing], counter := Inc(s.counter), total := s.total + 1);
    assert Apply(s2, StoreBegin(i)) == s3;
    acts' := acts' + [StoreBegin(i)];
    Then(s0, acts', s3, Put(i, 0, v));
    assert s3.mem[0 := v] == [v, s.mem[1]];
    acts' := acts' + [Put(i, 0, v)];
  }

  /** Writer 0 dies inside its write; writer 1 takes over and starts its own: the counter is even with the record half written. */
  lemma EvenWhileWriting() returns (acts: seq<Action>)
    ensures Leads(TwoWords(2), acts, State(2, 2, [2, 0], [[0, 0]], true, Held(1), [Dead, Writing], [NotReading], []))
  {
    hide Leads;
    var s0 := TwoWords(2);
    Start(s0);
    acts := StartWrite(s0, [], s0, 0, 1);
    var s1 := State(1, 1, [1, 0], [[0, 0]], false, Held(0), [Writing, Outside], [NotReading], []);
    assert s0.writers[0 := Writing] == s1.writers;
    Then(s0, acts, s1, Crash(0));
    acts := acts + [Crash(0)];
    var s2 := s1.(crashed := true, mutex := OwnerDead, writers := [Dead, Outside]);
    assert Apply(s1, Crash(0)) == s2;
    acts := StartWrite(s0, acts, s2, 1, 2);
    assert s2.writers[1 := Writing] == [Dead, Writing];
  }

  lemma Start(s: State)
    ensures Leads(s, [], s)
  {
  }

  /** A whole read of both words while nobody else takes a step. */
  lemma ReadNow(s0: State, acts: seq<Action>, s: State) returns (acts': seq<Action>)
    requires Leads(s0, acts, s) && s.readers == [NotReading] && s.counter % 2 == 0 && |s.mem| == 2
    ensures Leads(s0, acts', s.(accepted := s.accepted + [Accepted(s.total, s.total, map[0 := s.mem[0], 1 := s.mem[1]])]))
  {
    hide Leads;
    Then(s0, acts, s, ReadBegin(0));
    acts' := acts + [ReadBegin(0)];
    var s1 := s.(readers := [Reading(s.counter, s.total, map[])]);
    assert Apply(s, ReadBegin(0)) == s1;
    Then(s0, acts', s1, Get(0, 0));
    acts' := acts' + [Get(0, 0)];
    var s2 := s.(readers := [Reading(s.counter, s.total, map[0 := s.mem[0]])]);
    assert Apply(s1, Get(0, 0)) == s2;
    acts' := FinishRead(s0, acts', s2);
  }

  /** The second word and read_end, with the counter back at the snapshot. */
  lemma FinishRead(s0: State, acts: seq<Action>, s: State) returns (acts': seq<Action>)
    requires Leads(s0, acts, s) && |s.readers| == 1 && s.readers[0].Reading? && s.readers[0].copied.Keys == {0}
    requires s.counter == s.readers[0].snapshot && |s.mem| == 2
    ensures var rd := s.readers[0];
            Leads(s0, acts', s.(readers := [NotReading],
                                accepted := s.accepted + [Accepted(rd.start, s.total, map[0 := rd.copied[0], 1 := s.mem[1]])]))
  {
    hide Leads;
    var rd := s.readers[0];
    Then(s0, acts, s, Get(0, 1));
    acts' := acts + [Get(0, 1)];
    var both := map[0 := rd.copied[0], 1 := s.mem[1]];
    assert rd.copied[1 := s.mem[1]] == both;
    var s1 := s.(readers := [Reading(rd.snapshot, rd.start, both)]);
    assert Apply(s, Get(0, 1)) == s1;
    Then(s0, acts', s1, ReadEnd(0));
    acts' := acts' + [ReadEnd(0)];
    assert Apply(s1, ReadEnd(0)) == s.(readers := [NotReading], accepted := s.accepted + [Accepted(rd.start, s.total, both)]);
  }

  /** Without the hypothesis on crashes the property fails: one death inside a write, and a reader accepts a torn copy. */
  lemma DeathInsideWriteTears() returns (acts: seq<Action>, a: Accepted)
    ensures Feasible(TwoWords(2), acts) && a in Exec(TwoWords(2), acts).accepted
    ensures Completed(a.start, a.end) == 0 && NoVersion(Exec(TwoWords(2), acts).commits, a)
  {
    var before := EvenWhileWriting();
    var s := State(2, 2, [2, 0], [[0, 0]], true, Held(1), [Dead, Writing], [NotReading], []);
    acts := ReadNow(TwoWords(2), before, s);
    a := Accepted(2, 2, map[0 := 2, 1 := 0]);
    assert Leads(TwoWords(2), acts, s.(accepted := [a]));
    assert a.copy[0] != [0, 0][0];
    assert !CopyOf([0, 0], a.copy);
  }

  // ---------------------------------------------------------------- the counter comes back

  /** A writer outside, the mutex free, and a counter that nobody has changed behind its back. */
  predicate Quiet(s: State) {
    s.writers == [Outside] && s.mutex == Unlocked && |s.mem| == 2 && s.total % 2 == 0 && s.counter == s.total % WRAP
  }

  function AfterWrites(s: State, n: nat): State {
    s.(counter := (s.total + 2 * n) % WRAP, total := s.total + 2 * n, mem := if n == 0 then s.mem else [1, 1],
       commits := s.commits + seq(n, _ => [1, 1]))
  }

  lemma OtherHalf(s0: State, acts: seq<Action>, s: State) returns (acts': seq<Action>)
    requires Leads(s0, acts, s) && s.writers == [Writing] && s.mutex == Held(0) && |s.mem| == 2 && s.mem[0] == 1
    ensures Leads(s0, acts', s.(writers := [Outside], mutex := Unlocked, counter := Inc(s.counter), total := s.total + 1, mem := [1, 1],
                                commits := s.commits + [[1, 1]]))
  {
    hide Leads, Inc;
    Then(s0, acts, s, Put(0, 1, 1));
    var s1 := s.(mem := [1, 1]);
    assert Apply(s, Put(0, 1, 1)) == s1;
    Then(s0, acts + [Put(0, 1, 1)], s1, LoadEnd(0));
    var s2 := s1.(writers := [EndLoaded(s.counter)]);
    assert Apply(s1, LoadEnd(0)) == s2;
    acts' := acts + [Put(0, 1, 1)] + [LoadEnd(0)];
    Then(s0, acts', s2, StoreEnd(0));
    var s3 := s2.(writers := [Ended], counter := Inc(s.counter), total := s.total + 1, commits := s.commits + [[1, 1]]);
    assert Apply(s2, StoreEnd(0)) == s3;
    acts' := acts' + [StoreEnd(0)];
    Then(s0, acts', s3, Unlock(0));
    acts' := acts' + [Unlock(0)];
    assert Apply(s3, Unlock(0)) == s3.(writers := [Outside], mutex := Unlocked);
  }

  lemma OneMoreWrite(s: State, n: nat)
    requires Quiet(s)
    ensures Quiet(AfterWrites(s, n)) && Inc(Inc(AfterWrites(s, n).counter)) == AfterWrites(s, n + 1).counter
    ensures AfterWrites(s, n).commits + [[1, 1]] == AfterWrites(s, n + 1).commits
  {
    hide Inc;
    TwoIncs(s.total + 2 * n);
  }

  lemma TwoIncs(total: nat)
    ensures Inc(Inc(total % WRAP)) == (total + 2) % WRAP
  {
  }

  /** n whole writes that store 1 into both words. */
  lemma {:induction false} ManyWrites(s0: State, acts: seq<Action>, s: State, n: nat) returns (acts': seq<Action>)
    requires Leads(s0, acts, s) && Quiet(s)
    ensures Leads(s0, acts', AfterWrites(s, n))
  {
    hide Leads, Inc;
    if n == 0 {
      acts' := acts;
      assert s.commits + seq(0, _ => [1, 1]) == s.commits;
      assert AfterWrites(s, 0) == s;
    } else {
      acts' := ManyWrites(s0, acts, s, n - 1);
      OneMoreWrite(s, n - 1);
      var t := AfterWrites(s, n - 1);
      acts' := StartWrite(s0, acts', t, 0, 1);
      var u := t.(writers := [Writing], mutex := Held(0), counter := Inc(t.counter), total := t.total + 1, mem := [1, t.mem[1]]);
      assert t.writers[0 := Writing] == [Writing];
      acts' := OtherHalf(s0, acts', u);
      assert AfterWrites(s, n) == u.(writers := [Outside], mutex := Unlocked, counter := Inc(u.counter), total := u.total + 1, mem := [1, 1],
                                     commits := u.commits + [[1, 1]]);
    }
  }

  lemma FirstWordRead() returns (acts: seq<Action>)
    ensures Leads(TwoWords(1), acts, TwoWords(1).(readers := [Reading(0, 0, map[0 := 0])]))
  {
    hide Leads;
    var s0 := TwoWords(1);
    Start(s0);
    Then(s0, [], s0, ReadBegin(0));
    var s1 := s0.(readers := [Reading(0, 0, map[])]);
    assert Apply(s0, ReadBegin(0)) == s1;
    Then(s0, [] + [ReadBegin(0)], s1, Get(0, 0));
    acts := [] + [ReadBegin(0)] + [Get(0, 0)];
    assert Apply(s1, Get(0, 0)) == s0.(readers := [Reading(0, 0, map[0 := 0])]);
  }

  /** The bound is sharp: with exactly 2^31 writes during one read the counter is back, and a torn copy is accepted without any crash. */
  lemma WrappedCounterTears() returns (acts: seq<Action>, a: Accepted)
    ensures Feasible(TwoWords(1), acts) && !Exec(TwoWords(1), acts).crashed && a in Exec(TwoWords(1), acts).accepted
    ensures Completed(a.start, a.end) == 0x8000_0000 && NoVersion(Exec(TwoWords(1), acts).commits, a)
  {
    var s0 := TwoWords(1);
    var s1 := s0.(readers := [Reading(0, 0, map[0 := 0])]);
    var begun := FirstWordRead();
    assert s1.writers == [Outside];
    var written := ManyWrites(s0, begun, s1, 0x8000_0000);
    var s2 := AfterWrites(s1, 0x8000_0000);
    acts := FinishRead(s0, written, s2);
    a := Accepted(0, 0x1_0000_0000, map[0 := 0, 1 := 1]);
    var s3 := s2.(readers := [NotReading], accepted := [a]);
    assert Leads(s0, acts, s3);
    assert a.copy[0] == 0 && a.copy[1] == 1;
    forall c | 0 <= c < |s3.commits| ensures !CopyOf(s3.commits[c], a.copy) {
      assert s3.commits[c] == if c == 0 then [0, 0] else [1, 1];
    }
  }
}
