/** The SSH connection pool of ssh_toolkit/pool.go as a protocol of interleaved steps.

    Any number of goroutines run getSSHClient or DeleteSSHClient.  A goroutine is a
    program counter over the lock operations of the source: every acquisition is a step
    of its own, and the code between two lock operations is one step.  One pool lock
    guards the `clients` map; every entry carries its own lock, which its creator keeps
    while it dials, after it has given the pool lock back.
 */
module SshPool {
  import opened Wrappers

  /** What one goroutine does with one lock. */
  datatype Mode = Nothing | Reading | Writing

  /** A Go sync.RWMutex: who holds it. */
  datatype RWMutex = RWMutex(readers: set<nat>, writer: Option<nat>) {
    predicate Free() {
      readers == {} && writer == None
    }

    predicate Admits(mode: Mode) {
      match mode
      case Nothing => true
      case Reading => writer == None
      case Writing => Free()
    }

    function ModeOf(t: nat): Mode {
      if writer == Some(t) then Writing else if t in readers then Reading else Nothing
    }

    function RLock(t: nat): RWMutex { this.(readers := readers + {t}) }

    function RUnlock(t: nat): RWMutex { this.(readers := readers - {t}) }

    function Lock(t: nat): RWMutex { this.(writer := Some(t)) }

    function Unlock(): RWMutex { this.(writer := None) }
  }

  const UNLOCKED := RWMutex({}, None)

  /** An sshClient record.  `host` and `creator` say who allocated it and for what. */
  datatype Entry = Entry(host: string, creator: nat, client: Option<nat>, mutex: RWMutex)

  datatype Outcome = Connected(client: nat) | Failed | Deleted

  /** Program counters, named after the statement that runs next. */
  datatype Pc =
    | GetPoolRLock | GetLookup | GetEntryRLock(e: nat) | GetEntryRead(e: nat)
    | NewPoolRLock | NewLookup | NewEntryRLock(e: nat) | NewEntryRead(e: nat)
    | NewPoolLock | NewPublish | NewEntryLock(e: nat) | NewPoolUnlock(e: nat)
    | NewParseKey(e: nat) | NewDial(e: nat) | NewStore(e: nat, dialled: nat)
    | NewUnlock(e: nat, dialled: nat) | NewFailUnlock(e: nat)
    | DelPoolLock | DelLookup | DelEntryLock(e: nat) | DelClose(e: nat) | DelRemove
    | Done(outcome: Outcome)

  /** `failed` marks a goroutine whose DeleteSSHClient cleans up after its own failed dial. */
  datatype Thread = Thread(host: string, pc: Pc, failed: bool)

  /** `closed` are the entries whose client DeleteSSHClient has closed. */
  datatype State = State(
    clients: map<string, nat>,
    entries: seq<Entry>,
    mutex: RWMutex,
    threads: seq<Thread>,
    closed: set<nat>)

  /** What the environment answers to key parsing and to a dial. */
  datatype Answer = Accept(client: nat) | Refuse

  datatype LockId = PoolLock | EntryLock(e: nat)

  // ------------------------------------------------------------------
  // Which lock a program counter holds or waits for
  // ------------------------------------------------------------------

  function Holding(pc: Pc, l: LockId): Mode {
    match pc
    case GetLookup => if l.PoolLock? then Reading else Nothing
    case NewLookup => if l.PoolLock? then Reading else Nothing
    case GetEntryRead(e) => if l == EntryLock(e) then Reading else Nothing
    case NewEntryRead(e) => if l == EntryLock(e) then Reading else Nothing
    case NewPublish => if l.PoolLock? then Writing else Nothing
    case NewEntryLock(e) => if l.PoolLock? then Writing else Nothing
    case NewPoolUnlock(e) => if l.PoolLock? || l == EntryLock(e) then Writing else Nothing
    case NewParseKey(e) => if l == EntryLock(e) then Writing else Nothing
    case NewDial(e) => if l == EntryLock(e) then Writing else Nothing
    case NewStore(e, _) => if l == EntryLock(e) then Writing else Nothing
    case NewUnlock(e, _) => if l == EntryLock(e) then Writing else Nothing
    case NewFailUnlock(e) => if l == EntryLock(e) then Writing else Nothing
    case DelLookup => if l.PoolLock? then Writing else Nothing
    case DelEntryLock(e) => if l.PoolLock? then Writing else Nothing
    case DelClose(e) => if l.PoolLock? || l == EntryLock(e) then Writing else Nothing
    case DelRemove => if l.PoolLock? then Writing else Nothing
    case _ => Nothing
  }

  function Waiting(pc: Pc, l: LockId): Mode {
    match pc
    case GetPoolRLock => if l.PoolLock? then Reading else Nothing
    case NewPoolRLock => if l.PoolLock? then Reading else Nothing
    case GetEntryRLock(e) => if l == EntryLock(e) then Reading else Nothing
    case NewEntryRLock(e) => if l == EntryLock(e) then Reading else Nothing
    case NewPoolLock => if l.PoolLock? then Writing else Nothing
    case DelPoolLock => if l.PoolLock? then Writing else Nothing
    case NewEntryLock(e) => if l == EntryLock(e) then Writing else Nothing
    case DelEntryLock(e) => if l == EntryLock(e) then Writing else Nothing
    case _ => Nothing
  }

  /** Its owner is still on the way to storing a client in entry `e`. */
  predicate Creating(pc: Pc, e: nat) {
    (pc.NewEntryLock? || pc.NewPoolUnlock? || pc.NewParseKey? || pc.NewDial? || pc.NewStore? || pc.NewFailUnlock?) &&
        pc.e == e
  }

  function EntryOf(pc: Pc): Option<nat> {
    if pc.GetEntryRLock? || pc.GetEntryRead? || pc.NewEntryRLock? || pc.NewEntryRead? || pc.NewEntryLock?
       || pc.NewPoolUnlock? || pc.NewParseKey? || pc.NewDial? || pc.NewStore? || pc.NewUnlock? || pc.NewFailUnlock?
       || pc.DelEntryLock? || pc.DelClose?
    then Some(pc.e)
    else None
  }

  // ------------------------------------------------------------------
  // One step
  // ------------------------------------------------------------------

  ghost predicate EntryKnown(s: State, t: nat)
    requires t < |s.threads|
  {
    EntryOf(s.threads[t].pc).Some? ==> EntryOf(s.threads[t].pc).value < |s.entries|
  }

  predicate IsLock(s: State, l: LockId) {
    l.EntryLock? ==> l.e < |s.entries|
  }

  function LockAt(s: State, l: LockId): RWMutex
    requires IsLock(s, l)
  {
    match l
    case PoolLock => s.mutex
    case EntryLock(e) => s.entries[e].mutex
  }

  /** A waiting reader may enter whenever no writer holds the lock.  This admits at least
      every interleaving of Go's RWMutex, which also holds readers back behind a waiting writer. */
  ghost predicate Enabled(s: State, t: nat) {
    && t < |s.threads|
    && !s.threads[t].pc.Done?
    && EntryKnown(s, t)
    && forall l :: IsLock(s, l) ==> LockAt(s, l).Admits(Waiting(s.threads[t].pc, l))
  }

  /** The most pessimistic reading of RWMutex: a reader also waits behind any goroutine that
      merely waits for the write lock. */
  ghost predicate Ready(s: State, t: nat) {
    && Enabled(s, t)
    && forall l, u :: Waiting(s.threads[t].pc, l) == Reading && 0 <= u < |s.threads| ==>
        Waiting(s.threads[u].pc, l) != Writing
  }

  function Goto(s: State, t: nat, pc: Pc): State
    requires t < |s.threads|
  {
    s.(threads := s.threads[t := s.threads[t].(pc := pc)])
  }

  function WithMutex(s: State, e: nat, m: RWMutex): State
    requires e < |s.entries|
  {
    s.(entries := s.entries[e := s.entries[e].(mutex := m)])
  }

  /** What the code up to the next lock operation does to the pool. */
  function Effect(s: State, t: nat): State
    requires Enabled(s, t)
  {
    var th := s.threads[t];
    match th.pc
    // getSSHClient
    case GetPoolRLock => s.(mutex := s.mutex.RLock(t))
    case GetLookup => s.(mutex := s.mutex.RUnlock(t))
    case GetEntryRLock(e) => WithMutex(s, e, s.entries[e].mutex.RLock(t))
    case GetEntryRead(e) => WithMutex(s, e, s.entries[e].mutex.RUnlock(t))
    // newSSHClient
    case NewPoolRLock => s.(mutex := s.mutex.RLock(t))
    case NewLookup => s.(mutex := s.mutex.RUnlock(t))
    case NewEntryRLock(e) => WithMutex(s, e, s.entries[e].mutex.RLock(t))
    case NewEntryRead(e) => WithMutex(s, e, s.entries[e].mutex.RUnlock(t))
    case NewPoolLock => s.(mutex := s.mutex.Lock(t))
    case NewPublish => s.(entries := s.entries + [Entry(th.host, t, None, UNLOCKED)],
        clients := s.clients[th.host := |s.entries|])
    case NewEntryLock(e) => WithMutex(s, e, s.entries[e].mutex.Lock(t))
    case NewPoolUnlock(e) => s.(mutex := s.mutex.Unlock())
    case NewParseKey(e) => s
    case NewDial(e) => s
    case NewStore(e, c) => s.(entries := s.entries[e := s.entries[e].(client := Some(c))])
    case NewUnlock(e, c) => WithMutex(s, e, s.entries[e].mutex.Unlock())
    case NewFailUnlock(e) =>
      WithMutex(s, e, s.entries[e].mutex.Unlock()).(threads := s.threads[t := th.(failed := true)])
    // DeleteSSHClient
    case DelPoolLock => s.(mutex := s.mutex.Lock(t))
    case DelLookup => s
    case DelEntryLock(e) => WithMutex(s, e, s.entries[e].mutex.Lock(t))
    case DelClose(e) =>
      WithMutex(s, e, s.entries[e].mutex.Unlock())
      .(closed := if s.entries[e].client.Some? then s.closed + {e} else s.closed)
    case DelRemove => s.(clients := s.clients - {th.host}, mutex := s.mutex.Unlock())
  }

  /** Where that code ends up. */
  function Target(s: State, t: nat, a: Answer): Pc
    requires Enabled(s, t)
  {
    var th := s.threads[t];
    match th.pc
    // getSSHClient
    case GetPoolRLock => GetLookup
    case GetLookup => if th.host in s.clients then GetEntryRLock(s.clients[th.host]) else NewPoolRLock
    case GetEntryRLock(e) => GetEntryRead(e)
    case GetEntryRead(e) =>
      if s.entries[e].client.Some? then Done(Connected(s.entries[e].client.value)) else NewPoolRLock
    // newSSHClient
    case NewPoolRLock => NewLookup
    case NewLookup => if th.host in s.clients then NewEntryRLock(s.clients[th.host]) else NewPoolLock
    case NewEntryRLock(e) => NewEntryRead(e)
    case NewEntryRead(e) =>
      if s.entries[e].client.Some? then Done(Connected(s.entries[e].client.value)) else NewPoolLock
    case NewPoolLock => NewPublish
    case NewPublish => NewEntryLock(|s.entries|)
    case NewEntryLock(e) => NewPoolUnlock(e)
    case NewPoolUnlock(e) => NewParseKey(e)
    case NewParseKey(e) => if a.Accept? then NewDial(e) else NewFailUnlock(e)
    case NewDial(e) => if a.Accept? then NewStore(e, a.client) else NewFailUnlock(e)
    case NewStore(e, c) => NewUnlock(e, c)
    case NewUnlock(e, c) => Done(Connected(c))
    case NewFailUnlock(e) => DelPoolLock
    // DeleteSSHClient
    case DelPoolLock => DelLookup
    case DelLookup => if th.host in s.clients then DelEntryLock(s.clients[th.host]) else DelRemove
    case DelEntryLock(e) => DelClose(e)
    case DelClose(e) => DelRemove
    case DelRemove => Done(if th.failed then Failed else Deleted)
  }

  /** Goroutine `t` runs from its current lock operation to the next one. */
  function Next(s: State, t: nat, a: Answer): State
    requires Enabled(s, t)
  {
    Goto(Effect(s, t), t, Target(s, t, a))
  }

  // ------------------------------------------------------------------
  // The invariant
  // ------------------------------------------------------------------

  /** Lock `l` is held by exactly the goroutines whose program counters say so. */
  ghost predicate LockInv(s: State, l: LockId)
    requires IsLock(s, l)
  {
    var m := LockAt(s, l);
    && (forall t :: 0 <= t < |s.threads| ==> m.ModeOf(t) == Holding(s.threads[t].pc, l))
    && (forall t :: t in m.readers ==> t < |s.threads|)
    && (m.writer.Some? ==> m.readers == {} && m.writer.value < |s.threads|)
  }

  /** An entry without a client is still being created by its creator, or the creator failed. */
  ghost predicate EntryInv(s: State, e: nat)
    requires e < |s.entries|
  {
    var en := s.entries[e];
    && en.creator < |s.threads|
    && (forall t :: 0 <= t < |s.threads| && Creating(s.threads[t].pc, e) ==> t == en.creator && en.client == None)
    && (en.client == None ==> Creating(s.threads[en.creator].pc, e) || s.threads[en.creator].failed)
    && (s.threads[en.creator].pc == NewEntryLock(e) ==>
          forall t :: 0 <= t < |s.threads| && t != en.creator ==> EntryOf(s.threads[t].pc) != Some(e))
    && (e in s.closed ==> en.client.Some?)
  }

  /** What a goroutine's program counter promises about the entry it works on. */
  ghost predicate ThreadInv(s: State, t: nat)
    requires t < |s.threads|
  {
    var th := s.threads[t];
    && EntryKnown(s, t)
    && (EntryOf(th.pc).Some? ==> s.entries[EntryOf(th.pc).value].host == th.host)
    && (th.pc.DelEntryLock? || th.pc.DelClose? ==> th.host in s.clients && s.clients[th.host] == th.pc.e)
    && (th.failed ==>
          th.pc.DelPoolLock? || th.pc.DelLookup? || th.pc.DelEntryLock? || th.pc.DelClose? || th.pc.DelRemove? ||
          th.pc == Done(Failed))
  }

  /** A client that a goroutine returns is the one stored in an entry of its own host. */
  ghost predicate ClientInv(s: State, t: nat)
    requires t < |s.threads|
  {
    var th := s.threads[t];
    && (th.pc.NewUnlock? ==> th.pc.e < |s.entries| && s.entries[th.pc.e].client == Some(th.pc.dialled))
    && (th.pc.Done? && th.pc.outcome.Connected? ==>
          exists e :: 0 <= e < |s.entries| && s.entries[e].host == th.host &&
              s.entries[e].client == Some(th.pc.outcome.client))
  }

  /** `h` maps to an entry made for `h`, whose client is open unless it is just being removed. */
  ghost predicate MapInv(s: State, h: string)
    requires h in s.clients
  {
    && s.clients[h] < |s.entries| && s.entries[s.clients[h]].host == h
    && (s.clients[h] in s.closed ==>
          s.mutex.writer.Some? && s.mutex.writer.value < |s.threads|
          && s.threads[s.mutex.writer.value].pc == DelRemove && s.threads[s.mutex.writer.value].host == h)
  }

  ghost predicate Inv(s: State) {
    && (forall l :: IsLock(s, l) ==> LockInv(s, l))
    && (forall e :: 0 <= e < |s.entries| ==> EntryInv(s, e))
    && (forall t :: 0 <= t < |s.threads| ==> ThreadInv(s, t) && ClientInv(s, t))
    && (forall h :: h in s.clients ==> MapInv(s, h))
    && (forall e :: e in s.closed ==> e < |s.entries|)
  }

  /** Goroutines that are about to call getSSHClient or DeleteSSHClient, on an empty pool. */
  ghost predicate Init(s: State) {
    && s.clients == map[] && s.entries == [] && s.mutex == UNLOCKED && s.closed == {}
    && (forall t :: 0 <= t < |s.threads| ==>
          (s.threads[t].pc == GetPoolRLock || s.threads[t].pc == DelPoolLock) && !s.threads[t].failed)
  }

  lemma InitInv(s: State)
    requires Init(s)
    ensures Inv(s)
  {
  }

  /** The lock after a step is the old one with the goroutine's new mode. */
  ghost predicate Moved(m: RWMutex, m': RWMutex, t: nat, mode: Mode) {
    match mode
    case Nothing => m' == RWMutex(m.readers - {t}, if m.writer == Some(t) then None else m.writer)
    case Reading => if m.ModeOf(t) == Reading then m' == m else m.writer == None && m' == m.RLock(t)
    case Writing => if m.ModeOf(t) == Writing then m' == m else m.Free() && m' == m.Lock(t)
  }

  predicate LooksUp(pc: Pc) {
    || pc.GetPoolRLock? || pc.GetLookup? || pc.GetEntryRLock? || pc.GetEntryRead?
    || pc.NewPoolRLock? || pc.NewLookup? || pc.NewEntryRLock? || pc.NewEntryRead?
  }

  lemma NextMoves(s: State, t: nat, a: Answer, l: LockId)
    requires Enabled(s, t) && IsLock(s, l) && LockInv(s, l)
    ensures |Next(s, t, a).threads| == |s.threads| && |Next(s, t, a).entries| >= |s.entries|
    ensures Moved(LockAt(s, l), LockAt(Next(s, t, a), l), t, Holding(Next(s, t, a).threads[t].pc, l))
  {
    var pc := s.threads[t].pc;
    assert LockAt(s, l).Admits(Waiting(pc, l)) && LockAt(s, l).ModeOf(t) == Holding(pc, l);
    hide Enabled, LockInv, Waiting;
    if LooksUp(pc) {
      LookupMoves(s, t, a, l);
    } else if Deleting(pc) {
      DeleteMoves(s, t, a, l);
    } else {
      CreateMoves(s, t, a, l);
    }
  }

  ghost predicate AtLock(s: State, t: nat, l: LockId) {
    && Enabled(s, t) && IsLock(s, l) && LockInv(s, l)
    && LockAt(s, l).Admits(Waiting(s.threads[t].pc, l)) && LockAt(s, l).ModeOf(t) == Holding(s.threads[t].pc, l)
  }

  lemma LookupMoves(s: State, t: nat, a: Answer, l: LockId)
    requires AtLock(s, t, l) && LooksUp(s.threads[t].pc)
    ensures |Next(s, t, a).threads| == |s.threads| && |Next(s, t, a).entries| >= |s.entries|
    ensures Moved(LockAt(s, l), LockAt(Next(s, t, a), l), t, Holding(Next(s, t, a).threads[t].pc, l))
  {
  }

  lemma CreateMoves(s: State, t: nat, a: Answer, l: LockId)
    requires AtLock(s, t, l) && !LooksUp(s.threads[t].pc) && !Deleting(s.threads[t].pc)
    ensures |Next(s, t, a).threads| == |s.threads| && |Next(s, t, a).entries| >= |s.entries|
    ensures Moved(LockAt(s, l), LockAt(Next(s, t, a), l), t, Holding(Next(s, t, a).threads[t].pc, l))
  {
  }

  lemma DeleteMoves(s: State, t: nat, a: Answer, l: LockId)
    requires AtLock(s, t, l) && Deleting(s.threads[t].pc)
    ensures |Next(s, t, a).threads| == |s.threads| && |Next(s, t, a).entries| >= |s.entries|
    ensures Moved(LockAt(s, l), LockAt(Next(s, t, a), l), t, Holding(Next(s, t, a).threads[t].pc, l))
  {
  }

  lemma NextFrame(s: State, t: nat, a: Answer)
    requires Enabled(s, t)
    ensures var s' := Next(s, t, a);
              |s'.threads| == |s.threads| &&
              (forall u :: 0 <= u < |s.threads| && u != t ==> s'.threads[u] == s.threads[u])
  {
  }

  lemma MovedInv(s: State, s': State, t: nat, l: LockId)
    requires IsLock(s, l) && IsLock(s', l) && LockInv(s, l) && |s'.threads| == |s.threads| && t < |s.threads|
    requires forall u :: 0 <= u < |s.threads| && u != t ==> s'.threads[u] == s.threads[u]
    requires Moved(LockAt(s, l), LockAt(s', l), t, Holding(s'.threads[t].pc, l))
    ensures LockInv(s', l)
  {
    var m, m' := LockAt(s, l), LockAt(s', l);
    forall u | 0 <= u < |s.threads| ensures m'.ModeOf(u) == Holding(s'.threads[u].pc, l) {
      assert m.ModeOf(u) == Holding(s.threads[u].pc, l);
    }
  }

  lemma NextLock(s: State, t: nat, a: Answer, l: LockId)
    requires Inv(s) && Enabled(s, t) && IsLock(Next(s, t, a), l)
    ensures LockInv(Next(s, t, a), l)
  {
    NextFrame(s, t, a);
    if IsLock(s, l) {
      NextMoves(s, t, a, l);
      MovedInv(s, Next(s, t, a), t, l);
    } else {
      forall u | 0 <= u < |s.threads| ensures Holding(Next(s, t, a).threads[u].pc, l) == Nothing {
        assert ThreadInv(s, u);
      }
    }
  }

  /** Entries keep their host, and the map changes only under the pool's write lock. */
  lemma NextMap0(s: State, t: nat, a: Answer)
    requires Enabled(s, t)
    ensures |Next(s, t, a).entries| >= |s.entries|
    ensures forall e :: 0 <= e < |s.entries| ==> Next(s, t, a).entries[e].host == s.entries[e].host
    ensures Holding(s.threads[t].pc, PoolLock) != Writing ==> Next(s, t, a).clients == s.clients
  {
  }

  lemma NextThread(s: State, t: nat, a: Answer, u: nat)
    requires Enabled(s, t) && u < |s.threads| && ThreadInv(s, u) && ThreadInv(s, t) && LockInv(s, PoolLock)
    requires forall h :: h in s.clients ==> s.clients[h] < |s.entries| && s.entries[s.clients[h]].host == h
    ensures |Next(s, t, a).threads| == |s.threads| && ThreadInv(Next(s, t, a), u)
  {
    assert s.mutex.ModeOf(u) == Holding(s.threads[u].pc, PoolLock) &&
             s.mutex.ModeOf(t) == Holding(s.threads[t].pc, PoolLock);
    if u != t {
      NextFrame(s, t, a);
      NextMap0(s, t, a);
      hide Effect, Target;
    } else {
      OwnThread(s, t, a);
    }
  }

  lemma OwnThread(s: State, t: nat, a: Answer)
    requires Enabled(s, t) && ThreadInv(s, t)
    requires forall h :: h in s.clients ==> s.clients[h] < |s.entries| && s.entries[s.clients[h]].host == h
    ensures |Next(s, t, a).threads| == |s.threads| && ThreadInv(Next(s, t, a), t)
  {
    if LooksUp(s.threads[t].pc) {
      OwnLookup(s, t, a);
    } else if Deleting(s.threads[t].pc) {
      OwnDeletion(s, t, a);
    } else {
      OwnCreation(s, t, a);
    }
  }

  lemma OwnLookup(s: State, t: nat, a: Answer)
    requires Enabled(s, t) && ThreadInv(s, t) && LooksUp(s.threads[t].pc)
    requires forall h :: h in s.clients ==> s.clients[h] < |s.entries| && s.entries[s.clients[h]].host == h
    ensures |Next(s, t, a).threads| == |s.threads| && ThreadInv(Next(s, t, a), t)
  {
    assert Next(s, t, a).threads[t].pc == Target(s, t, a);
  }

  lemma OwnDeletion(s: State, t: nat, a: Answer)
    requires Enabled(s, t) && ThreadInv(s, t) && Deleting(s.threads[t].pc)
    requires forall h :: h in s.clients ==> s.clients[h] < |s.entries| && s.entries[s.clients[h]].host == h
    ensures |Next(s, t, a).threads| == |s.threads| && ThreadInv(Next(s, t, a), t)
  {
    assert Next(s, t, a).threads[t].pc == Target(s, t, a);
  }

  lemma OwnCreation(s: State, t: nat, a: Answer)
    requires Enabled(s, t) && ThreadInv(s, t) && !LooksUp(s.threads[t].pc) && !Deleting(s.threads[t].pc)
    requires forall h :: h in s.clients ==> s.clients[h] < |s.entries| && s.entries[s.clients[h]].host == h
    ensures |Next(s, t, a).threads| == |s.threads| && ThreadInv(Next(s, t, a), t)
  {
    assert Next(s, t, a).threads[t].pc == Target(s, t, a);
  }

  /** The step stores a client only at NewStore, and closes one only where there is one. */
  lemma NextClient(s: State, t: nat, a: Answer, e: nat)
    requires Enabled(s, t) && e < |s.entries|
    ensures |Next(s, t, a).entries| >= |s.entries|
    ensures Next(s, t, a).entries[e].creator == s.entries[e].creator
    ensures Next(s, t, a).entries[e].host == s.entries[e].host
    ensures Next(s, t, a).entries[e].client ==
            if s.threads[t].pc.NewStore? &&
                s.threads[t].pc.e == e then Some(s.threads[t].pc.dialled) else s.entries[e].client
    ensures e in Next(s, t, a).closed && e !in s.closed ==> s.threads[t].pc == DelClose(e) && s.entries[e].client.Some?
    ensures s.closed <= Next(s, t, a).closed
  {
  }

  /** How a step moves the goroutine with respect to entry `e`. */
  lemma NextPc(s: State, t: nat, a: Answer, e: nat)
    requires Enabled(s, t) && e < |s.entries|
    ensures |Next(s, t, a).threads| == |s.threads|
    ensures var pc, th' := s.threads[t].pc, Next(s, t, a).threads[t];
            && (Creating(th'.pc, e) ==> Creating(pc, e) && !pc.NewStore?)
            && (Creating(pc, e) && !Creating(th'.pc, e) ==> pc.NewStore? || th'.failed)
            && (s.threads[t].failed ==> th'.failed)
            && th'.pc != NewEntryLock(e)
            && (EntryOf(th'.pc) == Some(e) && EntryOf(pc) != Some(e) ==>
                  Holding(pc, PoolLock) != Nothing && EntryOf(pc) == None)
  {
  }

  lemma NextEntry(s: State, t: nat, a: Answer, e: nat)
    requires Inv(s) && Enabled(s, t) && e < |s.entries|
    ensures |Next(s, t, a).entries| >= |s.entries| && EntryInv(Next(s, t, a), e)
  {
    NextFrame(s, t, a);
    NextClient(s, t, a, e);
    NextPc(s, t, a, e);
    assert EntryInv(s, e) && LockInv(s, PoolLock) && ThreadInv(s, t);
    var c := s.entries[e].creator;
    assert s.mutex.ModeOf(c) == Holding(s.threads[c].pc, PoolLock) &&
             s.mutex.ModeOf(t) == Holding(s.threads[t].pc, PoolLock);
  }

  lemma NextNewEntry(s: State, t: nat, a: Answer, e: nat)
    requires Inv(s) && Enabled(s, t) && |s.entries| <= e < |Next(s, t, a).entries|
    ensures EntryInv(Next(s, t, a), e)
  {
    NextFrame(s, t, a);
    forall u | 0 <= u < |s.threads| &&
        u != t ensures EntryOf(Next(s, t, a).threads[u].pc) != Some(e) { assert ThreadInv(s, u); }
  }

  lemma NextReturned(s: State, t: nat, a: Answer, u: nat)
    requires Enabled(s, t) && u < |s.threads| && ThreadInv(s, t) && ThreadInv(s, u) && ClientInv(s, t)
    requires ClientInv(s, u)
    requires forall e :: 0 <= e < |s.entries| ==> EntryInv(s, e)
    ensures |Next(s, t, a).threads| == |s.threads| && ClientInv(Next(s, t, a), u)
  {
    NextFrame(s, t, a);
    var s' := Next(s, t, a);
    forall e | 0 <= e < |s.entries| && s.entries[e].client.Some?
      ensures e < |s'.entries| && s'.entries[e].host == s.entries[e].host && s'.entries[e].client == s.entries[e].client
    {
      NextClient(s, t, a, e);
      assert EntryInv(s, e);
    }
  }

  lemma NextMap(s: State, t: nat, a: Answer, h: string)
    requires Enabled(s, t) && LockInv(s, PoolLock) && ThreadInv(s, t) && h in Next(s, t, a).clients
    requires h in s.clients ==> MapInv(s, h)
    requires forall e :: e in s.closed ==> e < |s.entries|
    ensures MapInv(Next(s, t, a), h)
  {
    NextFrame(s, t, a);
    assert s.mutex.ModeOf(t) == Holding(s.threads[t].pc, PoolLock);
  }

  lemma NextInv(s: State, t: nat, a: Answer)
    requires Inv(s) && Enabled(s, t)
    ensures Inv(Next(s, t, a))
  {
    var s' := Next(s, t, a);
    forall l | IsLock(s', l) ensures LockInv(s', l) { NextLock(s, t, a, l); }
    forall h | h in s.clients ensures s.clients[h] < |s.entries| &&
        s.entries[s.clients[h]].host == h { assert MapInv(s, h); }
    NextFrame(s, t, a);
    forall u | 0 <= u < |s'.threads| ensures ThreadInv(s', u) &&
        ClientInv(s', u) { NextThread(s, t, a, u); NextReturned(s, t, a, u); }
    forall e | 0 <= e < |s'.entries| ensures EntryInv(s', e) {
      if e < |s.entries| { NextEntry(s, t, a, e); } else { NextNewEntry(s, t, a, e); }
    }
    forall h | h in s'.clients ensures MapInv(s', h) {
      assert h in s.clients ==> MapInv(s, h);
      NextMap(s, t, a, h);
    }
  }

  // ------------------------------------------------------------------
  // Safety of every step
  // ------------------------------------------------------------------

  /** A client is set at most once, by the entry's creator, while it holds the entry's write
      lock; DeleteSSHClient never closes a client twice. */
  lemma ClientSetOnceByCreator(s: State, t: nat, a: Answer, e: nat)
    requires Inv(s) && Enabled(s, t) && e < |s.entries|
    ensures |s.entries| <= |Next(s, t, a).entries|
    ensures Next(s, t, a).entries[e].client != s.entries[e].client ==>
              s.entries[e].client == None && s.entries[e].creator == t && s.entries[e].mutex.writer == Some(t)
    ensures s.threads[t].pc == DelClose(e) ==> e !in s.closed
  {
    NextClient(s, t, a, e);
    assert EntryInv(s, e) && LockInv(s, EntryLock(e)) && ThreadInv(s, t) && LockInv(s, PoolLock);
    assert s.entries[e].mutex.ModeOf(t) == Holding(s.threads[t].pc, EntryLock(e));
    if s.threads[t].pc == DelClose(e) {
      assert s.mutex.ModeOf(t) == Writing;
      assert MapInv(s, s.threads[t].host);
    }
  }

  /** An entry that the map shows without a client: its creator still has it locked, or still
      has the whole pool locked, or has failed. */
  lemma VisibleWithoutClient(s: State, h: string)
    requires Inv(s) && h in s.clients && s.clients[h] < |s.entries| && s.entries[s.clients[h]].client == None
    ensures var en := s.entries[s.clients[h]];
            en.mutex.writer == Some(en.creator) || s.mutex.writer == Some(en.creator)
            || (en.creator < |s.threads| && s.threads[en.creator].failed)
  {
    var e := s.clients[h];
    var c := s.entries[e].creator;
    assert EntryInv(s, e) && LockInv(s, EntryLock(e)) && LockInv(s, PoolLock);
    assert s.mutex.ModeOf(c) == Holding(s.threads[c].pc, PoolLock);
    assert s.entries[e].mutex.ModeOf(c) == Holding(s.threads[c].pc, EntryLock(e));
  }

  /** A lookup never finds an entry whose client has been closed. */
  lemma LookupFindsOpenEntry(s: State, t: nat)
    requires Inv(s) && t < |s.threads| && (s.threads[t].pc.GetLookup? || s.threads[t].pc.NewLookup?)
    ensures s.threads[t].host in s.clients ==> s.clients[s.threads[t].host] !in s.closed
  {
    assert LockInv(s, PoolLock) && s.mutex.ModeOf(t) == Reading;
    if s.threads[t].host in s.clients {
      assert MapInv(s, s.threads[t].host);
    }
  }

  // ------------------------------------------------------------------
  // No deadlock
  // ------------------------------------------------------------------

  /** With the pool lock write-held, its holder can step, or the holder of the entry it waits for can. */
  lemma ProgressUnderWriter(s: State) returns (t: nat)
    requires Inv(s) && s.mutex.writer.Some?
    ensures Ready(s, t)
  {
    t := s.mutex.writer.value;
    assert LockInv(s, PoolLock);
    assert s.mutex.ModeOf(t) == Holding(s.threads[t].pc, PoolLock);
    assert ThreadInv(s, t);
    var pc := s.threads[t].pc;
    if pc.NewEntryLock? || pc.DelEntryLock? {
      var m := s.entries[pc.e].mutex;
      assert LockInv(s, EntryLock(pc.e));
      if m.writer.Some? {
        t := m.writer.value;
      } else if m.readers != {} {
        t :| t in m.readers;
      }
      assert m.ModeOf(t) == Holding(s.threads[t].pc, EntryLock(pc.e));
      assert s.mutex.ModeOf(t) == Holding(s.threads[t].pc, PoolLock);
      assert ThreadInv(s, t);
    }
  }

  /** A goroutine that waits for an entry can step, or the holder of the entry can. */
  lemma ProgressAtEntry(s: State, u: nat) returns (t: nat)
    requires Inv(s) && s.mutex.Free() && u < |s.threads|
    requires (s.threads[u].pc.GetEntryRLock? || s.threads[u].pc.NewEntryRLock?)
    ensures Ready(s, t)
  {
    assert ThreadInv(s, u) && LockInv(s, PoolLock);
    var e := s.threads[u].pc.e;
    var m := s.entries[e].mutex;
    assert LockInv(s, EntryLock(e));
    t := if m.writer.Some? then m.writer.value else u;
    assert ThreadInv(s, t);
    assert m.ModeOf(t) == Holding(s.threads[t].pc, EntryLock(e));
    forall v | 0 <= v < |s.threads| ensures forall l :: Waiting(s.threads[t].pc, l) == Reading ==>
        Waiting(s.threads[v].pc, l) != Writing {
      assert s.mutex.ModeOf(v) == Holding(s.threads[v].pc, PoolLock);
    }
  }

  /** Deadlock freedom: while some goroutine is unfinished, some goroutine can step, even when
      readers also queue behind waiting writers.  A running key parse or dial counts as a step. */
  lemma Progress(s: State, u: nat) returns (t: nat)
    requires Inv(s) && u < |s.threads| && !s.threads[u].pc.Done?
    ensures Ready(s, t)
  {
    assert LockInv(s, PoolLock);
    if s.mutex.writer.Some? {
      t := ProgressUnderWriter(s);
    } else if s.mutex.readers != {} {
      t :| t in s.mutex.readers;
      assert s.mutex.ModeOf(t) == Holding(s.threads[t].pc, PoolLock);
    } else if w :| 0 <= w < |s.threads| && Waiting(s.threads[w].pc, PoolLock) == Writing {
      t := w;
    } else {
      assert ThreadInv(s, u) && s.mutex.ModeOf(u) == Holding(s.threads[u].pc, PoolLock);
      if s.threads[u].pc.GetEntryRLock? || s.threads[u].pc.NewEntryRLock? {
        t := ProgressAtEntry(s, u);
      } else {
        t := u;
      }
    }
  }

  // ------------------------------------------------------------------
  // Whole runs
  // ------------------------------------------------------------------

  /** An upper bound on the steps a goroutine has left. */
  function Rank(pc: Pc): nat {
    match pc
    case GetPoolRLock => 22 case GetLookup => 21 case GetEntryRLock(_) => 20 case GetEntryRead(_) => 19
    case NewPoolRLock => 18 case NewLookup => 17 case NewEntryRLock(_) => 16 case NewEntryRead(_) => 15
    case NewPoolLock => 14 case NewPublish => 13 case NewEntryLock(_) => 12 case NewPoolUnlock(_) => 11
    case NewParseKey(_) => 10 case NewDial(_) => 9 case NewStore(_, _) => 2 case NewUnlock(_, _) => 1
    case NewFailUnlock(_) => 6 case DelPoolLock => 5 case DelLookup => 4 case DelEntryLock(_) => 3
    case DelClose(_) => 2 case DelRemove => 1 case Done(_) => 0
  }

  function TotalRank(threads: seq<Thread>): nat {
    if threads == [] then 0 else Rank(threads[0].pc) + TotalRank(threads[1..])
  }

  lemma {:induction false} RankUpdate(threads: seq<Thread>, t: nat, th: Thread)
    requires t < |threads|
    ensures TotalRank(threads[t := th]) == TotalRank(threads) - Rank(threads[t].pc) + Rank(th.pc)
  {
    if t == 0 {
      assert threads[t := th][1..] == threads[1..];
    } else {
      RankUpdate(threads[1..], t - 1, th);
      assert threads[t := th][1..] == threads[1..][t - 1 := th];
    }
  }

  lemma TargetRank(s: State, t: nat, a: Answer)
    requires Enabled(s, t)
    ensures Rank(Target(s, t, a)) < Rank(s.threads[t].pc)
  {
  }

  lemma NextRank(s: State, t: nat, a: Answer)
    requires Enabled(s, t)
    ensures TotalRank(Next(s, t, a).threads) < TotalRank(s.threads)
  {
    NextFrame(s, t, a);
    TargetRank(s, t, a);
    hide Effect, Target;
    var th := Next(s, t, a).threads[t];
    assert Next(s, t, a).threads == s.threads[t := th];
    RankUpdate(s.threads, t, th);
  }

  datatype Turn = Turn(t: nat, answer: Answer)

  ghost predicate Run(s: State, turns: seq<Turn>, s': State)
    decreases |turns|
  {
    if turns == [] then s' == s
    else Enabled(s, turns[0].t) && Run(Next(s, turns[0].t, turns[0].answer), turns[1..], s')
  }

  lemma {:induction false} RunInv(s: State, turns: seq<Turn>, s': State)
    requires Inv(s) && Run(s, turns, s')
    ensures Inv(s') && |turns| + TotalRank(s'.threads) <= TotalRank(s.threads) && |s'.threads| == |s.threads|
    decreases |turns|
  {
    hide Effect, Target;
    if turns != [] {
      NextInv(s, turns[0].t, turns[0].answer);
      NextFrame(s, turns[0].t, turns[0].answer);
      NextRank(s, turns[0].t, turns[0].answer);
      RunInv(Next(s, turns[0].t, turns[0].answer), turns[1..], s');
    }
  }

  /** Every interleaving ends after a bounded number of steps, and one that cannot go on has
      finished every call. */
  lemma EveryRunFinishes(s: State, turns: seq<Turn>, s': State)
    requires Inv(s) && Run(s, turns, s')
    ensures Inv(s') && |turns| <= TotalRank(s.threads)
    ensures (forall t :: !Ready(s', t)) ==> forall t :: 0 <= t < |s'.threads| ==> s'.threads[t].pc.Done?
  {
    RunInv(s, turns, s');
    if u :| 0 <= u < |s'.threads| && !s'.threads[u].pc.Done? {
      var t := Progress(s', u);
    }
  }

  /** A client that an entry has once received is there for good. */
  lemma {:induction false} ClientIsKept(s: State, turns: seq<Turn>, s': State, e: nat)
    requires Inv(s) && Run(s, turns, s') && e < |s.entries| && s.entries[e].client.Some?
    ensures e < |s'.entries| && s'.entries[e].client == s.entries[e].client
    decreases |turns|
  {
    hide Effect, Target;
    if turns != [] {
      NextInv(s, turns[0].t, turns[0].answer);
      ClientSetOnceByCreator(s, turns[0].t, turns[0].answer, e);
      ClientIsKept(Next(s, turns[0].t, turns[0].answer), turns[1..], s', e);
    }
  }

  /** What a finished getSSHClient returned is the client stored for its own host. */
  lemma ReturnsClientOfItsHost(s: State, turns: seq<Turn>, s': State, t: nat)
    requires Inv(s) && Run(s, turns, s') && t < |s'.threads| && s'.threads[t].pc.Done?
    requires s'.threads[t].pc.outcome.Connected?
    ensures exists e :: 0 <= e < |s'.entries| && s'.entries[e].host == s'.threads[t].host
                        && s'.entries[e].client == Some(s'.threads[t].pc.outcome.client)
  {
    RunInv(s, turns, s');
    assert ClientInv(s', t);
  }

  // ------------------------------------------------------------------
  // A stored client is used again
  // ------------------------------------------------------------------

  /** The client that goroutine `t` sees in its next step, when that step reads an entry. */
  function Seen(s: State, t: nat): Option<nat>
    requires Enabled(s, t)
  {
    var pc := s.threads[t].pc;
    if pc.GetEntryRead? || pc.NewEntryRead? then s.entries[pc.e].client else None
  }

  /** The first client that `t` sees in the run. */
  function SeenInRun(s: State, turns: seq<Turn>, s': State, t: nat): Option<nat>
    requires Run(s, turns, s')
    decreases |turns|
  {
    if turns == [] then None
    else
      var now := if turns[0].t == t then Seen(s, t) else None;
      if now.Some? then now else SeenInRun(Next(s, turns[0].t, turns[0].answer), turns[1..], s', t)
  }

  /** The call has not decided yet between a client that is there and one of its own. */
  ghost predicate Undecided(s: State, t: nat) {
    && t < |s.threads| && !s.threads[t].failed
    && (LooksUp(s.threads[t].pc) || s.threads[t].pc.NewPoolLock? || s.threads[t].pc.NewPublish?)
    && Made(s, t) == {}
  }

  /** The entries that `t` has made. */
  ghost function Made(s: State, t: nat): set<nat> {
    set e | 0 <= e < |s.entries| && s.entries[e].creator == t
  }

  /** The call makes, or has made, a client of its own, in the only entry that it ever makes. */
  ghost predicate Makes(s: State, t: nat) {
    && t < |s.threads|
    && exists e :: Made(s, t) == {e} && s.entries[e].host == s.threads[t].host && Owns(s, t, e)
  }

  predicate Owns(s: State, t: nat, e: nat)
    requires t < |s.threads| && e < |s.entries|
  {
    var pc := s.threads[t].pc;
    || Creating(pc, e)
    || (pc.NewUnlock? && pc.e == e && s.entries[e].client == Some(pc.dialled))
    || (pc.Done? && pc.outcome.Connected? && s.entries[e].client == Some(pc.outcome.client))
    || (s.threads[t].failed && Deleting(pc) && s.entries[e].client == None)
  }

  /** Reading an entry that has a client ends the call with this client; the pool keeps its map, its
      entries' clients and what is closed. */
  lemma SeenClientIsReturned(s: State, t: nat, a: Answer, e: nat, c: nat)
    requires Enabled(s, t) && (s.threads[t].pc == GetEntryRead(e) || s.threads[t].pc == NewEntryRead(e))
    requires e < |s.entries| && s.entries[e].client == Some(c)
    ensures var s' := Next(s, t, a);
            && t < |s'.threads| && s'.threads[t].pc == Done(Connected(c))
            && s'.clients == s.clients && s'.closed == s.closed && |s'.entries| == |s.entries|
            && forall i :: 0 <= i < |s.entries| ==> s'.entries[i].client == s.entries[i].client
  {
  }

  lemma OwnStepDecides(s: State, t: nat, a: Answer)
    requires Inv(s) && Enabled(s, t) && Undecided(s, t)
    ensures var s' := Next(s, t, a);
            if Seen(s, t).Some? then s'.threads[t].pc == Done(Connected(Seen(s, t).value)) && Made(s', t) == {}
            else Undecided(s', t) || Makes(s', t)
  {
    var s' := Next(s, t, a);
    NextMap0(s, t, a);
    if s.threads[t].pc.NewPublish? {
      var e := |s.entries|;
      assert Made(s', t) == {e} by {
        assert forall i :: 0 <= i < e ==> i !in Made(s, t);
      }
      assert Owns(s', t, e);
    } else {
      assert forall e :: 0 <= e < |s.entries| ==> s'.entries[e].creator == s.entries[e].creator;
      assert Made(s', t) == Made(s, t);
    }
  }

  /** The creator of an entry is the goroutine that publishes it, for good. */
  lemma NextMade(s: State, u: nat, a: Answer, t: nat)
    requires Enabled(s, u)
    ensures Made(s, t) <= Made(Next(s, u, a), t)
    ensures t != u || !s.threads[u].pc.NewPublish? ==> Made(Next(s, u, a), t) == Made(s, t)
    ensures forall e: nat :: e in Made(s, t) ==> Next(s, u, a).entries[e].host == s.entries[e].host
  {
    var s' := Next(s, u, a);
    assert forall e :: 0 <= e < |s.entries| ==>
        s'.entries[e].creator == s.entries[e].creator && s'.entries[e].host == s.entries[e].host;
  }

  lemma OwnStepMakes(s: State, t: nat, a: Answer)
    requires Inv(s) && Enabled(s, t) && Makes(s, t)
    ensures Makes(Next(s, t, a), t) && Seen(s, t) == None
  {
    var s', e := Next(s, t, a), Made(s, t);
    var own :| e == {own} && Owns(s, t, own) && s.entries[own].host == s.threads[t].host;
    assert own in Made(s, t) && EntryInv(s, own);
    NextMade(s, t, a, t);
    NextClient(s, t, a, own);
    assert Owns(s', t, own);
  }

  lemma OtherStepMakes(s: State, u: nat, a: Answer, t: nat)
    requires Inv(s) && Enabled(s, u) && u != t && Makes(s, t)
    ensures Makes(Next(s, u, a), t)
  {
    var s', e := Next(s, u, a), Made(s, t);
    var own :| e == {own} && Owns(s, t, own) && s.entries[own].host == s.threads[t].host;
    assert own in Made(s, t) && EntryInv(s, own);
    NextFrame(s, u, a);
    NextMade(s, u, a, t);
    NextClient(s, u, a, own);
    assert Owns(s', t, own);
  }

  lemma {:induction false} MakesThroughout(s: State, turns: seq<Turn>, s': State, t: nat)
    requires Inv(s) && Run(s, turns, s') && Makes(s, t)
    ensures Makes(s', t) && SeenInRun(s, turns, s', t) == None
    decreases |turns|
  {
    if turns != [] {
      var u, a := turns[0].t, turns[0].answer;
      NextInv(s, u, a);
      if u == t { OwnStepMakes(s, t, a); } else { OtherStepMakes(s, u, a, t); }
      hide Effect, Target, Next, Makes, Inv, Enabled, Seen;
      MakesThroughout(Next(s, u, a), turns[1..], s', t);
    }
  }

  ghost predicate ReturnedOther(s: State, t: nat, c: nat) {
    t < |s.threads| && s.threads[t].pc == Done(Connected(c)) && Made(s, t) == {}
  }

  lemma {:induction false} ReturnedThroughout(s: State, turns: seq<Turn>, s': State, t: nat, c: nat)
    requires Inv(s) && Run(s, turns, s') && ReturnedOther(s, t, c)
    ensures ReturnedOther(s', t, c)
    decreases |turns|
  {
    if turns != [] {
      var u, a := turns[0].t, turns[0].answer;
      NextInv(s, u, a);
      assert u != t;
      NextFrame(s, u, a);
      NextMade(s, u, a, t);
      hide Effect, Target, Next, Inv, Enabled;
      ReturnedThroughout(Next(s, u, a), turns[1..], s', t, c);
    }
  }

  /** A call returns the first client that it sees; it makes one of its own when it has seen none. */
  lemma {:induction false} ReturnsSeenOrMakes(s: State, turns: seq<Turn>, s': State, t: nat)
    requires Inv(s) && Run(s, turns, s') && Undecided(s, t)
    ensures match SeenInRun(s, turns, s', t)
            case Some(c) => ReturnedOther(s', t, c)
            case None => Undecided(s', t) || Makes(s', t)
    decreases |turns|
  {
    if turns != [] {
      var u, a := turns[0].t, turns[0].answer;
      var s1 := Next(s, u, a);
      NextInv(s, u, a);
      if u == t {
        OwnStepDecides(s, t, a);
      } else {
        NextFrame(s, u, a);
        NextMade(s, u, a, t);
      }
      hide Effect, Target, Next, Inv, Enabled, Makes, Made, Seen, LooksUp;
      if u == t && Seen(s, t).Some? {
        ReturnedThroughout(s1, turns[1..], s', t, Seen(s, t).value);
      } else if Makes(s1, t) {
        MakesThroughout(s1, turns[1..], s', t);
      } else {
        ReturnsSeenOrMakes(s1, turns[1..], s', t);
      }
    }
  }

  /** How a finished call of getSSHClient has been answered: with the first client that it saw, if its
      looks showed it one; otherwise from the one entry that it made, with the client that it dialled or
      with a failure. */
  ghost predicate Answered(s: State, t: nat, seen: Option<nat>)
    requires t < |s.threads|
  {
    match seen
    case Some(c) => s.threads[t].pc == Done(Connected(c)) && Made(s, t) == {}
    case None =>
      exists e :: Made(s, t) == {e} && s.entries[e].host == s.threads[t].host &&
          s.threads[t].pc == Done(match s.entries[e].client case Some(c) => Connected(c) case None => Failed)
  }

  /** Over every run from every state, a finished call has made an entry exactly when neither of its
      looks showed it a client. */
  lemma UsesWhatItSees(s: State, turns: seq<Turn>, s': State, t: nat)
    requires Inv(s) && Run(s, turns, s') && t < |s.threads| && Undecided(s, t)
    requires t < |s'.threads| && s'.threads[t].pc.Done?
    ensures Answered(s', t, SeenInRun(s, turns, s', t))
    ensures SeenInRun(s, turns, s', t).Some? <==> Made(s', t) == {}
  {
    ReturnsSeenOrMakes(s, turns, s', t);
    RunInv(s, turns, s');
    assert ThreadInv(s', t);
    hide Run, SeenInRun;
    if SeenInRun(s, turns, s', t) == None {
      var e :| Made(s', t) == {e} && s'.entries[e].host == s'.threads[t].host && Owns(s', t, e);
      assert e in Made(s', t);
    }
  }

  /** The map shows an open client for the goroutine's host, and its next lookup is still to come or
      has found the client's entry. */
  ghost predicate WillFind(s: State, t: nat, e: nat, c: nat) {
    && t < |s.threads| && e < |s.entries| && e !in s.closed && s.entries[e].client == Some(c)
    && s.threads[t].host in s.clients && s.clients[s.threads[t].host] == e
    && (s.threads[t].pc in {GetPoolRLock, GetLookup, NewPoolRLock, NewLookup, GetEntryRLock(e), GetEntryRead(e),
                            NewEntryRLock(e), NewEntryRead(e), Done(Connected(c))})
  }

  lemma NextWillFind(s: State, u: nat, a: Answer, t: nat, e: nat, c: nat)
    requires Inv(s) && Enabled(s, u) && WillFind(s, t, e, c)
    requires u != t ==> s.threads[u].host != s.threads[t].host
    ensures WillFind(Next(s, u, a), t, e, c)
  {
    NextFrame(s, u, a);
    NextClient(s, u, a, e);
    assert ThreadInv(s, u) && MapInv(s, s.threads[t].host) && EntryInv(s, e);
  }

  /** Of the goroutines for the host of `t`, no other one takes a step. */
  predicate OthersAreElsewhere(s: State, turns: seq<Turn>, t: nat) {
    forall k :: 0 <= k < |turns| && turns[k].t != t && turns[k].t < |s.threads| && t < |s.threads| ==>
      s.threads[turns[k].t].host != s.threads[t].host
  }

  /** While no other goroutine of its host takes a step, a call that has a lookup before it ends with
      the client that the map shows, without passing a dial; the map and the client stay. */
  lemma {:induction false} PooledClientIsReturned(s: State, turns: seq<Turn>, s': State, t: nat, e: nat, c: nat)
    requires Inv(s) && Run(s, turns, s') && WillFind(s, t, e, c)
    requires OthersAreElsewhere(s, turns, t)
    ensures WillFind(s', t, e, c)
    decreases |turns|
  {
    if turns != [] {
      var u, a := turns[0].t, turns[0].answer;
      var s1 := Next(s, u, a);
      NextInv(s, u, a);
      NextWillFind(s, u, a, t, e, c);
      forall v | 0 <= v < |s.threads| ensures v < |s1.threads| && s1.threads[v].host == s.threads[v].host {
        StepKeepsCall(s, u, a, v);
      }
      NextFrame(s, u, a);
      hide Effect, Target, Next, Inv, Enabled, WillFind;
      assert forall k :: 0 <= k < |turns[1..]| ==> turns[1..][k] == turns[k + 1];
      PooledClientIsReturned(s1, turns[1..], s', t, e, c);
    }
  }

  /** With the two locks not write-held, the call ends so by its own four steps, and leaves the pool as
      it was. */
  lemma PooledCallReturns(s: State, t: nat, e: nat, c: nat) returns (turns: seq<Turn>)
    requires Inv(s) && WillFind(s, t, e, c) && s.threads[t].pc == GetPoolRLock
    requires s.mutex.writer == None && s.entries[e].mutex.writer == None
    ensures Run(s, turns, Goto(s, t, Done(Connected(c)))) && forall k :: 0 <= k < |turns| ==> turns[k].t == t
  {
    var s1, s2 := Goto(s.(mutex := s.mutex.RLock(t)), t, GetLookup), Goto(s, t, GetEntryRLock(e));
    var s3 := Goto(WithMutex(s, e, s.entries[e].mutex.RLock(t)), t, GetEntryRead(e));
    var s4, a := Goto(s, t, Done(Connected(c))), Accept(0);
    assert LockInv(s, PoolLock) && LockInv(s, EntryLock(e));
    FindSteps(s, t, e, s1, s2);
    ReadSteps(s, t, e, c, s2, s3);
    hide *;
    RunNothing(s4);
    turns := RunMore(s3, t, s4, [], s4);
    turns := RunMore(s2, t, s3, turns, s4);
    turns := RunMore(s1, t, s2, turns, s4);
    turns := RunMore(s, t, s1, turns, s4);
  }

  lemma FindSteps(s: State, t: nat, e: nat, s1: State, s2: State)
    requires t < |s.threads| && s.threads[t].pc == GetPoolRLock && s.mutex.writer == None && t !in s.mutex.readers
    requires s.threads[t].host in s.clients && s.clients[s.threads[t].host] == e && e < |s.entries|
    requires s1 == Goto(s.(mutex := s.mutex.RLock(t)), t, GetLookup) && s2 == Goto(s, t, GetEntryRLock(e))
    ensures Enabled(s, t) && Next(s, t, Accept(0)) == s1 && Enabled(s1, t) && Next(s1, t, Accept(0)) == s2
  {
    assert s.mutex.RLock(t).RUnlock(t) == s.mutex;
  }

  lemma ReadSteps(s: State, t: nat, e: nat, c: nat, s2: State, s3: State)
    requires t < |s.threads| && e < |s.entries| && s.entries[e].client == Some(c)
    requires s.entries[e].mutex.writer == None && t !in s.entries[e].mutex.readers
    requires s2 == Goto(s, t, GetEntryRLock(e))
    requires s3 == Goto(WithMutex(s, e, s.entries[e].mutex.RLock(t)), t, GetEntryRead(e))
    ensures Enabled(s2, t) && Next(s2, t, Accept(0)) == s3
    ensures Enabled(s3, t) && Next(s3, t, Accept(0)) == Goto(s, t, Done(Connected(c)))
  {
    assert s.entries[e].mutex.RLock(t).RUnlock(t) == s.entries[e].mutex;
    assert s3.entries[e := s3.entries[e].(mutex := s.entries[e].mutex)] == s.entries;
  }

  /** DeleteSSHClient has the pool to itself: the map stays as it found it until its last step. */
  ghost predicate WillRemove(s: State, t: nat, found: map<string, nat>) {
    && t < |s.threads| && s.clients == found
    && var pc, h := s.threads[t].pc, s.threads[t].host;
    && (pc == DelLookup
        || (h in found && (pc == DelEntryLock(found[h]) || pc == DelClose(found[h])))
        || (pc == DelRemove && (h in found ==> Disposed(s, found[h]))))
  }

  /** The entry's client is closed, or it has none and will never have one. */
  ghost predicate Disposed(s: State, e: nat) {
    && e < |s.entries| && s.entries[e].creator < |s.threads|
    && if s.entries[e].client.Some? then e in s.closed else s.threads[s.entries[e].creator].failed
  }

  lemma NextWillRemove(s: State, u: nat, a: Answer, t: nat, found: map<string, nat>)
    requires Inv(s) && Enabled(s, u) && WillRemove(s, t, found) && (u == t ==> s.threads[t].pc != DelRemove)
    ensures WillRemove(Next(s, u, a), t, found)
  {
    assert LockInv(s, PoolLock) && ThreadInv(s, u);
    assert s.mutex.ModeOf(t) == Holding(s.threads[t].pc, PoolLock) &&
             s.mutex.ModeOf(u) == Holding(s.threads[u].pc, PoolLock);
    if u == t {
      OwnStepRemoves(s, t, a, found);
    } else {
      OtherStepRemoves(s, u, a, t, found);
    }
  }

  /** An entry whose lock the deleting goroutine holds: without a client its creator has failed. */
  lemma HeldEntry(s: State, t: nat, e: nat)
    requires Inv(s) && t < |s.threads| && s.threads[t].pc == DelClose(e) && e < |s.entries|
    ensures s.entries[e].creator < |s.threads|
    ensures s.entries[e].client == None ==> s.threads[s.entries[e].creator].failed
  {
    var c := s.entries[e].creator;
    assert EntryInv(s, e) && LockInv(s, EntryLock(e)) && LockInv(s, PoolLock);
    assert s.entries[e].mutex.ModeOf(t) == Holding(s.threads[t].pc, EntryLock(e)) &&
             s.entries[e].mutex.ModeOf(c) == Holding(s.threads[c].pc, EntryLock(e));
    assert s.mutex.ModeOf(t) == Holding(s.threads[t].pc, PoolLock) &&
             s.mutex.ModeOf(c) == Holding(s.threads[c].pc, PoolLock);
  }

  lemma OwnStepRemoves(s: State, t: nat, a: Answer, found: map<string, nat>)
    requires Inv(s) && Enabled(s, t) && WillRemove(s, t, found) && s.threads[t].pc != DelRemove
    ensures WillRemove(Next(s, t, a), t, found)
  {
    var h := s.threads[t].host;
    assert ThreadInv(s, t);
    if s.threads[t].pc.DelClose? {
      HeldEntry(s, t, found[h]);
    }
    hide Inv, Waiting;
  }

  lemma OtherStepRemoves(s: State, u: nat, a: Answer, t: nat, found: map<string, nat>)
    requires Inv(s) && Enabled(s, u) && WillRemove(s, t, found) && u != t && ThreadInv(s, u)
    requires s.mutex.ModeOf(t) == Writing && s.mutex.ModeOf(u) == Holding(s.threads[u].pc, PoolLock)
    ensures WillRemove(Next(s, u, a), t, found)
  {
    NextFrame(s, u, a);
    NextMap0(s, u, a);
    var h := s.threads[t].host;
    if h in found && s.threads[t].pc == DelRemove {
      var e := found[h];
      assert EntryInv(s, e);
      NextClient(s, u, a, e);
      NextPc(s, u, a, e);
    }
    hide Inv, Effect, Target, Enabled;
  }

  lemma {:induction false} RunWillRemove(s: State, turns: seq<Turn>, s': State, t: nat, found: map<string, nat>)
    requires Inv(s) && Run(s, turns, s') && WillRemove(s, t, found)
    requires t < |s'.threads| && !s'.threads[t].pc.Done?
    ensures WillRemove(s', t, found)
    decreases |turns|
  {
    if turns != [] {
      var u, a := turns[0].t, turns[0].answer;
      NextInv(s, u, a);
      if u == t && s.threads[t].pc == DelRemove {
        DoneThroughout(Next(s, u, a), turns[1..], s', t);
      } else {
        NextWillRemove(s, u, a, t, found);
        hide Effect, Target, Next, Inv, Enabled, WillRemove;
        RunWillRemove(Next(s, u, a), turns[1..], s', t, found);
      }
    }
  }

  lemma {:induction false} DoneThroughout(s: State, turns: seq<Turn>, s': State, t: nat)
    requires Run(s, turns, s') && t < |s.threads| && s.threads[t].pc.Done?
    ensures t < |s'.threads| && s'.threads[t] == s.threads[t]
    decreases |turns|
  {
    if turns != [] {
      NextFrame(s, turns[0].t, turns[0].answer);
      assert turns[0].t != t;
      hide Effect, Target, Next, Enabled;
      DoneThroughout(Next(s, turns[0].t, turns[0].answer), turns[1..], s', t);
    }
  }

  /** From taking the pool's write lock to giving it back, whatever runs in between: DeleteSSHClient
      removes its host from the map that it found, and nothing else, and a client of the entry that it
      found is closed then. */
  lemma DeleteRemovesAndCloses(s: State, turns: seq<Turn>, s': State, t: nat, a: Answer)
    requires Inv(s) && Run(s, turns, s') && t < |s.threads| && s.threads[t].pc == DelLookup
    requires Enabled(s', t) && s'.threads[t].pc == DelRemove
    ensures var s2, h := Next(s', t, a), s.threads[t].host;
            && s2.clients == s.clients - {h}
            && s2.threads[t].pc.Done? && !s2.threads[t].pc.outcome.Connected?
            && (h in s.clients ==>
                  s.clients[h] < |s2.entries| && (s2.entries[s.clients[h]].client.Some? ==> s.clients[h] in s2.closed))
  {
    hide *;
    StartsToRemove(s, t);
    RunKeepsCall(s, turns, s', t);
    RunWillRemove(s, turns, s', t, s.clients);
    RemoveStep(s', t, a, s.clients);
  }

  lemma StartsToRemove(s: State, t: nat)
    requires t < |s.threads| && s.threads[t].pc == DelLookup
    ensures WillRemove(s, t, s.clients)
  {
  }

  lemma RemoveStep(s: State, t: nat, a: Answer, found: map<string, nat>)
    requires Enabled(s, t) && s.threads[t].pc == DelRemove && WillRemove(s, t, found)
    ensures var s2, h := Next(s, t, a), s.threads[t].host;
            && s2.clients == found - {h}
            && s2.threads[t].pc.Done? && !s2.threads[t].pc.outcome.Connected?
            && (h in found ==>
                  found[h] < |s2.entries| && (s2.entries[found[h]].client.Some? ==> found[h] in s2.closed))
  {
  }

  /** A call of DeleteSSHClient never ends as a failed dial, and one of getSSHClient never as a deletion. */
  lemma CallsEndAsMeant(s: State, turns: seq<Turn>, s': State, t: nat)
    requires Inv(s) && Run(s, turns, s') && t < |s.threads| && !s.threads[t].failed
    requires (s.threads[t].pc == GetPoolRLock && Made(s, t) == {}) || s.threads[t].pc == DelPoolLock
    requires t < |s'.threads| && s'.threads[t].pc.Done?
    ensures s'.threads[t].pc.outcome.Deleted? <==> s.threads[t].pc == DelPoolLock
  {
    if s.threads[t].pc == DelPoolLock {
      RunOnlyDeletes(s, turns, s', t);
    } else {
      UsesWhatItSees(s, turns, s', t);
    }
  }

  lemma {:induction false} RunOnlyDeletes(s: State, turns: seq<Turn>, s': State, t: nat)
    requires Run(s, turns, s') && t < |s.threads| && OnlyDeletes(s.threads[t])
    ensures t < |s'.threads| && OnlyDeletes(s'.threads[t])
    decreases |turns|
  {
    if turns != [] {
      NextFrame(s, turns[0].t, turns[0].answer);
      assert OnlyDeletes(Next(s, turns[0].t, turns[0].answer).threads[t]);
      hide Effect, Target, Next, Enabled;
      RunOnlyDeletes(Next(s, turns[0].t, turns[0].answer), turns[1..], s', t);
    }
  }

  predicate OnlyDeletes(th: Thread) {
    !th.failed && Deleting(th.pc) && (th.pc.Done? ==> th.pc.outcome.Deleted?)
  }

  // ------------------------------------------------------------------
  // The pool does not keep to one dial per host
  // ------------------------------------------------------------------

  lemma RunMore(s: State, t: nat, s1: State, turns: seq<Turn>, s': State) returns (all: seq<Turn>)
    requires Enabled(s, t) && s1 == Next(s, t, Accept(0)) && Run(s1, turns, s')
    ensures Run(s, all, s') && all == [Turn(t, Accept(0))] + turns
  {
    all := [Turn(t, Accept(0))] + turns;
    assert all[1..] == turns;
  }

  lemma {:induction false} RunConcat(s: State, first: seq<Turn>, m: State, second: seq<Turn>, s': State)
    requires Run(s, first, m) && Run(m, second, s')
    ensures Run(s, first + second, s')
    decreases |first|
  {
    hide Effect, Target;
    if first == [] {
      assert first + second == second;
    } else {
      RunConcat(Next(s, first[0].t, first[0].answer), first[1..], m, second, s');
      assert (first + second)[1..] == first[1..] + second;
    }
  }

  /** A lookup under the pool's read lock that finds nothing. */
  lemma RunLookup(s: State, t: nat) returns (turns: seq<Turn>)
    requires t < |s.threads| && (s.threads[t].pc == GetPoolRLock || s.threads[t].pc == NewPoolRLock)
    requires s.mutex == UNLOCKED && s.threads[t].host !in s.clients
    ensures Run(s, turns, Goto(s, t, if s.threads[t].pc == GetPoolRLock then NewPoolRLock else NewPoolLock))
  {
    var get := s.threads[t].pc == GetPoolRLock;
    var s1 := Goto(s.(mutex := UNLOCKED.RLock(t)), t, if get then GetLookup else NewLookup);
    var s2 := Goto(s, t, if get then NewPoolRLock else NewPoolLock);
    assert UNLOCKED.RLock(t).RUnlock(t) == UNLOCKED;
    turns := RunMore(s1, t, s2, [], s2);
    turns := RunMore(s, t, s1, turns, s2);
  }

  /** From the call of getSSHClient, with no entry, to the wait for the pool's write lock. */
  lemma RunToWriteLock(s: State, t: nat) returns (turns: seq<Turn>)
    requires t < |s.threads| && s.threads[t].pc == GetPoolRLock && s.mutex == UNLOCKED
    requires s.threads[t].host !in s.clients
    ensures Run(s, turns, Goto(s, t, NewPoolLock))
  {
    hide Effect, Target;
    var s1 := Goto(s, t, NewPoolRLock);
    var first := RunLookup(s, t);
    var second := RunLookup(s1, t);
    assert Goto(s1, t, NewPoolLock) == Goto(s, t, NewPoolLock);
    RunConcat(s, first, s1, second, Goto(s, t, NewPoolLock));
    turns := first + second;
  }

  /** Goroutine `t` has published its entry, given the pool lock back, and is dialling. */
  function Dialling(s: State, t: nat): State
    requires t < |s.threads|
  {
    var e, h := |s.entries|, s.threads[t].host;
    State(s.clients[h := e], s.entries + [Entry(h, t, None, UNLOCKED.Lock(t))], UNLOCKED,
        s.threads[t := s.threads[t].(pc := NewDial(e))], s.closed)
  }

  function Published(s: State, t: nat): State
    requires t < |s.threads|
  {
    var e, h := |s.entries|, s.threads[t].host;
    State(s.clients[h := e], s.entries + [Entry(h, t, None, UNLOCKED)], UNLOCKED.Lock(t),
        s.threads[t := s.threads[t].(pc := NewEntryLock(e))], s.closed)
  }

  lemma RunToPublished(s: State, t: nat) returns (turns: seq<Turn>)
    requires t < |s.threads| && s.threads[t].pc == NewPoolLock && s.mutex == UNLOCKED
    ensures Run(s, turns, Published(s, t))
  {
    var s1 := Goto(s.(mutex := UNLOCKED.Lock(t)), t, NewPublish);
    turns := RunMore(s1, t, Published(s, t), [], Published(s, t));
    turns := RunMore(s, t, s1, turns, Published(s, t));
  }

  lemma RunFromPublished(s: State, t: nat) returns (turns: seq<Turn>)
    requires t < |s.threads|
    ensures Run(Published(s, t), turns, Dialling(s, t))
  {
    var e, s2, s5 := |s.entries|, Published(s, t), Dialling(s, t);
    var s3 := Goto(s2.(entries := s5.entries), t, NewPoolUnlock(e));
    var s4 := Goto(s3.(mutex := UNLOCKED), t, NewParseKey(e));
    assert Next(s4, t, Accept(0)) == s5;
    assert Next(s3, t, Accept(0)) == s4;
    assert Next(s2, t, Accept(0)) == s3 by {
      assert s2.entries[e := s2.entries[e].(mutex := UNLOCKED.Lock(t))] == s5.entries;
    }
    hide Effect, Target;
    turns := RunMore(s4, t, s5, [], s5);
    turns := RunMore(s3, t, s4, turns, s5);
    turns := RunMore(s2, t, s3, turns, s5);
  }

  /** From the wait for the pool's write lock to the dial. */
  lemma RunToDial(s: State, t: nat) returns (turns: seq<Turn>)
    requires t < |s.threads| && s.threads[t].pc == NewPoolLock && s.mutex == UNLOCKED
    ensures Run(s, turns, Dialling(s, t))
  {
    hide Effect, Target;
    var first := RunToPublished(s, t);
    var second := RunFromPublished(s, t);
    RunConcat(s, first, Published(s, t), second, Dialling(s, t));
    turns := first + second;
  }

  /** Goroutines `t` and `u` both find no entry, and then both dial. */
  lemma RunToTwoDials(s: State, t: nat, u: nat) returns (turns: seq<Turn>)
    requires t < |s.threads| && u < |s.threads| && t != u
    requires s.threads[t].pc == s.threads[u].pc == GetPoolRLock && s.mutex == UNLOCKED && s.clients == map[]
    ensures Run(s, turns, Dialling(Dialling(Goto(Goto(s, t, NewPoolLock), u, NewPoolLock), t), u))
  {
    hide Effect, Target;
    var s1 := Goto(s, t, NewPoolLock);
    var s2 := Goto(s1, u, NewPoolLock);
    var s3 := Dialling(s2, t);
    var first := RunToWriteLock(s, t);
    var second := RunToWriteLock(s1, u);
    RunConcat(s, first, s1, second, s2);
    var third := RunToDial(s2, t);
    var fourth := RunToDial(s3, u);
    RunConcat(s2, third, s3, fourth, Dialling(s3, u));
    RunConcat(s, first + second, s2, third + fourth, Dialling(s3, u));
    turns := first + second + (third + fourth);
  }

  predicate Deleting(pc: Pc) {
    pc.DelPoolLock? || pc.DelLookup? || pc.DelEntryLock? || pc.DelClose? || pc.DelRemove? || pc.Done?
  }

  /** A goroutine stays with its host, and one that only deletes never dials. */
  lemma {:induction false} RunKeepsCall(s: State, turns: seq<Turn>, s': State, t: nat)
    requires Run(s, turns, s') && t < |s.threads|
    ensures t < |s'.threads| && s'.threads[t].host == s.threads[t].host
    ensures Deleting(s.threads[t].pc) ==> Deleting(s'.threads[t].pc)
    decreases |turns|
  {
    if turns != [] {
      var turn := turns[0];
      var s1 := Next(s, turn.t, turn.answer);
      StepKeepsCall(s, turn.t, turn.answer, t);
      hide Effect, Target, Deleting, Next, Enabled;
      RunKeepsCall(s1, turns[1..], s', t);
    }
  }

  lemma StepKeepsCall(s: State, u: nat, a: Answer, t: nat)
    requires Enabled(s, u) && t < |s.threads|
    ensures var s1 := Next(s, u, a);
            t < |s1.threads| && s1.threads[t].host == s.threads[t].host &&
                (Deleting(s.threads[t].pc) ==> Deleting(s1.threads[t].pc))
  {
    NextFrame(s, u, a);
  }

  ghost predicate DialTogether(s: State, t: nat, u: nat) {
    t < |s.threads| && u < |s.threads| && s.threads[t].pc.NewDial? && s.threads[u].pc.NewDial? &&
        s.threads[t].host == s.threads[u].host
  }

  /** newSSHClient does not look again once it has the write lock: two goroutines can be dialling the
      same host at the same time exactly when both have called getSSHClient for it. */
  lemma TwoDialsIffTwoCalls(s: State, t: nat, u: nat)
    requires Init(s) && t < |s.threads| && u < |s.threads| && t != u
    ensures (exists turns, s' :: Run(s, turns, s') && DialTogether(s', t, u))
            <==>
            s.threads[t].host == s.threads[u].host && s.threads[t].pc == GetPoolRLock &&
            s.threads[u].pc == GetPoolRLock
  {
    hide Run;
    forall turns, s' | Run(s, turns, s') && DialTogether(s', t, u)
      ensures s.threads[t].host == s.threads[u].host && s.threads[t].pc == GetPoolRLock
      ensures s.threads[u].pc == GetPoolRLock
    {
      RunKeepsCall(s, turns, s', t);
      RunKeepsCall(s, turns, s', u);
    }
    if s.threads[t].host == s.threads[u].host && s.threads[t].pc == GetPoolRLock && s.threads[u].pc == GetPoolRLock {
      var turns := RunToTwoDials(s, t, u);
      assert DialTogether(Dialling(Dialling(Goto(Goto(s, t, NewPoolLock), u, NewPoolLock), t), u), t, u);
    }
  }

  // ------------------------------------------------------------------
  // When a client is closed under its user
  // ------------------------------------------------------------------

  lemma RunTurn(s: State, t: nat, a: Answer, s1: State, turns: seq<Turn>, s': State) returns (all: seq<Turn>)
    requires Enabled(s, t) && s1 == Next(s, t, a) && Run(s1, turns, s')
    ensures Run(s, all, s')
  {
    all := [Turn(t, a)] + turns;
    assert all[1..] == turns;
  }

  /** The dial of `t` has succeeded, and its call has returned. */
  function Finished(s: State, t: nat, e: nat): State
    requires t < |s.threads| && e < |s.entries|
  {
    Goto(s.(entries := s.entries[e := s.entries[e].(client := Some(0), mutex := UNLOCKED)]), t, Done(Connected(0)))
  }

  lemma RunToFinished(s: State, t: nat, e: nat) returns (turns: seq<Turn>)
    requires t < |s.threads| && e < |s.entries| && s.threads[t].pc == NewDial(e)
    requires s.entries[e].mutex == UNLOCKED.Lock(t)
    ensures Run(s, turns, Finished(s, t, e))
  {
    var s1 := Goto(s, t, NewStore(e, 0));
    var s2 := Goto(s1.(entries := s.entries[e := s.entries[e].(client := Some(0))]), t, NewUnlock(e, 0));
    var s3 := Finished(s, t, e);
    assert Next(s, t, Accept(0)) == s1;
    assert Next(s1, t, Accept(0)) == s2;
    assert Next(s2, t, Accept(0)) == s3 by {
      assert s2.entries[e := s2.entries[e].(mutex := UNLOCKED)] == s3.entries;
    }
    hide Effect, Target;
    turns := RunMore(s2, t, s3, [], s3);
    turns := RunMore(s1, t, s2, turns, s3);
    turns := RunMore(s, t, s1, turns, s3);
  }

  /** The dial of `u` has failed: it has given its entry back and will delete its host. */
  function Refused(s: State, u: nat, e: nat): State
    requires u < |s.threads| && e < |s.entries|
  {
    var threads := s.threads[u := Thread(s.threads[u].host, DelPoolLock, true)];
    s.(entries := s.entries[e := s.entries[e].(mutex := UNLOCKED)], threads := threads)
  }

  lemma RunToRefused(s: State, u: nat, e: nat) returns (turns: seq<Turn>)
    requires u < |s.threads| && e < |s.entries| && s.threads[u].pc == NewDial(e)
    requires s.entries[e].mutex == UNLOCKED.Lock(u)
    ensures Run(s, turns, Refused(s, u, e))
  {
    var s1, s2 := Goto(s, u, NewFailUnlock(e)), Refused(s, u, e);
    assert Next(s, u, Refuse) == s1;
    assert Next(s1, u, Refuse) == s2;
    hide Effect, Target;
    turns := RunTurn(s1, u, Refuse, s2, [], s2);
    turns := RunTurn(s, u, Refuse, s1, turns, s2);
  }

  /** `u` has closed the client that the map shows for its host. */
  function AfterClose(s: State, u: nat, e: nat): State
    requires u < |s.threads|
  {
    Goto(s.(mutex := UNLOCKED.Lock(u), closed := s.closed + {e}), u, DelRemove)
  }

  lemma RunToClose(s: State, u: nat, e: nat) returns (turns: seq<Turn>)
    requires u < |s.threads| && e < |s.entries| && s.threads[u].pc == DelPoolLock && s.mutex == UNLOCKED
    requires s.threads[u].host in s.clients && s.clients[s.threads[u].host] == e
    requires s.entries[e].mutex == UNLOCKED && s.entries[e].client.Some?
    ensures Run(s, turns, AfterClose(s, u, e))
  {
    var locked := s.(mutex := UNLOCKED.Lock(u));
    var s1, s2 := Goto(locked, u, DelLookup), Goto(locked, u, DelEntryLock(e));
    var s3 := Goto(locked.(entries := s.entries[e := s.entries[e].(mutex := UNLOCKED.Lock(u))]), u, DelClose(e));
    var s4 := AfterClose(s, u, e);
    DeleteSteps(s, u, e, s1, s2);
    CloseSteps(s, u, e, s2, s3);
    hide *;
    RunNothing(s4);
    turns := RunTurn(s3, u, Refuse, s4, [], s4);
    turns := RunTurn(s2, u, Refuse, s3, turns, s4);
    turns := RunTurn(s1, u, Refuse, s2, turns, s4);
    turns := RunTurn(s, u, Refuse, s1, turns, s4);
  }

  lemma RunNothing(s: State)
    ensures Run(s, [], s)
  {
  }

  lemma DeleteSteps(s: State, u: nat, e: nat, s1: State, s2: State)
    requires u < |s.threads| && e < |s.entries| && s.threads[u].pc == DelPoolLock && s.mutex == UNLOCKED
    requires s.threads[u].host in s.clients && s.clients[s.threads[u].host] == e
    requires s1 == Goto(s.(mutex := UNLOCKED.Lock(u)), u, DelLookup)
    requires s2 == Goto(s.(mutex := UNLOCKED.Lock(u)), u, DelEntryLock(e))
    ensures Enabled(s, u) && Next(s, u, Refuse) == s1 && Enabled(s1, u) && Next(s1, u, Refuse) == s2
  {
  }

  lemma CloseSteps(s: State, u: nat, e: nat, s2: State, s3: State)
    requires u < |s.threads| && e < |s.entries| && s.entries[e].mutex == UNLOCKED && s.entries[e].client.Some?
    requires s2 == Goto(s.(mutex := UNLOCKED.Lock(u)), u, DelEntryLock(e))
    requires var entries := s.entries[e := s.entries[e].(mutex := UNLOCKED.Lock(u))];
             s3 == Goto(s.(mutex := UNLOCKED.Lock(u), entries := entries), u, DelClose(e))
    ensures Enabled(s2, u) && Next(s2, u, Refuse) == s3 && Enabled(s3, u) && Next(s3, u, Refuse) == AfterClose(s, u, e)
  {
    assert s3.entries[e := s3.entries[e].(mutex := UNLOCKED)] == s.entries;
  }

  /** A goroutine has been given a client that is closed. */
  ghost predicate ClosedUnder(s: State, t: nat) {
    && t < |s.threads| && s.threads[t].pc.Done? && s.threads[t].pc.outcome.Connected?
    && exists e :: 0 <= e < |s.entries| && e in s.closed && s.entries[e].host == s.threads[t].host
                   && s.entries[e].client == Some(s.threads[t].pc.outcome.client)
  }

  lemma DeleteCloses(s: State, t: nat, u: nat) returns (turns: seq<Turn>, s': State)
    requires Init(s) && t < |s.threads| && u < |s.threads| && t != u && s.threads[t].host == s.threads[u].host
    requires s.threads[t].pc == GetPoolRLock && s.threads[u].pc == DelPoolLock
    ensures Run(s, turns, s') && ClosedUnder(s', t)
  {
    var s1 := Goto(s, t, NewPoolLock);
    var s2 := Dialling(s1, t);
    var s3 := Finished(s2, t, 0);
    s' := AfterClose(s3, u, 0);
    assert ClosedUnder(s', t) by { assert s'.entries[0].host == s.threads[t].host; }
    hide Effect, Target, Next, ClosedUnder, Run;
    var first := RunToWriteLock(s, t);
    var second := RunToDial(s1, t);
    var third := RunToFinished(s2, t, 0);
    var fourth := RunToClose(s3, u, 0);
    RunConcat(s, first, s1, second, s2);
    RunConcat(s2, third, s3, fourth, s');
    RunConcat(s, first + second, s2, third + fourth, s');
    turns := first + second + (third + fourth);
  }

  lemma FailedDialCloses(s: State, t: nat, u: nat) returns (turns: seq<Turn>, s': State)
    requires Init(s) && t < |s.threads| && u < |s.threads| && t != u && s.threads[t].host == s.threads[u].host
    requires s.threads[t].pc == GetPoolRLock && s.threads[u].pc == GetPoolRLock
    ensures Run(s, turns, s') && ClosedUnder(s', t)
  {
    var s1 := Dialling(Dialling(Goto(Goto(s, u, NewPoolLock), t, NewPoolLock), u), t);
    var s2 := Finished(s1, t, 1);
    var s3 := Refused(s2, u, 0);
    s' := AfterClose(s3, u, 1);
    assert ClosedUnder(s', t) by { assert s'.entries[1].host == s.threads[t].host; }
    hide Effect, Target, Next, ClosedUnder, Run;
    var first := RunToTwoDials(s, u, t);
    var second := RunToFinished(s1, t, 1);
    var third := RunToRefused(s2, u, 0);
    var fourth := RunToClose(s3, u, 1);
    RunConcat(s, first, s1, second, s2);
    RunConcat(s2, third, s3, fourth, s');
    RunConcat(s, first + second, s2, third + fourth, s');
    turns := first + second + (third + fourth);
  }

  /** Who has closed a client: a goroutine with the host of its entry, that deletes or has deleted. */
  ghost predicate ClosedBySome(s: State, e: nat) {
    e < |s.entries| && exists w :: 0 <= w < |s.threads| && HasDeleted(s.threads[w], s.entries[e].host)
  }

  predicate HasDeleted(th: Thread, host: string) {
    th.host == host && (th.pc.DelRemove? || (th.pc.Done? && !th.pc.outcome.Connected?))
  }

  lemma NextClosedBySome(s: State, t: nat, a: Answer, e: nat)
    requires Enabled(s, t) && ThreadInv(s, t) && e in Next(s, t, a).closed && (e in s.closed ==> ClosedBySome(s, e))
    ensures ClosedBySome(Next(s, t, a), e)
  {
    var s' := Next(s, t, a);
    if e in s.closed {
      var w :| 0 <= w < |s.threads| && HasDeleted(s.threads[w], s.entries[e].host);
      assert HasDeleted(s'.threads[w], s'.entries[e].host);
    } else {
      assert HasDeleted(s'.threads[t], s'.entries[e].host);
    }
  }

  lemma {:induction false} RunClosedBySome(s: State, turns: seq<Turn>, s': State)
    requires Inv(s) && Run(s, turns, s') && forall e: nat :: e in s.closed ==> ClosedBySome(s, e)
    ensures forall e: nat :: e in s'.closed ==> ClosedBySome(s', e)
    decreases |turns|
  {
    if turns != [] {
      var t, a := turns[0].t, turns[0].answer;
      var s1 := Next(s, t, a);
      assert ThreadInv(s, t);
      hide ClosedBySome, Effect, Target, Next;
      NextInv(s, t, a);
      forall e: nat | e in s1.closed ensures ClosedBySome(s1, e) {
        NextClosedBySome(s, t, a, e);
      }
      RunClosedBySome(s1, turns[1..], s');
    }
  }

  /** A client that a call has returned can be closed while its user has it, exactly when there is
      another call for the same host: one that deletes it, or one whose own dial fails. */
  lemma ReturnedClientClosedIff(s: State, t: nat)
    requires Init(s) && t < |s.threads| && s.threads[t].pc == GetPoolRLock
    ensures (exists turns, s' :: Run(s, turns, s') && ClosedUnder(s', t))
       <==> (exists u: nat :: u < |s.threads| && u != t && s.threads[u].host == s.threads[t].host)
  {
    forall turns, s' | Run(s, turns, s') && ClosedUnder(s', t)
      ensures exists u: nat :: u < |s.threads| && u != t && s.threads[u].host == s.threads[t].host
    {
      OtherCall(s, turns, s', t);
    }
    if u: nat :| u < |s.threads| && u != t && s.threads[u].host == s.threads[t].host {
      if s.threads[u].pc == DelPoolLock {
        var turns, s' := DeleteCloses(s, t, u);
      } else {
        var turns, s' := FailedDialCloses(s, t, u);
      }
    }
  }

  lemma OtherCall(s: State, turns: seq<Turn>, s': State, t: nat)
    requires Init(s) && t < |s.threads| && Run(s, turns, s') && ClosedUnder(s', t)
    ensures exists u: nat :: u < |s.threads| && u != t && s.threads[u].host == s.threads[t].host
  {
    InitInv(s);
    RunInv(s, turns, s');
    RunClosedBySome(s, turns, s');
    var e :| 0 <= e < |s'.entries| && e in s'.closed && s'.entries[e].host == s'.threads[t].host;
    var w :| 0 <= w < |s'.threads| && HasDeleted(s'.threads[w], s'.entries[e].host);
    RunKeepsCall(s, turns, s', t);
    RunKeepsCall(s, turns, s', w);
  }

  // ------------------------------------------------------------------
  // The pool as the source keeps it: fields updated in place
  // ------------------------------------------------------------------

  class ConnectionPool {
    var clients: map<string, nat>
    var entries: seq<Entry>
    var mutex: RWMutex
    var threads: seq<Thread>
    var closed: set<nat>

    constructor (calls: seq<Thread>)
      requires forall t :: 0 <= t < |calls| ==>
                 (calls[t].pc == GetPoolRLock || calls[t].pc == DelPoolLock) && !calls[t].failed
      ensures Init(Snapshot()) && threads == calls
    {
      clients, entries, mutex, threads, closed := map[], [], UNLOCKED, calls, {};
    }

    function Snapshot(): State
      reads this
    {
      State(clients, entries, mutex, threads, closed)
    }

    /** A step of goroutine `t` inside getSSHClient. */
    method StepGet(t: nat, a: Answer)
      requires Enabled(Snapshot(), t)
      requires var pc := threads[t].pc; pc.GetPoolRLock? || pc.GetLookup? || pc.GetEntryRLock? || pc.GetEntryRead?
      modifies this
      ensures Snapshot() == Next(old(Snapshot()), t, a)
    {
      var host := threads[t].host;
      match threads[t].pc {
        case GetPoolRLock =>
          mutex := mutex.RLock(t);
          Continue(t, GetLookup);
        case GetLookup =>
          mutex := mutex.RUnlock(t);
          Continue(t, if host in clients then GetEntryRLock(clients[host]) else NewPoolRLock);
        case GetEntryRLock(e) =>
          SetMutex(e, entries[e].mutex.RLock(t));
          Continue(t, GetEntryRead(e));
        case GetEntryRead(e) =>
          var c := entries[e].client;
          SetMutex(e, entries[e].mutex.RUnlock(t));
          Continue(t, if c.Some? then Done(Connected(c.value)) else NewPoolRLock);
      }
    }

    /** A step of goroutine `t` inside newSSHClient, up to the publication of its own entry. */
    method StepNew(t: nat, a: Answer)
      requires Enabled(Snapshot(), t)
      requires var pc := threads[t].pc;
                 pc.NewPoolRLock? || pc.NewLookup? || pc.NewEntryRLock? || pc.NewEntryRead? ||
                 pc.NewPoolLock? || pc.NewPublish?
      modifies this
      ensures Snapshot() == Next(old(Snapshot()), t, a)
    {
      var host := threads[t].host;
      match threads[t].pc {
        case NewPoolRLock =>
          mutex := mutex.RLock(t);
          Continue(t, NewLookup);
        case NewLookup =>
          mutex := mutex.RUnlock(t);
          Continue(t, if host in clients then NewEntryRLock(clients[host]) else NewPoolLock);
        case NewEntryRLock(e) =>
          SetMutex(e, entries[e].mutex.RLock(t));
          Continue(t, NewEntryRead(e));
        case NewEntryRead(e) =>
          var c := entries[e].client;
          SetMutex(e, entries[e].mutex.RUnlock(t));
          Continue(t, if c.Some? then Done(Connected(c.value)) else NewPoolLock);
        case NewPoolLock =>
          mutex := mutex.Lock(t);
          Continue(t, NewPublish);
        case NewPublish =>
          var e := |entries|;
          entries := entries + [Entry(host, t, None, UNLOCKED)];
          clients := clients[host := e];
          Continue(t, NewEntryLock(e));
      }
    }

    /** A step of goroutine `t` inside newSSHClient, once its entry is published. */
    method StepCreate(t: nat, a: Answer)
      requires Enabled(Snapshot(), t)
      requires var pc := threads[t].pc;
                 pc.NewEntryLock? || pc.NewPoolUnlock? || pc.NewParseKey? || pc.NewDial? ||
                 pc.NewStore? || pc.NewUnlock? || pc.NewFailUnlock?
      modifies this
      ensures Snapshot() == Next(old(Snapshot()), t, a)
    {
      match threads[t].pc {
        case NewEntryLock(e) =>
          SetMutex(e, entries[e].mutex.Lock(t));
          Continue(t, NewPoolUnlock(e));
        case NewPoolUnlock(e) =>
          mutex := mutex.Unlock();
          Continue(t, NewParseKey(e));
        case NewParseKey(e) =>
          Continue(t, if a.Accept? then NewDial(e) else NewFailUnlock(e));
        case NewDial(e) =>
          Continue(t, if a.Accept? then NewStore(e, a.client) else NewFailUnlock(e));
        case NewStore(e, c) =>
          entries := entries[e := entries[e].(client := Some(c))];
          Continue(t, NewUnlock(e, c));
        case NewUnlock(e, c) =>
          SetMutex(e, entries[e].mutex.Unlock());
          Continue(t, Done(Connected(c)));
        case NewFailUnlock(e) =>
          SetMutex(e, entries[e].mutex.Unlock());
          threads := threads[t := threads[t].(failed := true)];
          Continue(t, DelPoolLock);
      }
    }

    /** A step of goroutine `t` inside DeleteSSHClient. */
    method StepDelete(t: nat, a: Answer)
      requires Enabled(Snapshot(), t)
      requires var pc := threads[t].pc;
                 pc.DelPoolLock? || pc.DelLookup? || pc.DelEntryLock? || pc.DelClose? ||
                 pc.DelRemove?
      modifies this
      ensures Snapshot() == Next(old(Snapshot()), t, a)
    {
      var host := threads[t].host;
      match threads[t].pc {
        case DelPoolLock =>
          mutex := mutex.Lock(t);
          Continue(t, DelLookup);
        case DelLookup =>
          Continue(t, if host in clients then DelEntryLock(clients[host]) else DelRemove);
        case DelEntryLock(e) =>
          SetMutex(e, entries[e].mutex.Lock(t));
          Continue(t, DelClose(e));
        case DelClose(e) =>
          if entries[e].client.Some? {
            closed := closed + {e};
          }
          SetMutex(e, entries[e].mutex.Unlock());
          Continue(t, DelRemove);
        case DelRemove =>
          clients := clients - {host};
          mutex := mutex.Unlock();
          Continue(t, Done(if threads[t].failed then Failed else Deleted));
      }
    }

    /** A step of goroutine `t`, wherever it is. */
    method Step(t: nat, a: Answer)
      requires Enabled(Snapshot(), t)
      modifies this
      ensures Snapshot() == Next(old(Snapshot()), t, a)
    {
      hide Next;
      assert !threads[t].pc.Done?;
      hide Enabled;
      var pc := threads[t].pc;
      if pc.GetPoolRLock? || pc.GetLookup? || pc.GetEntryRLock? || pc.GetEntryRead? {
        StepGet(t, a);
      } else if pc.NewPoolRLock? || pc.NewLookup? || pc.NewEntryRLock? || pc.NewEntryRead? ||
                pc.NewPoolLock? || pc.NewPublish? {
        StepNew(t, a);
      } else if pc.DelPoolLock? || pc.DelLookup? || pc.DelEntryLock? || pc.DelClose? || pc.DelRemove? {
        StepDelete(t, a);
      } else {
        StepCreate(t, a);
      }
    }

    /** The goroutines carry out any schedule that the locks allow: the pool goes through exactly the
        run of the machine, and where nobody can go on, every call has been answered with a client of
        its own host, or has failed. */
    method Execute(turns: seq<Turn>, ghost s': State)
      requires Inv(Snapshot()) && Run(Snapshot(), turns, s')
      modifies this
      ensures Snapshot() == s' && Inv(Snapshot())
      ensures (forall t :: !Ready(Snapshot(), t)) ==> forall t :: 0 <= t < |threads| ==> threads[t].pc.Done?
      ensures forall t :: 0 <= t < |threads| && threads[t].pc.Done? && threads[t].pc.outcome.Connected? ==>
                exists e :: 0 <= e < |entries| && entries[e].host == threads[t].host &&
                    entries[e].client == Some(threads[t].pc.outcome.client)
      // A call is answered with the first client that it sees, and makes one only if it sees none.
      ensures forall t: nat :: Undecided(old(Snapshot()), t) && t < |threads| && threads[t].pc.Done? ==>
                Answered(Snapshot(), t, SeenInRun(old(Snapshot()), turns, s', t))
      // A client that the map shows is used again, and its call never comes to a dial.
      ensures forall t: nat, e: nat, c: nat ::
                WillFind(old(Snapshot()), t, e, c) && OthersAreElsewhere(old(Snapshot()), turns, t) ==>
                  WillFind(Snapshot(), t, e, c)
    {
      ghost var s := Snapshot();
      Carry(turns, s');
      EveryRunFinishes(s, turns, s');
      hide Undecided, Answered, WillFind, Run, Inv;
      forall t: nat | t < |s'.threads| && s'.threads[t].pc.Done? && s'.threads[t].pc.outcome.Connected?
        ensures exists e :: 0 <= e < |s'.entries| && s'.entries[e].host == s'.threads[t].host &&
                  s'.entries[e].client == Some(s'.threads[t].pc.outcome.client)
      {
        ReturnsClientOfItsHost(s, turns, s', t);
      }
      forall t: nat | Undecided(s, t) && t < |s'.threads| && s'.threads[t].pc.Done?
        ensures Answered(s', t, SeenInRun(s, turns, s', t))
      {
        UsesWhatItSees(s, turns, s', t);
      }
      forall t: nat, e: nat, c: nat | WillFind(s, t, e, c) && OthersAreElsewhere(s, turns, t)
        ensures WillFind(s', t, e, c)
      {
        PooledClientIsReturned(s, turns, s', t, e, c);
      }
    }

    method Carry(turns: seq<Turn>, ghost s': State)
      requires Run(Snapshot(), turns, s')
      modifies this
      ensures Snapshot() == s'
      decreases |turns|
    {
      hide Enabled, Next;
      if turns != [] {
        Step(turns[0].t, turns[0].answer);
        Carry(turns[1..], s');
      }
    }


    method Continue(t: nat, pc: Pc)
      requires t < |threads|
      modifies this`threads
      ensures threads == old(threads)[t := old(threads)[t].(pc := pc)]
    {
      threads := threads[t := threads[t].(pc := pc)];
    }

    method SetMutex(e: nat, m: RWMutex)
      requires e < |entries|
      modifies this`entries
      ensures entries == old(entries)[e := old(entries)[e].(mutex := m)]
    {
      entries := entries[e := entries[e].(mutex := m)];
    }
  }
}
