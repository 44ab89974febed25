// The concurrent refresh-and-persist protocol: Pool.EnsureFresh run by any number of
// goroutines (internal/pool/pool.go:103-141) against one credentials file.
//
// A state holds the accounts in memory, who holds each entry's mutex and persistMu, the file,
// and one program counter per goroutine. A label names a goroutine and what the world decided
// (the outcome of Refresh or of the write). Everything between two lock operations on data
// that only that lock guards is one step; the copy loop takes one entry lock per step.

module RefreshProtocol {
  import opened Wrappers
  import opened Credential

  // refreshWindow is refreshBefore in milliseconds (5 minutes in Pool.New).
  datatype Config = Config(hasRefresher: bool, hasStore: bool, refreshWindow: int)

  datatype Outcome = Fresh | NoRefresher | RefreshFailed | Refreshed | PersistFailed

  datatype PC =
    | Waiting                              // about to lock the entry
    | Refreshing                           // holds the entry lock, inside Refresh
    | WantPersist                          // has updated the entry, about to lock persistMu
    | Copying(copied: seq<Account>)        // holds persistMu, has copied a prefix of the entries
    | Finished(outcome: Outcome)

  datatype Goroutine = Goroutine(entry: nat, force: bool, pc: PC)

  // refreshes, saved and unsaved are history: how often each entry was successfully refreshed,
  // whether any Replace has reached the file, and the entries whose own Replace has not, with
  // none that did since.
  datatype State = State(
    mem: seq<Account>,
    entryLock: seq<Option<nat>>,
    persistLock: Option<nat>,
    file: seq<Account>,
    gs: seq<Goroutine>,
    now: int,
    refreshes: seq<nat>,
    saved: bool,
    unsaved: set<nat>
  )

  datatype Label =
    | Enter(g: nat)
    | RefreshOk(g: nat, token: string, refreshToken: string, expiresAtMs: int)
    | RefreshErr(g: nat)
    | LockPersist(g: nat)
    | CopyOne(g: nat)
    | Replace(g: nat, write: Write)
    | Tick(to: int)
    | Spawn(entry: nat, force: bool)

  predicate IsFresh(c: Config, a: Account, now: int) {
    a.expiresAtMs > now + c.refreshWindow
  }

  function SetPC(gs: seq<Goroutine>, g: nat, pc: PC): (r: seq<Goroutine>)
    requires g < |gs|
    ensures |r| == |gs|
  {
    gs[g := gs[g].(pc := pc)]
  }

  predicate WellFormed(s: State) {
    && |s.entryLock| == |s.refreshes| == |s.mem|
    && forall g :: 0 <= g < |s.gs| ==> s.gs[g].entry < |s.mem|
  }

  predicate Enabled(c: Config, s: State, l: Label)
    requires WellFormed(s)
  {
    match l
    case Enter(g) => g < |s.gs| && s.gs[g].pc.Waiting? && s.entryLock[s.gs[g].entry].None?
    case RefreshOk(g, token, _, _) => g < |s.gs| && s.gs[g].pc.Refreshing? && token != ""
    case RefreshErr(g) => g < |s.gs| && s.gs[g].pc.Refreshing?
    case LockPersist(g) => g < |s.gs| && s.gs[g].pc.WantPersist? && s.persistLock.None?
    case CopyOne(g) =>
      g < |s.gs| && s.gs[g].pc.Copying? && |s.gs[g].pc.copied| < |s.mem| &&
      s.entryLock[|s.gs[g].pc.copied|].None?
    case Replace(g, _) =>
      g < |s.gs| && s.gs[g].pc.Copying? && |s.gs[g].pc.copied| == |s.mem|
    case Tick(to) => s.now <= to
    case Spawn(entry, _) => entry < |s.mem|
  }

  function Step(c: Config, s: State, l: Label): (s': State)
    requires WellFormed(s) && Enabled(c, s, l)
    ensures WellFormed(s') && |s'.mem| == |s.mem|
  {
    match l
    case Enter(g) =>
      var e := s.gs[g].entry;
      if !s.gs[g].force && IsFresh(c, s.mem[e], s.now) then s.(gs := SetPC(s.gs, g, Finished(Fresh)))
      else if !c.hasRefresher then s.(gs := SetPC(s.gs, g, Finished(NoRefresher)))
      else s.(gs := SetPC(s.gs, g, Refreshing), entryLock := s.entryLock[e := Some(g)])
    case RefreshOk(g, token, refreshToken, expiresAtMs) =>
      var e := s.gs[g].entry;
      s.(mem := s.mem[e := WithToken(s.mem[e], token, refreshToken, expiresAtMs)],
         refreshes := s.refreshes[e := s.refreshes[e] + 1],
         entryLock := s.entryLock[e := None],
         gs := SetPC(s.gs, g, if c.hasStore then WantPersist else Finished(Refreshed)))
    case RefreshErr(g) =>
      s.(entryLock := s.entryLock[s.gs[g].entry := None], gs := SetPC(s.gs, g, Finished(RefreshFailed)))
    case LockPersist(g) =>
      s.(persistLock := Some(g), gs := SetPC(s.gs, g, Copying([])))
    case CopyOne(g) =>
      var copied := s.gs[g].pc.copied;
      s.(gs := SetPC(s.gs, g, Copying(copied + [s.mem[|copied|]])))
    case Replace(g, write) =>
      var copied := s.gs[g].pc.copied;
      var r := s.(persistLock := None,
                  gs := SetPC(s.gs, g,
                      Finished(if AllValid(copied) && write == Saved then Refreshed else PersistFailed)));
      if AllValid(copied) && write != NotWritten then r.(file := copied, saved := true, unsaved := {})
      else r.(unsaved := s.unsaved + {s.gs[g].entry})
    case Tick(to) => s.(now := to)
    case Spawn(entry, force) => s.(gs := s.gs + [Goroutine(entry, force, Waiting)])
  }

  // The pool right after New: no goroutine has started.
  predicate Init(s: State) {
    && WellFormed(s) && s.gs == [] && s.persistLock == None && !s.saved && s.unsaved == {}
    && (forall i :: 0 <= i < |s.mem| ==> s.entryLock[i] == None && s.refreshes[i] == 0)
    && AllValid(s.mem)
  }

  // Moreover no two accounts share an ID, and every one is in the file it was loaded from, in
  // whatever order the file lists them.
  predicate Loaded(s: State) {
    && DistinctIds(s.mem)
    && forall i :: 0 <= i < |s.mem| ==> Lookup(s.file, s.mem[i].id) == Some(s.mem[i])
  }

  /** s' is reached from s by the labels, in order, each enabled when it is taken. */
  ghost predicate Run(c: Config, s: State, labels: seq<Label>, s': State)
    requires WellFormed(s)
    decreases |labels|
  {
    if labels == [] then s' == s
    else Enabled(c, s, labels[0]) && Run(c, Step(c, s, labels[0]), labels[1..], s')
  }

  predicate Quiescent(s: State) {
    forall g :: 0 <= g < |s.gs| ==> s.gs[g].pc.Finished?
  }

  // ---------------------------------------------------------------- locks

  // Entry mutexes: held by exactly the goroutines inside Refresh, each on its own entry.
  predicate HoldsEntry(s: State, g: nat)
    requires WellFormed(s) && g < |s.gs|
  {
    s.gs[g].pc.Refreshing? ==> s.entryLock[s.gs[g].entry] == Some(g)
  }

  predicate EntryHeld(s: State, e: nat)
    requires WellFormed(s) && e < |s.mem|
  {
    s.entryLock[e].Some? ==>
      var g := s.entryLock[e].value;
      g < |s.gs| && s.gs[g].pc.Refreshing? && s.gs[g].entry == e
  }

  ghost predicate EntryLocks(s: State)
    requires WellFormed(s)
  {
    && (forall g :: 0 <= g < |s.gs| ==> HoldsEntry(s, g))
    && (forall e :: 0 <= e < |s.mem| ==> EntryHeld(s, e))
  }

  // persistMu: held by exactly the goroutine that is copying.
  ghost predicate PersistLock(s: State) {
    && (forall g :: 0 <= g < |s.gs| && s.gs[g].pc.Copying? ==> s.persistLock == Some(g))
    && (s.persistLock.Some? ==> s.persistLock.value < |s.gs| && s.gs[s.persistLock.value].pc.Copying?)
  }

  function Actor(l: Label): Option<nat> {
    match l
    case Tick(_) => None
    case Spawn(_, _) => None
    case _ => Some(l.g)
  }

  // A step moves one goroutine and touches no other.
  lemma OthersStay(c: Config, s: State, l: Label)
    requires WellFormed(s) && Enabled(c, s, l)
    ensures var s' := Step(c, s, l);
            |s'.gs| >= |s.gs| &&
            (forall g :: 0 <= g < |s.gs| && Actor(l) != Some(g) ==> s'.gs[g] == s.gs[g]) &&
            (forall g :: |s.gs| <= g < |s'.gs| ==> s'.gs[g].pc.Waiting?) &&
            (Actor(l).Some? ==> |s'.gs| == |s.gs| && s'.gs[Actor(l).value].entry == s.gs[Actor(l).value].entry)
  {
  }

  lemma EntryLocksKept(c: Config, s: State, l: Label)
    requires WellFormed(s) && EntryLocks(s) && Enabled(c, s, l)
    ensures EntryLocks(Step(c, s, l))
  {
    var s' := Step(c, s, l);
    OthersStay(c, s, l);
    forall g | 0 <= g < |s'.gs| ensures HoldsEntry(s', g) {
      if g < |s.gs| {
        assert HoldsEntry(s, g);
        if Actor(l).Some? {
          assert HoldsEntry(s, Actor(l).value);
        }
      }
    }
    forall e | 0 <= e < |s'.mem| ensures EntryHeld(s', e) {
      assert EntryHeld(s, e);
      if Actor(l).Some? {
        assert HoldsEntry(s, Actor(l).value);
      }
    }
  }

  lemma PersistLockKept(c: Config, s: State, l: Label)
    requires WellFormed(s) && PersistLock(s) && Enabled(c, s, l)
    ensures PersistLock(Step(c, s, l))
  {
    OthersStay(c, s, l);
  }

  // ---------------------------------------------------------------- no refreshed token is lost

  // The file holds entry i in its place; before the first write, the entry is as it was loaded.
  predicate Matches(s: State, i: nat)
    requires WellFormed(s) && i < |s.mem|
  {
    if s.saved then |s.file| == |s.mem| && s.file[i] == s.mem[i] else s.refreshes[i] == 0
  }

  // Goroutine g has updated entry i and the snapshot it is going to write contains that update.
  predicate Owes(s: State, g: nat, i: nat)
    requires g < |s.gs| && i < |s.mem|
  {
    s.gs[g].entry == i &&
    match s.gs[g].pc
    case WantPersist => true
    case Copying(copied) => |copied| <= i || copied[i] == s.mem[i]
    case _ => false
  }

  // No snapshot being copied would put an outdated account for entry i into the file.
  predicate CopiesCurrent(s: State, i: nat)
    requires i < |s.mem|
  {
    forall g :: 0 <= g < |s.gs| && s.gs[g].pc.Copying? && i < |s.gs[g].pc.copied| ==>
      s.gs[g].pc.copied[i] == s.mem[i]
  }

  ghost predicate Safe(s: State, i: nat)
    requires WellFormed(s) && i < |s.mem|
  {
    || (exists g :: 0 <= g < |s.gs| && Owes(s, g, i))
    || (CopiesCurrent(s, i) && (Matches(s, i) || i in s.unsaved))
  }

  predicate SameIds(xs: seq<Account>, ys: seq<Account>) {
    |xs| <= |ys| && forall k :: 0 <= k < |xs| ==> xs[k].id == ys[k].id
  }

  predicate GoodCopy(s: State, g: nat)
    requires g < |s.gs|
  {
    s.gs[g].pc.Copying? ==> AllValid(s.gs[g].pc.copied) && SameIds(s.gs[g].pc.copied, s.mem)
  }

  ghost predicate Data(s: State) {
    && AllValid(s.mem) && (s.saved ==> SameIds(s.file, s.mem) && |s.file| == |s.mem|)
    && forall g :: 0 <= g < |s.gs| ==> GoodCopy(s, g)
  }

  ghost predicate Inv(s: State) {
    && WellFormed(s) && EntryLocks(s) && PersistLock(s) && Data(s)
    && forall i :: 0 <= i < |s.mem| ==> Safe(s, i)
  }

  // No step changes an ID or makes an account invalid.
  lemma AccountsKept(c: Config, s: State, l: Label)
    requires WellFormed(s) && AllValid(s.mem) && Enabled(c, s, l)
    ensures var s' := Step(c, s, l);
            AllValid(s'.mem) && SameIds(s'.mem, s.mem) && SameIds(s.mem, s'.mem)
  {
  }

  lemma CopyKept(c: Config, s: State, l: Label, g: nat)
    requires WellFormed(s) && AllValid(s.mem) && Enabled(c, s, l) && g < |Step(c, s, l).gs|
    requires g < |s.gs| ==> GoodCopy(s, g)
    ensures GoodCopy(Step(c, s, l), g)
  {
    AccountsKept(c, s, l);
    OthersStay(c, s, l);
  }

  lemma FileKept(c: Config, s: State, l: Label)
    requires WellFormed(s) && Data(s) && Enabled(c, s, l)
    ensures var s' := Step(c, s, l);
            s'.saved ==> SameIds(s'.file, s'.mem) && |s'.file| == |s'.mem|
  {
    AccountsKept(c, s, l);
    if l.Replace? {
      assert GoodCopy(s, l.g);
    }
  }

  lemma DataKept(c: Config, s: State, l: Label)
    requires WellFormed(s) && Data(s) && Enabled(c, s, l)
    ensures Data(Step(c, s, l))
  {
    AccountsKept(c, s, l);
    FileKept(c, s, l);
    forall g | 0 <= g < |Step(c, s, l).gs| ensures GoodCopy(Step(c, s, l), g) {
      CopyKept(c, s, l, g);
    }
  }

  // Entry i stays safe when the step neither updates it nor writes the file.
  lemma SafeByOthers(c: Config, s: State, l: Label, i: nat)
    requires WellFormed(s) && PersistLock(s) && Enabled(c, s, l) && i < |s.mem| && Safe(s, i)
    requires !l.Replace? && !(l.RefreshOk? && s.gs[l.g].entry == i)
    ensures Safe(Step(c, s, l), i)
  {
    if g :| 0 <= g < |s.gs| && Owes(s, g, i) {
      OwesKept(c, s, l, g, i);
    } else {
      CopiesKept(c, s, l, i);
    }
  }

  lemma OwesKept(c: Config, s: State, l: Label, g: nat, i: nat)
    requires WellFormed(s) && PersistLock(s) && Enabled(c, s, l) && i < |s.mem| && g < |s.gs| && Owes(s, g, i)
    requires !l.Replace? && !(l.RefreshOk? && s.gs[l.g].entry == i)
    ensures g < |Step(c, s, l).gs| && Owes(Step(c, s, l), g, i)
  {
  }

  lemma CopiesKept(c: Config, s: State, l: Label, i: nat)
    requires WellFormed(s) && Enabled(c, s, l) && i < |s.mem| && CopiesCurrent(s, i)
    requires !l.Replace? && !(l.RefreshOk? && s.gs[l.g].entry == i)
    ensures var s' := Step(c, s, l);
            CopiesCurrent(s', i) && (Matches(s', i) <==> Matches(s, i)) && s'.unsaved == s.unsaved
  {
    OthersStay(c, s, l);
  }

  // The updater of entry i owes a write until it makes one.
  lemma SafeByUpdate(c: Config, s: State, l: Label)
    requires c.hasStore && WellFormed(s) && l.RefreshOk? && Enabled(c, s, l)
    ensures Safe(Step(c, s, l), s.gs[l.g].entry)
  {
    assert Owes(Step(c, s, l), l.g, s.gs[l.g].entry);
  }

  lemma SafeByReplace(c: Config, s: State, l: Label, i: nat)
    requires WellFormed(s) && PersistLock(s) && Data(s) && l.Replace? && Enabled(c, s, l)
    requires i < |s.mem| && Safe(s, i)
    ensures Safe(Step(c, s, l), i)
  {
    var s' := Step(c, s, l);
    OthersStay(c, s, l);
    var copied := s.gs[l.g].pc.copied;
    assert GoodCopy(s, l.g);
    if g :| 0 <= g < |s.gs| && g != l.g && Owes(s, g, i) {
      assert Owes(s', g, i);
    } else {
      assert copied[i] == s.mem[i];
    }
  }

  lemma InvKept(c: Config, s: State, l: Label)
    requires c.hasStore && Inv(s) && Enabled(c, s, l)
    ensures Inv(Step(c, s, l))
  {
    EntryLocksKept(c, s, l);
    PersistLockKept(c, s, l);
    DataKept(c, s, l);
    forall i | 0 <= i < |s.mem| ensures Safe(Step(c, s, l), i) {
      if l.Replace? {
        SafeByReplace(c, s, l, i);
      } else if l.RefreshOk? && s.gs[l.g].entry == i {
        SafeByUpdate(c, s, l);
      } else {
        SafeByOthers(c, s, l, i);
      }
    }
  }

  lemma {:induction false} InvAlong(c: Config, s: State, labels: seq<Label>, s': State)
    requires c.hasStore && Inv(s) && Run(c, s, labels, s')
    ensures Inv(s')
    decreases |labels|
  {
    if labels != [] {
      InvKept(c, s, labels[0]);
      InvAlong(c, Step(c, s, labels[0]), labels[1..], s');
    }
  }
}
