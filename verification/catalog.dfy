// The model catalog: one snapshot with a time to live, shared by all requests, and a degraded
// fallback (internal/qoder/catalog.go).

module Catalog {
  import opened Wrappers
  import Sorting

  datatype Model = Model(
    id: string,
    upstreamKey: string,
    displayName: string,
    isVL: bool,
    isReasoning: bool,
    source: string,
    contextWindow: int
  )

  // None is the zero time.Time.
  datatype Snapshot = Snapshot(
    models: seq<Model>,
    fetchedAt: Option<int>,
    accountId: string,
    degraded: bool,
    lastError: string
  )

  datatype FetchResult = Fetched(models: seq<Model>) | FetchFailed(message: string)

  // What Get returns: a snapshot, and an error or none.
  datatype Return = Return(snapshot: Snapshot, error: Option<string>)

  const EMPTY := Snapshot([], None, "", false, "")
  const LITE := Model("lite", "lite", "Lite", false, false, "system", 180000)

  predicate Fresh(s: Snapshot, id: string, now: int, ttl: int) {
    s.models != [] && s.accountId == id && !s.degraded && s.fetchedAt.Some? && now - s.fetchedAt.value < ttl
  }

  // The locked part of Get, after the fetch.
  function Committed(s: Snapshot, id: string, f: FetchResult, now: int): Return {
    var message := if f.FetchFailed? then f.message else "";
    if f.Fetched? && f.models != [] then Return(Snapshot(f.models, Some(now), id, false, ""), None)
    else if s.models != [] && !s.degraded then Return(s.(lastError := message), None)
    else Return(Snapshot([LITE], Some(now), id, true, message), if f.FetchFailed? then Some(message) else None)
  }

  // ---------------------------------------------------------------- building the list

  // An entry of the wire format; Unreadable does not decode.
  datatype WireEntry =
    | Unreadable
    | WireEntry(key: string, enable: bool, displayName: string, maxInput: int, options: seq<int>,
                isVL: bool, isReasoning: bool, hasThinking: bool, source: string)

  predicate Usable(w: WireEntry) {
    w.WireEntry? && w.enable && w.key != ""
  }

  // m is the model that a usable entry describes.
  predicate Describes(w: WireEntry, m: Model)
    requires Usable(w)
  {
    && m.id == m.upstreamKey == w.key
    && m.displayName == (if w.displayName == "" then w.key else w.displayName)
    && m.isVL == w.isVL && m.isReasoning == (w.isReasoning || w.hasThinking) && m.source == w.source
    && if forall k :: 0 <= k < |w.options| ==> w.options[k] <= 0 then m.contextWindow == w.maxInput
       else m.contextWindow in w.options && forall k :: 0 <= k < |w.options| ==> w.options[k] <= m.contextWindow
  }

  // Positions of the usable entries.
  function UsableAt(entries: seq<WireEntry>): (r: seq<nat>)
    ensures forall i :: 0 <= i < |r| ==> r[i] < |entries| && Usable(entries[r[i]])
  {
    if entries == [] then []
    else UsableAt(entries[..|entries| - 1]) + if Usable(entries[|entries| - 1]) then [|entries| - 1] else []
  }

  method LargestWindow(options: seq<int>, maxInput: int) returns (window: int)
    ensures if forall k :: 0 <= k < |options| ==> options[k] <= 0 then window == maxInput
            else window in options && forall k :: 0 <= k < |options| ==> options[k] <= window
  {
    window := 0;
    for k := 0 to |options|
      invariant window >= 0 && (window == 0 || window in options)
      invariant forall j :: 0 <= j < k ==> options[j] <= window
    {
      if options[k] > window {
        window := options[k];
      }
    }
    if window == 0 {
      window := maxInput;
    }
  }

  method BuildModel(w: WireEntry) returns (m: Model)
    requires Usable(w)
    ensures Describes(w, m)
  {
    var window := LargestWindow(w.options, w.maxInput);
    var display := w.displayName;
    if display == "" {
      display := w.key;
    }
    m := Model(w.key, w.key, display, w.isVL, w.isReasoning || w.hasThinking, w.source, window);
  }

  // One model for each usable entry, in their order.
  ghost predicate Lists(entries: seq<WireEntry>, models: seq<Model>) {
    |models| == |UsableAt(entries)| &&
    forall i :: 0 <= i < |models| ==> Describes(entries[UsableAt(entries)[i]], models[i])
  }

  lemma ListsOneMore(entries: seq<WireEntry>, models: seq<Model>, w: WireEntry, m: Model)
    requires Lists(entries, models) && (Usable(w) ==> Describes(w, m))
    ensures Lists(entries + [w], if Usable(w) then models + [m] else models)
  {
    hide Describes, Usable;
    assert (entries + [w])[..|entries|] == entries;
  }

  lemma {:induction false} ListsNothing(entries: seq<WireEntry>)
    ensures UsableAt(entries) == [] <==> forall i :: 0 <= i < |entries| ==> !Usable(entries[i])
  {
    hide Usable;
    if entries != [] {
      ListsNothing(entries[..|entries| - 1]);
    }
  }

  function Id(m: Model): string {
    m.id
  }

  // The same models in the order of their IDs.
  ghost predicate IsSorting(models: seq<Model>, r: seq<Model>) {
    multiset(r) == multiset(models) && |r| == |models| && Sorting.Ordered(r, Id)
  }

  /** One model for each usable entry, sorted by ID, and an error if there is none. */
  method BuildModels(entries: seq<WireEntry>) returns (r: FetchResult)
    ensures r.Fetched? <==> exists i :: 0 <= i < |entries| && entries[i].WireEntry? && entries[i].enable &&
                                        entries[i].key != ""
    ensures r.Fetched? ==> r.models != [] && exists listed :: Lists(entries, listed) && IsSorting(listed, r.models)
  {
    hide Describes, Sorting.Ordered, Sorting.Sorted;
    var models: seq<Model> := [];
    for k := 0 to |entries|
      invariant Lists(entries[..k], models)
    {
      assert entries[..k + 1] == entries[..k] + [entries[k]];
      if Usable(entries[k]) {
        var m := BuildModel(entries[k]);
        ListsOneMore(entries[..k], models, entries[k], m);
        models := models + [m];
      } else {
        ListsOneMore(entries[..k], models, entries[k], LITE);
      }
    }
    assert entries[..|entries|] == entries;
    ListsNothing(entries);
    if |models| == 0 {
      return FetchFailed("model catalog contained no enabled models");
    }
    Sorting.SortedIsOrdered(models, Id);
    r := Fetched(Sorting.Sorted(models, Id));
  }

  // ---------------------------------------------------------------- interleaved calls of Get

  // A hit re-reads the snapshot after the lock was dropped, a miss fetches without the lock.
  datatype PC = Check | Hit | Fetch | Write(f: FetchResult) | Done(r: Return)

  datatype Getter = Getter(id: string, pc: PC)
  datatype State = State(snapshot: Snapshot, getters: seq<Getter>)
  datatype Label = Label(who: nat, now: int, fetched: FetchResult)

  function Step(s: State, l: Label, ttl: int): (r: State)
    ensures |r.getters| == |s.getters|
  {
    if l.who >= |s.getters| then s
    else
      var g := s.getters[l.who];
      match g.pc
      case Check =>
        s.(getters := s.getters[l.who := g.(pc := if Fresh(s.snapshot, g.id, l.now, ttl) then Hit else Fetch)])
      case Hit => s.(getters := s.getters[l.who := g.(pc := Done(Return(s.snapshot, None)))])
      case Fetch => s.(getters := s.getters[l.who := g.(pc := Write(l.fetched))])
      case Write(f) =>
        var r := Committed(s.snapshot, g.id, f, l.now);
        State(r.snapshot, s.getters[l.who := g.(pc := Done(r))])
      case Done(_) => s
  }

  function Run(s: State, schedule: seq<Label>, ttl: int): (r: State)
    ensures |r.getters| == |s.getters|
  {
    if schedule == [] then s
    else Step(Run(s, schedule[..|schedule| - 1], ttl), schedule[|schedule| - 1], ttl)
  }

  predicate Initial(s: State) {
    s.snapshot == EMPTY && forall i :: 0 <= i < |s.getters| ==> s.getters[i].pc == Check
  }

  // A successful fetch that was written into the snapshot.
  datatype Commit = Commit(id: string, models: seq<Model>, at: int)

  predicate Commits(s: State, l: Label) {
    l.who < |s.getters| && s.getters[l.who].pc.Write? &&
    s.getters[l.who].pc.f.Fetched? && s.getters[l.who].pc.f.models != []
  }

  function LastCommit(s: State, schedule: seq<Label>, ttl: int): (c: Option<Commit>)
    ensures c.Some? ==> c.value.models != []
  {
    if schedule == [] then None
    else
      var before := Run(s, schedule[..|schedule| - 1], ttl);
      var l := schedule[|schedule| - 1];
      if Commits(before, l) then Some(Commit(before.getters[l.who].id, before.getters[l.who].pc.f.models, l.now))
      else LastCommit(s, schedule[..|schedule| - 1], ttl)
  }

  // The snapshot shows exactly that commit, or, when there is none, nothing but the fallback.
  predicate Shows(snapshot: Snapshot, c: Option<Commit>) {
    match c
    case None => snapshot == EMPTY || (snapshot.degraded && snapshot.models == [LITE])
    case Some(x) =>
      !snapshot.degraded && snapshot.models == x.models && snapshot.accountId == x.id &&
      snapshot.fetchedAt == Some(x.at)
  }

  predicate Waits(snapshot: Snapshot, g: Getter) {
    g.pc == Hit ==> snapshot.models != [] && !snapshot.degraded
  }

  lemma StepShows(s: State, l: Label, ttl: int, c: Option<Commit>)
    requires Shows(s.snapshot, c) && (c.Some? ==> c.value.models != [])
    requires forall i :: 0 <= i < |s.getters| ==> Waits(s.snapshot, s.getters[i])
    ensures var r := Step(s, l, ttl);
            && Shows(r.snapshot,
                     if Commits(s, l) then Some(Commit(s.getters[l.who].id, s.getters[l.who].pc.f.models, l.now))
                     else c)
            && forall i :: 0 <= i < |r.getters| ==> Waits(r.snapshot, r.getters[i])
  {
  }

  /** In every interleaving the snapshot is exactly the last list that any call fetched and
      wrote, with its account and time; it is empty or degraded only as long as no fetch has
      succeeded, and a call that saw a fresh snapshot never waits for a list that is gone. */
  lemma {:induction false} SnapshotIsLastCommit(s: State, schedule: seq<Label>, ttl: int)
    requires Initial(s)
    ensures var r := Run(s, schedule, ttl);
            && Shows(r.snapshot, LastCommit(s, schedule, ttl))
            && forall i :: 0 <= i < |r.getters| ==> Waits(r.snapshot, r.getters[i])
  {
    hide Shows;
    if schedule == [] {
      assert Shows(EMPTY, None) by {
        EmptyShows();
      }
    } else {
      hide Step, Waits;
      var earlier := schedule[..|schedule| - 1];
      SnapshotIsLastCommit(s, earlier, ttl);
      StepShows(Run(s, earlier, ttl), schedule[|schedule| - 1], ttl, LastCommit(s, earlier, ttl));
    }
  }

  lemma EmptyShows()
    ensures Shows(EMPTY, None)
  {
  }

  lemma {:induction false} CommitsLast(s: State, schedule: seq<Label>, more: seq<Label>, ttl: int)
    ensures LastCommit(s, schedule, ttl).Some? ==> LastCommit(s, schedule + more, ttl).Some?
    decreases |more|
  {
    if more == [] {
      assert schedule + more == schedule;
    } else {
      assert (schedule + more)[..|schedule + more| - 1] == schedule + more[..|more| - 1];
      CommitsLast(s, schedule, more[..|more| - 1], ttl);
    }
  }

  /** Once any fetch has succeeded, no continuation makes the snapshot degraded or empty again. */
  lemma NeverFallsBack(s: State, schedule: seq<Label>, more: seq<Label>, ttl: int)
    requires Initial(s) && LastCommit(s, schedule, ttl).Some?
    ensures var r := Run(s, schedule + more, ttl).snapshot; !r.degraded && r.models != []
  {
    hide Run, LastCommit;
    CommitsLast(s, schedule, more, ttl);
    SnapshotIsLastCommit(s, schedule + more, ttl);
  }

  predicate Chronological(schedule: seq<Label>) {
    forall i, j :: 0 <= i < j < |schedule| ==> schedule[i].now <= schedule[j].now
  }

  predicate NotAfter(t: Option<int>, u: Option<int>) {
    t.Some? ==> u.Some? && t.value <= u.value
  }

  lemma {:induction false} FetchedInThePast(s: State, schedule: seq<Label>, ttl: int)
    requires Initial(s) && schedule != [] && Chronological(schedule)
    ensures NotAfter(Run(s, schedule, ttl).snapshot.fetchedAt, Some(schedule[|schedule| - 1].now))
  {
    if |schedule| > 1 {
      FetchedInThePast(s, schedule[..|schedule| - 1], ttl);
    } else {
      assert schedule[..0] == [];
      assert Run(s, schedule[..0], ttl) == s;
    }
  }

  /** Under a clock that never runs backwards the time of the snapshot never decreases. */
  lemma {:induction false} FetchedAtNeverDecreases(s: State, schedule: seq<Label>, more: seq<Label>, ttl: int)
    requires Initial(s) && Chronological(schedule + more)
    ensures NotAfter(Run(s, schedule, ttl).snapshot.fetchedAt, Run(s, schedule + more, ttl).snapshot.fetchedAt)
    decreases |more|
  {
    var all := schedule + more;
    if more == [] {
      assert all == schedule;
    } else {
      var earlier := schedule + more[..|more| - 1];
      assert all[..|all| - 1] == earlier;
      FetchedAtNeverDecreases(s, schedule, more[..|more| - 1], ttl);
      if earlier != [] {
        FetchedInThePast(s, earlier, ttl);
        assert all[|earlier| - 1] == earlier[|earlier| - 1];
      }
    }
  }

  /** What a call returns, in every interleaving: at least one model; the fallback only when no
      fetch has succeeded up to that moment, otherwise the list fetched last, whoever fetched it. */
  lemma EveryGetReturnsModels(s: State, schedule: seq<Label>, l: Label, ttl: int)
    requires Initial(s) && l.who < |s.getters|
    requires !Run(s, schedule, ttl).getters[l.who].pc.Done?
    ensures var g := Run(s, schedule + [l], ttl).getters[l.who];
            g.pc.Done? ==> g.pc.r.snapshot.models != [] && Shows(g.pc.r.snapshot, LastCommit(s, schedule + [l], ttl))
  {
    var all := schedule + [l];
    assert all[..|all| - 1] == schedule;
    SnapshotIsLastCommit(s, schedule, ttl);
    SnapshotIsLastCommit(s, all, ttl);
    var before := Run(s, schedule, ttl);
    assert Run(s, all, ttl) == Step(before, l, ttl);
    hide Run, LastCommit, Shows, Initial, Fresh;
    assert Waits(before.snapshot, before.getters[l.who]);
  }

  // The message of the last fetch that was written, empty if it worked.
  function LastMessage(s: State, schedule: seq<Label>, ttl: int): string {
    if schedule == [] then ""
    else
      var before := Run(s, schedule[..|schedule| - 1], ttl);
      var l := schedule[|schedule| - 1];
      if l.who < |before.getters| && before.getters[l.who].pc.Write? then
        match before.getters[l.who].pc.f
        case Fetched(_) => ""
        case FetchFailed(message) => message
      else LastMessage(s, schedule[..|schedule| - 1], ttl)
  }

  /** Failures are reported, in every interleaving: the snapshot carries the message of the last
      fetch that was written, and a call that writes returns an error if and only if its own fetch
      failed and none has succeeded, with that message. A call that hits returns none. */
  lemma {:induction false} FailuresAreReported(s: State, schedule: seq<Label>, l: Label, ttl: int)
    requires Initial(s) && l.who < |s.getters|
    ensures Run(s, schedule, ttl).snapshot.lastError == LastMessage(s, schedule, ttl)
    ensures var before, after := Run(s, schedule, ttl).getters[l.who], Run(s, schedule + [l], ttl).getters[l.who];
            match before.pc
            case Write(f) =>
              && after.pc.Done?
              && (after.pc.r.error.Some? <==> f.FetchFailed? && LastCommit(s, schedule, ttl).None?)
              && (after.pc.r.error.Some? ==> after.pc.r.error == Some(f.message))
            case Hit => after.pc.Done? && after.pc.r.error == None
            case _ => !after.pc.Done? || after == before
    decreases |schedule|
  {
    assert (schedule + [l])[..|schedule|] == schedule;
    SnapshotIsLastCommit(s, schedule, ttl);
    if schedule != [] {
      var n := |schedule| - 1;
      FailuresAreReported(s, schedule[..n], l, ttl);
      SnapshotIsLastCommit(s, schedule[..n], ttl);
    }
  }

  // ---------------------------------------------------------------- what a hit returns

  // What a call finds that reads the snapshot after `more`, having seen a fresh one in s.
  lemma {:induction false} SnapshotAfter(s: State, more: seq<Label>, ttl: int)
    requires s.snapshot.models != [] && !s.snapshot.degraded
    ensures var r, c := Run(s, more, ttl).snapshot, LastCommit(s, more, ttl);
            && r.models != [] && !r.degraded
            && r.accountId == (if c.Some? then c.value.id else s.snapshot.accountId)
            && r.models == (if c.Some? then c.value.models else s.snapshot.models)
  {
    if more != [] {
      SnapshotAfter(s, more[..|more| - 1], ttl);
      hide Run, LastCommit;
    }
  }

  lemma {:induction false} IdleStays(s: State, more: seq<Label>, ttl: int, i: nat)
    requires i < |s.getters| && forall k :: 0 <= k < |more| ==> more[k].who != i
    ensures Run(s, more, ttl).getters[i] == s.getters[i]
  {
    if more != [] {
      IdleStays(s, more[..|more| - 1], ttl, i);
    }
  }

  /** A hit, exactly: a call that finds its account's list fresh and reads the snapshot again
      after other calls have run `more` returns its own account's list if and only if nothing was
      written in between, or the last list written was fetched for the same account. */
  lemma {:induction false} HitIsOwnIff(s: State, i: nat, l: Label, more: seq<Label>, l2: Label, ttl: int)
    requires i < |s.getters| && s.getters[i].pc == Check && l.who == l2.who == i
    requires Fresh(s.snapshot, s.getters[i].id, l.now, ttl)
    requires forall k :: 0 <= k < |more| ==> more[k].who != i
    ensures var seen := Step(s, l, ttl);
            var g := Step(Run(seen, more, ttl), l2, ttl).getters[i];
            var c := LastCommit(seen, more, ttl);
            && g.pc.Done? && g.pc.r.error.None?
            && g.pc.r.snapshot.models == (if c.Some? then c.value.models else s.snapshot.models)
            && (g.pc.r.snapshot.accountId == g.id <==> c.None? || c.value.id == g.id)
  {
    var seen := Step(s, l, ttl);
    assert seen == s.(getters := seen.getters) && seen.getters[i] == s.getters[i].(pc := Hit);
    SnapshotAfter(seen, more, ttl);
    IdleStays(seen, more, ttl, i);
    hide Run, LastCommit;
  }

  // Two requests for account a and one for b; the second one for a is overtaken by the one for b.
  function Overtaken(a: string, b: string): State {
    State(EMPTY, [Getter(a, Check), Getter(a, Check), Getter(b, Check)])
  }

  function Overtaking(ma: seq<Model>, mb: seq<Model>): seq<Label> {
    [Label(0, 0, Fetched(ma)), Label(0, 0, Fetched(ma)), Label(0, 0, Fetched(ma)), Label(1, 0, Fetched(ma)),
     Label(2, 0, Fetched(mb)), Label(2, 0, Fetched(mb)), Label(2, 0, Fetched(mb)), Label(1, 0, Fetched(mb))]
  }

  lemma RunStep(s: State, schedule: seq<Label>, k: nat, ttl: int)
    requires k < |schedule|
    ensures Run(s, schedule[..k + 1], ttl) == Step(Run(s, schedule[..k], ttl), schedule[k], ttl)
  {
    assert schedule[..k + 1][..k] == schedule[..k];
  }

  // The first request fetches and writes, and the second one finds its list fresh.
  lemma FirstHalf(a: string, b: string, ma: seq<Model>, mb: seq<Model>, ttl: int)
    requires ma != [] && ttl > 0
    ensures var r := Run(Overtaken(a, b), Overtaking(ma, mb)[..4], ttl);
            && r.snapshot == Snapshot(ma, Some(0), a, false, "")
            && |r.getters| == 3 && r.getters[1] == Getter(a, Hit) && r.getters[2] == Getter(b, Check)
  {
    var s, c := Overtaken(a, b), Overtaking(ma, mb);
    RunStep(s, c, 0, ttl);
    RunStep(s, c, 1, ttl);
    RunStep(s, c, 2, ttl);
    RunStep(s, c, 3, ttl);
    assert c[..0] == [];
    hide Run;
    assert Run(s, c[..0], ttl) == s by {
      RunNothing(s, ttl);
    }
  }

  lemma RunNothing(s: State, ttl: int)
    ensures Run(s, [], ttl) == s
  {
  }

  /** Between the check and the second read another call may write, so a fresh hit for one
      account can return the list of another one: for any two accounts there is such a run. */
  lemma HitMayReturnAnotherList(a: string, b: string, ma: seq<Model>, mb: seq<Model>, ttl: int)
    requires a != b && ma != [] && mb != [] && ttl > 0
    ensures Initial(Overtaken(a, b)) && Chronological(Overtaking(ma, mb))
    ensures var r := Run(Overtaken(a, b), Overtaking(ma, mb), ttl);
            r.getters[1] == Getter(a, Done(Return(Snapshot(mb, Some(0), b, false, ""), None)))
  {
    var s, c := Overtaken(a, b), Overtaking(ma, mb);
    FirstHalf(a, b, ma, mb, ttl);
    RunStep(s, c, 4, ttl);
    RunStep(s, c, 5, ttl);
    RunStep(s, c, 6, ttl);
    RunStep(s, c, 7, ttl);
    assert c[..8] == c;
    hide Run;
  }

  // ---------------------------------------------------------------- one call after the other

  // An uninterrupted Get: the check at `now`, the write at `later`.
  function Got(s: Snapshot, id: string, now: int, f: FetchResult, later: int, ttl: int): Return {
    if Fresh(s, id, now, ttl) then Return(s, None) else Committed(s, id, f, later)
  }

  /** A call that nothing interrupts is a run of the protocol. */
  lemma GetIsARun(s: State, i: nat, now: int, f: FetchResult, later: int, ttl: int)
    requires i < |s.getters| && s.getters[i].pc == Check
    ensures var r := Step(Step(Step(s, Label(i, now, f), ttl), Label(i, now, f), ttl), Label(i, later, f), ttl);
            var expected := Got(s.snapshot, s.getters[i].id, now, f, later, ttl);
            r == State(expected.snapshot, s.getters[i := s.getters[i].(pc := Done(expected))])
  {
  }

  datatype Call = Call(id: string, now: int, fetched: FetchResult, later: int)

  function After(calls: seq<Call>, ttl: int): Snapshot {
    if calls == [] then EMPTY
    else
      var c := calls[|calls| - 1];
      Got(After(calls[..|calls| - 1], ttl), c.id, c.now, c.fetched, c.later, ttl).snapshot
  }

  // The list fetched last, found without looking at any snapshot: a call fetches unless the
  // list fetched last is its own account's and younger than the time to live.
  function LastFetched(calls: seq<Call>, ttl: int): Option<Commit> {
    if calls == [] then None
    else
      var before := LastFetched(calls[..|calls| - 1], ttl);
      var c := calls[|calls| - 1];
      if Current(before, c.id, c.now, ttl) then before
      else if c.fetched.Fetched? && c.fetched.models != [] then Some(Commit(c.id, c.fetched.models, c.later))
      else before
  }

  predicate Current(c: Option<Commit>, id: string, now: int, ttl: int) {
    c.Some? && c.value.id == id && now - c.value.at < ttl
  }

  /** Run one after the other, a call is a hit exactly when the list fetched last belongs to its
      account and is within its time to live, and it then returns exactly that list. */
  lemma {:induction false} HitReturnsTheLastFetch(calls: seq<Call>, id: string, now: int, ttl: int)
    ensures Shows(After(calls, ttl), LastFetched(calls, ttl))
    ensures LastFetched(calls, ttl).Some? ==> LastFetched(calls, ttl).value.models != []
    ensures Fresh(After(calls, ttl), id, now, ttl) <==> Current(LastFetched(calls, ttl), id, now, ttl)
  {
    if calls != [] {
      var c := calls[|calls| - 1];
      HitReturnsTheLastFetch(calls[..|calls| - 1], c.id, c.now, ttl);
    }
  }

  // ---------------------------------------------------------------- the object

  class Catalog {
    const ttl: int
    var snapshot: Snapshot

    constructor (ttl: int)
      ensures this.ttl == ttl && snapshot == EMPTY
    {
      this.ttl := ttl;
      snapshot := EMPTY;
    }

    method Get(id: string, now: int, fetched: FetchResult, later: int) returns (r: Return)
      modifies this
      ensures r == Got(old(snapshot), id, now, fetched, later, ttl) && snapshot == r.snapshot
    {
      var s := snapshot;
      var isFresh := |s.models| > 0 && s.accountId == id && !s.degraded && s.fetchedAt.Some? &&
                   now - s.fetchedAt.value < ttl;
      if isFresh {
        return Return(snapshot, None);
      }
      if fetched.Fetched? && |fetched.models| > 0 {
        snapshot := Snapshot(fetched.models, Some(later), id, false, "");
        return Return(snapshot, None);
      }
      var message := if fetched.FetchFailed? then fetched.message else "";
      if |snapshot.models| > 0 && !snapshot.degraded {
        snapshot := snapshot.(lastError := message);
        return Return(snapshot, None);
      }
      snapshot := Snapshot([LITE], Some(later), id, true, message);
      r := Return(snapshot, if fetched.FetchFailed? then Some(fetched.message) else None);
    }

    /** The first model listed under that ID, if there is any. */
    method Find(id: string) returns (m: Option<Model>)
      ensures m == FirstModel(snapshot.models, id)
    {
      for i := 0 to |snapshot.models|
        invariant FirstModel(snapshot.models, id) == FirstModel(snapshot.models[i..], id)
      {
        if snapshot.models[i].id == id {
          return Some(snapshot.models[i]);
        }
        assert snapshot.models[i..][1..] == snapshot.models[i + 1..];
      }
      m := None;
    }
  }

  function FirstModel(models: seq<Model>, id: string): (m: Option<Model>)
    ensures m.None? <==> forall i :: 0 <= i < |models| ==> models[i].id != id
    ensures m.Some? ==> exists i :: 0 <= i < |models| && models[i] == m.value && m.value.id == id &&
                                    forall k :: 0 <= k < i ==> models[k].id != id
  {
    if models == [] then None
    else if models[0].id == id then Some(models[0])
    else
      var m := FirstModel(models[1..], id);
      assert m.Some? ==>
        (exists i {:trigger models[1..][i]} ::
           0 <= i < |models| - 1 && models[1..][i] == models[i + 1] == m.value &&
           forall k :: 0 <= k < i + 1 ==> models[k].id != id);
      m
  }
}
