// The account pool: entries with a lazily evaluated cooldown/disable state machine, the
// round-robin or sticky selector, and EnsureFresh as one caller runs it
// (internal/pool/pool.go). The interleaved EnsureFresh is in refresh_protocol.dfy.

module Pool {
  import opened Wrappers
  import opened Credential
  import Sorting

  datatype Health = Healthy | Cooldown | Disabled | AuthError

  // The fields of an Entry. None is the zero time.Time.
  datatype EntryVal = EntryVal(
    account: Account,
    state: Health,
    cooldownUntil: Option<int>,
    disabledUntil: Option<int>,
    transport: string,
    lastError: string
  )

  // What Snapshot hands out.
  datatype View = View(account: Account, state: Health, cooldownUntil: Option<int>, transport: string,
      lastError: string)

  const DEFAULT_COOLDOWN := 60_000_000_000
  const REFRESH_BEFORE_MS := 300_000

  function NewEntry(a: Account): EntryVal {
    EntryVal(a, Healthy, None, None, a.transport, "")
  }

  // time.Now().After(t): the zero time lies in the past.
  predicate Passed(now: int, t: Option<int>) {
    t.Some? ==> now > t.value
  }

  function Expire(v: EntryVal, now: int): EntryVal {
    if v.state == Cooldown && Passed(now, v.cooldownUntil) then v.(state := Healthy)
    else if v.state == Disabled && v.disabledUntil.Some? && Passed(now, v.disabledUntil) then
      v.(state := Healthy, disabledUntil := None)
    else v
  }

  function ViewAt(v: EntryVal, now: int): View {
    var x := Expire(v, now);
    View(x.account, x.state, x.cooldownUntil, x.transport, x.lastError)
  }

  function CooldownLength(d: int): int {
    if d <= 0 then DEFAULT_COOLDOWN else d
  }

  datatype Op =
    | OpSnapshot
    | OpAuthError
    | OpDisabled(reason: string)
    | OpCooldown(d: int)
    | OpRecover(id: string)
    | OpRefreshOk(updated: Account)
    | OpRefreshFailed
    | OpSetTransport(name: string)

  function Apply(v: EntryVal, op: Op, now: int, recovery: int): EntryVal {
    match op
    case OpSnapshot => Expire(v, now)
    case OpAuthError => v.(state := AuthError, lastError := "authentication rejected")
    case OpDisabled(reason) => v.(state := Disabled, disabledUntil := Some(now + recovery), lastError := reason)
    case OpCooldown(d) =>
      v.(state := Cooldown, cooldownUntil := Some(now + CooldownLength(d)), lastError := "rate limited")
    case OpRecover(id) =>
      if v.account.id == id then v.(state := Healthy, cooldownUntil := None, lastError := "") else v
    case OpRefreshOk(updated) => v.(account := updated, state := Healthy, lastError := "")
    case OpRefreshFailed => v.(lastError := "token refresh failed")
    case OpSetTransport(name) => v.(transport := name)
  }

  // ---------------------------------------------------------------- lazy recovery is eager

  datatype Timed = Timed(op: Op, at: int)

  function After(v: EntryVal, h: seq<Timed>, recovery: int): EntryVal {
    if h == [] then v
    else Apply(After(v, h[..|h| - 1], recovery), h[|h| - 1].op, h[|h| - 1].at, recovery)
  }

  // The clock never runs backwards along the history, and `now` is not before its end.
  predicate Chronological(h: seq<Timed>, now: int) {
    && (forall i, j :: 0 <= i < j < |h| ==> h[i].at <= h[j].at)
    && forall i :: 0 <= i < |h| ==> h[i].at <= now
  }

  /** The health an eager timer would show: the last event that set it decides, and a cooldown
      or a disablement ends by itself when its time has passed. No Snapshot is consulted. */
  function EagerHealth(v: EntryVal, h: seq<Timed>, now: int, recovery: int): Health {
    if h == [] then v.state
    else
      var last := h[|h| - 1];
      var earlier := h[..|h| - 1];
      match last.op
      case OpAuthError => AuthError
      case OpDisabled(_) => if now > last.at + recovery then Healthy else Disabled
      case OpCooldown(d) => if now > last.at + CooldownLength(d) then Healthy else Cooldown
      case OpRefreshOk(_) => Healthy
      case OpRecover(id) =>
        if EagerAccount(v, earlier).id == id then Healthy else EagerHealth(v, earlier, now, recovery)
      case _ => EagerHealth(v, earlier, now, recovery)
  }

  function EagerAccount(v: EntryVal, h: seq<Timed>): Account {
    if h == [] then v.account
    else match h[|h| - 1].op
      case OpRefreshOk(updated) => updated
      case _ => EagerAccount(v, h[..|h| - 1])
  }

  // The error last noted and not cleared since.
  function EagerError(v: EntryVal, h: seq<Timed>): string {
    if h == [] then v.lastError
    else match h[|h| - 1].op
      case OpAuthError => "authentication rejected"
      case OpDisabled(reason) => reason
      case OpCooldown(_) => "rate limited"
      case OpRefreshFailed => "token refresh failed"
      case OpRefreshOk(_) => ""
      case OpRecover(id) => if EagerAccount(v, h[..|h| - 1]).id == id then "" else EagerError(v, h[..|h| - 1])
      case _ => EagerError(v, h[..|h| - 1])
  }

  // The end of the last cooldown, also after it has passed, unless the account was recovered since.
  function EagerCooldown(v: EntryVal, h: seq<Timed>): Option<int> {
    if h == [] then v.cooldownUntil
    else match h[|h| - 1].op
      case OpCooldown(d) => Some(h[|h| - 1].at + CooldownLength(d))
      case OpRecover(id) => if EagerAccount(v, h[..|h| - 1]).id == id then None else EagerCooldown(v, h[..|h| - 1])
      case _ => EagerCooldown(v, h[..|h| - 1])
  }

  function EagerTransport(v: EntryVal, h: seq<Timed>): string {
    if h == [] then v.transport
    else match h[|h| - 1].op
      case OpSetTransport(name) => name
      case _ => EagerTransport(v, h[..|h| - 1])
  }

  // One event, as the eager timer sees it.
  lemma ApplyIsEager(x: EntryVal, op: Op, at: int, now: int, recovery: int)
    requires at <= now && (x.state == Disabled ==> x.disabledUntil.Some?)
    ensures var y := Apply(x, op, at, recovery);
            && y.account == (if op.OpRefreshOk? then op.updated else x.account)
            && (y.state == Disabled ==> y.disabledUntil.Some?)
            && Expire(y, now).state ==
               match op
               case OpAuthError => AuthError
               case OpDisabled(_) => if now > at + recovery then Healthy else Disabled
               case OpCooldown(d) => if now > at + CooldownLength(d) then Healthy else Cooldown
               case OpRefreshOk(_) => Healthy
               case OpRecover(id) => if x.account.id == id then Healthy else Expire(x, now).state
               case _ => Expire(x, now).state
  {
    hide CooldownLength;
  }

  lemma {:induction false} LazyFacts(v: EntryVal, h: seq<Timed>, now: int, recovery: int)
    requires v.state == Healthy && Chronological(h, now)
    ensures After(v, h, recovery).account == EagerAccount(v, h)
    ensures Expire(After(v, h, recovery), now).state == EagerHealth(v, h, now, recovery)
    ensures After(v, h, recovery).state == Disabled ==> After(v, h, recovery).disabledUntil.Some?
  {
    if h != [] {
      var earlier := h[..|h| - 1];
      LazyFacts(v, earlier, now, recovery);
      ApplyIsEager(After(v, earlier, recovery), h[|h| - 1].op, h[|h| - 1].at, now, recovery);
      hide Chronological, Apply, Expire;
    }
  }

  lemma {:induction false} NotesAreEager(v: EntryVal, h: seq<Timed>, recovery: int)
    ensures var x := After(v, h, recovery);
            && x.account == EagerAccount(v, h) && x.lastError == EagerError(v, h)
            && x.cooldownUntil == EagerCooldown(v, h) && x.transport == EagerTransport(v, h)
  {
    hide CooldownLength;
    if h != [] {
      NotesAreEager(v, h[..|h| - 1], recovery);
    }
  }

  /** What a Snapshot reports is what an eager timer would report at that moment. */
  lemma LazyIsEager(account: Account, h: seq<Timed>, now: int, recovery: int)
    requires Chronological(h, now)
    ensures var v := EntryVal(account, Healthy, None, None, account.transport, "");
            ViewAt(After(NewEntry(account), h, recovery), now) ==
            View(EagerAccount(v, h), EagerHealth(v, h, now, recovery), EagerCooldown(v, h), EagerTransport(v, h),
                EagerError(v, h))
  {
    LazyFacts(NewEntry(account), h, now, recovery);
    NotesAreEager(NewEntry(account), h, recovery);
    hide After, EagerHealth, EagerAccount, EagerCooldown, EagerTransport, EagerError;
  }

  function Unobserved(h: seq<Timed>): seq<Timed> {
    if h == [] then []
    else if h[|h| - 1].op.OpSnapshot? then Unobserved(h[..|h| - 1])
    else Unobserved(h[..|h| - 1]) + [h[|h| - 1]]
  }

  // Agreement up to what Expire may already have done to one of the two.
  ghost predicate AgreeFrom(a: EntryVal, b: EntryVal, now: int) {
    forall later :: now <= later ==> ViewAt(a, later) == ViewAt(b, later)
  }

  lemma {:induction false} UnobservedAgrees(v: EntryVal, h: seq<Timed>, now: int, recovery: int)
    requires Chronological(h, now)
    ensures AgreeFrom(After(v, h, recovery), After(v, Unobserved(h), recovery), now)
  {
    if h != [] {
      var last := h[|h| - 1];
      var a, b := After(v, h[..|h| - 1], recovery), After(v, Unobserved(h[..|h| - 1]), recovery);
      UnobservedAgrees(v, h[..|h| - 1], last.at, recovery);
      forall later | now <= later
        ensures ViewAt(After(v, h, recovery), later) == ViewAt(After(v, Unobserved(h), recovery), later)
      {
        assert ViewAt(a, later) == ViewAt(b, later);
        assert ViewAt(a, last.at) == ViewAt(b, last.at);
        if !last.op.OpSnapshot? {
          assert Unobserved(h)[..|Unobserved(h)| - 1] == Unobserved(h[..|h| - 1]);
          ApplyAgrees(a, b, last.op, last.at, recovery, later);
        }
      }
    }
  }

  lemma RecoverAgrees(a: EntryVal, b: EntryVal, id: string, at: int, recovery: int, later: int)
    requires ViewAt(a, later) == ViewAt(b, later)
    ensures ViewAt(Apply(a, OpRecover(id), at, recovery), later) ==
            ViewAt(Apply(b, OpRecover(id), at, recovery), later)
  {
    assert a.account == b.account;
  }

  lemma ApplyAgrees(a: EntryVal, b: EntryVal, op: Op, at: int, recovery: int, later: int)
    requires at <= later && !op.OpSnapshot? && ViewAt(a, later) == ViewAt(b, later)
    ensures ViewAt(Apply(a, op, at, recovery), later) == ViewAt(Apply(b, op, at, recovery), later)
  {
    hide CooldownLength;
    if op.OpRecover? {
      RecoverAgrees(a, b, op.id, at, recovery, later);
    }
  }

  /** Looking changes nothing: two histories that differ only in their Snapshots (also those
      taken by Available, Statuses, AdminEntries and Select) show the same state, account,
      cooldown time, transport and error from then on. */
  lemma SnapshotsAreInvisible(v: EntryVal, h1: seq<Timed>, h2: seq<Timed>, now: int, recovery: int)
    requires Chronological(h1, now) && Chronological(h2, now) && Unobserved(h1) == Unobserved(h2)
    ensures ViewAt(After(v, h1, recovery), now) == ViewAt(After(v, h2, recovery), now)
  {
    UnobservedAgrees(v, h1, now, recovery);
    UnobservedAgrees(v, h2, now, recovery);
    assert ViewAt(After(v, h1, recovery), now) == ViewAt(After(v, Unobserved(h1), recovery), now);
  }

  // ---------------------------------------------------------------- selection

  const TWO_64 := 0x1_0000_0000_0000_0000

  // int(x) for a uint64, and Go's %, whose sign follows the dividend.
  function ToInt(x: nat): int
    requires x < TWO_64
  {
    if x < TWO_63 then x else x - TWO_64
  }

  function GoRem(a: int, n: int): int
    requires n > 0
  {
    if a >= 0 then a % n else -((-a) % n)
  }

  function Candidates(vals: seq<EntryVal>, excluded: set<string>): seq<nat> {
    if vals == [] then []
    else
      var n := |vals| - 1;
      Candidates(vals[..n], excluded) +
      if vals[n].state == Healthy && vals[n].account.id !in excluded then [n] else []
  }

  lemma NoCandidates(excluded: set<string>)
    ensures Candidates([], excluded) == []
  {
  }

  lemma CandidatesOneMore(vals: seq<EntryVal>, k: nat, excluded: set<string>)
    requires k < |vals|
    ensures Candidates(vals[..k + 1], excluded) ==
            Candidates(vals[..k], excluded) +
            if vals[k].state == Healthy && vals[k].account.id !in excluded then [k] else []
  {
    assert vals[..k + 1][..k] == vals[..k];
  }

  lemma {:induction false} CandidatesExact(vals: seq<EntryVal>, excluded: set<string>)
    ensures forall i: nat :: i in Candidates(vals, excluded) <==>
              i < |vals| && vals[i].state == Healthy && vals[i].account.id !in excluded
  {
    if vals != [] {
      CandidatesExact(vals[..|vals| - 1], excluded);
    }
  }

  // The index into the candidates; may be negative, which makes the slice access panic.
  function PickIndex(session: string, hash: string -> nat, rr: nat, n: nat): int
    requires n > 0 && rr < TWO_64
  {
    if session != "" then hash(session) % n else GoRem(ToInt(rr), n)
  }

  /** The pick is a candidate, for every session, and without one exactly until the counter
      reaches 2^63; from there on only when the wrapped counter happens to divide evenly. */
  lemma PickInRange(session: string, hash: string -> nat, rr: nat, n: nat)
    requires n > 0 && rr < TWO_64
    ensures 0 <= PickIndex(session, hash, rr, n) < n <==>
            session != "" || rr < TWO_63 || (TWO_64 - rr) % n == 0
  {
  }

  /** An instance: three candidates and a counter that has just reached 2^63. */
  lemma LargeCounterPanics(vals: seq<EntryVal>, hash: string -> nat)
    requires |vals| == 3 && forall i :: 0 <= i < 3 ==> vals[i].state == Healthy
    ensures Selection(vals, "", {}, hash, TWO_63) == IndexPanic
  {
    CandidatesOneMore(vals, 0, {});
    CandidatesOneMore(vals, 1, {});
    CandidatesOneMore(vals, 2, {});
    assert vals[..3] == vals && vals[..0] == [];
    assert Candidates(vals, {}) == [0, 1, 2];
  }

  datatype SelectResult = Picked(i: nat) | NoneHealthy | IndexPanic

  function Selection(vals: seq<EntryVal>, session: string, excluded: set<string>, hash: string -> nat,
      rr: nat): SelectResult
    requires rr < TWO_64
  {
    var c := Candidates(vals, excluded);
    if c == [] then NoneHealthy
    else
      var k := PickIndex(session, hash, rr, |c|);
      if 0 <= k < |c| then Picked(c[k]) else IndexPanic
  }

  /** Whatever is picked was healthy when inspected and is not excluded; nothing is picked only
      if there is no such entry, or the counter has passed 2^63. */
  lemma SelectionSound(vals: seq<EntryVal>, session: string, excluded: set<string>, hash: string -> nat, rr: nat)
    requires rr < TWO_64
    ensures var r := Selection(vals, session, excluded, hash, rr);
            && (r.Picked? ==> r.i < |vals| && vals[r.i].state == Healthy && vals[r.i].account.id !in excluded)
            && (r.NoneHealthy? <==>
                forall i :: 0 <= i < |vals| && vals[i].state == Healthy ==> vals[i].account.id in excluded)
            && (r.IndexPanic? ==> session == "" && rr >= TWO_63)
  {
    CandidatesExact(vals, excluded);
    var c := Candidates(vals, excluded);
    if c != [] {
      PickInRange(session, hash, rr, |c|);
      var r := Selection(vals, session, excluded, hash, rr);
      assert c[0] in c;
      if r.Picked? {
        assert r.i in c;
      }
    } else {
      forall i | 0 <= i < |vals| && vals[i].state == Healthy ensures vals[i].account.id in excluded {
        assert i !in c;
      }
    }
  }

  // The entries below m that may be picked.
  function FreeBelow(vals: seq<EntryVal>, excluded: set<string>, m: nat): set<nat>
    requires m <= |vals|
  {
    set i: nat | i < m && vals[i].state == Healthy && vals[i].account.id !in excluded
  }

  lemma FreeInPrefix(vals: seq<EntryVal>, excluded: set<string>, n: nat, m: nat)
    requires m <= n <= |vals|
    ensures FreeBelow(vals[..n], excluded, m) == FreeBelow(vals, excluded, m)
  {
  }

  lemma FreeOneMore(vals: seq<EntryVal>, excluded: set<string>, n: nat)
    requires n < |vals|
    ensures FreeBelow(vals, excluded, n + 1) ==
            FreeBelow(vals, excluded, n) +
            if vals[n].state == Healthy && vals[n].account.id !in excluded then {n} else {}
  {
  }

  // Candidate j has j candidates below it.
  lemma {:induction false} CandidatesRanked(vals: seq<EntryVal>, excluded: set<string>)
    ensures var c := Candidates(vals, excluded);
            && |c| == |FreeBelow(vals, excluded, |vals|)|
            && forall j :: 0 <= j < |c| ==> c[j] < |vals| && |FreeBelow(vals, excluded, c[j])| == j
  {
    if vals == [] {
      assert FreeBelow(vals, excluded, 0) == {};
    } else {
      var n := |vals| - 1;
      CandidatesRanked(vals[..n], excluded);
      FreeInPrefix(vals, excluded, n, n);
      FreeOneMore(vals, excluded, n);
      var front := Candidates(vals[..n], excluded);
      forall j | 0 <= j < |front| ensures |FreeBelow(vals, excluded, front[j])| == j {
        FreeInPrefix(vals, excluded, n, front[j]);
      }
      hide FreeBelow;
    }
  }

  /** Which entry is picked: the n entries that are healthy and not excluded take turns in their
      order. Entry i is picked if and only if as many of them stand before it as the session's
      hash, or without a session the ticket, leaves modulo n. */
  lemma PickedInTurn(vals: seq<EntryVal>, session: string, excluded: set<string>, hash: string -> nat, rr: nat, i: nat)
    requires rr < TWO_64 && (session != "" || rr < TWO_63)
    requires i < |vals| && vals[i].state == Healthy && vals[i].account.id !in excluded
    ensures |FreeBelow(vals, excluded, i)| < |FreeBelow(vals, excluded, |vals|)|
    ensures var turn := if session != "" then hash(session) else rr;
            Selection(vals, session, excluded, hash, rr) == Picked(i) <==>
            turn % |FreeBelow(vals, excluded, |vals|)| == |FreeBelow(vals, excluded, i)|
  {
    CandidatesExact(vals, excluded);
    CandidatesRanked(vals, excluded);
    var c := Candidates(vals, excluded);
    var j :| 0 <= j < |c| && c[j] == i;
    PickInRange(session, hash, rr, |c|);
    hide Candidates, FreeBelow;
  }

  /** From 2^63 on the counter wraps to a negative number, and Go's remainder with it: without a
      session the first candidate is picked when the number of candidates divides it, and otherwise
      the index is out of range. */
  lemma LateTickets(vals: seq<EntryVal>, excluded: set<string>, hash: string -> nat, rr: nat)
    requires TWO_63 <= rr < TWO_64 && FreeBelow(vals, excluded, |vals|) != {}
    ensures var r, n := Selection(vals, "", excluded, hash, rr), |FreeBelow(vals, excluded, |vals|)|;
            if (0x1_0000_0000_0000_0000 - rr) % n == 0 then
              r.Picked? && r.i <= |vals| && FreeBelow(vals, excluded, r.i) == {}
            else r == IndexPanic
  {
    CandidatesRanked(vals, excluded);
    PickInRange("", hash, rr, |FreeBelow(vals, excluded, |vals|)|);
    hide Candidates, FreeBelow;
  }

  /** Two sessions share an account exactly when their hashes are equal modulo the number of
      accounts that may be picked; by PickedInTurn each of these has its remainder. */
  lemma SessionsSpread(vals: seq<EntryVal>, s1: string, s2: string, excluded: set<string>, hash: string -> nat,
      rr1: nat, rr2: nat)
    requires rr1 < TWO_64 && rr2 < TWO_64 && s1 != "" && s2 != ""
    requires FreeBelow(vals, excluded, |vals|) != {}
    ensures Selection(vals, s1, excluded, hash, rr1) == Selection(vals, s2, excluded, hash, rr2) <==>
            hash(s1) % |FreeBelow(vals, excluded, |vals|)| == hash(s2) % |FreeBelow(vals, excluded, |vals|)|
  {
    SelectionSound(vals, s1, excluded, hash, rr1);
    SelectionSound(vals, s2, excluded, hash, rr2);
    var i :| i in FreeBelow(vals, excluded, |vals|);
    var r1, r2 := Selection(vals, s1, excluded, hash, rr1), Selection(vals, s2, excluded, hash, rr2);
    assert r1.Picked? && r2.Picked?;
    PickedInTurn(vals, s1, excluded, hash, rr1, r1.i);
    PickedInTurn(vals, s1, excluded, hash, rr1, r2.i);
    PickedInTurn(vals, s2, excluded, hash, rr2, r2.i);
    hide Selection, FreeBelow;
  }

  /** A session stays on its account as long as the candidates stay the same, whatever the
      counter has become and whatever else changed about the entries. */
  lemma StickySession(vals1: seq<EntryVal>, vals2: seq<EntryVal>, ex1: set<string>, ex2: set<string>,
      session: string, hash: string -> nat, rr1: nat, rr2: nat)
    requires rr1 < TWO_64 && rr2 < TWO_64 && session != ""
    requires |vals1| == |vals2|
    requires forall i :: 0 <= i < |vals1| ==>
               ((vals1[i].state == Healthy && vals1[i].account.id !in ex1) <==>
                (vals2[i].state == Healthy && vals2[i].account.id !in ex2))
    ensures Selection(vals1, session, ex1, hash, rr1) == Selection(vals2, session, ex2, hash, rr2)
  {
    SameCandidates(vals1, vals2, ex1, ex2);
  }

  lemma {:induction false} SameCandidates(vals1: seq<EntryVal>, vals2: seq<EntryVal>, ex1: set<string>,
      ex2: set<string>)
    requires |vals1| == |vals2|
    requires forall i :: 0 <= i < |vals1| ==>
               ((vals1[i].state == Healthy && vals1[i].account.id !in ex1) <==>
                (vals2[i].state == Healthy && vals2[i].account.id !in ex2))
    ensures Candidates(vals1, ex1) == Candidates(vals2, ex2)
  {
    if vals1 != [] {
      SameCandidates(vals1[..|vals1| - 1], vals2[..|vals2| - 1], ex1, ex2);
    }
  }

  type Ticket = t: nat | t < TWO_63

  // How many of the tickets lead to candidate j of n.
  function Hits(tickets: seq<Ticket>, n: nat, j: nat): nat
    requires n > 0
  {
    if tickets == [] then 0
    else Hits(tickets[1..], n, j) + if PickIndex("", _ => 0, tickets[0], n) == j then 1 else 0
  }

  function Consecutive(t: nat, k: nat): (r: seq<Ticket>)
    requires t + k <= TWO_63
    ensures |r| == k && forall i :: 0 <= i < k ==> r[i] == t + i
    decreases k
  {
    if k == 0 then [] else [t] + Consecutive(t + 1, k - 1)
  }

  lemma MultipleAtLeast(x: int, n: int)
    requires n > 0
    ensures x >= 1 ==> x * n >= n
  {
    if x >= 1 {
      assert x * n == (x - 1) * n + n;
    }
  }

  lemma SmallMultiple(x: int, n: int)
    requires n > 0 && -n < x * n < n
    ensures x == 0
  {
    MultipleAtLeast(x, n);
    MultipleAtLeast(-x, n);
    assert (-x) * n == -(x * n);
  }

  lemma DivModUnique(m: nat, n: nat, q: nat, r: nat)
    requires r < n && m == q * n + r
    ensures m / n == q && m % n == r
  {
    var q', r' := m / n, m % n;
    assert (q' - q) * n == q' * n - q * n;
    SmallMultiple(q' - q, n);
  }

  lemma DivModStep(m: nat, n: nat)
    requires n > 0
    ensures if m % n + 1 < n then (m + 1) / n == m / n && (m + 1) % n == m % n + 1
            else (m + 1) / n == m / n + 1 && (m + 1) % n == 0
  {
    var q, r := m / n, m % n;
    if r + 1 < n {
      DivModUnique(m + 1, n, q, r + 1);
    } else {
      assert (q + 1) * n == q * n + n;
      DivModUnique(m + 1, n, q + 1, 0);
    }
  }

  // Tickets below m that lead to j.
  function HitsBelow(m: nat, n: nat, j: nat): nat
    requires n > 0
  {
    m / n + if j < m % n then 1 else 0
  }

  lemma {:induction false} HitsConsecutive(t: nat, k: nat, n: nat, j: nat)
    requires n > 0 && j < n && t + k <= TWO_63
    ensures Hits(Consecutive(t, k), n, j) == HitsBelow(t + k, n, j) - HitsBelow(t, n, j)
    decreases k
  {
    if k > 0 {
      HitsConsecutive(t + 1, k - 1, n, j);
      DivModStep(t, n);
      assert Consecutive(t, k)[1..] == Consecutive(t + 1, k - 1);
    }
  }

  lemma {:induction false} HitsWithout(b: seq<Ticket>, i: nat, n: nat, j: nat)
    requires n > 0 && i < |b|
    ensures Hits(b, n, j) == Hits(b[..i] + b[i + 1..], n, j) + Hits([b[i]], n, j)
  {
    if i == 0 {
      assert b[..0] + b[1..] == b[1..];
    } else {
      var rest := b[..i] + b[i + 1..];
      assert rest[1..] == b[1..][..i - 1] + b[1..][i..];
      HitsWithout(b[1..], i - 1, n, j);
    }
  }

  lemma WithoutOne(b: seq<Ticket>, i: nat)
    requires i < |b|
    ensures multiset(b[..i] + b[i + 1..]) == multiset(b) - multiset{b[i]}
  {
    assert b == b[..i] + [b[i]] + b[i + 1..];
  }

  lemma WithoutFirst(a: seq<Ticket>)
    requires a != []
    ensures multiset(a[1..]) == multiset(a) - multiset{a[0]}
  {
    assert a == [a[0]] + a[1..];
  }

  lemma {:induction false} MatchingTicket(a: seq<Ticket>, b: seq<Ticket>) returns (i: nat)
    requires a != [] && multiset(a) == multiset(b)
    ensures i < |b| && b[i] == a[0]
    ensures multiset(a[1..]) == multiset(b[..i] + b[i + 1..])
  {
    assert a[0] in multiset(b);
    i :| 0 <= i < |b| && b[i] == a[0];
    WithoutOne(b, i);
    WithoutFirst(a);
  }

  lemma {:induction false} HitsPermuted(a: seq<Ticket>, b: seq<Ticket>, n: nat, j: nat)
    requires n > 0 && multiset(a) == multiset(b)
    ensures Hits(a, n, j) == Hits(b, n, j)
  {
    if a == [] {
      assert |multiset(b)| == |b|;
    } else {
      var i := MatchingTicket(a, b);
      HitsPermuted(a[1..], b[..i] + b[i + 1..], n, j);
      HitsWithout(b, i, n, j);
      assert a[..0] + a[1..] == a[1..];
      HitsWithout(a, 0, n, j);
    }
  }

  lemma HitsBelowBalanced(t: nat, k: nat, n: nat, j: nat)
    requires n > 0 && j < n
    ensures var c := HitsBelow(t + k, n, j) - HitsBelow(t, n, j);
            k - n < c * n < k + n
  {
    var q1, q2 := t / n, (t + k) / n;
    var c := HitsBelow(t + k, n, j) - HitsBelow(t, n, j);
    var e := c - (q2 - q1);
    assert e == 0 || e == 1 || e == -1;
    assert c * n == q2 * n - q1 * n + e * n by {
      assert c == q2 - q1 + e;
      Distribute(q2, q1, e, n);
    }
    assert t == q1 * n + t % n && t + k == q2 * n + (t + k) % n;
  }

  lemma Distribute(a: int, b: int, c: int, n: int)
    ensures (a - b + c) * n == a * n - b * n + c * n
  {
  }

  lemma HitsBalanced(t: nat, k: nat, tickets: seq<Ticket>, n: nat, j: nat)
    requires n > 0 && j < n && t + k <= TWO_63
    requires multiset(tickets) == multiset(Consecutive(t, k))
    ensures Hits(tickets, n, j) == k / n || Hits(tickets, n, j) == (k + n - 1) / n
  {
    hide Hits, HitsBelow, Consecutive;
    HitsPermuted(tickets, Consecutive(t, k), n, j);
    HitsConsecutive(t, k, n, j);
    HitsBelowBalanced(t, k, n, j);
    Rounded(Hits(tickets, n, j), k, n);
  }

  // How many of the tickets pick entry i.
  function Picks(vals: seq<EntryVal>, excluded: set<string>, hash: string -> nat, tickets: seq<Ticket>, i: nat): nat {
    if tickets == [] then 0
    else Picks(vals, excluded, hash, tickets[1..], i) +
         if Selection(vals, "", excluded, hash, tickets[0]) == Picked(i) then 1 else 0
  }

  lemma {:induction false} PicksAreHits(vals: seq<EntryVal>, excluded: set<string>, hash: string -> nat,
      tickets: seq<Ticket>, i: nat)
    requires i < |vals| && vals[i].state == Healthy && vals[i].account.id !in excluded
    ensures var n := |FreeBelow(vals, excluded, |vals|)|;
            && |FreeBelow(vals, excluded, i)| < n
            && Picks(vals, excluded, hash, tickets, i) == Hits(tickets, n, |FreeBelow(vals, excluded, i)|)
  {
    PickedInTurn(vals, "", excluded, hash, 0, i);
    hide Selection, FreeBelow;
    if tickets != [] {
      PicksAreHits(vals, excluded, hash, tickets[1..], i);
      PickedInTurn(vals, "", excluded, hash, tickets[0], i);
    }
  }

  /** Round robin is balanced: any k tickets handed out back to back pick each of the n accounts
      that are healthy and not excluded floor(k/n) or ceil(k/n) times, in whatever order concurrent
      callers use them. */
  lemma RoundRobinBalanced(vals: seq<EntryVal>, excluded: set<string>, hash: string -> nat, t: nat, k: nat,
      tickets: seq<Ticket>, i: nat)
    requires i < |vals| && vals[i].state == Healthy && vals[i].account.id !in excluded
    requires t + k <= TWO_63 && multiset(tickets) == multiset(Consecutive(t, k))
    ensures var n := |FreeBelow(vals, excluded, |vals|)|;
            n > 0 && Picks(vals, excluded, hash, tickets, i) in {k / n, (k + n - 1) / n}
  {
    PicksAreHits(vals, excluded, hash, tickets, i);
    hide Picks, Hits, FreeBelow, Consecutive;
    HitsBalanced(t, k, tickets, |FreeBelow(vals, excluded, |vals|)|, |FreeBelow(vals, excluded, i)|);
  }

  lemma Rounded(c: nat, k: nat, n: nat)
    requires n > 0 && k - n < c * n < k + n
    ensures c == k / n || c == (k + n - 1) / n
  {
    if c * n <= k {
      DivModUnique(k, n, c, k - c * n);
    } else {
      DivModUnique(k + n - 1, n, c, k + n - 1 - c * n);
    }
  }

  // ---------------------------------------------------------------- the objects

  class Entry {
    var account: Account
    var state: Health
    var cooldownUntil: Option<int>
    var disabledUntil: Option<int>
    var selectedTransport: string
    var lastError: string

    function Val(): EntryVal
      reads this
    {
      EntryVal(account, state, cooldownUntil, disabledUntil, selectedTransport, lastError)
    }

    constructor (a: Account)
      ensures Val() == NewEntry(a)
    {
      account, state := a, Healthy;
      cooldownUntil, disabledUntil := None, None;
      selectedTransport, lastError := a.transport, "";
    }

    method Snapshot(now: int) returns (v: View)
      modifies this
      ensures Val() == Apply(old(Val()), OpSnapshot, now, 0)
      ensures v == ViewAt(old(Val()), now)
    {
      var s := state;
      if s == Cooldown && Passed(now, cooldownUntil) {
        state := Healthy;
        s := Healthy;
      }
      if s == Disabled && disabledUntil.Some? && Passed(now, disabledUntil) {
        state := Healthy;
        disabledUntil := None;
        s := Healthy;
      }
      v := View(account, s, cooldownUntil, selectedTransport, lastError);
    }

    method SetTransport(name: string)
      modifies this
      ensures Val() == Apply(old(Val()), OpSetTransport(name), 0, 0)
    {
      selectedTransport := name;
    }
  }

  datatype RefreshResult = Token(token: string, refreshToken: string, expiresAtMs: int) | RefreshError

  function Id(a: Account): string {
    a.id
  }

  function Accounts(vals: seq<EntryVal>): (r: seq<Account>)
    ensures |r| == |vals|
  {
    seq(|vals|, i requires 0 <= i < |vals| => vals[i].account)
  }

  function ExpireAll(vals: seq<EntryVal>, clock: nat -> int): (r: seq<EntryVal>)
    ensures |r| == |vals|
  {
    seq(|vals|, i requires 0 <= i < |vals| => Expire(vals[i], clock(i)))
  }

  predicate NeedsRefresh(v: EntryVal, force: bool, nowMs: int) {
    force || v.account.expiresAtMs <= nowMs + REFRESH_BEFORE_MS
  }

  // The entry after EnsureFresh, whether or not persisting it then works.
  function Refreshed(v: EntryVal, force: bool, nowMs: int, hasRefresher: bool, refresh: RefreshResult): EntryVal {
    if !NeedsRefresh(v, force, nowMs) || !hasRefresher then v
    else match refresh
      case RefreshError => Apply(v, OpRefreshFailed, 0, 0)
      case Token(t, r, e) => Apply(v, OpRefreshOk(WithToken(v.account, t, r, e)), 0, 0)
  }

  method NewEntries(accounts: seq<Account>) returns (entries: seq<Entry>)
    ensures |entries| == |accounts| && fresh(entries)
    ensures forall i, j :: 0 <= i < j < |entries| ==> entries[i] != entries[j]
    ensures forall i :: 0 <= i < |entries| ==> entries[i].Val() == NewEntry(accounts[i])
  {
    hide NewEntry;
    entries := [];
    for k := 0 to |accounts|
      invariant |entries| == k && fresh(entries)
      invariant forall i, j :: 0 <= i < j < k ==> entries[i] != entries[j]
      invariant forall i :: 0 <= i < k ==> entries[i].Val() == NewEntry(accounts[i])
    {
      var e := new Entry(accounts[k]);
      entries := entries + [e];
    }
  }

  lemma NewAccounts(vals: seq<EntryVal>, accounts: seq<Account>)
    requires |vals| == |accounts| && forall i :: 0 <= i < |vals| ==> vals[i] == NewEntry(accounts[i])
    ensures Accounts(vals) == accounts
    ensures forall i :: 0 <= i < |vals| ==>
              vals[i] == EntryVal(vals[i].account, Healthy, None, None, vals[i].account.transport, "")
  {
  }

  // What New makes of the accounts it is given.
  ghost predicate MadeFrom(vals: seq<EntryVal>, accounts: seq<Account>) {
    && Sorting.Ordered(Accounts(vals), Id) && multiset(Accounts(vals)) == multiset(accounts)
    && forall i :: 0 <= i < |vals| ==>
         vals[i] == EntryVal(vals[i].account, Healthy, None, None, vals[i].account.transport, "")
  }

  /** With distinct IDs the entries do not depend on the order in which the file lists its
      accounts. */
  lemma FileOrderIsForgotten(vals1: seq<EntryVal>, file1: seq<Account>, vals2: seq<EntryVal>, file2: seq<Account>)
    requires MadeFrom(vals1, file1) && MadeFrom(vals2, file2)
    requires DistinctIds(file1) && multiset(file1) == multiset(file2)
    ensures vals1 == vals2
  {
    forall x, y | x in Accounts(vals1) && y in Accounts(vals1) && Id(x) == Id(y) ensures x == y {
      assert x in multiset(file1) && y in multiset(file1);
    }
    Sorting.OrderIsUnique(Accounts(vals1), Accounts(vals2), Id);
    hide Sorting.Ordered, NewEntry;
    assert |vals1| == |Accounts(vals1)| == |vals2|;
    forall i | 0 <= i < |vals1| ensures vals1[i] == vals2[i] {
      assert vals1[i].account == Accounts(vals1)[i] == vals2[i].account;
    }
  }

  class Pool {
    var entries: seq<Entry>
    var rr: nat
    const store: Store?
    const hasRefresher: bool
    const recovery: int

    ghost predicate Valid()
      reads this
    {
      && rr < TWO_64
      && forall i, j :: 0 <= i < j < |entries| ==> entries[i] != entries[j]
    }

    ghost function Vals(): (r: seq<EntryVal>)
      reads this, entries
      ensures |r| == |entries|
    {
      seq(|entries|, i requires 0 <= i < |entries| reads this, entries => entries[i].Val())
    }

    // Every field of every entry but the i-th stays as it was.
    twostate predicate OnlyEntry(i: nat)
      requires i < |entries|
      reads this, entries
    {
      entries == old(entries) && forall k :: 0 <= k < |entries| && k != i ==> unchanged(entries[k])
    }

    constructor (accounts: seq<Account>, store: Store?, hasRefresher: bool, recovery: int)
      ensures Valid() && fresh(entries) && rr == 0
      ensures this.store == store && this.hasRefresher == hasRefresher && this.recovery == recovery
      ensures MadeFrom(Vals(), accounts)
    {
      Sorting.SortedIsOrdered(accounts, Id);
      var sorted := Sorting.Sorted(accounts, Id);
      hide Sorting.Ordered, Sorting.Sorted, NewEntry;
      var made := NewEntries(sorted);
      this.store, this.hasRefresher, this.recovery := store, hasRefresher, recovery;
      entries, rr := made, 0;
      new;
      assert forall i :: 0 <= i < |entries| ==> Vals()[i] == NewEntry(sorted[i]);
      NewAccounts(Vals(), sorted);
    }

    method Available(clock: nat -> int) returns (n: nat)
      requires Valid()
      modifies entries
      ensures Vals() == ExpireAll(old(Vals()), clock)
      ensures n == |Candidates(Vals(), {})|
    {
      hide Expire, Candidates;
      n := 0;
      ghost var expired := ExpireAll(Vals(), clock);
      assert Candidates(expired[..0], {}) == [] by {
        NoCandidates({});
      }
      for i := 0 to |entries|
        invariant forall k :: 0 <= k < i ==> entries[k].Val() == expired[k]
        invariant forall k :: i <= k < |entries| ==> entries[k].Val() == old(entries[k].Val())
        invariant n == |Candidates(expired[..i], {})|
      {
        CandidatesOneMore(expired, i, {});
        var v := entries[i].Snapshot(clock(i));
        if v.state == Healthy {
          n := n + 1;
        }
      }
      assert Vals() == expired == expired[..|entries|];
    }

    // The first loop of Select.
    method Collect(excluded: set<string>, clock: nat -> int) returns (candidates: seq<nat>)
      requires Valid()
      modifies entries
      ensures Vals() == ExpireAll(old(Vals()), clock)
      ensures candidates == Candidates(Vals(), excluded)
    {
      hide Expire, Candidates;
      candidates := [];
      ghost var expired := ExpireAll(Vals(), clock);
      assert Candidates(expired[..0], excluded) == [] by {
        NoCandidates(excluded);
      }
      for i := 0 to |entries|
        invariant forall k :: 0 <= k < i ==> entries[k].Val() == expired[k]
        invariant forall k :: i <= k < |entries| ==> entries[k].Val() == old(entries[k].Val())
        invariant candidates == Candidates(expired[..i], excluded)
      {
        CandidatesOneMore(expired, i, excluded);
        var v := entries[i].Snapshot(clock(i));
        if v.state == Healthy && v.account.id !in excluded {
          candidates := candidates + [i];
        }
      }
      assert Vals() == expired == expired[..|entries|];
    }

    method Select(session: string, excluded: set<string>, hash: string -> nat, clock: nat -> int)
        returns (r: SelectResult)
      requires Valid()
      modifies this`rr, entries
      ensures Valid()
      ensures Vals() == ExpireAll(old(Vals()), clock)
      ensures r == Selection(Vals(), session, excluded, hash, old(rr))
      ensures rr == if session == "" && !r.NoneHealthy? then (old(rr) + 1) % TWO_64 else old(rr)
    {
      var candidates := Collect(excluded, clock);
      if |candidates| == 0 {
        return NoneHealthy;
      }
      var idx;
      if session != "" {
        idx := hash(session) % |candidates|;
      } else {
        var ticket := rr;
        rr := (rr + 1) % TWO_64;
        idx := GoRem(ToInt(ticket), |candidates|);
      }
      if idx < 0 {
        return IndexPanic;
      }
      r := Picked(candidates[idx]);
    }

    // The copy that EnsureFresh writes to the file.
    method CopyAccounts() returns (accounts: seq<Account>)
      ensures accounts == Accounts(Vals())
    {
      accounts := [];
      for k := 0 to |entries|
        invariant accounts == Accounts(Vals())[..k]
      {
        accounts := accounts + [entries[k].account];
      }
    }

    /** One uninterrupted call; `write` says how writing the credentials file ends. */
    method EnsureFresh(i: nat, force: bool, nowMs: int, refresh: RefreshResult, write: Write)
      returns (account: Account, ok: bool)
      requires Valid() && i < |entries|
      modifies entries[i], store
      ensures OnlyEntry(i)
      ensures Vals() == old(Vals())[i := Refreshed(old(Vals()[i]), force, nowMs, hasRefresher, refresh)]
      ensures account == entries[i].Val().account
      ensures var called := NeedsRefresh(old(entries[i].Val()), force, nowMs);
              var renewed := called && hasRefresher && refresh.Token?;
              var offered := renewed && store != null && AllValid(Accounts(Vals()));
              && ok == (!called || (renewed && (store == null || (offered && write == Saved))))
              && (store != null ==>
                    store.file == if offered && write != NotWritten then Accounts(Vals()) else old(store.file))
      ensures hasRefresher && refresh.Token? && (force || old(entries[i].account.expiresAtMs) <= nowMs + 300_000) ==>
                && account.accessToken == refresh.token && account.expiresAtMs == refresh.expiresAtMs
                && account.refreshToken ==
                   (if refresh.refreshToken == "" then old(entries[i].account.refreshToken) else refresh.refreshToken)
                && entries[i].account == account && entries[i].state == Healthy
    {
      hide AllValid, Validate, CooldownLength;
      var e := entries[i];
      if !force && e.account.expiresAtMs > nowMs + REFRESH_BEFORE_MS {
        return e.account, true;
      }
      if !hasRefresher {
        return e.account, false;
      }
      if refresh.RefreshError? {
        e.lastError := "token refresh failed";
        return e.account, false;
      }
      account := WithToken(e.account, refresh.token, refresh.refreshToken, refresh.expiresAtMs);
      e.account := account;
      e.state := Healthy;
      e.lastError := "";
      if store != null {
        var accounts := CopyAccounts();
        var saved := store.Replace(accounts, write);
        assert accounts == Accounts(Vals());
        if !saved {
          return account, false;
        }
      }
      ok := true;
    }

    method MarkAuthError(i: nat)
      requires Valid() && i < |entries|
      modifies entries[i]
      ensures OnlyEntry(i) && Vals() == old(Vals())[i := Apply(old(Vals()[i]), OpAuthError, 0, recovery)]
    {
      entries[i].state := AuthError;
      entries[i].lastError := "authentication rejected";
    }

    method MarkDisabled(i: nat, reason: string, now: int)
      requires Valid() && i < |entries|
      modifies entries[i]
      ensures OnlyEntry(i) && Vals() == old(Vals())[i := Apply(old(Vals()[i]), OpDisabled(reason), now, recovery)]
    {
      entries[i].state := Disabled;
      entries[i].disabledUntil := Some(now + recovery);
      entries[i].lastError := reason;
    }

    method MarkCooldown(i: nat, d: int, now: int)
      requires Valid() && i < |entries|
      modifies entries[i]
      ensures OnlyEntry(i) && Vals() == old(Vals())[i := Apply(old(Vals()[i]), OpCooldown(d), now, recovery)]
    {
      var length := d;
      if length <= 0 {
        length := DEFAULT_COOLDOWN;
      }
      entries[i].state := Cooldown;
      entries[i].cooldownUntil := Some(now + length);
      entries[i].lastError := "rate limited";
    }

    method Recover(id: string)
      requires Valid()
      modifies entries
      ensures |Vals()| == |old(Vals())|
      ensures forall i :: 0 <= i < |entries| ==>
                entries[i].Val() == Apply(old(entries[i].Val()), OpRecover(id), 0, recovery)
    {
      for k := 0 to |entries|
        invariant forall i :: 0 <= i < k ==>
                    entries[i].Val() == Apply(old(entries[i].Val()), OpRecover(id), 0, recovery)
        invariant forall i :: k <= i < |entries| ==> entries[i].Val() == old(entries[i].Val())
      {
        var e := entries[k];
        if e.account.id == id {
          e.state := Healthy;
          e.cooldownUntil := None;
          e.lastError := "";
        }
      }
    }
  }
}
