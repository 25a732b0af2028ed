/** The explicit locks of every transaction, taken in one global order, and why that rules out deadlock. */
module LockOrder {
  import opened Ordering

  // ----- the advisory key of a contact

  predicate IsHex(c: char) { '0' <= c <= '9' || 'a' <= c <= 'f' }

  /** A hexadecimal SHA-256 digest. */
  predicate IsDigest(s: string) { |s| == 64 && forall i :: 0 <= i < |s| ==> IsHex(s[i]) }

  type Digest = s: string | IsDigest(s) witness seq(64, _ => '0')

  function HexDigit(c: char): (d: nat)
    requires IsHex(c)
    ensures d < 16
  {
    if c <= '9' then c as int - '0' as int else c as int - 'a' as int + 10
  }

  /** `int(s, 16)`, with `high` the value of the digits before `s`. */
  function HexValue(high: nat, s: string): nat
    requires forall i :: 0 <= i < |s| ==> IsHex(s[i])
    decreases |s|
  {
    if s == "" then high else HexValue(16 * high + HexDigit(s[0]), s[1..])
  }

  /** `int(value[:15], 16)`. */
  function AdvisoryKey(value: Digest): nat {
    HexValue(0, value[..15])
  }

  lemma {:induction false} HigherDigitsDecide(a: nat, s: string, b: nat, t: string)
    requires |s| == |t| && a < b
    requires forall i :: 0 <= i < |s| ==> IsHex(s[i]) && IsHex(t[i])
    ensures HexValue(a, s) < HexValue(b, t)
    decreases |s|
  {
    if s != "" {
      HigherDigitsDecide(16 * a + HexDigit(s[0]), s[1..], 16 * b + HexDigit(t[0]), t[1..]);
    }
  }

  lemma {:induction false} PrefixValues(high: nat, s: string, t: string, n: nat)
    requires |s| == |t| && n <= |s| && !Less(t, s)
    requires forall i :: 0 <= i < |s| ==> IsHex(s[i]) && IsHex(t[i])
    ensures HexValue(high, s[..n]) <= HexValue(high, t[..n])
    decreases |s|
  {
    if n > 0 {
      assert s[..n][1..] == s[1..][..n - 1] && t[..n][1..] == t[1..][..n - 1];
      if s[0] == t[0] {
        PrefixValues(16 * high + HexDigit(s[0]), s[1..], t[1..], n - 1);
      } else {
        HigherDigitsDecide(16 * high + HexDigit(s[0]), s[1..][..n - 1], 16 * high + HexDigit(t[0]), t[1..][..n - 1]);
      }
    }
  }

  /** Digests in sorted order have keys that do not decrease. */
  lemma SortedDigestsGiveAscendingKeys(a: Digest, b: Digest)
    requires !Less(b, a)
    ensures AdvisoryKey(a) <= AdvisoryKey(b)
  {
    PrefixValues(0, a, b, 15);
  }

  function Power16(n: nat): nat {
    if n == 0 then 1 else 16 * Power16(n - 1)
  }

  lemma {:induction false} HexValueBound(high: nat, s: string)
    requires forall i :: 0 <= i < |s| ==> IsHex(s[i])
    ensures HexValue(high, s) < (high + 1) * Power16(|s|)
    decreases |s|
  {
    if s != "" {
      var d, p := HexDigit(s[0]), Power16(|s| - 1);
      HexValueBound(16 * high + d, s[1..]);
      OneDigitMore(high, d, p);
    }
  }

  lemma OneDigitMore(high: nat, d: nat, p: nat)
    requires d < 16
    ensures (16 * high + d + 1) * p <= (high + 1) * (16 * p)
  {
    assert (high + 1) * (16 * p) == (16 * high + d + 1) * p + (15 - d) * p;
    assert (15 - d) * p >= 0;
  }

  /** Every key fits the signed 64-bit argument of the advisory lock function: it has 60 bits. */
  lemma KeyIsSixtyBits(value: Digest)
    ensures AdvisoryKey(value) < 0x1000_0000_0000_0000
  {
    HexValueBound(0, value[..15]);
    assert Power16(5) == 0x10_0000;
    assert Power16(10) == 0x10_0000 * Power16(5);
    assert Power16(15) == 0x10_0000 * Power16(10);
  }

  // ----- the locks and their order

  datatype Lock =
    | RequestRow(id: nat) | ConversationRow(id: nat) | GrantRow(id: nat) | ClientRow(id: nat)
    | Advisory(id: nat) | BucketRow(id: nat)

  const ADMISSION_LOCK: nat := 740092
  const RELEASE_LOCK: nat := 740091

  function Class(l: Lock): nat {
    match l
    case RequestRow(_) => 0
    case ConversationRow(_) => 1
    case GrantRow(_) => 2
    case ClientRow(_) => 3
    case Advisory(_) => 4
    case BucketRow(_) => 5
  }

  /** The global order: by kind, and within a kind by number. Contact keys and the two fixed advisory keys
      share one number space, so they are one kind. */
  predicate Precedes(a: Lock, b: Lock) {
    Class(a) < Class(b) || (Class(a) == Class(b) && a.id < b.id)
  }

  datatype Transaction =
    | Admission(conversation: nat, bucket: nat)
    | Finish(request: nat, conversation: nat)
    | Fail(request: nat)
    | Recovery(stale: seq<nat>)
    | HourlyLimit(bucket: nat)
    | Registration(hashes: seq<Digest>)
    | Exchange(grant: nat, client: nat)
    | Release

  /** `sorted(hashes)` over the one or two contacts of a registration. */
  function SortedHashes(hashes: seq<Digest>): (r: seq<Digest>)
    ensures |r| == |hashes| && multiset(r) == multiset(hashes)
    ensures |hashes| <= 2 ==> forall i, j :: 0 <= i < j < |r| ==> !Less(r[j], r[i])
  {
    if |hashes| == 2 && Less(hashes[1], hashes[0]) then
      assert hashes == [hashes[0], hashes[1]];
      LessIsTotal(hashes[0], hashes[1]);
      [hashes[1], hashes[0]]
    else hashes
  }

  /** The explicit locks of a transaction in the order it asks for them. */
  function Locks(tx: Transaction): seq<Lock> {
    match tx
    case Admission(c, b) => [ConversationRow(c), Advisory(ADMISSION_LOCK), BucketRow(b)]
    case Finish(r, c) => [RequestRow(r), ConversationRow(c)]
    case Fail(r) => [RequestRow(r)]
    case Recovery(stale) => seq(|stale|, i requires 0 <= i < |stale| => RequestRow(stale[i]))
    case HourlyLimit(b) => [BucketRow(b)]
    case Registration(hashes) =>
      var sorted := SortedHashes(hashes);
      seq(|sorted|, i requires 0 <= i < |sorted| => Advisory(AdvisoryKey(sorted[i])))
    case Exchange(g, c) => [GrantRow(g), ClientRow(c)]
    case Release => [Advisory(RELEASE_LOCK)]
  }

  /** Recovery passes over rows that are locked; every other transaction waits. */
  predicate SkipsLocked(tx: Transaction) { tx.Recovery? }

  predicate Possible(tx: Transaction) { tx.Registration? ==> |tx.hashes| <= 2 }

  /** Locks are asked for in the global order; asking again for a lock already held is harmless. */
  ghost predicate Disciplined(locks: seq<Lock>) {
    forall i, j :: 0 <= i < j < |locks| ==> Precedes(locks[i], locks[j]) || locks[i] == locks[j]
  }

  lemma EveryTransactionIsDisciplined(tx: Transaction)
    requires Possible(tx) && !SkipsLocked(tx)
    ensures Disciplined(Locks(tx))
  {
    if tx.Registration? {
      var sorted := SortedHashes(tx.hashes);
      forall i, j | 0 <= i < j < |sorted| ensures AdvisoryKey(sorted[i]) <= AdvisoryKey(sorted[j]) {
        SortedDigestsGiveAscendingKeys(sorted[i], sorted[j]);
      }
    }
  }

  // ----- transactions side by side

  datatype Session = Session(tx: Transaction, next: nat, held: set<Lock>, ended: bool)

  type World = seq<Session>

  datatype Action = Begin(tx: Transaction) | Take(s: nat) | Skip(s: nat) | End(s: nat) | Abort(s: nat)

  predicate Asking(w: World, s: nat) {
    s < |w| && !w[s].ended && w[s].next < |Locks(w[s].tx)|
  }

  function Wanted(w: World, s: nat): Lock
    requires Asking(w, s)
  {
    Locks(w[s].tx)[w[s].next]
  }

  predicate HeldByOther(w: World, s: nat, l: Lock) {
    exists o :: 0 <= o < |w| && o != s && l in w[o].held
  }

  ghost predicate WaitsFor(w: World, s: nat, o: nat) {
    Asking(w, s) && !SkipsLocked(w[s].tx) && o < |w| && o != s && Wanted(w, s) in w[o].held
  }

  predicate Enabled(w: World, a: Action) {
    match a
    case Begin(tx) => Possible(tx)
    case Take(s) => Asking(w, s) && !HeldByOther(w, s, Wanted(w, s))
    case Skip(s) => Asking(w, s) && SkipsLocked(w[s].tx) && HeldByOther(w, s, Wanted(w, s))
    case End(s) => s < |w| && !w[s].ended && w[s].next == |Locks(w[s].tx)|
    case Abort(s) => s < |w| && !w[s].ended
  }

  function Next(w: World, a: Action): World
    requires Enabled(w, a)
  {
    match a
    case Begin(tx) => w + [Session(tx, 0, {}, false)]
    case Take(s) => w[s := w[s].(next := w[s].next + 1, held := w[s].held + {Wanted(w, s)})]
    case Skip(s) => w[s := w[s].(next := w[s].next + 1)]
    case End(s) => w[s := w[s].(held := {}, ended := true)]
    case Abort(s) => w[s := w[s].(held := {}, ended := true)]
  }

  ghost predicate SessionOk(x: Session) {
    && Possible(x.tx) && x.next <= |Locks(x.tx)|
    && (x.ended ==> x.held == {})
    && (forall l :: l in x.held ==> exists i :: 0 <= i < x.next && Locks(x.tx)[i] == l)
  }

  ghost predicate Exclusive(w: World) {
    forall s, o :: 0 <= s < |w| && 0 <= o < |w| && s != o ==> w[s].held !! w[o].held
  }

  ghost predicate WorldOk(w: World) {
    (forall s :: 0 <= s < |w| ==> SessionOk(w[s])) && Exclusive(w)
  }

  lemma StepKeeps(w: World, a: Action)
    requires WorldOk(w) && Enabled(w, a)
    ensures WorldOk(Next(w, a))
  {
    hide Locks, Possible;
    if a.Take? {
      var s := a.s;
      var x := Next(w, a)[s];
      forall l | l in x.held ensures exists i :: 0 <= i < x.next && Locks(x.tx)[i] == l {
        if l in w[s].held {
          var i :| 0 <= i < w[s].next && Locks(x.tx)[i] == l;
        } else {
          assert Locks(x.tx)[w[s].next] == l;
        }
      }
    }
  }

  /** Everyone a session waits for asks, if it waits itself, for a later lock. */
  lemma WaitingClimbs(w: World, s: nat, o: nat, p: nat)
    requires WorldOk(w) && WaitsFor(w, s, o) && WaitsFor(w, o, p)
    ensures Precedes(Wanted(w, s), Wanted(w, o))
  {
    hide Locks;
    EveryTransactionIsDisciplined(w[o].tx);
    var i :| 0 <= i < w[o].next && Locks(w[o].tx)[i] == Wanted(w, s);
    assert w[o].held !! w[p].held;
  }

  ghost predicate Link(w: World, c: seq<nat>, i: nat) {
    i + 1 < |c| && WaitsFor(w, c[i], c[i + 1])
  }

  /** A chain of sessions, each waiting for the one after it. */
  ghost predicate Chain(w: World, c: seq<nat>) {
    forall i :: 0 <= i < |c| - 1 ==> Link(w, c, i)
  }

  lemma {:induction false} ChainClimbs(w: World, c: seq<nat>)
    requires WorldOk(w) && Chain(w, c) && |c| >= 3
    ensures Link(w, c, 0) && Link(w, c, |c| - 2)
    ensures Precedes(Wanted(w, c[0]), Wanted(w, c[|c| - 2]))
  {
    hide WorldOk, WaitsFor;
    var n := |c|;
    assert Link(w, c, 0) && Link(w, c, n - 3) && Link(w, c, n - 2);
    WaitingClimbs(w, c[n - 3], c[n - 2], c[n - 1]);
    if n > 3 {
      var shorter := c[..n - 1];
      forall i | 0 <= i < |shorter| - 1 ensures Link(w, shorter, i) { assert Link(w, c, i); }
      ChainClimbs(w, shorter);
    }
  }

  /** No sessions wait for one another in a circle. */
  lemma NoCyclicWait(w: World, c: seq<nat>)
    requires WorldOk(w) && Chain(w, c) && |c| >= 2
    ensures c[0] != c[|c| - 1]
  {
    hide WorldOk;
    assert Link(w, c, 0) && Link(w, c, |c| - 2);
    if c[0] == c[|c| - 1] {
      var around := c + [c[1]];
      forall i | 0 <= i < |around| - 1 ensures Link(w, around, i) {
        assert i < |c| - 1 ==> Link(w, c, i);
      }
      ChainClimbs(w, around);
    }
  }

  // ----- progress

  predicate Blocked(w: World, s: nat) {
    Asking(w, s) && !SkipsLocked(w[s].tx) && HeldByOther(w, s, Wanted(w, s))
  }

  /** The step an unblocked session can take. */
  function Move(w: World, s: nat): (a: Action)
    requires s < |w| && !w[s].ended && w[s].next <= |Locks(w[s].tx)| && !Blocked(w, s)
    ensures Enabled(w, a)
  {
    if w[s].next == |Locks(w[s].tx)| then End(s)
    else if HeldByOther(w, s, Wanted(w, s)) then Skip(s)
    else Take(s)
  }

  /** Only sessions in `above` are blocked on a later lock than `s` is. */
  ghost predicate OnlyAbove(w: World, s: nat, above: set<nat>) {
    Blocked(w, s) ==> forall o :: 0 <= o < |w| && Blocked(w, o) && Precedes(Wanted(w, s), Wanted(w, o)) ==> o in above
  }

  /** From a blocked session the waiting leads to one that is not blocked and not finished. */
  lemma {:induction false} WaitingEnds(w: World, s: nat, above: set<nat>) returns (free: nat)
    requires WorldOk(w) && s < |w| && !w[s].ended && OnlyAbove(w, s, above)
    ensures free < |w| && !w[free].ended && !Blocked(w, free)
    decreases above
  {
    hide Locks;
    free := s;
    if Blocked(w, s) {
      var o :| 0 <= o < |w| && o != s && Wanted(w, s) in w[o].held;
      assert SessionOk(w[o]);
      free := o;
      if Blocked(w, o) {
        var p :| 0 <= p < |w| && p != o && Wanted(w, o) in w[p].held;
        WaitingClimbs(w, s, o, p);
        free := WaitingEnds(w, o, above - {o});
      }
    }
  }

  function Below(n: nat): (r: set<nat>)
    ensures forall o: nat :: o in r <==> o < n
  {
    if n == 0 then {} else Below(n - 1) + {n - 1}
  }

  /** Whenever a transaction is unfinished, some transaction can make a step without waiting. */
  lemma SomeoneCanMove(w: World, s: nat) returns (free: nat)
    requires WorldOk(w) && s < |w| && !w[s].ended
    ensures free < |w| && !w[free].ended && !Blocked(w, free) && Enabled(w, Move(w, free))
  {
    free := WaitingEnds(w, s, Below(|w|));
    assert SessionOk(w[free]);
  }

  /** Steps left until every begun transaction has ended. */
  function Work(w: World): nat {
    if w == [] then 0
    else
      var x := w[|w| - 1];
      Work(w[..|w| - 1]) + if x.ended || x.next > |Locks(x.tx)| then 0 else |Locks(x.tx)| - x.next + 1
  }

  lemma {:induction false} WorkShrinks(w: World, s: nat, x: Session)
    requires s < |w| && x.tx == w[s].tx && x.next <= |Locks(x.tx)|
    requires !w[s].ended && w[s].next <= |Locks(x.tx)|
    requires x.ended || x.next > w[s].next
    ensures Work(w[s := x]) < Work(w)
  {
    hide Locks;
    var n := |w| - 1;
    if s < n {
      WorkShrinks(w[..n], s, x);
      assert w[s := x][..n] == w[..n][s := x];
    } else {
      assert w[s := x][..n] == w[..n];
    }
  }

  ghost predicate StepAt(ws: seq<World>, steps: seq<Action>, i: nat)
    requires |ws| == |steps| + 1 && i < |steps|
  {
    !steps[i].Begin? && Enabled(ws[i], steps[i]) && ws[i + 1] == Next(ws[i], steps[i])
  }

  /** A run in which no transaction begins. */
  ghost predicate IsRun(ws: seq<World>, steps: seq<Action>) {
    && |ws| == |steps| + 1
    && forall i :: 0 <= i < |steps| ==> StepAt(ws, steps, i)
  }

  /** No transaction can get any further: all that can happen is that one begins or is cut off. */
  ghost predicate Stuck(w: World) {
    forall a :: Enabled(w, a) ==> a.Begin? || a.Abort?
  }

  ghost predicate Quiet(w: World) {
    forall s :: 0 <= s < |w| ==> w[s].ended
  }

  /** Such runs are bounded, and where no transaction can take, pass over or release a lock any more every
      transaction has ended: nobody is ever left waiting until it is cut off. */
  lemma {:induction false} EveryRunFinishes(ws: seq<World>, steps: seq<Action>)
    requires IsRun(ws, steps) && WorldOk(ws[0])
    ensures WorldOk(ws[|steps|]) && |steps| <= Work(ws[0]) - Work(ws[|steps|])
    ensures Stuck(ws[|steps|]) ==> Quiet(ws[|steps|])
  {
    var n := |steps|;
    if n > 0 {
      var before, done := ws[..n], steps[..n - 1];
      forall i | 0 <= i < n - 1 ensures StepAt(before, done, i) { assert StepAt(ws, steps, i); }
      EveryRunFinishes(before, done);
      assert StepAt(ws, steps, n - 1);
      StepKeeps(ws[n - 1], steps[n - 1]);
      StepShrinks(ws[n - 1], steps[n - 1]);
    }
    StuckMeansQuiet(ws[n]);
  }

  lemma StepShrinks(w: World, a: Action)
    requires WorldOk(w) && Enabled(w, a) && !a.Begin?
    ensures Work(Next(w, a)) < Work(w)
  {
    assert SessionOk(w[a.s]);
    WorkShrinks(w, a.s, Next(w, a)[a.s]);
  }

  lemma StuckMeansQuiet(w: World)
    requires WorldOk(w)
    ensures Stuck(w) ==> Quiet(w)
  {
    forall s | 0 <= s < |w| && !w[s].ended ensures !Stuck(w) {
      var free := SomeoneCanMove(w, s);
      assert Enabled(w, Move(w, free));
    }
  }
}
