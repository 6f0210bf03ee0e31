/** Fair eviction from the pending part of the transaction pool: when there are more pending transactions
    than slots, the accounts with the most transactions are cut back, level with one another. */
module PendingEviction {
  import opened Basics
  import Heap
  import opened PendingLevels

  // ---------------------------------------------------------------- priorities

  const FLOAT32_EXACT: nat := 0x100_0000

  function Exponent(n: nat): nat {
    if n < FLOAT32_EXACT then 0 else 1 + Exponent(n / 2)
  }

  /** float32(n): 24 significant bits, rounded to nearest, ties to even */
  function Float32(n: nat): nat {
    var p := Pow2(Exponent(n));
    var q, r := n / p, n % p;
    (if 2 * r > p || (2 * r == p && q % 2 == 1) then q + 1 else q) * p
  }

  /** Priorities are the list lengths as long as these fit into 24 bits ... */
  lemma Float32Exactly(n: nat)
    requires n <= FLOAT32_EXACT
    ensures Float32(n) == n
  {
    if n < FLOAT32_EXACT {
      assert Pow2(Exponent(n)) == 1;
    } else {
      assert Exponent(n / 2) == 0;
      assert Pow2(Exponent(n)) == 2;
    }
  }

  /** ... and no longer: the next length has the priority of the one before. */
  lemma Float32Collides()
    ensures Float32(FLOAT32_EXACT + 1) == Float32(FLOAT32_EXACT)
  {
    assert Exponent((FLOAT32_EXACT + 1) / 2) == 0;
    assert Pow2(Exponent(FLOAT32_EXACT + 1)) == 2;
    Float32Exactly(FLOAT32_EXACT);
  }

  lemma {:induction false} ExponentFits(n: nat)
    ensures var p := Pow2(Exponent(n));
      n < FLOAT32_EXACT * p && (n >= FLOAT32_EXACT ==> n >= FLOAT32_EXACT / 2 * p)
    decreases n
  {
    if n >= FLOAT32_EXACT {
      ExponentFits(n / 2);
      if n / 2 < FLOAT32_EXACT { assert Exponent(n / 2) == 0; }
    }
  }

  /** A priority is the length rounded to 24 significant bits, k times a power of two: no other multiple is nearer, and
      if one is as near, k is even. */
  lemma Float32Nearest(n: nat, m: nat) returns (k: nat)
    ensures var p := Pow2(Exponent(n));
      && n < FLOAT32_EXACT * p && (n >= FLOAT32_EXACT ==> n >= FLOAT32_EXACT / 2 * p) && Float32(n) == k * p
      && Apart(Float32(n), n) <= Apart(m * p, n)
      && (Apart(m * p, n) == Apart(Float32(n), n) && m != k ==> k % 2 == 0)
  {
    ExponentFits(n);
    var p := Pow2(Exponent(n));
    k := Nearest(n, p, n / p, n % p, m);
  }

  function Apart(a: int, b: int): nat {
    if a < b then b - a else a - b
  }

  lemma Nearest(n: nat, p: nat, q: nat, r: nat, m: nat) returns (k: nat)
    requires n == q * p + r && r < p
    ensures k == if 2 * r > p || (2 * r == p && q % 2 == 1) then q + 1 else q
    ensures Apart(k * p, n) <= Apart(m * p, n) && (Apart(m * p, n) == Apart(k * p, n) && m != k ==> k % 2 == 0)
  {
    k := if 2 * r > p || (2 * r == p && q % 2 == 1) then q + 1 else q;
    Further(m, q, p);
    Further(q + 1, m, p);
    assert (q + 1) * p == q * p + p;
  }

  lemma {:induction false} Further(m: nat, q: nat, p: nat)
    ensures m < q ==> m * p + p <= q * p
    decreases q
  {
    if m < q {
      assert q * p == (q - 1) * p + p;
      Further(m, q - 1, p);
    }
  }

  /** Priorities tell all lengths up to `bound` apart. */
  ghost predicate PrioritiesTell(bound: nat) {
    forall m: nat, n: nat :: m < n <= bound ==> Float32(m) < Float32(n)
  }

  /** The queue orders accounts by length exactly as long as no length exceeds 2^24. */
  lemma PrioritiesTellExactly(bound: nat)
    ensures PrioritiesTell(bound) <==> bound <= FLOAT32_EXACT
  {
    if bound <= FLOAT32_EXACT {
      forall m: nat, n: nat | m < n <= bound ensures Float32(m) < Float32(n) {
        Float32Exactly(m);
        Float32Exactly(n);
      }
    } else {
      Float32Collides();
      assert !(Float32(FLOAT32_EXACT) < Float32(FLOAT32_EXACT + 1));
    }
  }

  // ---------------------------------------------------------------- the eviction, for a given order of pops

  /** The pending lists, all transactions the pool knows, and the running counter. */
  datatype Stage = Stage(pending: Pending, known: set<Tx>, count: int)

  function Len(s: Stage, a: Addr): nat {
    if a in s.pending then |s.pending[a]| else 0
  }

  /** `list.Cap(list.Len() - 1)` with its bookkeeping; on an empty list it panics. */
  function CutOne(s: Stage, a: Addr): Option<Stage> {
    if Len(s, a) == 0 then None
    else
      var list := s.pending[a];
      var n := |list| - 1;
      Some(Stage(s.pending[a := list[..n]], s.known - {list[n]}, s.count - 1))
  }

  /** One round: each of the offenders loses its last transaction. */
  function RoundOf(s: Stage, os: seq<Addr>): (r: Option<Stage>)
    ensures r.Some? ==> forall a :: Len(r.value, a) <= Len(s, a)
    ensures r.Some? && os != [] ==> Len(r.value, os[|os| - 1]) < Len(s, os[|os| - 1])
  {
    if os == [] then Some(s)
    else
      match RoundOf(s, os[..|os| - 1])
      case None => None
      case Some(t) => CutOne(t, os[|os| - 1])
  }

  /** Rounds until the limit is met or the last of the offenders is down to `threshold`. */
  function RoundsOf(s: Stage, os: seq<Addr>, threshold: nat, globalSlots: nat): Option<Stage>
    requires os != []
    decreases Len(s, os[|os| - 1])
  {
    if s.count <= globalSlots || Len(s, os[|os| - 1]) <= threshold then Some(s)
    else
      match RoundOf(s, os)
      case None => None
      case Some(t) => RoundsOf(t, os, threshold, globalSlots)
  }

  datatype Popped = Popped(stage: Stage, offenders: seq<Addr>)

  /** Offenders are popped one by one, and those popped before are brought down to each new one. */
  function PopsOf(s: Stage, popped: seq<Addr>, rest: seq<Addr>, globalSlots: nat): Option<Popped>
    decreases |rest|
  {
    if s.count <= globalSlots || rest == [] then Some(Popped(s, popped))
    else
      match if popped == [] then Some(s) else RoundsOf(s, popped, Len(s, rest[0]), globalSlots)
      case None => None
      case Some(t) => PopsOf(t, popped + [rest[0]], rest[1..], globalSlots)
  }

  /** The whole eviction, `pops` being the order in which the queue hands out the accounts over the limit. */
  function Evict(s: Stage, pops: seq<Addr>, globalSlots: nat, accountSlots: nat): Option<Stage> {
    match PopsOf(s, [], pops, globalSlots)
    case None => None
    case Some(q) =>
      if q.stage.count > globalSlots && q.offenders != []
      then RoundsOf(q.stage, q.offenders, accountSlots, globalSlots)
      else Some(q.stage)
  }

  /** What an eviction starts from: the lists, the known transactions, the accounts in some order, and the limits. */
  datatype Job = Job(p: Pending, known: set<Tx>, order: seq<Addr>, locals: set<Addr>, globalSlots: nat,
                     accountSlots: nat) {
    predicate Valid() { Enumerates(order, p) }

    function Start(): Stage { Stage(p, known, Total(order, p)) }

    function Run(pops: seq<Addr>): Option<Stage> { Evict(Start(), pops, globalSlots, accountSlots) }

    /** Accounts that may lose transactions. */
    function Offenders(): set<Addr> {
      set a | a in p && a !in locals && |p[a]| > accountSlots
    }

    function Left(l: nat): nat { LevelTotal(order, p, locals, l) }

    /** One level higher would not have been enough, or nothing is cut. */
    ghost predicate Needed(l: nat) { Left(l + 1) > globalSlots || Uncut(p, locals, l) }

    /** The queue hands out the offenders, those of higher priority first. */
    ghost predicate IsQueue(pops: seq<Addr>) {
      && Distinct(pops) && Members(pops) == Offenders()
      && forall i, j :: 0 <= i < j < |pops| && pops[i] in p && pops[j] in p ==>
        Float32(|p[pops[i]]|) >= Float32(|p[pops[j]]|)
    }

    /** The run ends without a panic, with the accounts cut back to a fair level. */
    ghost predicate IsFair(r: Option<Stage>) {
      r.Some? && exists l :: EndsAt(r.value, l)
    }

    ghost predicate EndsAt(s: Stage, l: nat) {
      FairLevel(order, p, locals, globalSlots, accountSlots, l) && s.pending == Leveled(p, locals, l)
    }

    /** Lists are cut at the end only, and counter and known transactions say so. */
    ghost predicate Tracks(s: Stage) {
      && s.pending.Keys == p.Keys
      && (forall a :: a in p ==> s.pending[a] <= p[a])
      && s.count == Total(order, s.pending) && s.known == known - Dropped(p, s.pending)
    }
  }

  // ---------------------------------------------------------------- what every order of pops keeps

  lemma StartTracks(job: Job)
    ensures job.Tracks(job.Start())
  {
    assert Dropped(job.p, job.p) == {};
  }

  lemma CutTracks(job: Job, s: Stage, a: Addr)
    requires job.Valid() && job.Tracks(s) && CutOne(s, a).Some?
    ensures job.Tracks(CutOne(s, a).value)
  {
    var list := s.pending[a];
    TotalUpdate(job.order, s.pending, a, list[..|list| - 1]);
    DroppedOne(job.p, s.pending, a);
  }

  lemma {:induction false} RoundTracks(job: Job, s: Stage, os: seq<Addr>)
    requires job.Valid() && job.Tracks(s) && RoundOf(s, os).Some?
    ensures job.Tracks(RoundOf(s, os).value)
    decreases |os|
  {
    if os != [] {
      RoundTracks(job, s, os[..|os| - 1]);
      CutTracks(job, RoundOf(s, os[..|os| - 1]).value, os[|os| - 1]);
    }
  }

  lemma {:induction false} RoundsTracks(job: Job, s: Stage, os: seq<Addr>, threshold: nat)
    requires job.Valid() && job.Tracks(s) && os != [] && RoundsOf(s, os, threshold, job.globalSlots).Some?
    ensures job.Tracks(RoundsOf(s, os, threshold, job.globalSlots).value)
    decreases Len(s, os[|os| - 1])
  {
    if !(s.count <= job.globalSlots || Len(s, os[|os| - 1]) <= threshold) {
      RoundTracks(job, s, os);
      RoundsTracks(job, RoundOf(s, os).value, os, threshold);
    }
  }

  lemma {:induction false} PopsTracks(job: Job, s: Stage, popped: seq<Addr>, rest: seq<Addr>)
    requires job.Valid() && job.Tracks(s) && PopsOf(s, popped, rest, job.globalSlots).Some?
    ensures job.Tracks(PopsOf(s, popped, rest, job.globalSlots).value.stage)
    decreases |rest|
  {
    if s.count > job.globalSlots && rest != [] {
      if popped == [] {
        PopsTracks(job, s, popped + [rest[0]], rest[1..]);
      } else {
        RoundsTracks(job, s, popped, Len(s, rest[0]));
        PopsTracks(job, RoundsOf(s, popped, Len(s, rest[0]), job.globalSlots).value, popped + [rest[0]], rest[1..]);
      }
    }
  }

  /** Whatever the order of pops: lists are cut at the end only, exactly the cut transactions leave the pool, and the
      running counter is the real sum. */
  lemma RunTracks(job: Job, pops: seq<Addr>)
    requires job.Valid() && job.Run(pops).Some?
    ensures job.Tracks(job.Run(pops).value)
  {
    StartTracks(job);
    PopsTracks(job, job.Start(), [], pops);
    var q := PopsOf(job.Start(), [], pops, job.globalSlots).value;
    if q.stage.count > job.globalSlots && q.offenders != [] {
      RoundsTracks(job, q.stage, q.offenders, job.accountSlots);
    }
  }

  // ---------------------------------------------------------------- pops in order of length lead to a fair level

  /** One of the offenders has lost its last transaction, another account nothing. */
  predicate LostOne(q: Pending, r: Pending, os: set<Addr>, a: Addr) {
    a in q && a in r ==> r[a] == if a in os && |q[a]| > 0 then q[a][..|q[a]| - 1] else q[a]
  }

  lemma {:induction false} RoundRuns(s: Stage, os: seq<Addr>)
    requires Distinct(os) && forall a :: a in Members(os) ==> Len(s, a) > 0
    ensures var r := RoundOf(s, os);
      && r.Some? && r.value.pending.Keys == s.pending.Keys
      && forall a :: LostOne(s.pending, r.value.pending, Members(os), a)
    decreases |os|
  {
    if os != [] {
      var b := os[|os| - 1];
      RoundRuns(s, os[..|os| - 1]);
      var t := RoundOf(s, os[..|os| - 1]).value;
      assert LostOne(s.pending, t.pending, Members(os[..|os| - 1]), b);
      var r := CutOne(t, b).value;
      forall a ensures LostOne(s.pending, r.pending, Members(os), a) {
        assert LostOne(s.pending, t.pending, Members(os[..|os| - 1]), a);
      }
    }
  }

  /** A round brings the offenders from one level to the next. */
  lemma RoundLevel(job: Job, s: Stage, os: seq<Addr>, level: nat)
    requires Distinct(os) && level > 0 && IsCut(job.p, job.locals, level, s.pending)
    requires Offending(job.p, job.locals, Members(os), level, level - 1)
    ensures RoundOf(s, os).Some? && IsCut(job.p, job.locals, level - 1, RoundOf(s, os).value.pending)
  {
    forall a | a in Members(os) ensures Len(s, a) == level {
      assert CutAt(job.p, job.locals, level, s.pending, a);
    }
    RoundRuns(s, os);
    var t, m := RoundOf(s, os).value, level - 1;
    forall a ensures CutAt(job.p, job.locals, m, t.pending, a) {
      assert CutAt(job.p, job.locals, level, s.pending, a);
      assert LostOne(s.pending, t.pending, Members(os), a);
    }
  }

  /** At a level the counter is what is left at it. */
  lemma CountIs(job: Job, s: Stage, level: nat)
    requires job.Tracks(s) && IsCut(job.p, job.locals, level, s.pending)
    ensures s.count == job.Left(level)
  {
    CutIsLeveled(job.p, job.locals, level, s.pending);
    TotalLeveled(job.order, job.p, job.locals, level);
  }

  /** The accounts are cut back to a level, and not further than needed. */
  ghost predicate At(job: Job, s: Stage, level: nat) {
    job.Tracks(s) && IsCut(job.p, job.locals, level, s.pending) && job.Needed(level)
  }

  /** A round that was needed. */
  lemma RoundNeeded(job: Job, s: Stage, os: seq<Addr>, bound: nat, level: nat)
    requires job.Valid() && At(job, s, level) && Distinct(os) && bound < level && s.count > job.globalSlots
    requires Offending(job.p, job.locals, Members(os), level, bound)
    ensures RoundOf(s, os).Some? && At(job, RoundOf(s, os).value, level - 1)
    ensures Offending(job.p, job.locals, Members(os), level - 1, bound)
  {
    CountIs(job, s, level);
    RoundLevel(job, s, os, level);
    RoundTracks(job, s, os);
  }

  lemma LastLevel(job: Job, s: Stage, os: seq<Addr>, bound: nat, level: nat)
    requires Distinct(os) && os != [] && IsCut(job.p, job.locals, level, s.pending)
    requires Offending(job.p, job.locals, Members(os), level, bound)
    ensures Len(s, os[|os| - 1]) == level
  {
    DistinctAt(os, |os| - 1);
    assert CutAt(job.p, job.locals, level, s.pending, os[|os| - 1]);
  }

  /** Rounds end at a level with the limit met, or at the threshold.  Accounts between `threshold` and `bound` that are
      still to be popped do no harm if the limit is met before. */
  lemma {:induction false} RoundsLevel(job: Job, s: Stage, os: seq<Addr>, threshold: nat, bound: nat, level: nat)
      returns (l: nat)
    requires job.Valid() && At(job, s, level) && Distinct(os) && os != []
    requires threshold <= bound <= level && (bound == threshold || job.Left(bound) <= job.globalSlots)
    requires Offending(job.p, job.locals, Members(os), level, bound)
    ensures var r := RoundsOf(s, os, threshold, job.globalSlots);
      && r.Some? && At(job, r.value, l) && bound <= l <= level
      && (r.value.count > job.globalSlots ==> l == threshold)
    decreases level
  {
    LastLevel(job, s, os, bound, level);
    CountIs(job, s, level);
    l := level;
    if s.count > job.globalSlots && level > threshold {
      RoundNeeded(job, s, os, bound, level);
      l := RoundsLevel(job, RoundOf(s, os).value, os, threshold, bound, level - 1);
    }
  }

  /** The largest of the accounts still to be popped. */
  lemma {:induction false} LargestOf(p: Pending, rest: seq<Addr>) returns (i: nat)
    requires rest != [] && forall k :: 0 <= k < |rest| ==> rest[k] in p
    ensures i < |rest| && forall k :: 0 <= k < |rest| ==> |p[rest[k]]| <= |p[rest[i]]|
    decreases |rest|
  {
    var n := |rest| - 1;
    i := n;
    if n > 0 {
      var j := LargestOf(p, rest[..n]);
      assert forall k :: 0 <= k < n ==> rest[..n][k] == rest[k];
      if |p[rest[n]]| < |p[rest[j]]| { i := j; }
    }
  }

  /** No account is popped before a longer one, unless the limit is met before that one has to be cut. */
  ghost predicate WellQueued(job: Job, pops: seq<Addr>) {
    forall i, j :: 0 <= i < j < |pops| ==> QueuedAt(job, pops[i], pops[j])
  }

  predicate QueuedAt(job: Job, a: Addr, b: Addr) {
    a in job.p && b in job.p ==> |job.p[a]| >= |job.p[b]| || job.Left(|job.p[b]|) <= job.globalSlots
  }

  /** Between two pops: what is popped is at the level, what is still to pop not above it. */
  ghost predicate Popping(job: Job, s: Stage, popped: seq<Addr>, rest: seq<Addr>, level: nat) {
    && At(job, s, level) && level > job.accountSlots && Distinct(popped + rest)
    && Members(popped + rest) == job.Offenders() && WellQueued(job, rest)
    && (forall k :: 0 <= k < |rest| ==> rest[k] in job.p && |job.p[rest[k]]| <= level)
    && (s.count > job.globalSlots ==> forall a :: a in Members(popped) ==> a in job.p && |job.p[a]| >= level)
    && (popped == [] ==> s.pending == job.p)
  }

  /** The accounts not popped are at most as long as the longest of those still to pop. */
  lemma OthersBelow(job: Job, s: Stage, popped: seq<Addr>, rest: seq<Addr>, level: nat, i: nat)
    requires Popping(job, s, popped, rest, level) && s.count > job.globalSlots && i < |rest|
    requires forall k :: 0 <= k < |rest| ==> |job.p[rest[k]]| <= |job.p[rest[i]]|
    ensures Offending(job.p, job.locals, Members(popped), level, |job.p[rest[i]]|)
    ensures |job.p[rest[i]]| > job.accountSlots
  {
    MembersConcat(popped, rest);
    MembersHas(rest, i);
    forall a | a in job.p && a !in job.locals && a !in Members(popped) ensures |job.p[a]| <= |job.p[rest[i]]| {
      if a in job.Offenders() {
        var k := MembersAt(rest, a);
      }
    }
  }

  /** The first offender is the longest: nothing is cut yet, so no longer account can do without being cut. */
  lemma FirstIsLongest(job: Job, s: Stage, rest: seq<Addr>, level: nat, i: nat)
    requires Popping(job, s, [], rest, level) && s.count > job.globalSlots && i < |rest|
    requires forall k :: 0 <= k < |rest| ==> |job.p[rest[k]]| <= |job.p[rest[i]]|
    ensures |job.p[rest[i]]| == |job.p[rest[0]]| && At(job, s, |job.p[rest[0]]|)
  {
    var m := |job.p[rest[i]]|;
    OthersBelow(job, s, [], rest, level, i);
    UncutTotal(job.order, job.p, job.locals, m);
    UncutIsCut(job.p, job.locals, m);
    if i > 0 { assert QueuedAt(job, rest[0], rest[i]); }
  }

  /** The rounds that a pop sets off. */
  lemma PopRounds(job: Job, s: Stage, popped: seq<Addr>, rest: seq<Addr>, level: nat) returns (l: nat)
    requires job.Valid() && Popping(job, s, popped, rest, level) && s.count > job.globalSlots && rest != []
    ensures var r := if popped == [] then Some(s) else RoundsOf(s, popped, Len(s, rest[0]), job.globalSlots);
      && r.Some? && At(job, r.value, l) && l <= level
      && (forall k :: 0 <= k < |rest| ==> |job.p[rest[k]]| <= l)
      && (r.value.count > job.globalSlots ==> l == |job.p[rest[0]]|)
  {
    if popped == [] {
      var i := LargestOf(job.p, rest);
      FirstIsLongest(job, s, rest, level, i);
      l := |job.p[rest[0]]|;
    } else {
      l := LaterRounds(job, s, popped, rest, level);
    }
  }

  lemma LaterRounds(job: Job, s: Stage, popped: seq<Addr>, rest: seq<Addr>, level: nat) returns (l: nat)
    requires job.Valid() && Popping(job, s, popped, rest, level) && s.count > job.globalSlots
    requires rest != [] && popped != []
    ensures var r := RoundsOf(s, popped, Len(s, rest[0]), job.globalSlots);
      && r.Some? && At(job, r.value, l) && l <= level
      && (forall k :: 0 <= k < |rest| ==> |job.p[rest[k]]| <= l)
      && (r.value.count > job.globalSlots ==> l == |job.p[rest[0]]|)
  {
    var i := LargestOf(job.p, rest);
    assert CutAt(job.p, job.locals, level, s.pending, rest[0]);
    OthersBelow(job, s, popped, rest, level, i);
    DistinctFront(popped, rest);
    if i > 0 { assert QueuedAt(job, rest[0], rest[i]); }
    l := RoundsLevel(job, s, popped, |job.p[rest[0]]|, |job.p[rest[i]]|, level);
  }

  lemma PopKeeps(job: Job, s: Stage, popped: seq<Addr>, rest: seq<Addr>, level: nat, t: Stage, l: nat)
    requires Popping(job, s, popped, rest, level) && s.count > job.globalSlots && rest != []
    requires At(job, t, l) && l <= level && (forall k :: 0 <= k < |rest| ==> |job.p[rest[k]]| <= l)
    requires t.count > job.globalSlots ==> l == |job.p[rest[0]]|
    ensures Popping(job, t, popped + [rest[0]], rest[1..], l)
  {
    assert popped + [rest[0]] + rest[1..] == popped + rest;
    MembersConcat(popped, rest);
    MembersHas(rest, 0);
    MembersConcat(popped, [rest[0]]);
    assert Members([rest[0]]) == {rest[0]} by { assert [rest[0]][..0] == []; }
    assert rest[0] in job.Offenders();
  }

  /** The pops end at a level with the limit met, or with all offenders popped. */
  lemma {:induction false} PopsLevel(job: Job, s: Stage, popped: seq<Addr>, rest: seq<Addr>, level: nat)
      returns (l: nat)
    requires job.Valid() && Popping(job, s, popped, rest, level)
    ensures var r := PopsOf(s, popped, rest, job.globalSlots);
      && r.Some?
      && (r.value.stage.count > job.globalSlots ==> Popping(job, r.value.stage, r.value.offenders, [], l))
      && At(job, r.value.stage, l) && l > job.accountSlots
    decreases |rest|
  {
    l := level;
    if s.count > job.globalSlots && rest != [] {
      var m := PopRounds(job, s, popped, rest, level);
      var t := (if popped == [] then Some(s) else RoundsOf(s, popped, Len(s, rest[0]), job.globalSlots)).value;
      PopKeeps(job, s, popped, rest, level, t, m);
      l := PopsLevel(job, t, popped + [rest[0]], rest[1..], m);
    }
  }

  lemma StartPops(job: Job, pops: seq<Addr>) returns (level: nat)
    requires job.Valid() && Distinct(pops) && Members(pops) == job.Offenders() && WellQueued(job, pops)
    ensures Popping(job, job.Start(), [], pops, level)
  {
    level := job.accountSlots + 1 + Total(job.order, job.p);
    StartAt(job, level);
    assert [] + pops == pops;
    forall k | 0 <= k < |pops| ensures pops[k] in job.p { MembersHas(pops, k); }
  }

  lemma StartAt(job: Job, level: nat)
    requires job.Valid() && level >= Total(job.order, job.p)
    ensures At(job, job.Start(), level) && forall a :: a in job.p ==> |job.p[a]| <= level
  {
    NothingCut(job.order, job.p, job.locals, level);
    StartTracks(job);
  }

  /** The last rounds, down to the account limit. */
  lemma FinishLevel(job: Job, s: Stage, offenders: seq<Addr>, level: nat) returns (l: nat)
    requires job.Valid() && Popping(job, s, offenders, [], level) && s.count > job.globalSlots
    ensures var r := if offenders != [] then RoundsOf(s, offenders, job.accountSlots, job.globalSlots) else Some(s);
      && r.Some? && At(job, r.value, l) && l >= job.accountSlots
      && (r.value.count > job.globalSlots ==> l == job.accountSlots)
  {
    assert offenders + [] == offenders;
    if offenders != [] {
      l := RoundsLevel(job, s, offenders, job.accountSlots, job.accountSlots, level);
    } else {
      l := job.accountSlots;
      assert forall a :: a !in job.Offenders();
      UncutIsCut(job.p, job.locals, l);
    }
  }

  lemma RunLevel(job: Job, pops: seq<Addr>) returns (l: nat)
    requires job.Valid() && Distinct(pops) && Members(pops) == job.Offenders() && WellQueued(job, pops)
    ensures var r := job.Run(pops);
      && r.Some? && At(job, r.value, l) && l >= job.accountSlots
      && (r.value.count > job.globalSlots ==> l == job.accountSlots)
  {
    var level := StartPops(job, pops);
    l := PopsLevel(job, job.Start(), [], pops, level);
    var q := PopsOf(job.Start(), [], pops, job.globalSlots).value;
    if q.stage.count > job.globalSlots {
      l := FinishLevel(job, q.stage, q.offenders, l);
    }
  }

  lemma AtIsFair(job: Job, s: Stage, l: nat)
    requires At(job, s, l) && l >= job.accountSlots && (s.count > job.globalSlots ==> l == job.accountSlots)
    ensures job.EndsAt(s, l)
  {
    CountIs(job, s, l);
    CutIsLeveled(job.p, job.locals, l, s.pending);
  }

  /** If the offenders are popped in a good order, the eviction is fair. */
  lemma WellQueuedIsFair(job: Job, pops: seq<Addr>)
    requires job.Valid() && Distinct(pops) && Members(pops) == job.Offenders() && WellQueued(job, pops)
    ensures job.IsFair(job.Run(pops))
  {
    var l := RunLevel(job, pops);
    AtIsFair(job, job.Run(pops).value, l);
  }

  // ---------------------------------------------------------------- any other order does not

  /** What an account has lost. */
  function Loss(s: Stage, t: Stage, a: Addr): int {
    Len(s, a) - Len(t, a)
  }

  /** In a round everyone on the list loses one. */
  lemma {:induction false} RoundLoss(s: Stage, os: seq<Addr>, a: Addr)
    requires Distinct(os) && RoundOf(s, os).Some?
    ensures Loss(s, RoundOf(s, os).value, a) == if a in Members(os) then 1 else 0
    decreases |os|
  {
    if os != [] { RoundLoss(s, os[..|os| - 1], a); }
  }

  /** Over rounds everyone on the list loses the same, and no one else anything. */
  lemma {:induction false} RoundsLoss(s: Stage, os: seq<Addr>, threshold: nat, globalSlots: nat, a: Addr, b: Addr)
    requires Distinct(os) && os != [] && a in Members(os) && RoundsOf(s, os, threshold, globalSlots).Some?
    ensures var t := RoundsOf(s, os, threshold, globalSlots).value;
      && Loss(s, t, b) == (if b in Members(os) then Loss(s, t, a) else 0) && Loss(s, t, a) >= 0
      && (t.count <= globalSlots || Len(t, os[|os| - 1]) <= threshold)
    decreases Len(s, os[|os| - 1])
  {
    if s.count > globalSlots && Len(s, os[|os| - 1]) > threshold {
      RoundLoss(s, os, a);
      RoundLoss(s, os, b);
      RoundsLoss(RoundOf(s, os).value, os, threshold, globalSlots, a, b);
    }
  }

  /** Over the pops, an account loses at least as much as one that is popped later. */
  lemma {:induction false} PopsLoss(s: Stage, popped: seq<Addr>, rest: seq<Addr>, globalSlots: nat, i: nat, j: nat)
    requires Distinct(popped + rest) && i < j < |popped + rest| && PopsOf(s, popped, rest, globalSlots).Some?
    ensures var r := PopsOf(s, popped, rest, globalSlots).value;
      var x, y := Loss(s, r.stage, (popped + rest)[i]), Loss(s, r.stage, (popped + rest)[j]);
      && x >= y && (j < |popped| ==> x == y)
      && (r.stage.count > globalSlots ==> r.offenders == popped + rest)
    decreases |rest|
  {
    var all := popped + rest;
    if s.count > globalSlots && rest != [] {
      assert popped + [rest[0]] + rest[1..] == all;
      var t := s;
      if popped != [] {
        t := RoundsOf(s, popped, Len(s, rest[0]), globalSlots).value;
        DistinctFront(popped, rest);
        MembersHas(popped, 0);
        RoundsLoss(s, popped, Len(s, rest[0]), globalSlots, popped[0], all[i]);
        RoundsLoss(s, popped, Len(s, rest[0]), globalSlots, popped[0], all[j]);
        PositionMembers(popped, rest, i);
        PositionMembers(popped, rest, j);
      }
      PopsLoss(t, popped + [rest[0]], rest[1..], globalSlots, i, j);
    } else {
      assert rest == [] ==> popped + rest == popped;
    }
  }

  /** Membership in the first part of a list without repetitions is a matter of position. */
  lemma PositionMembers(a: seq<Addr>, b: seq<Addr>, i: nat)
    requires Distinct(a + b) && i < |a + b|
    ensures (a + b)[i] in Members(a) <==> i < |a|
  {
    if i < |a| {
      MembersHas(a, i);
    } else {
      DistinctAt(a + b, i);
      assert (a + b)[..i] == a + (a + b)[|a|..i];
      MembersConcat(a, (a + b)[|a|..i]);
    }
  }

  /** Over the whole eviction. */
  lemma RunLoss(job: Job, pops: seq<Addr>, i: nat, j: nat)
    requires Distinct(pops) && i < j < |pops| && job.Run(pops).Some?
    ensures var r := job.Run(pops).value;
      && Loss(job.Start(), r, pops[i]) >= Loss(job.Start(), r, pops[j])
      && (r.count <= job.globalSlots || Len(r, pops[|pops| - 1]) <= job.accountSlots)
  {
    assert [] + pops == pops;
    PopsLoss(job.Start(), [], pops, job.globalSlots, i, j);
    var q := PopsOf(job.Start(), [], pops, job.globalSlots).value;
    if q.stage.count > job.globalSlots {
      MembersHas(pops, i);
      MembersHas(pops, j);
      RoundsLoss(q.stage, pops, job.accountSlots, job.globalSlots, pops[i], pops[j]);
    }
  }

  /** If a shorter account is popped before a longer one that has to be cut, the result is not level, whatever the
      level: the shorter one loses at least as much.  It falls below the account limit if the longer one is the last. */
  lemma BadlyQueued(job: Job, pops: seq<Addr>, i: nat, j: nat)
    requires job.Valid() && Distinct(pops) && Members(pops) == job.Offenders()
    requires i < j < |pops| && !QueuedAt(job, pops[i], pops[j]) && job.Run(pops).Some?
    ensures var r := job.Run(pops).value;
      && (forall l: nat :: r.pending != Leveled(job.p, job.locals, l))
      && Len(r, pops[j]) - Len(r, pops[i]) >= |job.p[pops[j]]| - |job.p[pops[i]]| > 0
      && (r.count > job.globalSlots && j == |pops| - 1 ==> Len(r, pops[i]) < job.accountSlots)
  {
    RunLoss(job, pops, i, j);
    RunTracks(job, pops);
    MembersHas(pops, i);
    MembersHas(pops, j);
    MembersHas(pops, |pops| - 1);
    forall l: nat ensures job.Run(pops).value.pending != Leveled(job.p, job.locals, l) {
      NotLevel(job, job.Run(pops).value, pops[i], pops[j], pops[|pops| - 1], l);
    }
  }

  lemma NotLevel(job: Job, r: Stage, a: Addr, b: Addr, last: Addr, l: nat)
    requires job.Tracks(r) && {a, b, last} <= job.Offenders() && |job.p[a]| < |job.p[b]|
    requires job.Left(|job.p[b]|) > job.globalSlots && Loss(job.Start(), r, a) >= Loss(job.Start(), r, b)
    requires r.count <= job.globalSlots || Len(r, last) <= job.accountSlots
    ensures r.pending != Leveled(job.p, job.locals, l)
  {
    if r.pending == Leveled(job.p, job.locals, l) {
      TotalLeveled(job.order, job.p, job.locals, l);
      if l >= |job.p[b]| { LevelTotalMonotone(job.order, job.p, job.locals, |job.p[b]|, l); }
      assert false;
    }
  }

  /** For any given order of pops: the eviction is fair exactly if no account is popped before a longer one that has to
      be cut. */
  lemma FairOrderExactly(job: Job, pops: seq<Addr>)
    requires job.Valid() && Distinct(pops) && Members(pops) == job.Offenders()
    ensures job.IsFair(job.Run(pops)) <==> WellQueued(job, pops)
  {
    if WellQueued(job, pops) {
      WellQueuedIsFair(job, pops);
    } else {
      var i, j :| 0 <= i < j < |pops| && !QueuedAt(job, pops[i], pops[j]);
      if job.Run(pops).Some? { BadlyQueued(job, pops, i, j); }
    }
  }

  // ---------------------------------------------------------------- when the priorities guarantee a good order

  /** The priorities tell offenders of different length apart, unless the limit is met before the longer has to be
      cut. */
  ghost predicate TellsApart(job: Job) {
    forall a, b :: a in job.Offenders() && b in job.Offenders() && !QueuedAt(job, a, b) ==>
      Float32(|job.p[a]|) < Float32(|job.p[b]|)
  }

  lemma QueueIsGood(job: Job, pops: seq<Addr>)
    requires TellsApart(job) && job.IsQueue(pops)
    ensures WellQueued(job, pops)
  {
    forall i, j | 0 <= i < j < |pops| ensures QueuedAt(job, pops[i], pops[j]) {
      MembersHas(pops, i);
      MembersHas(pops, j);
    }
  }

  lemma {:induction false} DistinctOnce(order: seq<Addr>, a: Addr)
    ensures a in Members(order) <==> multiset(order)[a] > 0
    ensures Distinct(order) ==> multiset(order)[a] <= 1
    decreases |order|
  {
    if order != [] {
      DistinctOnce(order[..|order| - 1], a);
      assert order == order[..|order| - 1] + [order[|order| - 1]];
    }
  }

  lemma {:induction false} OnceDistinct(order: seq<Addr>)
    requires forall a :: multiset(order)[a] <= 1
    ensures Distinct(order)
    decreases |order|
  {
    if order != [] {
      var front, last := order[..|order| - 1], order[|order| - 1];
      assert order == front + [last];
      assert multiset(order)[last] == multiset(front)[last] + 1;
      forall a ensures multiset(front)[a] <= 1 {
        assert multiset(front)[a] <= multiset(order)[a];
      }
      OnceDistinct(front);
      DistinctOnce(front, last);
    }
  }

  lemma {:induction false} Listed(s: set<Addr>) returns (order: seq<Addr>)
    ensures Distinct(order) && Members(order) == s
  {
    order := [];
    if s != {} {
      var a :| a in s;
      order := Listed(s - {a});
      DistinctAppend(order, a);
      order := order + [a];
    }
  }

  /** Any set of accounts can be arranged by a key. */
  lemma Arranged(s: set<Addr>, key: Addr -> int) returns (pops: seq<Addr>)
    ensures Distinct(pops) && Members(pops) == s && Heap.Sorted(pops, key)
  {
    var order := Listed(s);
    pops := Heap.Sort(order, key);
    forall a ensures multiset(pops)[a] <= 1 && (a in Members(pops) <==> a in s) {
      DistinctOnce(order, a);
      DistinctOnce(pops, a);
    }
    OnceDistinct(pops);
  }

  function Priority(p: Pending, a: Addr): nat {
    if a in p then Float32(|p[a]|) else 0
  }

  lemma KeyOrder(pops: seq<Addr>, key: Addr -> int, i: nat, j: nat)
    requires Heap.Sorted(pops, key) && i < |pops| && j < |pops| && key(pops[i]) < key(pops[j])
    ensures i < j
  {
  }

  predicate Yields(p: Pending, first: Addr, a: Addr, b: Addr) {
    a == first && b != first && Priority(p, first) >= Priority(p, b)
  }

  /** A queue may hand out any account before those of equal priority. */
  lemma QueueExists(job: Job, first: Addr) returns (pops: seq<Addr>)
    ensures job.IsQueue(pops)
    ensures forall i, j :: 0 <= i < |pops| && 0 <= j < |pops| && Yields(job.p, first, pops[i], pops[j]) ==> i < j
  {
    var key := (a: Addr) => -2 * Priority(job.p, a) - if a == first then 1 else 0;
    pops := Arranged(job.Offenders(), key);
    forall i, j | 0 <= i < j < |pops| ensures Priority(job.p, pops[i]) >= Priority(job.p, pops[j]) {
      assert key(pops[i]) <= key(pops[j]);
    }
    forall i, j | 0 <= i < |pops| && 0 <= j < |pops| && Yields(job.p, first, pops[i], pops[j]) ensures i < j {
      KeyOrder(pops, key, i, j);
    }
  }

  /** The eviction is fair, whichever of several accounts of the same priority the queue prefers, exactly if the
      priorities tell the offenders apart where it matters. */
  lemma FairExactly(job: Job)
    requires job.Valid()
    ensures (forall pops :: job.IsQueue(pops) ==> job.IsFair(job.Run(pops))) <==> TellsApart(job)
  {
    if TellsApart(job) {
      forall pops | job.IsQueue(pops) ensures job.IsFair(job.Run(pops)) {
        QueueIsGood(job, pops);
        WellQueuedIsFair(job, pops);
      }
    } else {
      var a, b :| a in job.Offenders() && b in job.Offenders() && !QueuedAt(job, a, b)
        && Float32(|job.p[a]|) >= Float32(|job.p[b]|);
      var pops := QueueExists(job, a);
      var i := MembersAt(pops, a);
      var j := MembersAt(pops, b);
      assert Yields(job.p, a, pops[i], pops[j]);
      assert !QueuedAt(job, pops[i], pops[j]);
      FairOrderExactly(job, pops);
    }
  }

  /** As long as no offender has more than 2^24 transactions. */
  lemma ShortListsAreFair(job: Job)
    requires forall a :: a in job.Offenders() ==> |job.p[a]| <= FLOAT32_EXACT
    ensures TellsApart(job)
  {
    forall a, b | a in job.Offenders() && b in job.Offenders() && !QueuedAt(job, a, b)
      ensures Float32(|job.p[a]|) < Float32(|job.p[b]|)
    {
      Float32Exactly(|job.p[a]|);
      Float32Exactly(|job.p[b]|);
    }
  }

  /** Two accounts of 2^24 and 2^24 + 1 transactions, and one slot too few, are too many. */
  lemma CollisionExample(job: Job)
    requires job.p.Keys == {1, 2} && job.order == [1, 2] && job.locals == {} && job.accountSlots == 16
    requires |job.p[1]| == FLOAT32_EXACT && |job.p[2]| == FLOAT32_EXACT + 1 && job.globalSlots == 2 * FLOAT32_EXACT
    ensures job.Valid() && !TellsApart(job) && exists pops :: job.IsQueue(pops) && !job.IsFair(job.Run(pops))
  {
    assert [1, 2][..1] == [1] && [1][..0] == [];
    assert Members([1]) == {1} && Members([1, 2]) == {1, 2} && Distinct([1, 2]);
    assert LevelTotal([1], job.p, {}, FLOAT32_EXACT + 1) == FLOAT32_EXACT;
    assert !QueuedAt(job, 1, 2);
    Float32Collides();
    FairExactly(job);
  }

  // ---------------------------------------------------------------- the pool

  class Pool {
    const globalSlots: nat
    const accountSlots: nat
    const locals: set<Addr>
    var pending: Pending
    /** Every transaction the pool knows. */
    var all: set<Tx>

    constructor (g: nat, a: nat, l: set<Addr>, p: Pending, known: set<Tx>)
      ensures globalSlots == g && accountSlots == a && locals == l && pending == p && all == known
    {
      globalSlots, accountSlots, locals, pending, all := g, a, l, p, known;
    }

    function At(count: int): Stage
      reads this
    {
      Stage(pending, all, count)
    }

    /** The inner loops: one round over the offenders; not `ok` on a panic. */
    method Round(os: seq<Addr>, count0: int) returns (ok: bool, count: int)
      modifies this`pending, this`all
      ensures RoundOf(old(At(count0)), os) == if ok then Some(At(count)) else None
    {
      ok, count := true, count0;
      ghost var s := At(count0);
      for i := 0 to |os|
        invariant RoundOf(s, os[..i]) == Some(At(count))
      {
        assert os[..i + 1][..i] == os[..i];
        var a := os[i];
        if a !in pending || |pending[a]| == 0 {
          RoundStops(s, os, i + 1);
          return false, count;
        }
        var list := pending[a];
        pending := pending[a := list[..|list| - 1]];
        all := all - {list[|list| - 1]};
        count := count - 1;
      }
      assert os[..|os|] == os;
    }

    /** The rounds, while the limit is exceeded and the last offender is above the threshold. */
    method Rounds(os: seq<Addr>, threshold: nat, count0: int) returns (ok: bool, count: int)
      requires os != []
      modifies this`pending, this`all
      ensures RoundsOf(old(At(count0)), os, threshold, globalSlots) == if ok then Some(At(count)) else None
    {
      ok, count := true, count0;
      ghost var s := At(count0);
      var last := os[|os| - 1];
      while count > globalSlots && last in pending && |pending[last]| > threshold
        invariant RoundsOf(s, os, threshold, globalSlots) == RoundsOf(At(count), os, threshold, globalSlots)
        decreases Len(At(count), last)
      {
        ok, count := Round(os, count);
        if !ok {
          return;
        }
      }
    }

    /** The counting loop of `promoteExecutables` */
    method CountPending(order: seq<Addr>) returns (count: nat)
      requires Enumerates(order, pending)
      ensures count == Total(order, pending)
    {
      count := 0;
      for i := 0 to |order|
        invariant count == Total(order[..i], pending)
      {
        DistinctAt(order, i);
        assert order[..i + 1][..i] == order[..i];
        count := count + |pending[order[i]]|;
      }
      assert order[..|order|] == order;
    }

    /** The loop that pushes the high rollers, with their lengths as float32 for priorities. */
    method Spammers(order: seq<Addr>) returns (queue: map<Addr, nat>)
      requires Enumerates(order, pending)
      ensures forall a :: a in queue <==> a in pending && a !in locals && |pending[a]| > accountSlots
      ensures forall a :: a in queue ==> queue[a] == Priority(pending, a)
    {
      queue := map[];
      for i := 0 to |order|
        invariant forall a :: a in queue <==>
                    a in Members(order[..i]) && a in pending && a !in locals && |pending[a]| > accountSlots
        invariant forall a :: a in queue ==> queue[a] == Priority(pending, a)
      {
        DistinctAt(order, i);
        var a := order[i];
        if a !in locals && |pending[a]| > accountSlots {
          queue := queue[a := Float32(|pending[a]|)];
        }
      }
      assert order[..|order|] == order;
    }

    /** `spammers.Pop`: some account of the highest priority. */
    static method PopLargest(queue: map<Addr, nat>) returns (a: Addr)
      requires queue.Keys != {}
      ensures IsTop(queue, queue.Keys, a)
    {
      TopExists(queue, queue.Keys);
      a :| IsTop(queue, queue.Keys, a);
    }

    /** The loop that pops offenders and brings all popped before down to each new one. */
    method Level(queue0: map<Addr, nat>, count0: int, ghost job: Job)
        returns (ok: bool, offenders: seq<Addr>, count: int, ghost rest: seq<Addr>)
      requires Queued(job, [], queue0) && globalSlots == job.globalSlots
      modifies this`pending, this`all
      ensures job.IsQueue(offenders + rest)
      ensures PopsOf(old(At(count0)), [], offenders + rest, globalSlots) ==
              if ok then Some(Popped(At(count), offenders)) else None
    {
      ok, offenders, count := true, [], count0;
      ghost var s := At(count0);
      var queue := queue0;
      assert forall more: seq<Addr> :: [] + more == more;
      while count > globalSlots && queue.Keys != {}
        invariant Queued(job, offenders, queue) && Continues(s, At(count), offenders, globalSlots)
        decreases |queue|
      {
        var offender := PopLargest(queue);
        ghost var before, t := offenders, At(count);
        QueuedMore(job, offenders, queue, offender);
        queue := queue - {offender};
        offenders := offenders + [offender];
        if |offenders| > 1 {
          var threshold := if offender in pending then |pending[offender]| else 0;
          assert offenders[..|offenders| - 1] == before;
          ok, count := Rounds(offenders[..|offenders| - 1], threshold, count);
          if !ok {
            rest := QueueRest(job, offenders, queue);
            PopsStop(s, t, before, offender, rest, globalSlots);
            return;
          }
        }
        PopsGo(s, t, before, offender, At(count), globalSlots);
      }
      rest := QueueRest(job, offenders, queue);
      assert Continued(s, At(count), offenders, rest, globalSlots);
      if queue.Keys == {} { assert rest == []; }
    }

    /** The equalising part of `promoteExecutables`.  `order` is the order in which the map is iterated, and `pops` the
        one in which the queue hands out, or would hand out, the offenders. */
    method Equalise(order: seq<Addr>) returns (ok: bool, count: int, ghost pops: seq<Addr>)
      requires Enumerates(order, pending)
      modifies this`pending, this`all
      ensures var job := old(Task(order));
        && job.IsQueue(pops) && job.Run(pops) == (if ok then Some(At(count)) else None)
        && (ok ==> job.Tracks(At(count)))
        && (TellsApart(job) ==> job.IsFair(if ok then Some(At(count)) else None))
    {
      ghost var job := Task(order);
      ok := true;
      count := CountPending(order);
      if count > globalSlots {
        var queue := Spammers(order);
        QueuedAll(job, queue);
        var offenders;
        ghost var rest;
        ok, offenders, count, rest := Level(queue, count, job);
        pops := offenders + rest;
        if ok && count > globalSlots && |offenders| > 0 {
          ok, count := Rounds(offenders, accountSlots, count);
        }
      } else {
        pops := QueueExists(job, 0);
      }
      if ok { RunTracks(job, pops); }
      FairExactly(job);
    }

    ghost function Task(order: seq<Addr>): Job
      reads this
    {
      Job(pending, all, order, locals, globalSlots, accountSlots)
    }
  }

  predicate IsTop(queue: map<Addr, nat>, s: set<Addr>, a: Addr)
    requires s <= queue.Keys
  {
    a in s && forall b :: b in s ==> queue[b] <= queue[a]
  }

  lemma {:induction false} TopExists(queue: map<Addr, nat>, s: set<Addr>)
    requires s <= queue.Keys && s != {}
    ensures exists a :: IsTop(queue, s, a)
    decreases |s|
  {
    var x :| x in s;
    if s == {x} {
      assert IsTop(queue, s, x);
    } else {
      TopExists(queue, s - {x});
      var y :| IsTop(queue, s - {x}, y);
      assert forall b :: b in s ==> b == x || b in s - {x};
      assert IsTop(queue, s, if queue[x] <= queue[y] then y else x);
    }
  }

  /** The queue holds the offenders not yet popped, with their priorities; those popped come first. */
  ghost predicate Queued(job: Job, offenders: seq<Addr>, queue: map<Addr, nat>) {
    && Distinct(offenders) && Members(offenders) !! queue.Keys && Members(offenders) + queue.Keys == job.Offenders()
    && (forall a :: a in queue ==> queue[a] == Priority(job.p, a))
    && (forall i, j :: 0 <= i < j < |offenders| ==> Priority(job.p, offenders[i]) >= Priority(job.p, offenders[j]))
    && (forall i, b :: 0 <= i < |offenders| && b in queue ==> Priority(job.p, offenders[i]) >= queue[b])
  }

  lemma QueuedMore(job: Job, offenders: seq<Addr>, queue: map<Addr, nat>, a: Addr)
    requires Queued(job, offenders, queue) && IsTop(queue, queue.Keys, a)
    ensures Queued(job, offenders + [a], queue - {a})
  {
    DistinctAppend(offenders, a);
    assert (queue - {a}).Keys == queue.Keys - {a};
  }

  /** What the queue would still hand out. */
  lemma QueueRest(job: Job, offenders: seq<Addr>, queue: map<Addr, nat>) returns (rest: seq<Addr>)
    requires Queued(job, offenders, queue)
    ensures job.IsQueue(offenders + rest) && (queue.Keys == {} ==> rest == [])
  {
    var key := (a: Addr) => -(Priority(job.p, a) as int);
    rest := Arranged(queue.Keys, key);
    if rest != [] { MembersHas(rest, 0); }
    DistinctConcat(offenders, rest);
    MembersConcat(offenders, rest);
    var all := offenders + rest;
    forall i, j | 0 <= i < j < |all| ensures Priority(job.p, all[i]) >= Priority(job.p, all[j]) {
      if j >= |offenders| { MembersHas(rest, j - |offenders|); }
      assert |offenders| <= i ==> key(rest[i - |offenders|]) <= key(rest[j - |offenders|]);
    }
  }

  lemma {:induction false} DistinctConcat(a: seq<Addr>, b: seq<Addr>)
    requires Distinct(a) && Distinct(b) && Members(a) !! Members(b)
    ensures Distinct(a + b)
    decreases |b|
  {
    if b == [] {
      assert a + b == a;
    } else {
      var t := b[..|b| - 1];
      DistinctConcat(a, t);
      MembersConcat(a, t);
      assert (a + b)[..|a + b| - 1] == a + t;
    }
  }

  lemma QueuedAll(job: Job, queue: map<Addr, nat>)
    requires queue.Keys == job.Offenders() && forall a :: a in queue ==> queue[a] == Priority(job.p, a)
    ensures Queued(job, [], queue)
  {
  }

  /** However it goes on, the pops from s are those from t after `offenders`. */
  ghost predicate Continues(s: Stage, t: Stage, offenders: seq<Addr>, globalSlots: nat) {
    forall more :: Continued(s, t, offenders, more, globalSlots)
  }

  predicate Continued(s: Stage, t: Stage, offenders: seq<Addr>, more: seq<Addr>, globalSlots: nat) {
    PopsOf(s, [], offenders + more, globalSlots) == PopsOf(t, offenders, more, globalSlots)
  }

  lemma PopsGo(s: Stage, t: Stage, before: seq<Addr>, a: Addr, u: Stage, globalSlots: nat)
    requires Continues(s, t, before, globalSlots) && t.count > globalSlots
    requires Some(u) == if before == [] then Some(t) else RoundsOf(t, before, Len(t, a), globalSlots)
    ensures Continues(s, u, before + [a], globalSlots)
  {
    forall more ensures Continued(s, u, before + [a], more, globalSlots) {
      assert Continued(s, t, before, [a] + more, globalSlots);
      assert before + [a] + more == before + ([a] + more);
      assert ([a] + more)[1..] == more;
    }
  }

  lemma PopsStop(s: Stage, t: Stage, before: seq<Addr>, a: Addr, more: seq<Addr>, globalSlots: nat)
    requires Continues(s, t, before, globalSlots) && t.count > globalSlots
    requires before != [] && RoundsOf(t, before, Len(t, a), globalSlots).None?
    ensures PopsOf(s, [], before + [a] + more, globalSlots).None?
  {
    assert Continued(s, t, before, [a] + more, globalSlots);
    assert before + [a] + more == before + ([a] + more);
  }

  lemma {:induction false} RoundStops(s: Stage, os: seq<Addr>, i: nat)
    requires i <= |os| && RoundOf(s, os[..i]).None?
    ensures RoundOf(s, os).None?
    decreases |os|
  {
    if i == |os| {
      assert os[..i] == os;
    } else {
      assert os[..|os| - 1][..i] == os[..i];
      RoundStops(s, os[..|os| - 1], i);
    }
  }
}
