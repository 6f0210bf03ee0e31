/** The chain indexer: sections of headers are processed without the lock while reorganisations come in. */
module ChainIndexer {

  import opened Basics
  import BlockTree

  type Hash = BlockTree.Hash

  type Header = BlockTree.Header

  const ZERO_HASH: Hash := BlockTree.ZERO_HASH

  // ---------------------------------------------------------------- linked headers

  /** The header at i follows the one before it, the first one `from`. */
  predicate LinkAt(r: seq<Header>, from: Hash, i: nat) {
    i < |r| ==> r[i].parent == if i == 0 then from else r[i - 1].hash
  }

  ghost predicate Linked(r: seq<Header>, from: Hash) {
    forall i: nat :: LinkAt(r, from, i)
  }

  predicate NumberAt(r: seq<Header>, first: nat, i: nat) {
    i < |r| ==> r[i].number == first + i
  }

  ghost predicate Numbered(r: seq<Header>, first: nat) {
    forall i: nat :: NumberAt(r, first, i)
  }

  /** Hash of the last header, or where the run starts. */
  function Tip(r: seq<Header>, from: Hash): Hash {
    if r == [] then from else r[|r| - 1].hash
  }

  lemma LinkedJoin(a: seq<Header>, b: seq<Header>, from: Hash, first: nat)
    requires Linked(a, from) && Linked(b, Tip(a, from)) && Numbered(a, first) && Numbered(b, first + |a|)
    ensures Linked(a + b, from) && Numbered(a + b, first) && Tip(a + b, from) == Tip(b, Tip(a, from))
  {
    forall i: nat ensures LinkAt(a + b, from, i) && NumberAt(a + b, first, i) {
      assert LinkAt(a, from, i) && NumberAt(a, first, i);
      assert i >= |a| ==> LinkAt(b, Tip(a, from), i - |a|) && NumberAt(b, first + |a|, i - |a|);
    }
  }

  // ---------------------------------------------------------------- the indexer

  /** The background work on a section: headers read so far, or the news that it failed. */
  datatype Job = Idle | Reading(section: nat, oldHead: Hash, done: seq<Header>) | Failed

  /** `runs` records, for every stored section, the headers it was made from; `top` is one above the highest head
      announced. */
  datatype State = State(size: nat, confirms: nat, stored: nat, known: nat, cascaded: nat,
                         heads: map<nat, Hash>, count: nat,
                         job: Job, runs: map<nat, seq<Header>>, top: nat)

  /** `NewHead` is one call of `newHead`; `Begin` and `Finish` are the locked parts of `updateLoop`, before and after
      `processSection`; `Read` is one round of its loop, with what the chain database had at that moment; `Restart` is
      the end of the program and a new start on the same database. */
  datatype Action =
    | NewHead(head: nat, reorg: bool)
    | Begin
    | Read(header: Option<Header>)
    | Finish(committed: bool)
    | Restart

  function Init(size: nat, confirms: nat): State {
    State(size, confirms, 0, 0, 0, map[], 0, Idle, map[], 0)
  }

  function SectionHead(heads: map<nat, Hash>, section: int): Hash {
    if section >= 0 && section in heads then heads[section] else ZERO_HASH
  }

  function Below<T>(m: map<nat, T>, n: nat): map<nat, T> {
    map i | i in m && i < n :: m[i]
  }

  /** `setValidSections` */
  function Truncate(s: State, sections: nat): State {
    s.(stored := sections, count := sections, heads := Below(s.heads, sections), runs := Below(s.runs, sections))
  }

  function Reorg(s: State, head: nat): State
    requires s.size > 0
  {
    var changed := head / s.size;
    var t := s.(known := if changed < s.known then changed else s.known);
    var u := if changed < s.stored then Truncate(t, changed) else t;
    if changed * s.size < u.cascaded then u.(cascaded := changed * s.size) else u
  }

  function Extend(s: State, head: nat): State
    requires s.size > 0
  {
    var t := s.(top := if head + 1 > s.top then head + 1 else s.top);
    if head < s.confirms then t
    else
      var sections := (head + 1 - s.confirms) / s.size;
      if sections > t.known then t.(known := sections) else t
  }

  /** A section is stored, unless its predecessor has changed meanwhile. */
  function Store(s: State): State
    requires s.job.Reading? && s.size > 0
  {
    var section := s.job.section;
    if s.job.oldHead == SectionHead(s.heads, section - 1) then
      s.(heads := s.heads[section := Tip(s.job.done, s.job.oldHead)], runs := s.runs[section := s.job.done],
         stored := section + 1, count := section + 1, cascaded := (section + 1) * s.size - 1, job := Idle)
    else
      s.(known := s.stored, job := Idle)
  }

  predicate Enabled(s: State, a: Action) {
    match a
    case NewHead(_, _) => true
    case Begin => s.job.Idle?
    case Read(h) => s.job.Reading? && |s.job.done| < s.size
      && (h.Some? ==> h.value.hash != ZERO_HASH && h.value.number == s.job.section * s.size + |s.job.done|)
    case Finish(_) => s.job.Failed? || (s.job.Reading? && |s.job.done| == s.size)
    case Restart => true
  }

  function Apply(s: State, a: Action): State
    requires s.size > 0 && Enabled(s, a)
  {
    match a
    case NewHead(head, reorg) => if reorg then Reorg(s, head) else Extend(s, head)
    case Begin =>
      if s.known > s.stored then s.(job := Reading(s.stored, SectionHead(s.heads, s.stored - 1), [])) else s
    case Read(h) =>
      if h.None? || h.value.parent != Tip(s.job.done, s.job.oldHead) then s.(job := Failed)
      else s.(job := s.job.(done := s.job.done + [h.value]))
    case Finish(committed) =>
      if s.job.Reading? && committed then Store(s) else s.(known := s.stored, job := Idle)
    case Restart => s.(stored := s.count, known := 0, cascaded := 0, job := Idle)
  }

  // ---------------------------------------------------------------- what every step keeps

  /** A section made of exactly `size` linked headers from one hash to another. */
  ghost predicate RunAt(s: State, i: nat) {
    i < s.stored ==>
      && i in s.heads && i in s.runs && s.heads[i] != ZERO_HASH
      && |s.runs[i]| == s.size && Linked(s.runs[i], SectionHead(s.heads, i - 1))
      && Numbered(s.runs[i], i * s.size) && Tip(s.runs[i], SectionHead(s.heads, i - 1)) == s.heads[i]
  }

  ghost predicate Sections(s: State) {
    && (forall i :: i in s.heads ==> i < s.stored)
    && (forall i: nat :: RunAt(s, i))
    && s.count == s.stored
    && s.cascaded <= s.stored * s.size
  }

  ghost predicate JobOk(s: State) {
    s.job.Reading? ==>
      var section, oldHead, done := s.job.section, s.job.oldHead, s.job.done;
      && s.stored <= section && |done| <= s.size
      && (section == 0 <==> oldHead == ZERO_HASH)
      && (s.stored == section ==> oldHead == SectionHead(s.heads, section - 1))
      && Linked(done, oldHead) && Numbered(done, section * s.size)
      && (done != [] ==> Tip(done, oldHead) != ZERO_HASH)
  }

  /** The first n sections are complete and confirmed. */
  predicate ConfirmedTo(s: State, n: nat) {
    n == 0 || n * s.size + s.confirms <= s.top
  }

  /** Only confirmed sections are known, processed or stored. */
  predicate Confirmed(s: State) {
    ConfirmedTo(s, s.known) && ConfirmedTo(s, s.stored) && (s.job.Reading? ==> ConfirmedTo(s, s.job.section + 1))
  }

  ghost predicate Inv(s: State) {
    s.size > 0 && Sections(s) && JobOk(s) && Confirmed(s)
  }

  lemma InitInv(size: nat, confirms: nat)
    requires size > 0
    ensures Inv(Init(size, confirms))
  {
  }

  lemma ConfirmedLess(s: State, m: nat, n: nat)
    requires ConfirmedTo(s, n) && m <= n
    ensures ConfirmedTo(s, m)
  {
    assert m * s.size <= n * s.size;
  }

  lemma ReorgKeeps(s: State, head: nat)
    requires Inv(s)
    ensures Inv(Reorg(s, head))
  {
    var t := Reorg(s, head);
    if head / s.size < s.known { ConfirmedLess(s, head / s.size, s.known); }
    if head / s.size < s.stored { ConfirmedLess(s, head / s.size, s.stored); }
    forall i: nat ensures RunAt(t, i) {
      assert RunAt(s, i);
    }
  }

  lemma BeginKeeps(s: State)
    requires Inv(s) && s.job.Idle?
    ensures Inv(Apply(s, Begin))
  {
    var t := Apply(s, Begin);
    forall i: nat ensures RunAt(t, i) {
      assert RunAt(s, i);
    }
    assert s.stored > 0 ==> RunAt(s, s.stored - 1);
    if s.known > s.stored { ConfirmedLess(s, s.stored + 1, s.known); }
  }

  lemma ReadKeeps(s: State, h: Header)
    requires Inv(s) && Enabled(s, Read(Some(h))) && h.parent == Tip(s.job.done, s.job.oldHead)
    ensures Inv(Apply(s, Read(Some(h))))
  {
    var t := Apply(s, Read(Some(h)));
    var done, r := s.job.done, s.job.done + [h];
    forall i: nat ensures RunAt(t, i) {
      assert RunAt(s, i);
    }
    forall i: nat ensures LinkAt(r, s.job.oldHead, i) && NumberAt(r, s.job.section * s.size, i) {
      assert LinkAt(done, s.job.oldHead, i) && NumberAt(done, s.job.section * s.size, i);
    }
  }

  /** When the predecessor is unchanged, the section is the next one. */
  lemma StoreIsNext(s: State)
    requires Inv(s) && s.job.Reading? && s.job.oldHead == SectionHead(s.heads, s.job.section - 1)
    ensures s.job.section == s.stored
  {
  }

  lemma StoreKeeps(s: State)
    requires Inv(s) && s.job.Reading? && |s.job.done| == s.size
    ensures Inv(Store(s))
  {
    var t := Store(s);
    if s.job.oldHead == SectionHead(s.heads, s.job.section - 1) {
      StoreIsNext(s);
      forall i: nat ensures RunAt(t, i) {
        assert RunAt(s, i);
      }
    } else {
      forall i: nat ensures RunAt(t, i) {
        assert RunAt(s, i);
      }
    }
  }

  /** Every locked region and every header read keeps the invariant. */
  lemma StepKeepsInv(s: State, a: Action)
    requires Inv(s) && Enabled(s, a)
    ensures Inv(Apply(s, a))
  {
    match a
    case NewHead(head, reorg) =>
      if reorg { ReorgKeeps(s, head); } else { ExtendKeeps(s, head); }
    case Begin => BeginKeeps(s);
    case Read(h) =>
      if h.Some? && h.value.parent == Tip(s.job.done, s.job.oldHead) {
        ReadKeeps(s, h.value);
      } else {
        OtherKeeps(s, s.(job := Failed));
      }
    case Finish(committed) =>
      if s.job.Reading? && committed { StoreKeeps(s); } else { OtherKeeps(s, s.(known := s.stored, job := Idle)); }
    case Restart => OtherKeeps(s, s.(known := 0, cascaded := 0, job := Idle));
  }

  lemma Fits(q: nat, size: nat)
    requires size > 0
    ensures q / size * size <= q
  {
  }

  lemma ExtendConfirmed(s: State, head: nat)
    requires s.size > 0 && Confirmed(s)
    ensures Confirmed(Extend(s, head))
  {
    if head >= s.confirms { Fits(head + 1 - s.confirms, s.size); }
  }

  lemma ExtendKeeps(s: State, head: nat)
    requires Inv(s)
    ensures Inv(Extend(s, head))
  {
    ExtendConfirmed(s, head);
    forall i: nat ensures RunAt(Extend(s, head), i) {
      assert RunAt(s, i);
    }
  }

  lemma OtherKeeps(s: State, t: State)
    requires Inv(s) && t == s.(known := t.known, cascaded := t.cascaded, job := t.job) && !t.job.Reading?
    requires ConfirmedTo(s, t.known) && t.cascaded <= s.cascaded
    ensures Inv(t)
  {
    forall i: nat ensures RunAt(t, i) {
      assert RunAt(s, i);
    }
  }

  // ---------------------------------------------------------------- every run

  /** The steps lead from s to t. */
  ghost predicate Leads(s: State, run: seq<Action>, t: State)
    requires s.size > 0
    decreases |run|
  {
    if run == [] then s == t else Enabled(s, run[0]) && Leads(Apply(s, run[0]), run[1..], t)
  }

  /** The steps lead from an empty index to s. */
  ghost predicate Reaches(size: nat, confirms: nat, run: seq<Action>, s: State)
    requires size > 0
  {
    Leads(Init(size, confirms), run, s)
  }

  lemma {:induction false} LeadsKeepsInv(s: State, run: seq<Action>, t: State)
    requires Inv(s) && Leads(s, run, t)
    ensures Inv(t) && t.size == s.size && t.confirms == s.confirms && t.top == Announced(run, s.top)
    decreases |run|
  {
    if run != [] {
      StepKeepsInv(s, run[0]);
      StepTop(s, run[0]);
      LeadsKeepsInv(Apply(s, run[0]), run[1..], t);
    }
  }

  /** Section heads are stored exactly below `storedSections`, each reached from the one before, in every interleaving
      and after every restart. */
  lemma RunKeepsInv(size: nat, confirms: nat, run: seq<Action>, s: State)
    requires size > 0 && Reaches(size, confirms, run, s)
    ensures Inv(s) && s.size == size && s.confirms == confirms && s.top == Announced(run, 0)
  {
    InitInv(size, confirms);
    LeadsKeepsInv(Init(size, confirms), run, s);
  }

  /** One above the highest head announced so far, reorganisations aside. */
  function Announced(run: seq<Action>, before: nat): nat {
    if run == [] then before else Announced(run[1..], Higher(run[0], before))
  }

  function Higher(a: Action, before: nat): nat {
    if a.NewHead? && !a.reorg && a.head + 1 > before then a.head + 1 else before
  }

  lemma StepTop(s: State, a: Action)
    requires s.size > 0 && Enabled(s, a)
    ensures var t := Apply(s, a); t.size == s.size && t.confirms == s.confirms && t.top == Higher(a, s.top)
  {
  }

  /** The headers of the first n sections. */
  ghost function Joined(s: State, n: nat): seq<Header>
    requires n <= s.stored && Sections(s)
  {
    if n == 0 then [] else
      assert RunAt(s, n - 1);
      Joined(s, n - 1) + s.runs[n - 1]
  }

  lemma {:induction false} JoinedLinked(s: State, n: nat)
    requires n <= s.stored && Inv(s)
    ensures Linked(Joined(s, n), ZERO_HASH) && Numbered(Joined(s, n), 0) && |Joined(s, n)| == n * s.size
    ensures Tip(Joined(s, n), ZERO_HASH) == SectionHead(s.heads, n - 1)
    decreases n
  {
    if n > 0 {
      JoinedLinked(s, n - 1);
      assert RunAt(s, n - 1);
      LinkedJoin(Joined(s, n - 1), s.runs[n - 1], ZERO_HASH, 0);
      Product(n, s.size);
    }
  }

  lemma Product(n: nat, size: nat)
    requires n > 0
    ensures n * size == (n - 1) * size + size
  {
  }

  /** In every reachable state the stored sections are cut from one chain: parent-linked from the empty hash, numbered
      from 0 without gaps, with the stored heads at the multiples of the section size. */
  lemma OneChain(size: nat, confirms: nat, run: seq<Action>, s: State) returns (chain: seq<Header>)
    requires size > 0 && Reaches(size, confirms, run, s)
    ensures |chain| == s.stored * size && Linked(chain, ZERO_HASH) && Numbered(chain, 0)
    ensures forall i :: i in s.heads <==> 0 <= i < s.stored
    ensures forall i: nat :: i < s.stored ==> HeadAt(chain, size, s.heads, i)
  {
    RunKeepsInv(size, confirms, run, s);
    chain := Joined(s, s.stored);
    JoinedLinked(s, s.stored);
    forall i: nat | i < s.stored ensures i in s.heads && HeadAt(chain, size, s.heads, i) {
      HeadOnChain(s, i);
    }
  }

  lemma HeadOnChain(s: State, i: nat)
    requires Inv(s) && i < s.stored
    ensures HeadAt(Joined(s, s.stored), s.size, s.heads, i)
  {
    assert RunAt(s, i);
    JoinedPrefix(s, i + 1, s.stored);
    JoinedLinked(s, i + 1);
    Product(i + 1, s.size);
  }

  /** The head of section i is its last header. */
  predicate HeadAt(chain: seq<Header>, size: nat, heads: map<nat, Hash>, i: nat) {
    i in heads && 0 < (i + 1) * size <= |chain| && heads[i] == chain[(i + 1) * size - 1].hash
  }

  lemma {:induction false} JoinedPrefix(s: State, m: nat, n: nat)
    requires m <= n <= s.stored && Inv(s)
    ensures Joined(s, m) <= Joined(s, n)
    decreases n
  {
    if m < n { JoinedPrefix(s, m, n - 1); }
  }

  /** A restart finds the number of sections there are heads for, and children are never told of more. */
  lemma RestartCount(size: nat, confirms: nat, run: seq<Action>, s: State)
    requires size > 0 && Reaches(size, confirms, run, s)
    ensures s.cascaded <= s.stored * size
    ensures s.size > 0 && var t := Apply(s, Restart);
      t.stored == s.stored && t.heads == s.heads && t.job.Idle? && Inv(t)
  {
    RunKeepsInv(size, confirms, run, s);
    StepKeepsInv(s, Restart);
  }

  /** No section is processed or stored before all its blocks have had their confirmations. */
  lemma {:induction false} OnlyConfirmed(size: nat, confirms: nat, run: seq<Action>, s: State)
    requires size > 0 && Reaches(size, confirms, run, s)
    ensures s.stored > 0 ==> s.stored * size + s.confirms <= s.top
    ensures s.job.Reading? ==> (s.job.section + 1) * size + s.confirms <= s.top
    ensures s.confirms == confirms && s.top == Announced(run, 0)
  {
    RunKeepsInv(size, confirms, run, s);
  }

  // ---------------------------------------------------------------- notifications

  lemma Quotient(n: nat, q: nat, size: nat)
    requires size > 0
    ensures n <= q / size <==> n * size <= q
  {
    Fits(q, size);
    if n <= q / size {
      assert n * size <= q / size * size;
    } else {
      assert n * size >= (q / size + 1) * size == q / size * size + size;
    }
  }

  /** A reorganisation at block h leaves exactly the sections whose blocks are all below h, with the heads they had;
      no more are known, and children are told of no more. */
  lemma ReorgExactly(size: nat, confirms: nat, run: seq<Action>, s: State, h: nat)
    requires size > 0 && Reaches(size, confirms, run, s)
    ensures s.size > 0 && var t := Apply(s, NewHead(h, true));
      && (forall i :: i in t.heads <==> i in s.heads && (i + 1) * size <= h)
      && (forall i :: i in t.heads ==> t.heads[i] == s.heads[i])
      && (forall n: nat :: n <= t.known <==> n <= s.known && n * size <= h)
      && t.cascaded <= h && (s.cascaded <= h / size * size ==> t.cascaded == s.cascaded)
  {
    RunKeepsInv(size, confirms, run, s);
    var t := Apply(s, NewHead(h, true));
    Fits(h, size);
    forall i: nat ensures i in t.heads <==> i in s.heads && (i + 1) * size <= h {
      Quotient(i + 1, h, size);
    }
    forall n: nat ensures n <= t.known <==> n <= s.known && n * size <= h {
      Quotient(n, h, size);
    }
  }

  /** Some step of the run stores the section. */
  ghost predicate StoresIn(s: State, run: seq<Action>, t: State, section: nat)
    requires s.size > 0 && Leads(s, run, t)
    decreases |run|
  {
    run != [] && ((run[0].Finish? && s.stored == section && Apply(s, run[0]).stored == section + 1)
                  || StoresIn(Apply(s, run[0]), run[1..], t, section))
  }

  lemma StepStores(s: State, a: Action)
    requires Inv(s) && Enabled(s, a)
    ensures Apply(s, a).stored <= s.stored || (a.Finish? && Apply(s, a).stored == s.stored + 1)
  {
    if a.Finish? && s.job.Reading? && s.job.oldHead == SectionHead(s.heads, s.job.section - 1) { StoreIsNext(s); }
  }

  lemma {:induction false} StoredInRun(s: State, run: seq<Action>, t: State, section: nat)
    requires Inv(s) && Leads(s, run, t) && s.stored <= section < t.stored
    ensures StoresIn(s, run, t, section)
    decreases |run|
  {
    if run != [] {
      StepStores(s, run[0]);
      StepKeepsInv(s, run[0]);
      var u := Apply(s, run[0]);
      if u.stored <= section { StoredInRun(u, run[1..], t, section); }
    }
  }

  /** No stored section has a block at or above one notified as reorganised, unless it has been stored since. */
  lemma NoneStale(size: nat, confirms: nat, before: seq<Action>, s: State, h: nat, run: seq<Action>, t: State, i: nat)
    requires size > 0 && Reaches(size, confirms, before, s) && s.size > 0
    requires Leads(Apply(s, NewHead(h, true)), run, t) && i in t.heads
    ensures (i + 1) * size <= h || StoresIn(Apply(s, NewHead(h, true)), run, t, i)
  {
    RunKeepsInv(size, confirms, before, s);
    var u := Apply(s, NewHead(h, true));
    StepKeepsInv(s, NewHead(h, true));
    LeadsKeepsInv(u, run, t);
    if i < u.stored {
      assert RunAt(u, i);
      ReorgExactly(size, confirms, before, s, h);
    } else {
      StoredInRun(u, run, t, i);
    }
  }

  /** After a new head at block h exactly those sections are known that were, or are complete and confirmed at h. */
  lemma KnownExactly(s: State, h: nat, n: nat)
    requires s.size > 0
    ensures n <= Apply(s, NewHead(h, false)).known <==> n <= s.known || n * s.size + s.confirms <= h + 1
  {
    if h >= s.confirms {
      Quotient(n, h + 1 - s.confirms, s.size);
    } else if n > 0 {
      assert n * s.size >= s.size;
    }
  }

  /** A section that is not stored is not tried again before the next notification. */
  lemma NoRetry(s: State, committed: bool)
    requires Inv(s) && Enabled(s, Finish(committed))
    ensures var t := Apply(s, Finish(committed));
      && t.job.Idle?
      && ((t.stored == s.stored + 1 && t.cascaded + 1 == t.stored * t.size)
          || (t.stored == s.stored && t.heads == s.heads && t.known == t.stored && t.cascaded == s.cascaded))
  {
    if s.job.Reading? && s.job.oldHead == SectionHead(s.heads, s.job.section - 1) { StoreIsNext(s); }
  }

  // ---------------------------------------------------------------- reorganisations during a section

  /** Only what can happen while a section is processed: notifications and header reads. */
  ghost predicate DuringSection(run: seq<Action>) {
    forall i :: 0 <= i < |run| ==> run[i].NewHead? || run[i].Read?
  }

  /** No notified reorganisation reaches below the section. */
  ghost predicate NoneBelow(run: seq<Action>, size: nat, section: nat)
    requires size > 0
  {
    forall i :: 0 <= i < |run| && run[i].NewHead? && run[i].reorg ==> run[i].head / size >= section
  }

  /** A section that failed has failed; otherwise it is still the next one exactly if nothing reached below it. */
  lemma {:induction false} StillNext(s: State, run: seq<Action>, t: State)
    requires s.size > 0 && !s.job.Idle? && DuringSection(run) && Leads(s, run, t)
    requires s.job.Reading? ==> s.stored <= s.job.section
    ensures t.size == s.size && !t.job.Idle? && (s.job.Failed? ==> t.job.Failed?)
    ensures t.job.Reading? ==> t.job.section == s.job.section && t.job.oldHead == s.job.oldHead
    ensures t.job.Reading? && s.stored < s.job.section ==> t.stored < s.job.section
    ensures t.job.Reading? && s.stored == s.job.section ==>
              (t.stored == s.job.section <==> NoneBelow(run, s.size, s.job.section))
    decreases |run|
  {
    if run != [] {
      var u := Apply(s, run[0]);
      StillNext(u, run[1..], t);
      assert run == [run[0]] + run[1..];
      if t.job.Reading? {
        assert NoneBelow(run, s.size, s.job.section) <==>
               NoneBelow([run[0]], s.size, s.job.section) && NoneBelow(run[1..], s.size, s.job.section);
      }
    }
  }

  /** Storing succeeds exactly for the next section. */
  lemma StoredIfNext(s: State)
    requires Inv(s) && s.job.Reading? && |s.job.done| == s.size
    ensures Apply(s, Finish(true)).stored == s.job.section + 1 <==> s.stored == s.job.section
  {
    if s.job.oldHead == SectionHead(s.heads, s.job.section - 1) { StoreIsNext(s); }
  }

  /** What `processSection` read, one result for each number of the section. */
  ghost predicate AllRead(found: seq<Option<Header>>) {
    forall i :: 0 <= i < |found| ==> found[i].Some?
  }

  function Headers(found: seq<Option<Header>>): seq<Header> {
    if found == [] then []
    else Headers(found[..|found| - 1]) + if found[|found| - 1].Some? then [found[|found| - 1].value] else []
  }

  lemma {:induction false} HeadersSize(found: seq<Option<Header>>)
    requires AllRead(found)
    ensures |Headers(found)| == |found| && forall i :: 0 <= i < |found| ==> Headers(found)[i] == found[i].value
  {
    if found != [] { HeadersSize(found[..|found| - 1]); }
  }

  lemma {:induction false} HeadersFront(h: Option<Header>, found: seq<Option<Header>>)
    ensures Headers([h] + found) == (if h.Some? then [h.value] else []) + Headers(found)
    decreases |found|
  {
    if found == [] {
      assert [h] + found == [h] && [h][..0] == [];
    } else {
      assert ([h] + found)[..|found|] == [h] + found[..|found| - 1];
      HeadersFront(h, found[..|found| - 1]);
    }
  }

  /** What was read in the course of a run. */
  function ReadsOf(run: seq<Action>): seq<Option<Header>> {
    if run == [] then [] else (if run[0].Read? then [run[0].header] else []) + ReadsOf(run[1..])
  }

  /** What was found continues what is done, without a gap. */
  ghost predicate Continues(done: seq<Header>, from: Hash, found: seq<Option<Header>>) {
    AllRead(found) && Linked(done + Headers(found), from)
  }

  lemma ReadFails(done: seq<Header>, from: Hash, h: Option<Header>, found: seq<Option<Header>>)
    requires h.None? || h.value.parent != Tip(done, from)
    ensures !Continues(done, from, [h] + found)
  {
    HeadersFront(h, found);
    assert ([h] + found)[0] == h;
    if h.Some? { assert !LinkAt(done + Headers([h] + found), from, |done|); }
  }

  lemma ReadGoes(done: seq<Header>, from: Hash, h: Option<Header>, found: seq<Option<Header>>)
    requires h.Some?
    ensures Continues(done, from, [h] + found) <==> Continues(done + [h.value], from, found)
  {
    HeadersFront(h, found);
    assert done + ([h.value] + Headers(found)) == done + [h.value] + Headers(found);
    assert forall i :: 0 <= i < |found| ==> ([h] + found)[i + 1] == found[i];
  }

  lemma FailedRead(s: State, run: seq<Action>, t: State)
    requires s.size > 0 && DuringSection(run) && Leads(s, run, t) && s.job.Reading? && Linked(s.job.done, s.job.oldHead)
    requires run != [] && run[0].Read? && Apply(s, run[0]).job.Failed?
    ensures !t.job.Reading? && !Continues(s.job.done, s.job.oldHead, ReadsOf(run))
  {
    assert ReadsOf(run) == [run[0].header] + ReadsOf(run[1..]);
    ReadFails(s.job.done, s.job.oldHead, run[0].header, ReadsOf(run[1..]));
    OnceFailed(Apply(s, run[0]), run[1..], t);
  }

  lemma GoodRead(s: State, h: Option<Header>)
    requires s.size > 0 && Enabled(s, Read(h)) && Apply(s, Read(h)).job.Reading? && Linked(s.job.done, s.job.oldHead)
    ensures h.Some? && var u := Apply(s, Read(h));
      && u.size == s.size && u.job.oldHead == s.job.oldHead && u.job.done == s.job.done + [h.value]
      && Linked(u.job.done, u.job.oldHead)
  {
    LinkedMore(s.job.done, s.job.oldHead, h.value);
  }

  lemma HeadWhileReading(s: State, a: Action)
    requires s.size > 0 && a.NewHead?
    ensures Apply(s, a).size == s.size && Apply(s, a).job == s.job
  {
  }

  /** The section is still being read exactly if everything read is there and linked. */
  lemma {:induction false} ReadsDecide(s: State, run: seq<Action>, t: State)
    requires s.size > 0 && DuringSection(run) && Leads(s, run, t) && s.job.Reading? && Linked(s.job.done, s.job.oldHead)
    ensures t.job.Reading? <==> Continues(s.job.done, s.job.oldHead, ReadsOf(run))
    decreases |run|
  {
    if run == [] {
      assert s.job.done + Headers([]) == s.job.done;
    } else if run[0].NewHead? {
      HeadWhileReading(s, run[0]);
      ReadsDecide(Apply(s, run[0]), run[1..], t);
      assert ReadsOf(run) == ReadsOf(run[1..]);
    } else if Apply(s, run[0]).job.Failed? {
      FailedRead(s, run, t);
    } else {
      GoodRead(s, run[0].header);
      ReadsDecide(Apply(s, run[0]), run[1..], t);
      ReadGoes(s.job.done, s.job.oldHead, run[0].header, ReadsOf(run[1..]));
    }
  }

  lemma LinkedMore(done: seq<Header>, from: Hash, h: Header)
    requires Linked(done, from) && h.parent == Tip(done, from)
    ensures Linked(done + [h], from)
  {
    forall i: nat ensures LinkAt(done + [h], from, i) {
      assert LinkAt(done, from, i);
    }
  }

  lemma {:induction false} OnceFailed(s: State, run: seq<Action>, t: State)
    requires s.size > 0 && DuringSection(run) && Leads(s, run, t) && s.job.Failed?
    ensures t.job.Failed?
    decreases |run|
  {
    if run != [] { OnceFailed(Apply(s, run[0]), run[1..], t); }
  }

  /** From the start of a section to its end, whatever is notified and read in between: it is stored exactly if the
      headers read are all there and linked to the section before, and no notified reorganisation reached below the
      section.  One that begins inside the section is noticed only if it breaks the links between the headers read. */
  lemma StoredExactly(s: State, run: seq<Action>, t: State)
    requires Inv(s) && s.job.Idle? && s.known > s.stored && DuringSection(run)
    requires Leads(Apply(s, Begin), run, t) && t.size > 0 && Enabled(t, Finish(true))
    ensures Apply(t, Finish(true)).stored == s.stored + 1 <==>
              && AllRead(ReadsOf(run)) && Linked(Headers(ReadsOf(run)), SectionHead(s.heads, s.stored - 1))
              && NoneBelow(run, s.size, s.stored)
  {
    StepKeepsInv(s, Begin);
    LeadsKeepsInv(Apply(s, Begin), run, t);
    NextExactly(Apply(s, Begin), run, t);
    EndsStored(t, s.stored);
  }

  /** The section is read to its end and is still the next one. */
  lemma NextExactly(s: State, run: seq<Action>, t: State)
    requires s.size > 0 && s.job.Reading? && s.job.done == [] && s.stored == s.job.section
    requires DuringSection(run) && Leads(s, run, t)
    ensures t.stored <= s.stored && (t.job.Reading? ==> t.job.section == s.stored)
    ensures t.job.Reading? && t.stored == s.stored <==>
              && AllRead(ReadsOf(run)) && Linked(Headers(ReadsOf(run)), s.job.oldHead)
              && NoneBelow(run, s.size, s.stored)
  {
    StillNext(s, run, t);
    ReadsDecide(s, run, t);
    NoneAdded(s, run, t);
    assert [] + Headers(ReadsOf(run)) == Headers(ReadsOf(run));
  }

  lemma EndsStored(t: State, section: nat)
    requires Inv(t) && Enabled(t, Finish(true)) && t.stored <= section
    requires t.job.Reading? ==> t.job.section == section
    ensures Apply(t, Finish(true)).stored == section + 1 <==> t.job.Reading? && t.stored == section
  {
    if t.job.Reading? { StoredIfNext(t); }
  }

  /** No section is added in between. */
  lemma {:induction false} NoneAdded(s: State, run: seq<Action>, t: State)
    requires s.size > 0 && DuringSection(run) && Leads(s, run, t)
    ensures t.stored <= s.stored
    decreases |run|
  {
    if run != [] { NoneAdded(Apply(s, run[0]), run[1..], t); }
  }

  lemma {:induction false} LeadsMore(s: State, run: seq<Action>, t: State, a: Action)
    requires s.size > 0 && t.size == s.size && Leads(s, run, t) && Enabled(t, a)
    ensures Leads(s, run + [a], Apply(t, a))
    decreases |run|
  {
    var r := run + [a];
    if run == [] {
      assert r == [a] && r[1..] == [];
    } else {
      assert r[0] == run[0] && r[1..] == run[1..] + [a];
      LeadsMore(Apply(s, run[0]), run[1..], t, a);
    }
  }

  lemma ReachMore(size: nat, confirms: nat, run: seq<Action>, s: State, a: Action)
    requires size > 0 && Reaches(size, confirms, run, s) && s.size == size && Enabled(s, a)
    ensures Reaches(size, confirms, run + [a], Apply(s, a))
  {
    LeadsMore(Init(size, confirms), run, s, a);
  }

  /** Section 0 of two blocks, to be read. */
  lemma StartedExample() returns (run: seq<Action>, s: State)
    ensures Reaches(2, 0, run, s) && s == State(2, 0, 0, 1, 0, map[], 0, Reading(0, 0, []), map[], 2)
  {
    run, s := [], Init(2, 0);
    ReachMore(2, 0, run, s, NewHead(1, false));
    run, s := run + [NewHead(1, false)], s.(known := 1, top := 2);
    ReachMore(2, 0, run, s, Begin);
    run, s := run + [Begin], s.(job := Reading(0, 0, []));
  }

  /** The same section, just read. */
  lemma ReadExample() returns (run: seq<Action>, s: State)
    ensures Reaches(2, 0, run, s)
    ensures s == State(2, 0, 0, 1, 0, map[], 0,
              Reading(0, 0, [BlockTree.Header(10, 0, 0, 1), BlockTree.Header(11, 10, 1, 1)]), map[], 2)
  {
    run, s := StartedExample();
    var a, b := BlockTree.Header(10, 0, 0, 1), BlockTree.Header(11, 10, 1, 1);
    assert [] + [a] == [a] && [a] + [b] == [a, b];
    ReachMore(2, 0, run, s, Read(Some(a)));
    run, s := run + [Read(Some(a))], Apply(s, Read(Some(a)));
    ReachMore(2, 0, run, s, Read(Some(b)));
    run, s := run + [Read(Some(b))], Apply(s, Read(Some(b)));
  }

  /** A run in which block 1 is replaced after it was read, and is still stored as the head of its section. */
  lemma {:induction false} ReorgUnnoticedExample() returns (run: seq<Action>, s: State)
    ensures |run| > 1 && Reaches(2, 0, run, s) && run[|run| - 2] == NewHead(0, true)
    ensures s.stored == 1 && 0 in s.heads && s.heads[0] == 11
  {
    run, s := ReadExample();
    ReachMore(2, 0, run, s, NewHead(0, true));
    run, s := run + [NewHead(0, true)], Apply(s, NewHead(0, true));
    ReachMore(2, 0, run, s, Finish(true));
    run, s := run + [Finish(true)], Apply(s, Finish(true));
  }

  // ---------------------------------------------------------------- in place

  /** Succeeds exactly on a complete and linked section, with the hash of its last header. */
  method ProcessSection(lastHead0: Hash, found: seq<Option<Header>>, committed: bool) returns (r: Option<Hash>)
    ensures r.Some? <==> AllRead(found) && Linked(Headers(found), lastHead0) && committed
    ensures r.Some? ==> r.value == Tip(Headers(found), lastHead0)
  {
    var lastHead := lastHead0;
    for i := 0 to |found|
      invariant AllRead(found[..i]) && Linked(Headers(found[..i]), lastHead0)
      invariant lastHead == Tip(Headers(found[..i]), lastHead0)
    {
      ghost var before, now := Headers(found[..i]), Headers(found[..i + 1]);
      HeadersSize(found[..i]);
      assert found[..i + 1][..i] == found[..i];
      if found[i].None? {
        return None;
      }
      var header := found[i].value;
      assert now == before + [header];
      if header.parent != lastHead {
        Unlinked(found, lastHead0, i);
        return None;
      }
      forall k: nat ensures LinkAt(now, lastHead0, k) {
        assert LinkAt(before, lastHead0, k);
      }
      lastHead := header.hash;
    }
    assert found[..|found|] == found;
    r := if committed then Some(lastHead) else None;
  }

  lemma Unlinked(found: seq<Option<Header>>, from: Hash, i: nat)
    requires i < |found| && AllRead(found[..i]) && found[i].Some?
    requires found[i].value.parent != Tip(Headers(found[..i]), from)
    ensures !(AllRead(found) && Linked(Headers(found), from))
  {
    if AllRead(found) {
      HeadersSize(found);
      HeadersSize(found[..i]);
      assert !LinkAt(Headers(found), from, i);
    }
  }

  class Indexer {
    const size: nat
    const confirms: nat
    var stored: nat
    var known: nat
    var cascaded: nat
    var heads: map<nat, Hash>
    var count: nat
    var job: Job
    ghost var runs: map<nat, seq<Header>>
    ghost var top: nat

    ghost function View(): State
      reads this
    {
      State(size, confirms, stored, known, cascaded, heads, count, job, runs, top)
    }

    constructor (n: nat, c: nat)
      ensures View() == Init(n, c)
    {
      size, confirms, stored, known, cascaded, heads, count, job, runs, top := n, c, 0, 0, 0, map[], 0, Idle, map[], 0;
    }

    /** Heads of sections that are no longer valid are deleted one by one. */
    method SetValidSections(sections: nat)
      modifies this`stored, this`count, this`heads
      ensures stored == count == sections
      ensures heads == map i | i in old(heads) && !(sections <= i < old(stored)) :: old(heads)[i]
    {
      count := sections;
      while stored > sections
        invariant count == sections && stored <= old(stored) && (stored < sections ==> stored == old(stored))
        invariant heads == map i | i in old(heads) && !(stored <= i < old(stored)) :: old(heads)[i]
      {
        stored := stored - 1;
        heads := heads - {stored};
      }
      stored := sections;
    }

    /** `newHead` after a reorganisation */
    method Rewind(head: nat)
      requires Inv(View())
      modifies this
      ensures View() == Reorg(old(View()), head)
    {
      var changed := head / size;
      if changed < known {
        known := changed;
      }
      if changed < stored {
        SetValidSections(changed);
        runs := Below(runs, changed);
        assert heads == Below(old(heads), changed);
      }
      if changed * size < cascaded {
        cascaded := changed * size;
      }
    }

    method NewHead(head: nat, reorg: bool)
      requires Inv(View())
      modifies this
      ensures View() == Apply(old(View()), Action.NewHead(head, reorg)) && Inv(View())
    {
      StepKeepsInv(View(), Action.NewHead(head, reorg));
      if reorg {
        Rewind(head);
        return;
      }
      top := if head + 1 > top then head + 1 else top;
      if head >= confirms {
        var sections := (head + 1 - confirms) / size;
        if sections > known {
          known := sections;
        }
      }
    }

    /** `loadValidSections` on the database that an earlier indexer left */
    method Load()
      requires Inv(View())
      modifies this
      ensures View() == Apply(old(View()), Restart) && Inv(View())
    {
      StepKeepsInv(View(), Restart);
      known, cascaded, job := 0, 0, Idle;
      stored := count;
    }

    method BeginSection()
      requires Inv(View()) && Enabled(View(), Begin)
      modifies this`job
      ensures View() == Apply(old(View()), Begin) && Inv(View())
    {
      StepKeepsInv(View(), Begin);
      if known > stored {
        var section := stored;
        var oldHead := ZERO_HASH;
        if section > 0 {
          oldHead := SectionHead(heads, section - 1);
        }
        job := Reading(section, oldHead, []);
      }
    }

    method ReadHeader(h: Option<Header>)
      requires Inv(View()) && Enabled(View(), Read(h))
      modifies this`job
      ensures View() == Apply(old(View()), Read(h)) && Inv(View())
    {
      StepKeepsInv(View(), Read(h));
      if h.None? || h.value.parent != Tip(job.done, job.oldHead) {
        job := Failed;
      } else {
        job := job.(done := job.done + [h.value]);
      }
    }

    method FinishSection(committed: bool)
      requires Inv(View()) && Enabled(View(), Finish(committed))
      modifies this
      ensures View() == Apply(old(View()), Finish(committed)) && Inv(View())
    {
      StepKeepsInv(View(), Finish(committed));
      if job.Reading? && committed && job.oldHead == SectionHead(heads, job.section - 1) {
        StoreIsNext(View());
        var section := job.section;
        heads := heads[section := Tip(job.done, job.oldHead)];
        runs := runs[section := job.done];
        ghost var stored' := heads;
        SetValidSections(section + 1);
        assert heads == stored';
        cascaded := stored * size - 1;
      } else {
        known := stored;
      }
      job := Idle;
    }
  }
}
