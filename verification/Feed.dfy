/** The event feed: one backing slice of select cases, of which `Send` keeps the unsent ones in front while
    subscriptions come and go. */
module Feed {

  type Chan = nat

  /** The feed's own channel, always the first case. */
  const REMOVE_SUB: Chan := 0

  // ---------------------------------------------------------------- case lists

  /** Index of the first case with the channel, or -1. */
  function Found(cs: seq<Chan>, ch: Chan): (i: int)
    ensures -1 <= i < |cs|
    ensures i >= 0 ==> cs[i] == ch && ch !in cs[..i]
    ensures i == -1 <==> ch !in cs
  {
    if cs == [] then -1
    else
      var i := Found(cs[..|cs| - 1], ch);
      assert cs == cs[..|cs| - 1] + [cs[|cs| - 1]];
      if i >= 0 then assert cs[..i] == cs[..|cs| - 1][..i]; i else if cs[|cs| - 1] == ch then |cs| - 1 else -1
  }

  function Deleted(cs: seq<Chan>, i: nat): (r: seq<Chan>)
    requires i < |cs|
    ensures multiset(r) == multiset(cs) - multiset{cs[i]} && |r| == |cs| - 1
  {
    assert cs == cs[..i] + [cs[i]] + cs[i + 1..];
    cs[..i] + cs[i + 1..]
  }

  /** The case at i trades places with the last of the first n. */
  function Deactivated(cs: seq<Chan>, n: nat, i: nat): (r: seq<Chan>)
    requires i < n <= |cs|
    ensures |r| == |cs| && multiset(r) == multiset(cs)
  {
    cs[i := cs[n - 1]][n - 1 := cs[i]]
  }

  lemma Split(cs: seq<Chan>, n: nat)
    requires 1 <= n <= |cs|
    ensures multiset(cs[1..]) == multiset(cs[1..n]) + multiset(cs[n..])
  {
    assert cs[1..] == cs[1..n] + cs[n..];
  }

  /** Deletion from the unsent part. */
  lemma DeletedUnsent(cs: seq<Chan>, n: nat, i: nat)
    requires 1 <= i < n <= |cs|
    ensures var r := Deleted(cs, i);
              multiset(r[1..n - 1]) == multiset(cs[1..n]) - multiset{cs[i]} && r[n - 1..] == cs[n..]
  {
    var r := Deleted(cs, i);
    assert cs[1..n][..i - 1] == cs[1..i] && cs[1..n][i..] == cs[i + 1..n];
    assert r[1..n - 1] == cs[1..i] + cs[i + 1..n];
    assert r[1..n - 1] == Deleted(cs[1..n], i - 1);
  }

  /** Deletion from the sent part. */
  lemma DeletedSent(cs: seq<Chan>, n: nat, i: nat)
    requires 1 <= n <= i < |cs|
    ensures var r := Deleted(cs, i); r[1..n] == cs[1..n] && multiset(r[n..]) == multiset(cs[n..]) - multiset{cs[i]}
  {
    var r := Deleted(cs, i);
    assert cs[n..][..i - n] == cs[n..i] && cs[n..][i - n + 1..] == cs[i + 1..];
    assert r[n..] == cs[n..i] + cs[i + 1..];
    assert r[n..] == Deleted(cs[n..], i - n);
  }

  /** Deactivation moves one case from the unsent to the sent part. */
  lemma DeactivatedParts(cs: seq<Chan>, n: nat, i: nat)
    requires 1 <= i < n <= |cs|
    ensures var r := Deactivated(cs, n, i);
      && multiset(r[1..n - 1]) == multiset(cs[1..n]) - multiset{cs[i]}
      && multiset(r[n - 1..]) == multiset(cs[n..]) + multiset{cs[i]}
  {
    var r := Deactivated(cs, n, i);
    assert r[n - 1..] == [cs[i]] + cs[n..];
    var u := Deactivated(cs[1..n], n - 1, i - 1);
    assert r[1..n - 1] + [cs[i]] == u;
    assert multiset(r[1..n - 1]) + multiset{cs[i]} == multiset(u) == multiset(cs[1..n]);
  }

  lemma {:induction false} FoundAt(cs: seq<Chan>, ch: Chan, i: nat)
    requires i < |cs| && cs[i] == ch && ch !in cs[..i]
    ensures Found(cs, ch) == i
    decreases |cs|
  {
    var n := |cs| - 1;
    if i < n {
      assert cs[..n][..i] == cs[..i];
      FoundAt(cs[..n], ch, i);
    }
  }

  /** `find` on the first n cases of the backing array */
  method Find(a: array<Chan>, n: nat, ch: Chan) returns (index: int)
    requires n <= a.Length
    ensures index == Found(a[..n], ch)
  {
    for i := 0 to n
      invariant ch !in a[..i]
    {
      if a[i] == ch {
        assert a[..n][..i] == a[..i];
        FoundAt(a[..n], ch, i);
        return i;
      }
    }
    return -1;
  }

  function Shifted(cs: seq<Chan>, i: nat, k: nat): Chan
    requires k < |cs| - 1
  {
    if k < i then cs[k] else cs[k + 1]
  }

  lemma ShiftedIsDeleted(cs: seq<Chan>, i: nat, r: seq<Chan>)
    requires i < |cs| && |r| == |cs| - 1 && forall k: nat :: k < |r| ==> r[k] == Shifted(cs, i, k)
    ensures r == Deleted(cs, i)
  {
  }

  /** `delete`: the cases behind move up by one, the array beyond stays as it is. */
  method Delete(a: array<Chan>, n: nat, index: nat)
    requires index < n <= a.Length
    modifies a
    ensures a[..n - 1] == Deleted(old(a[..n]), index) && a[n - 1..] == old(a[n - 1..])
  {
    ghost var was := a[..n];
    for i := index to n - 1
      invariant forall k: nat :: k < i ==> a[k] == Shifted(was, index, k)
      invariant forall k: nat :: i <= k < a.Length ==> a[k] == old(a[k])
    {
      a[i] := a[i + 1];
    }
    ShiftedIsDeleted(was, index, a[..n - 1]);
  }

  /** `deactivate` on the first n of `size` cases */
  method Deactivate(a: array<Chan>, size: nat, n: nat, index: nat)
    requires index < n <= size <= a.Length
    modifies a
    ensures a[..size] == Deactivated(old(a[..size]), n, index) && a[size..] == old(a[size..])
  {
    a[index], a[n - 1] := a[n - 1], a[index];
  }

  // ---------------------------------------------------------------- the feed as a machine of atomic steps

  /** `Fast(i)` is at case i of the loop of `TrySend`s; `Selecting` waits in `reflect.Select`. */
  datatype Phase = Idle | Fast(i: nat) | Selecting

  /** What became of the cases of the current `Send`: all of them, those that got the value, and those removed
      before and after getting it. */
  datatype History = History(start: multiset<Chan>, delivered: multiset<Chan>, goneUnsent: multiset<Chan>,
                             goneSent: multiset<Chan>)

  /** `active` is len(cases), the first case included.  `live` has the channels of the subscriptions in force,
      `waiting` those of the ones whose removal has not found them in the inbox and is still to be done. */
  datatype State = State(inbox: seq<Chan>, sendCases: seq<Chan>, phase: Phase, active: nat, nsent: nat,
                         live: multiset<Chan>, waiting: multiset<Chan>, history: History)

  datatype Action =
    | Subscribe(ch: Chan)
    | RemoveFromInbox(ch: Chan)
    | RemoveLater(ch: Chan)
    | RemoveNow(ch: Chan)
    | SendStart
    | TrySend(accepted: bool)
    | Turn
    | SelectSend(k: nat)
    | SelectRemove(ch: Chan)

  function Init(): State {
    State([], [REMOVE_SUB], Idle, 1, 0, multiset{}, multiset{}, History(multiset{}, multiset{}, multiset{}, multiset{}))
  }

  predicate Enabled(s: State, a: Action) {
    match a
    case Subscribe(ch) => ch != REMOVE_SUB
    case RemoveFromInbox(ch) => ch in s.live && ch in s.inbox
    case RemoveLater(ch) => ch in s.live && ch !in s.inbox
    case RemoveNow(ch) => ch in s.waiting && s.phase.Idle?
    case SendStart => s.phase.Idle?
    case TrySend(_) => s.phase.Fast? && s.phase.i < s.active
    case Turn => s.phase.Fast? && s.phase.i >= s.active
    case SelectSend(k) => s.phase.Selecting? && 1 <= k < s.active
    case SelectRemove(ch) => ch in s.waiting && s.phase.Selecting?
  }

  /** The channel of case k has taken the value. */
  function Deliver(s: State, k: nat): State
    requires 1 <= k < s.active <= |s.sendCases|
  {
    s.(sendCases := Deactivated(s.sendCases, s.active, k), active := s.active - 1, nsent := s.nsent + 1,
       history := s.history.(delivered := s.history.delivered + multiset{s.sendCases[k]}))
  }

  /** `f.sendCases.delete(f.sendCases.find(ch))`, which panics unless the channel is found. */
  function Drop(s: State, ch: Chan): State
    requires Found(s.sendCases, ch) >= 0
  {
    s.(sendCases := Deleted(s.sendCases, Found(s.sendCases, ch)), waiting := s.waiting - multiset{ch})
  }

  /** All slice indices of the step are in range, so that it cannot panic. */
  predicate Safe(s: State, a: Action) {
    match a
    case RemoveNow(ch) => Found(s.sendCases, ch) >= 0
    case SendStart => |s.sendCases| >= 1
    case TrySend(_) => s.phase.Fast? && 1 <= s.phase.i < s.active <= |s.sendCases|
    case SelectSend(_) => s.active <= |s.sendCases|
    case SelectRemove(ch) => Found(s.sendCases, ch) >= 0 && s.active >= 1
    case _ => true
  }

  function Apply(s: State, a: Action): State
    requires Enabled(s, a) && Safe(s, a)
  {
    match a
    case Subscribe(ch) => s.(inbox := s.inbox + [ch], live := s.live + multiset{ch})
    case RemoveFromInbox(ch) => s.(inbox := Deleted(s.inbox, Found(s.inbox, ch)), live := s.live - multiset{ch})
    case RemoveLater(ch) => s.(live := s.live - multiset{ch}, waiting := s.waiting + multiset{ch})
    case RemoveNow(ch) => Drop(s, ch)
    case SendStart =>
      var cs := s.sendCases + s.inbox;
      s.(inbox := [], sendCases := cs, phase := Fast(1), active := |cs|, nsent := 0,
         history := History(multiset(cs[1..]), multiset{}, multiset{}, multiset{}))
    case TrySend(accepted) =>
      if accepted then Deliver(s, s.phase.i) else s.(phase := Fast(s.phase.i + 1))
    case Turn => if s.active == 1 then s.(phase := Idle) else s.(phase := Selecting)
    case SelectSend(k) => Deliver(s, k).(phase := Fast(1))
    case SelectRemove(ch) =>
      var unsent := Found(s.sendCases, ch) < s.active;
      Drop(s, ch).(phase := Fast(1), active := if unsent then s.active - 1 else s.active,
        history := if unsent then s.history.(goneUnsent := s.history.goneUnsent + multiset{ch})
                   else s.history.(goneSent := s.history.goneSent + multiset{ch}))
  }

  // ---------------------------------------------------------------- what every step keeps

  ghost predicate Shape(s: State) {
    && s.sendCases != [] && s.sendCases[0] == REMOVE_SUB
    && (!s.phase.Idle? ==> 1 <= s.active <= |s.sendCases|)
    && (s.phase.Fast? ==> 1 <= s.phase.i <= s.active)
    && (s.phase.Selecting? ==> s.active > 1)
  }

  predicate HeldAt(inbox: multiset<Chan>, cases: multiset<Chan>, live: multiset<Chan>, waiting: multiset<Chan>,
                   c: Chan) {
    && inbox[c] + cases[c] == live[c] + waiting[c] + (if c == REMOVE_SUB then 1 else 0)
    && waiting[c] <= cases[c]
  }

  /** Every subscription, in force or being removed, has its case in exactly one of the two lists; the ones being
      removed are not in the inbox. */
  ghost predicate Held(inbox: multiset<Chan>, cases: multiset<Chan>, live: multiset<Chan>, waiting: multiset<Chan>) {
    && (forall c: Chan :: HeldAt(inbox, cases, live, waiting, c))
    && REMOVE_SUB !in live && REMOVE_SUB !in waiting
  }

  predicate BalancedAt(unsent: multiset<Chan>, sent: multiset<Chan>, h: History, c: Chan) {
    && h.start[c] == unsent[c] + sent[c] + h.goneUnsent[c] + h.goneSent[c]
    && h.delivered[c] == sent[c] + h.goneSent[c]
  }

  /** The value went once to each case that is sent or was removed when sent, and to no other. */
  ghost predicate Balanced(unsent: multiset<Chan>, sent: multiset<Chan>, nsent: nat, h: History) {
    (forall c: Chan :: BalancedAt(unsent, sent, h, c)) && nsent == |h.delivered|
  }

  /** The unsent cases are the first n of the list. */
  ghost predicate Parted(cs: seq<Chan>, n: nat, nsent: nat, h: History) {
    1 <= n <= |cs| && Balanced(multiset(cs[1..n]), multiset(cs[n..]), nsent, h)
  }

  ghost predicate Accounted(s: State) {
    s.phase.Idle? || Parted(s.sendCases, s.active, s.nsent, s.history)
  }

  ghost predicate Inv(s: State) {
    Shape(s) && Held(multiset(s.inbox), multiset(s.sendCases), s.live, s.waiting) && Accounted(s)
  }

  lemma InitInv()
    ensures Inv(Init())
  {
  }

  lemma HeldDrop(inbox: multiset<Chan>, cases: multiset<Chan>, live: multiset<Chan>, waiting: multiset<Chan>, c: Chan)
    requires Held(inbox, cases, live, waiting) && c in waiting
    ensures c in cases && c != REMOVE_SUB && Held(inbox, cases - multiset{c}, live, waiting - multiset{c})
  {
    assert HeldAt(inbox, cases, live, waiting, c);
    forall x: Chan ensures HeldAt(inbox, cases - multiset{c}, live, waiting - multiset{c}, x) {
      assert HeldAt(inbox, cases, live, waiting, x);
    }
  }

  lemma HeldUnbox(inbox: multiset<Chan>, cases: multiset<Chan>, live: multiset<Chan>, waiting: multiset<Chan>, c: Chan)
    requires Held(inbox, cases, live, waiting) && c in live && c in inbox
    ensures Held(inbox - multiset{c}, cases, live - multiset{c}, waiting)
  {
    forall x: Chan ensures HeldAt(inbox - multiset{c}, cases, live - multiset{c}, waiting, x) {
      assert HeldAt(inbox, cases, live, waiting, x);
    }
  }

  lemma HeldWait(inbox: multiset<Chan>, cases: multiset<Chan>, live: multiset<Chan>, waiting: multiset<Chan>, c: Chan)
    requires Held(inbox, cases, live, waiting) && c in live && c !in inbox
    ensures Held(inbox, cases, live - multiset{c}, waiting + multiset{c})
  {
    forall x: Chan ensures HeldAt(inbox, cases, live - multiset{c}, waiting + multiset{c}, x) {
      assert HeldAt(inbox, cases, live, waiting, x);
    }
  }

  lemma HeldSubscribe(inbox: multiset<Chan>, cases: multiset<Chan>, live: multiset<Chan>, waiting: multiset<Chan>,
                      c: Chan)
    requires Held(inbox, cases, live, waiting) && c != REMOVE_SUB
    ensures Held(inbox + multiset{c}, cases, live + multiset{c}, waiting)
  {
    forall x: Chan ensures HeldAt(inbox + multiset{c}, cases, live + multiset{c}, waiting, x) {
      assert HeldAt(inbox, cases, live, waiting, x);
    }
  }

  lemma HeldStart(inbox: multiset<Chan>, cases: multiset<Chan>, live: multiset<Chan>, waiting: multiset<Chan>)
    requires Held(inbox, cases, live, waiting)
    ensures Held(multiset{}, cases + inbox, live, waiting)
  {
    forall x: Chan ensures HeldAt(multiset{}, cases + inbox, live, waiting, x) {
      assert HeldAt(inbox, cases, live, waiting, x);
    }
  }

  lemma BalancedDeliver(unsent: multiset<Chan>, sent: multiset<Chan>, nsent: nat, h: History, c: Chan)
    requires Balanced(unsent, sent, nsent, h) && c in unsent
    ensures Balanced(unsent - multiset{c}, sent + multiset{c}, nsent + 1, h.(delivered := h.delivered + multiset{c}))
  {
    var h' := h.(delivered := h.delivered + multiset{c});
    forall x: Chan ensures BalancedAt(unsent - multiset{c}, sent + multiset{c}, h', x) {
      assert BalancedAt(unsent, sent, h, x);
    }
  }

  lemma BalancedDropUnsent(unsent: multiset<Chan>, sent: multiset<Chan>, nsent: nat, h: History, c: Chan)
    requires Balanced(unsent, sent, nsent, h) && c in unsent
    ensures Balanced(unsent - multiset{c}, sent, nsent, h.(goneUnsent := h.goneUnsent + multiset{c}))
  {
    var h' := h.(goneUnsent := h.goneUnsent + multiset{c});
    forall x: Chan ensures BalancedAt(unsent - multiset{c}, sent, h', x) {
      assert BalancedAt(unsent, sent, h, x);
    }
  }

  lemma BalancedDropSent(unsent: multiset<Chan>, sent: multiset<Chan>, nsent: nat, h: History, c: Chan)
    requires Balanced(unsent, sent, nsent, h) && c in sent
    ensures Balanced(unsent, sent - multiset{c}, nsent, h.(goneSent := h.goneSent + multiset{c}))
  {
    var h' := h.(goneSent := h.goneSent + multiset{c});
    forall x: Chan ensures BalancedAt(unsent, sent - multiset{c}, h', x) {
      assert BalancedAt(unsent, sent, h, x);
    }
  }

  /** A channel waiting for removal is always found, behind the first case. */
  lemma WaitingIsFound(s: State, ch: Chan)
    requires Inv(s) && ch in s.waiting
    ensures 1 <= Found(s.sendCases, ch) < |s.sendCases| && s.sendCases[Found(s.sendCases, ch)] == ch
  {
    HeldDrop(multiset(s.inbox), multiset(s.sendCases), s.live, s.waiting, ch);
    assert ch in s.sendCases;
  }

  lemma DeliverBalanced(cs: seq<Chan>, n: nat, k: nat, nsent: nat, h: History, t: State)
    requires 1 <= k < n <= |cs| && Parted(cs, n, nsent, h)
    requires t.sendCases == Deactivated(cs, n, k) && t.active == n - 1 && t.nsent == nsent + 1
    requires t.history == h.(delivered := h.delivered + multiset{cs[k]})
    ensures Accounted(t)
  {
    DeactivatedParts(cs, n, k);
    assert cs[k] == cs[1..n][k - 1];
    BalancedDeliver(multiset(cs[1..n]), multiset(cs[n..]), nsent, h, cs[k]);
  }

  lemma UnsentBalanced(cs: seq<Chan>, n: nat, i: nat, nsent: nat, h: History)
    requires 1 <= i < n <= |cs| && Parted(cs, n, nsent, h)
    ensures Parted(Deleted(cs, i), n - 1, nsent, h.(goneUnsent := h.goneUnsent + multiset{cs[i]}))
  {
    DeletedUnsent(cs, n, i);
    assert cs[i] == cs[1..n][i - 1];
    BalancedDropUnsent(multiset(cs[1..n]), multiset(cs[n..]), nsent, h, cs[i]);
  }

  lemma SentBalanced(cs: seq<Chan>, n: nat, i: nat, nsent: nat, h: History)
    requires 1 <= n <= i < |cs| && Parted(cs, n, nsent, h)
    ensures Parted(Deleted(cs, i), n, nsent, h.(goneSent := h.goneSent + multiset{cs[i]}))
  {
    DeletedSent(cs, n, i);
    assert cs[i] == cs[n..][i - n];
    BalancedDropSent(multiset(cs[1..n]), multiset(cs[n..]), nsent, h, cs[i]);
  }

  lemma StepDeliver(s: State, k: nat)
    requires !s.phase.Idle? && 1 <= k < s.active <= |s.sendCases| && Accounted(s)
    ensures Accounted(Deliver(s, k))
  {
    DeliverBalanced(s.sendCases, s.active, k, s.nsent, s.history, Deliver(s, k));
  }

  lemma StepRemove(s: State, ch: Chan)
    requires Inv(s) && Enabled(s, SelectRemove(ch)) && Safe(s, SelectRemove(ch))
    ensures Accounted(Apply(s, SelectRemove(ch)))
  {
    WaitingIsFound(s, ch);
    var i := Found(s.sendCases, ch);
    if i < s.active {
      UnsentBalanced(s.sendCases, s.active, i, s.nsent, s.history);
    } else {
      SentBalanced(s.sendCases, s.active, i, s.nsent, s.history);
    }
  }

  lemma StepStart(s: State)
    requires Inv(s) && s.phase.Idle?
    ensures Accounted(Apply(s, SendStart))
  {
    var cs := s.sendCases + s.inbox;
    assert cs[1..|cs|] == cs[1..] && cs[|cs|..] == [];
  }

  ghost predicate Holds(s: State) {
    Held(multiset(s.inbox), multiset(s.sendCases), s.live, s.waiting)
  }

  lemma StepDrop(s: State, ch: Chan)
    requires Inv(s) && ch in s.waiting
    ensures Found(s.sendCases, ch) >= 0 && Holds(Drop(s, ch))
  {
    WaitingIsFound(s, ch);
    HeldDrop(multiset(s.inbox), multiset(s.sendCases), s.live, s.waiting, ch);
  }

  lemma StepInbox(s: State, ch: Chan)
    requires Inv(s)
    ensures Enabled(s, Subscribe(ch)) ==> Holds(Apply(s, Subscribe(ch)))
    ensures Enabled(s, RemoveFromInbox(ch)) ==> Holds(Apply(s, RemoveFromInbox(ch)))
    ensures Enabled(s, RemoveLater(ch)) ==> Holds(Apply(s, RemoveLater(ch)))
  {
    var i, c := multiset(s.inbox), multiset(s.sendCases);
    if ch != REMOVE_SUB { HeldSubscribe(i, c, s.live, s.waiting, ch); }
    if ch in s.live && ch in s.inbox { HeldUnbox(i, c, s.live, s.waiting, ch); }
    if ch in s.live && ch !in s.inbox { HeldWait(i, c, s.live, s.waiting, ch); }
  }

  lemma StepHeld(s: State, a: Action)
    requires Inv(s) && Enabled(s, a) && Safe(s, a)
    ensures Holds(Apply(s, a))
  {
    match a
    case Subscribe(ch) => StepInbox(s, ch);
    case RemoveFromInbox(ch) => StepInbox(s, ch);
    case RemoveLater(ch) => StepInbox(s, ch);
    case RemoveNow(ch) => StepDrop(s, ch);
    case SendStart => HeldStart(multiset(s.inbox), multiset(s.sendCases), s.live, s.waiting);
    case SelectRemove(ch) => StepDrop(s, ch);
    case _ =>
  }

  /** No step that can happen panics. */
  lemma StepIsSafe(s: State, a: Action)
    requires Inv(s) && Enabled(s, a)
    ensures Safe(s, a)
  {
    match a
    case RemoveNow(ch) => WaitingIsFound(s, ch);
    case SelectRemove(ch) => WaitingIsFound(s, ch);
    case _ =>
  }

  /** The first case stays, and the active part within bounds, when a case is delivered or removed. */
  lemma DeliverShape(s: State, k: nat)
    requires Shape(s) && 1 <= k < s.active <= |s.sendCases|
    ensures var t := Deliver(s, k); |t.sendCases| == |s.sendCases| && t.sendCases[0] == REMOVE_SUB
  {
  }

  lemma DropShape(s: State, ch: Chan)
    requires Inv(s) && ch in s.waiting
    ensures Found(s.sendCases, ch) >= 1
    ensures var t := Drop(s, ch);
              |t.sendCases| == |s.sendCases| - 1 && t.sendCases != [] && t.sendCases[0] == REMOVE_SUB
  {
    WaitingIsFound(s, ch);
  }

  lemma StepShape(s: State, a: Action)
    requires Inv(s) && Enabled(s, a) && Safe(s, a)
    ensures Shape(Apply(s, a))
  {
    match a
    case RemoveNow(ch) => DropShape(s, ch);
    case TrySend(accepted) => if accepted { DeliverShape(s, s.phase.i); }
    case SelectSend(k) => DeliverShape(s, k);
    case SelectRemove(ch) => DropShape(s, ch);
    case _ =>
  }

  lemma StepAccounted(s: State, a: Action)
    requires Inv(s) && Enabled(s, a) && Safe(s, a)
    ensures Accounted(Apply(s, a))
  {
    match a
    case SendStart => StepStart(s);
    case TrySend(accepted) => if accepted { StepDeliver(s, s.phase.i); }
    case SelectSend(k) => StepDeliver(s, k);
    case SelectRemove(ch) => StepRemove(s, ch);
    case _ =>
  }

  /** Every atomic step keeps the invariant. */
  lemma StepKeepsInv(s: State, a: Action)
    requires Inv(s) && Enabled(s, a) && Safe(s, a)
    ensures Inv(Apply(s, a))
  {
    StepShape(s, a);
    StepHeld(s, a);
    StepAccounted(s, a);
  }

  // ---------------------------------------------------------------- every run

  /** The steps lead from s to t. */
  ghost predicate Leads(s: State, run: seq<Action>, t: State)
    decreases |run|
  {
    if run == [] then s == t else Enabled(s, run[0]) && Safe(s, run[0]) && Leads(Apply(s, run[0]), run[1..], t)
  }

  /** The steps lead from the zero value of the feed to s. */
  ghost predicate Reaches(run: seq<Action>, s: State) {
    Leads(Init(), run, s)
  }

  lemma {:induction false} LeadsKeepsInv(s: State, run: seq<Action>, t: State)
    requires Inv(s) && Leads(s, run, t)
    ensures Inv(t)
    decreases |run|
  {
    if run != [] {
      StepKeepsInv(s, run[0]);
      LeadsKeepsInv(Apply(s, run[0]), run[1..], t);
    }
  }

  /** Every reachable state satisfies the invariant, whatever the interleaving. */
  lemma RunKeepsInv(run: seq<Action>, s: State)
    requires Reaches(run, s)
    ensures Inv(s)
  {
    InitInv();
    LeadsKeepsInv(Init(), run, s);
  }

  lemma NeverPanics(run: seq<Action>, s: State, a: Action)
    requires Reaches(run, s) && Enabled(s, a)
    ensures Safe(s, a)
  {
    RunKeepsInv(run, s);
    StepIsSafe(s, a);
  }

  function Is(a: Action, b: Action): nat {
    if a == b then 1 else 0
  }

  /** How often a step is taken in a run. */
  function Times(run: seq<Action>, a: Action): nat {
    if run == [] then 0 else Is(run[0], a) + Times(run[1..], a)
  }

  lemma StepLive(s: State, a: Action, c: Chan)
    requires Enabled(s, a) && Safe(s, a)
    ensures Apply(s, a).live[c] + Is(a, RemoveFromInbox(c)) + Is(a, RemoveLater(c)) == s.live[c] + Is(a, Subscribe(c))
  {
  }

  lemma StepWaiting(s: State, a: Action, c: Chan)
    requires Enabled(s, a) && Safe(s, a)
    ensures Apply(s, a).waiting[c] + Is(a, RemoveNow(c)) + Is(a, SelectRemove(c)) ==
            s.waiting[c] + Is(a, RemoveLater(c))
  {
  }

  /** What the steps taken say of the subscriptions in force and of those still to be removed. */
  lemma {:induction false} LeadsCounts(s: State, run: seq<Action>, t: State, c: Chan)
    requires Leads(s, run, t)
    ensures t.live[c] + Times(run, RemoveFromInbox(c)) + Times(run, RemoveLater(c)) ==
            s.live[c] + Times(run, Subscribe(c))
    ensures t.waiting[c] + Times(run, RemoveNow(c)) + Times(run, SelectRemove(c)) ==
            s.waiting[c] + Times(run, RemoveLater(c))
    decreases |run|
  {
    if run != [] {
      StepLive(s, run[0], c);
      StepWaiting(s, run[0], c);
      LeadsCounts(Apply(s, run[0]), run[1..], t, c);
    }
  }

  /** Every subscription of a channel, in force or being removed, has one case in one of the two lists, however often
      the channel is subscribed; those being removed are not in the inbox.  Those in force are the ones subscribed and
      not unsubscribed, those being removed the ones unsubscribed and not yet removed. */
  lemma InOneList(run: seq<Action>, s: State, c: Chan)
    requires Reaches(run, s) && c != REMOVE_SUB
    ensures multiset(s.inbox)[c] + multiset(s.sendCases)[c] == s.live[c] + s.waiting[c]
    ensures s.waiting[c] <= multiset(s.sendCases)[c] && multiset(s.inbox)[c] <= s.live[c]
    ensures s.live[c] + s.waiting[c] == 1 ==> (c in s.inbox) != (c in s.sendCases)
    ensures s.live[c] + Times(run, RemoveFromInbox(c)) + Times(run, RemoveLater(c)) == Times(run, Subscribe(c))
    ensures s.waiting[c] + Times(run, RemoveNow(c)) + Times(run, SelectRemove(c)) == Times(run, RemoveLater(c))
  {
    RunKeepsInv(run, s);
    LeadsCounts(Init(), run, s, c);
    assert HeldAt(multiset(s.inbox), multiset(s.sendCases), s.live, s.waiting, c);
    assert c in s.inbox <==> c in multiset(s.inbox);
    assert c in s.sendCases <==> c in multiset(s.sendCases);
  }

  /** While `Send` runs, each case got the value at most once, and those past the unsent part exactly once. */
  lemma AtMostOnce(run: seq<Action>, s: State)
    requires Reaches(run, s) && !s.phase.Idle?
    ensures s.history.delivered <= s.history.start && s.nsent == |s.history.delivered|
    ensures s.active <= |s.sendCases| && multiset(s.sendCases[s.active..]) <= s.history.delivered
  {
    RunKeepsInv(run, s);
    var unsent, sent := multiset(s.sendCases[1..s.active]), multiset(s.sendCases[s.active..]);
    forall c: Chan ensures sent[c] <= s.history.delivered[c] <= s.history.start[c] {
      assert BalancedAt(unsent, sent, s.history, c);
    }
  }

  /** When `Send` is about to return, all cases left have the value, and it went once to each case it had, apart from
      those removed before. */
  lemma SendEnds(s: State, c: Chan)
    requires Inv(s) && Enabled(s, Turn) && s.active == 1
    ensures s.history.delivered[c] + s.history.goneUnsent[c] == s.history.start[c] && s.nsent == |s.history.delivered|
  {
    assert s.sendCases[1..1] == [];
    assert BalancedAt(multiset(s.sendCases[1..1]), multiset(s.sendCases[1..]), s.history, c);
  }

  // ---------------------------------------------------------------- a whole `Send`

  /** Who gets the value in a step. */
  function Taken(s: State, a: Action): multiset<Chan>
    requires Enabled(s, a) && Safe(s, a)
  {
    match a
    case TrySend(accepted) => if accepted then multiset{s.sendCases[s.phase.i]} else multiset{}
    case SelectSend(k) => multiset{s.sendCases[k]}
    case _ => multiset{}
  }

  /** Who gets the value in a run, as often as they do. */
  ghost function Sent(s: State, run: seq<Action>, t: State): multiset<Chan>
    requires Leads(s, run, t)
    decreases |run|
  {
    if run == [] then multiset{} else Taken(s, run[0]) + Sent(Apply(s, run[0]), run[1..], t)
  }

  /** No further `Send` begins. */
  predicate OneSend(run: seq<Action>) {
    SendStart !in run
  }

  lemma {:induction false} StaysIdle(s: State, run: seq<Action>, t: State)
    requires Leads(s, run, t) && s.phase.Idle? && OneSend(run)
    ensures t.phase.Idle?
    decreases |run|
  {
    if run != [] { StaysIdle(Apply(s, run[0]), run[1..], t); }
  }

  /** One step of a `Send`, in its own record. */
  lemma StepRecords(s: State, a: Action, c: Chan)
    requires Enabled(s, a) && Safe(s, a) && !s.phase.Idle?
    ensures var t := Apply(s, a); Records(s, t, Taken(s, a), Is(a, SelectRemove(c)), c)
  {
    match a
    case TrySend(accepted) => if accepted { DeliverRecords(s, s.phase.i, c); }
    case SelectSend(k) => DeliverRecords(s, k, c);
    case _ =>
  }

  lemma DeliverRecords(s: State, k: nat, c: Chan)
    requires 1 <= k < s.active <= |s.sendCases|
    ensures Records(s, Deliver(s, k), multiset{s.sendCases[k]}, 0, c)
  {
  }

  /** What changes in the record of channel c when the given channels get the value and c is removed so often. */
  predicate Records(s: State, t: State, taken: multiset<Chan>, dropped: nat, c: Chan) {
    var h, h' := s.history, t.history;
    && h'.start == h.start && h'.delivered[c] == h.delivered[c] + taken[c] && t.nsent == s.nsent + |taken|
    && h'.goneUnsent[c] + h'.goneSent[c] == h.goneUnsent[c] + h.goneSent[c] + dropped
  }

  lemma {:induction false} RunRecords(s: State, run: seq<Action>, t: State, c: Chan)
    requires Leads(s, run, t) && OneSend(run) && !s.phase.Idle? && !t.phase.Idle?
    ensures Records(s, t, Sent(s, run, t), Times(run, SelectRemove(c)), c)
    decreases |run|
  {
    if run != [] {
      var u := Apply(s, run[0]);
      StepRecords(s, run[0], c);
      if u.phase.Idle? { StaysIdle(u, run[1..], t); }
      RunRecords(u, run[1..], t, c);
    }
  }

  /** `Send` begins with all subscriptions there are, and leaves none in the inbox. */
  lemma SendTakesAll(before: seq<Action>, s: State)
    requires Reaches(before, s) && s.phase.Idle?
    ensures Safe(s, SendStart) && var t := Apply(s, SendStart);
      && t.inbox == [] && t.sendCases != [] && multiset(t.sendCases[1..]) == s.live + s.waiting
      && t.history.start == s.live + s.waiting && t.active == |t.sendCases|
  {
    RunKeepsInv(before, s);
    var cs := s.sendCases + s.inbox;
    assert cs == [REMOVE_SUB] + cs[1..];
    assert multiset(cs) == multiset{REMOVE_SUB} + multiset(cs[1..]) == multiset(s.sendCases) + multiset(s.inbox);
    forall c: Chan ensures multiset(cs[1..])[c] == (s.live + s.waiting)[c] {
      assert HeldAt(multiset(s.inbox), multiset(s.sendCases), s.live, s.waiting, c);
      assert multiset(cs)[c] == multiset(s.sendCases)[c] + multiset(s.inbox)[c];
    }
    assert multiset(cs[1..]) == s.live + s.waiting;
  }

  /** A whole `Send`, from its start in any reachable state to its return, whatever happens meanwhile.  Each channel
      gets the value as often as it was subscribed when `Send` began, less at most once for each subscription removed
      meanwhile; none gets it more often; and the result counts the deliveries. */
  lemma SendDelivers(before: seq<Action>, s: State, run: seq<Action>, t: State, c: Chan)
    requires Reaches(before, s) && Enabled(s, SendStart) && Safe(s, SendStart)
    requires Leads(Apply(s, SendStart), run, t) && OneSend(run) && Enabled(t, Turn) && Apply(t, Turn).phase.Idle?
    ensures var sent, subscribed := Sent(Apply(s, SendStart), run, t), s.live[c] + s.waiting[c];
      && sent[c] <= subscribed <= sent[c] + Times(run, SelectRemove(c)) && t.nsent == |sent|
      && (c !in s.waiting && Times(run, RemoveLater(c)) == 0 ==> sent[c] == s.live[c])
  {
    var u := Apply(s, SendStart);
    SendTakesAll(before, s);
    RunKeepsInv(before, s);
    StepKeepsInv(s, SendStart);
    LeadsKeepsInv(u, run, t);
    RunRecords(u, run, t, c);
    SendEnds(t, c);
    LeadsCounts(u, run, t, c);
  }

  /** Where `Send` is within a pass over the unsent cases. */
  function Ahead(s: State): int {
    if s.phase.Fast? then s.active - s.phase.i + 1 else 0
  }

  /** Every step of `Send` itself brings it closer to its end. */
  lemma SendProgresses(run: seq<Action>, s: State, a: Action)
    requires Reaches(run, s) && Enabled(s, a) && !s.phase.Idle?
    requires a.TrySend? || a.Turn? || a.SelectSend? || a.SelectRemove?
    ensures Safe(s, a) && var t := Apply(s, a);
      || t.phase.Idle?
      || |t.sendCases| + t.active < |s.sendCases| + s.active
      || (|t.sendCases| + t.active == |s.sendCases| + s.active && 0 <= Ahead(t) < Ahead(s))
  {
    NeverPanics(run, s, a);
    RunKeepsInv(run, s);
    StepKeepsInv(s, a);
  }

  // ---------------------------------------------------------------- in place

  /** `f.sendCases` and `cases`, its prefix, on one backing array. */
  class SendCases {
    const data: array<Chan>
    var size: nat
    var active: nat

    ghost predicate Valid()
      reads this
    {
      1 <= active <= size <= data.Length
    }

    constructor (cs: seq<Chan>)
      requires cs != []
      ensures Valid() && fresh(data) && data[..size] == cs && active == size
    {
      data := new Chan[|cs|](i requires 0 <= i < |cs| => cs[i]);
      size, active := |cs|, |cs|;
    }

    /** As `Deliver` */
    method Retire(k: nat)
      requires Valid() && 1 <= k < active
      modifies this`active, data
      ensures Valid() && active == old(active) - 1
      ensures data[..size] == Deactivated(old(data[..size]), old(active), k)
    {
      Deactivate(data, size, active, k);
      active := active - 1;
    }

    /** As `SelectRemove`, on the array */
    method Remove(ch: Chan) returns (index: int)
      requires Valid() && Found(data[..size], ch) >= 1
      modifies this, data
      ensures Valid() && size == old(size) - 1 && index == Found(old(data[..size]), ch)
      ensures data[..size] == Deleted(old(data[..size]), index)
      ensures active == if index < old(active) then old(active) - 1 else old(active)
    {
      ghost var was := data[..size];
      index := Find(data, size, ch);
      Delete(data, size, index);
      size := size - 1;
      assert data[..size] == Deleted(was, index);
      if 0 <= index < active {
        active := active - 1;
      }
    }
  }
}
