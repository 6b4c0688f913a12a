/** Any number of clients sharing one cell: every load, compare-and-swap and store is one step. */
module LatchRuns {
  import opened Latch

  /** `loaded` is the word a client read in the first half of `pin_lock`; `seen` counts the write
      sections begun when its reader latch was taken. */
  datatype Client = Client(guard: Guard, pinning: bool, loaded: Word, seen: nat)

  /** `latch` and `begun` are bookkeeping: no step reads them. */
  datatype State = State(word: Word, clients: seq<Client>, latch: Abstract, begun: nat)

  datatype Action =
    | Borrow | Upgrade | LoadPin | CasPin | FailPin | Obsoleted | DowngradeIt | Release

  function Act(s: State, i: nat, action: Action): State
    requires i < |s.clients|
  {
    var c := s.clients[i];
    var n := s.latch.counter;
    match action
    case Borrow =>
      if c.guard.NoGuard? && !c.pinning
      then s.(clients := s.clients[i := c.(guard := ReadLock(s.word), seen := s.begun)]) else s
    case Upgrade =>
      if c.pinning then s else
      var (w, g) := UpgradeWrite(s.word, c.guard);
      if g.Writer? && !c.guard.Writer?
      then s.(word := w, clients := s.clients[i := c.(guard := g)], latch := Locked(n, i), begun := s.begun + 1)
      else s
    case LoadPin =>
      if c.guard.Reader? && !c.pinning && MayPin(s.word)
      then s.(clients := s.clients[i := c.(pinning := true, loaded := s.word)]) else s
    case CasPin =>
      if !c.pinning then s else
      var (w, g) := PinCas(s.word, c.loaded, c.guard);
      var after := s.(word := w, clients := s.clients[i := c.(guard := g, pinning := false)]);
      if g.AppendPin? then after.(latch := Pinned(n, i)) else after
    case FailPin =>
      if c.pinning then s.(clients := s.clients[i := c.(pinning := false)]) else s
    case Obsoleted =>
      if c.guard.Writer? then s.(word := MarkObsolete(s.word, c.guard), latch := Abstract.Obsolete(n, i)) else s
    case DowngradeIt =>
      if c.pinning then s else
      var (w, g) := Downgrade(s.word, c.guard);
      s.(word := w, clients := s.clients[i := c.(guard := g, seen := if g != c.guard then s.begun else c.seen)],
         latch := if c.guard.Writer? then Free(n + 1) else if c.guard.AppendPin? then Free(n) else s.latch)
    case Release =>
      if c.pinning then s else
      s.(word := Drop(s.word, c.guard), clients := s.clients[i := c.(guard := NoGuard)],
         latch := if c.guard.Writer? then Free(n + 1) else if c.guard.AppendPin? then Free(n) else s.latch)
  }

  /** A write section may only end while the counter has room. */
  ghost predicate HasRoom(s: State) {
    s.latch.counter + 1 < LIMIT
  }

  ghost predicate Step(s: State, t: State) {
    HasRoom(s) && exists i: nat, a: Action :: i < |s.clients| && t == Act(s, i, a)
  }

  ghost predicate Initial(s: State) {
    s.word == Counted(0) && s.latch == Free(0) && s.begun == 0
    && forall i :: 0 <= i < |s.clients| ==> s.clients[i].guard.NoGuard? && !s.clients[i].pinning
  }

  ghost predicate Run(states: seq<State>) {
    |states| > 0 && Initial(states[0]) && forall i :: 0 <= i < |states| - 1 ==> Step(states[i], states[i + 1])
  }

  /** Write sections that have ended. */
  ghost function Ended(s: State): int {
    s.begun - if WriteHeld(s.latch) then 1 else 0
  }

  ghost predicate ClientOk(s: State, i: nat)
    requires i < |s.clients|
  {
    var c := s.clients[i];
    var n := s.latch.counter;
    && (c.pinning ==> c.guard.Reader? && c.loaded == Counted(c.loaded.counter) && c.loaded.counter <= n)
    && match c.guard
       case NoGuard => true
       case Reader(l) => l == Counted(l.counter) && l.counter <= n && (l.counter == n ==> c.seen == Ended(s))
       case Writer(l) => WriteHeld(s.latch) && s.latch.owner == i && l == WithWrite(Counted(n))
       case AppendPin(l) => s.latch == Pinned(n, i) && l == WithPin(Counted(n))
  }

  ghost predicate Holder(c: Client) {
    c.guard.Writer? || c.guard.AppendPin?
  }

  /** A latch that is not free is held by a client. */
  ghost predicate IsHeld(s: State) {
    s.latch.Free? || (s.latch.owner < |s.clients| && Holder(s.clients[s.latch.owner]))
  }

  ghost predicate Inv(s: State) {
    && s.latch.counter < LIMIT
    && s.word == WordOf(s.latch)
    && Ended(s) >= 0
    && IsHeld(s)
    && forall i :: 0 <= i < |s.clients| ==> ClientOk(s, i)
  }

  lemma {:induction false} WordKeeps(s: State, i: nat, a: Action)
    requires Inv(s) && HasRoom(s) && i < |s.clients|
    ensures var t := Act(s, i, a);
            && t.latch.counter < LIMIT && t.word == WordOf(t.latch) && Ended(t) >= 0 && IsHeld(t)
            && s.latch.counter <= t.latch.counter
            && |t.clients| == |s.clients| && ClientOk(t, i)
  {
    assert ClientOk(s, i);
  }

  lemma {:induction false} OtherClientKeeps(s: State, i: nat, a: Action, j: nat)
    requires Inv(s) && HasRoom(s) && i < |s.clients| && j < |s.clients| && i != j
    ensures var t := Act(s, i, a); |t.clients| == |s.clients| && ClientOk(t, j)
  {
    assert ClientOk(s, i) && ClientOk(s, j);
  }

  lemma {:induction false} ActKeepsInv(s: State, i: nat, a: Action)
    requires Inv(s) && HasRoom(s) && i < |s.clients|
    ensures Inv(Act(s, i, a))
    ensures s.latch.counter <= Act(s, i, a).latch.counter
  {
    var t := Act(s, i, a);
    WordKeeps(s, i, a);
    hide Act, ClientOk, IsHeld;
    forall j | 0 <= j < |t.clients|
      ensures ClientOk(t, j)
    {
      if j != i { OtherClientKeeps(s, i, a, j); }
    }
  }

  lemma {:induction false} StepOf(states: seq<State>, n: nat) returns (i: nat, a: Action)
    requires Run(states) && n + 1 < |states|
    ensures HasRoom(states[n]) && i < |states[n].clients| && states[n + 1] == Act(states[n], i, a)
  {
    var s, t := states[n], states[n + 1];
    assert Step(s, t);
    hide Run, Act, Initial, HasRoom;
    i, a :| i < |s.clients| && t == Act(s, i, a);
  }

  lemma {:induction false} ReachableInv(states: seq<State>, i: nat)
    requires Run(states) && i < |states|
    ensures Inv(states[i])
  {
    if i > 0 {
      ReachableInv(states, i - 1);
      var s := states[i - 1];
      var j, a := StepOf(states, i - 1);
      ActKeepsInv(s, j, a);
    } else {
      forall j | 0 <= j < |states[0].clients|
        ensures ClientOk(states[0], j)
      {
      }
    }
  }

  /** When no client holds a write lock or a pin, the cell is free: whatever was held has been given back. */
  lemma {:induction false} NothingStaysHeld(states: seq<State>, t: nat)
    requires Run(states) && t < |states|
    requires forall i :: 0 <= i < |states[t].clients| ==> !Holder(states[t].clients[i])
    ensures states[t].latch.Free? && states[t].word == Counted(states[t].latch.counter)
  {
    ReachableInv(states, t);
  }

  /** What a client gets, and when: a lock exactly on the word it latched, a pin exactly on the word it loaded,
      a reader guard exactly when nobody writes. What it holds is given back by release and downgrade. */
  ghost predicate Grants(s: State, t: State, i: nat, a: Action)
    requires i < |s.clients| && i < |t.clients|
  {
    var c, d, n := s.clients[i], t.clients[i], s.latch.counter;
    match a
    case Borrow =>
      t.latch == s.latch && (c.guard.NoGuard? && !c.pinning ==>
        d.guard == if WriteHeld(s.latch) then NoGuard else Reader(Counted(n)))
    case Upgrade =>
      c.guard.Reader? && !c.pinning ==>
        if s.latch == Free(c.guard.latch.counter) then d.guard.Writer? && t.latch == Locked(n, i) else t == s
    case LoadPin => t.latch == s.latch && (c.guard.Reader? && !c.pinning ==> (d.pinning <==> s.latch.Free?))
    case CasPin =>
      c.pinning ==>
        && !d.pinning
        && (if s.latch == Free(c.loaded.counter) then d.guard.AppendPin? && t.latch == Pinned(n, i)
            else d.guard == c.guard && t.latch == s.latch)
    case FailPin => t.latch == s.latch && d == c.(pinning := false)
    case Obsoleted => d == c && t.latch == if c.guard.Writer? then Abstract.Obsolete(n, i) else s.latch
    case DowngradeIt =>
      && t.latch == (if c.guard.Writer? then Free(n + 1) else if c.guard.AppendPin? then Free(n) else s.latch)
      && (Holder(c) ==> d.guard == Reader(Counted(t.latch.counter)))
    case Release =>
      && t.latch == (if c.guard.Writer? then Free(n + 1) else if c.guard.AppendPin? then Free(n) else s.latch)
      && (!c.pinning ==> d.guard.NoGuard?)
  }

  lemma {:induction false} ActGrants(s: State, i: nat, a: Action)
    requires Inv(s) && i < |s.clients|
    ensures var t := Act(s, i, a);
            && |t.clients| == |s.clients| && Grants(s, t, i, a)
            && forall j :: 0 <= j < |s.clients| && j != i ==> t.clients[j] == s.clients[j]
  {
    assert ClientOk(s, i);
  }

  /** At most one client writes or pins, in every reachable state. */
  lemma {:induction false} AtMostOneHolder(states: seq<State>, t: nat, i: nat, j: nat)
    requires Run(states) && t < |states|
    requires i < |states[t].clients| && j < |states[t].clients|
    requires Holder(states[t].clients[i]) && Holder(states[t].clients[j])
    ensures i == j
  {
    ReachableInv(states, t);
    assert ClientOk(states[t], i) && ClientOk(states[t], j);
  }

  /** The counter never goes back: a word seen without flags is at least any seen before it. */
  lemma {:induction false} CounterNeverGoesBack(states: seq<State>, t: nat, u: nat)
    requires Run(states) && t <= u < |states|
    ensures states[t].latch.counter <= states[u].latch.counter
    ensures states[t].latch.Free? && states[u].latch.Free? ==> states[t].word.counter <= states[u].word.counter
  {
    CounterRises(states, t, u);
    ReachableInv(states, t);
    ReachableInv(states, u);
    hide Run, ClientOk, IsHeld;
  }

  lemma {:induction false} CounterRises(states: seq<State>, t: nat, u: nat)
    requires Run(states) && t <= u < |states|
    ensures states[t].latch.counter <= states[u].latch.counter
  {
    hide Inv, Act, Initial;
    if t < u {
      CounterRises(states, t, u - 1);
      ReachableInv(states, u - 1);
      var s := states[u - 1];
      var j, a := StepOf(states, u - 1);
      ActKeepsInv(s, j, a);
    }
  }

  /** A reader latch that validates saw no write section: none is open, and none began since the
      latch was taken. If it also survives the upgrade's compare-and-swap, nobody pins either. */
  lemma {:induction false} ValidMeansUndisturbed(states: seq<State>, t: nat, i: nat)
    requires Run(states) && t < |states| && i < |states[t].clients|
    requires states[t].clients[i].guard.Reader?
    requires IsReadValid(states[t].word, states[t].clients[i].guard.latch)
    ensures !WriteHeld(states[t].latch) && states[t].clients[i].seen == states[t].begun
    ensures forall j :: 0 <= j < |states[t].clients| ==> !states[t].clients[j].guard.Writer?
    ensures UpgradeWrite(states[t].word, states[t].clients[i].guard).1.Writer? ==>
            forall j :: 0 <= j < |states[t].clients| ==> !Holder(states[t].clients[j])
  {
    var s := states[t];
    ReachableInv(states, t);
    assert ClientOk(s, i);
    forall j | 0 <= j < |s.clients|
      ensures !s.clients[j].guard.Writer?
      ensures s.latch.Free? ==> !Holder(s.clients[j])
    {
      assert ClientOk(s, j);
    }
  }

  /** Append pins, taken or released by anyone, leave every reader's latch as valid as it was. */
  lemma {:induction false} PinsInvalidateNoReader(states: seq<State>, t: nat, i: nat, a: Action, latch: nat)
    requires Run(states) && t < |states| && i < |states[t].clients|
    requires HasRoom(states[t])
    requires a.LoadPin? || a.CasPin? || a.FailPin? || (a.Release? && states[t].clients[i].guard.AppendPin?)
          || (a.DowngradeIt? && states[t].clients[i].guard.AppendPin?)
    ensures IsReadValid(Act(states[t], i, a).word, Counted(latch)) == IsReadValid(states[t].word, Counted(latch))
  {
    var s := states[t];
    ReachableInv(states, t);
    assert ClientOk(s, i);
    ActKeepsInv(s, i, a);
    WordOperations(s.latch, latch);
    WordOperations(Act(s, i, a).latch, latch);
  }
}
