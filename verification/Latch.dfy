/** The optimistic latch (smart_cell.rs): one 64-bit word holds three flags and a counter. */
module Latch {
  /** The fields of the word. The low 61 bits are the counter; `LatchBits` packs the fields into 64 bits,
      without loss, and shows that the masks of the source act on the packed word as the operations below
      act on the fields. */
  datatype Word = Word(obsolete: bool, write: bool, pin: bool, counter: nat)

  /** Counters are assumed to stay below the lowest flag. */
  const LIMIT: nat := 0x2000_0000_0000_0000

  const OBSOLETE_WORD: Word := Word(true, false, false, 0)

  function Counted(n: nat): Word {
    Word(false, false, false, n)
  }

  /** `w & WRITE_OBSOLETE == 0` */
  predicate Readable(w: Word) {
    !w.write && !w.obsolete
  }

  /** `w & !PIN` */
  function Unpinned(w: Word): Word {
    w.(pin := false)
  }

  /** `WRITE | w` */
  function WithWrite(w: Word): Word {
    w.(write := true)
  }

  /** `w | PIN` */
  function WithPin(w: Word): Word {
    w.(pin := true)
  }

  /** `w ^ PIN` */
  function TogglePin(w: Word): Word {
    w.(pin := !w.pin)
  }

  /** `(w + 1) ^ WRITE` */
  function WriteDone(w: Word): Word {
    w.(counter := w.counter + 1, write := !w.write)
  }

  /** A client's guard on a cell. */
  datatype Guard = NoGuard | Reader(latch: Word) | Writer(latch: Word) | AppendPin(latch: Word)

  function ReadLock(w: Word): Guard {
    if Readable(w) then Reader(Unpinned(w)) else NoGuard
  }

  predicate IsReadValid(w: Word, latch: Word) {
    latch == Unpinned(w) && Readable(w)
  }

  /** Compare-and-swap from the latched word to the write-locked word. */
  function UpgradeWrite(w: Word, g: Guard): (Word, Guard) {
    if g.Reader? && w == g.latch then (WithWrite(g.latch), Writer(WithWrite(g.latch))) else (w, g)
  }

  /** The first half of `pin_lock`: the load may already rule the pin out. */
  predicate MayPin(loaded: Word) {
    !loaded.pin && Readable(loaded)
  }

  /** The second half: compare-and-swap from the loaded word to the pinned one. */
  function PinCas(w: Word, loaded: Word, g: Guard): (Word, Guard) {
    if w == loaded then (WithPin(loaded), AppendPin(WithPin(loaded))) else (w, g)
  }

  function MarkObsolete(w: Word, g: Guard): Word {
    if g.Writer? then OBSOLETE_WORD else w
  }

  function Downgrade(w: Word, g: Guard): (Word, Guard) {
    match g
    case Writer(l) =>
      if !l.obsolete then (WriteDone(l), Reader(WriteDone(l).(write := false))) else (w, g)
    case AppendPin(l) => (TogglePin(l), Reader(TogglePin(l)))
    case _ => (w, g)
  }

  function Drop(w: Word, g: Guard): Word {
    match g
    case Writer(l) => WriteDone(l)
    case AppendPin(l) => TogglePin(l)
    case _ => w
  }

  /** What the word stands for. The owner is bookkeeping: it is not in the word, and neither is the
      counter of an obsolete page, which only its writer remembers. */
  datatype Abstract =
    | Free(counter: nat)
    | Pinned(counter: nat, owner: nat)
    | Locked(counter: nat, owner: nat)
    | Obsolete(counter: nat, owner: nat)

  function WordOf(a: Abstract): Word {
    match a
    case Free(n) => Counted(n)
    case Pinned(n, _) => WithPin(Counted(n))
    case Locked(n, _) => WithWrite(Counted(n))
    case Obsolete(_, _) => OBSOLETE_WORD
  }

  /** A reader's latch still holds: no write since it was taken, pins do not matter. */
  predicate Valid(a: Abstract, latch: nat) {
    (a.Free? || a.Pinned?) && a.counter == latch
  }

  predicate WriteHeld(a: Abstract) {
    a.Locked? || a.Obsolete?
  }

  /** Validation, borrowing, upgrading and pinning on the word do what their abstract forms say. */
  lemma {:induction false} WordOperations(a: Abstract, latch: nat)
    ensures IsReadValid(WordOf(a), Counted(latch)) == Valid(a, latch)
    ensures ReadLock(WordOf(a)) == if WriteHeld(a) then NoGuard else Reader(Counted(a.counter))
    ensures UpgradeWrite(WordOf(a), Reader(Counted(latch))).1.Writer? <==> a == Free(latch)
    ensures UpgradeWrite(WordOf(a), Reader(Counted(latch))) ==
            if a == Free(latch) then (WordOf(Locked(latch, 0)), Writer(WordOf(Locked(latch, 0))))
            else (WordOf(a), Reader(Counted(latch)))
    ensures MayPin(WordOf(a)) == a.Free?
    ensures PinCas(WordOf(a), Counted(latch), Reader(Counted(latch))) ==
            if a == Free(latch) then (WordOf(Pinned(latch, 0)), AppendPin(WordOf(Pinned(latch, 0))))
            else (WordOf(a), Reader(Counted(latch)))
    ensures MarkObsolete(WordOf(a), Writer(WithWrite(Counted(latch)))) == WordOf(Abstract.Obsolete(latch, 0))
  {
  }

  /** Giving up what is held leaves the cell free: a write section counts, a pin does not. Whoever downgrades
      has a good guard on the free cell. */
  lemma {:induction false} WordReleases(a: Abstract, w: Word, g: Guard)
    ensures var writer := Writer(WithWrite(Counted(a.counter)));
            WriteHeld(a) ==>
              && Drop(WordOf(a), writer) == WordOf(Free(a.counter + 1))
              && Downgrade(WordOf(a), writer) == (WordOf(Free(a.counter + 1)), Reader(Counted(a.counter + 1)))
    ensures var pin := AppendPin(WithPin(Counted(a.counter)));
            a.Pinned? ==>
              && Drop(WordOf(a), pin) == WordOf(Free(a.counter))
              && Downgrade(WordOf(a), pin) == (WordOf(Free(a.counter)), Reader(Counted(a.counter)))
    ensures g.Reader? || g.NoGuard? ==> Drop(w, g) == w && Downgrade(w, g) == (w, g) && MarkObsolete(w, g) == w
  {
  }

  // ----- cells and guards ------------------------------------------------------------------

  /** `latch` is bookkeeping: what the word stands for. */
  class OptCell {
    var word: Word
    ghost var latch: Abstract

    ghost predicate Valid()
      reads this
    {
      word == WordOf(latch)
    }

    constructor ()
      ensures Valid() && latch == Free(0)
    {
      word := Counted(0);
      latch := Free(0);
    }
  }

  /** A guard overwrites itself as it is upgraded, downgraded and dropped. Each method is the
      quiescent form of its steps; `LatchRuns` interleaves the steps. `owner` is bookkeeping. */
  class SmartGuard {
    const cell: OptCell
    ghost const owner: nat
    var guard: Guard

    /** The guard agrees with the latch: a writer and a pin holder own it, a reader is not ahead of it. */
    ghost predicate Agrees()
      reads this, cell
    {
      && cell.Valid()
      && match guard
         case NoGuard => true
         case Reader(l) => l == Counted(l.counter) && l.counter <= cell.latch.counter
         case Writer(l) =>
           WriteHeld(cell.latch) && cell.latch.owner == owner && l == WithWrite(Counted(cell.latch.counter))
         case AppendPin(l) => cell.latch == Pinned(cell.latch.counter, owner) && l == WordOf(cell.latch)
    }

    /** A guard is there exactly if nobody holds the cell for writing, and it is good as it is taken. */
    constructor BorrowRead(cell: OptCell, ghost owner: nat)
      requires cell.Valid()
      ensures this.cell == cell && this.owner == owner && Agrees()
      ensures guard.Reader? <==> !WriteHeld(cell.latch)
      ensures guard.Reader? || guard.NoGuard?
      ensures cell.latch == old(cell.latch)
      ensures guard.Reader? ==> Valid(cell.latch, guard.latch.counter)
    {
      this.cell := cell;
      this.owner := owner;
      var read := Readable(cell.word);
      guard := if read then Reader(Unpinned(cell.word)) else NoGuard;
    }

    /** A reader is valid exactly if no write section has begun since its guard was taken. */
    method IsValid() returns (valid: bool)
      requires Agrees()
      ensures guard.Reader? ==> (valid <==> Valid(cell.latch, guard.latch.counter))
      ensures !guard.Reader? ==> (valid <==> !cell.latch.Free? && cell.latch.owner == owner && !guard.NoGuard?)
    {
      match guard {
        case NoGuard => valid := false;
        case Reader(latch) =>
          var load := cell.word;
          valid := latch == Unpinned(load) && Readable(load);
        case Writer(_) => valid := true;
        case AppendPin(_) => valid := true;
      }
    }

    /** A reader gets the lock exactly if its latch is still valid and nobody pins; the weak
        compare-and-swap may also fail for no reason. Then this thread owns the latch. */
    method UpgradeWriteLock(spurious: bool) returns (ok: bool)
      requires Agrees()
      modifies this, cell
      ensures Agrees() && ok == guard.Writer?
      ensures old(guard.Reader?) ==>
        (ok <==> !spurious && old(Valid(cell.latch, guard.latch.counter) && !cell.latch.Pinned?))
      ensures !old(guard.Reader?) ==> (ok <==> old(guard.Writer?))
      ensures !old(guard.Writer?) && ok ==> cell.latch == Locked(old(cell.latch.counter), owner)
      ensures !ok || old(guard.Writer?) ==> cell.latch == old(cell.latch) && guard == old(guard)
    {
      match guard {
        case Writer(_) => ok := true;
        case Reader(latch) =>
          if cell.word == latch && !spurious {
            cell.word := WithWrite(latch);
            cell.latch := Locked(cell.latch.counter, owner);
            guard := Writer(WithWrite(latch));
            ok := true;
          } else {
            ok := false;
          }
        case _ => ok := false;
      }
    }

    /** A reader gets a pin exactly if the cell is free, however old its latch is. Anybody else is asked for a
        write lock: who has one is told so and keeps it, nobody else gets anything. */
    method UpgradeAppendLock(spurious: bool) returns (ok: bool)
      requires Agrees()
      modifies this, cell
      ensures Agrees()
      ensures old(guard.Reader?) ==> (ok <==> !spurious && old(cell.latch.Free?)) && ok == guard.AppendPin?
      ensures old(guard.Reader?) && ok ==> cell.latch == Pinned(old(cell.latch.counter), owner)
      ensures !old(guard.Reader?) ==> (ok <==> old(guard.Writer?))
      ensures ok ==> !cell.latch.Free? && cell.latch.owner == owner
      ensures !old(guard.Reader?) || !ok ==> cell.latch == old(cell.latch) && guard == old(guard)
    {
      ok := false;
      if guard.Reader? {
        var read := cell.word;
        if !read.pin && Readable(read) && !spurious {
          cell.word := WithPin(read);
          cell.latch := Pinned(cell.latch.counter, owner);
          guard := AppendPin(WithPin(read));
          ok := true;
        }
      } else {
        ok := UpgradeWriteLock(spurious);
      }
    }

    /** Nobody can borrow, pin or lock a marked cell; its writer still owns it. */
    method MarkAsObsolete()
      requires Agrees()
      modifies cell
      ensures Agrees() && guard == old(guard)
      ensures guard.Writer? ==> cell.latch == Abstract.Obsolete(old(cell.latch.counter), owner)
      ensures !guard.Writer? ==> cell.latch == old(cell.latch)
      ensures forall l: nat :: Valid(cell.latch, l) == old(Valid(cell.latch, l))
    {
      if guard.Writer? {
        cell.word := OBSOLETE_WORD;
        cell.latch := Abstract.Obsolete(cell.latch.counter, owner);
      }
    }

    /** The guard becomes a good reader of the free cell it leaves behind. A write section leaves no
        older latch valid, a pin leaves them all as they were. */
    method DowngradeGuard()
      requires Agrees()
      modifies this, cell
      ensures Agrees()
      ensures old(guard.Writer? || guard.AppendPin?) ==> guard.Reader? && Valid(cell.latch, guard.latch.counter)
      ensures old(guard.Writer?) ==> cell.latch == Free(old(cell.latch.counter) + 1)
      ensures old(guard.AppendPin?) ==> cell.latch == Free(old(cell.latch.counter))
      ensures old(guard.Writer?) ==> forall l: nat :: l <= old(cell.latch.counter) ==> !Valid(cell.latch, l)
      ensures !old(guard.Writer?) ==> forall l: nat :: Valid(cell.latch, l) == old(Valid(cell.latch, l))
      ensures old(guard.Reader? || guard.NoGuard?) ==> cell.latch == old(cell.latch) && guard == old(guard)
    {
      match guard {
        case Writer(latch) =>
          if !latch.obsolete {
            cell.word := WriteDone(latch);
            cell.latch := Free(cell.latch.counter + 1);
            guard := Reader(WriteDone(latch).(write := false));
          }
        case AppendPin(latch) =>
          cell.word := TogglePin(latch);
          cell.latch := Free(cell.latch.counter);
          guard := Reader(TogglePin(latch));
        case _ =>
      }
    }

    /** What was held is free again, also a cell that was marked obsolete. A write section leaves no older
        latch valid, a pin or a reader leaves them all as they were. */
    method DropGuard()
      requires Agrees()
      modifies this, cell
      ensures Agrees() && guard.NoGuard?
      ensures old(guard.Writer?) ==> cell.latch == Free(old(cell.latch.counter) + 1)
      ensures old(guard.AppendPin?) ==> cell.latch == Free(old(cell.latch.counter))
      ensures old(guard.Writer?) ==> forall l: nat :: l <= old(cell.latch.counter) ==> !Valid(cell.latch, l)
      ensures !old(guard.Writer?) ==> forall l: nat :: Valid(cell.latch, l) == old(Valid(cell.latch, l))
      ensures old(guard.Reader? || guard.NoGuard?) ==> cell.latch == old(cell.latch)
    {
      match guard {
        case Writer(latch) =>
          cell.word := WriteDone(latch);
          cell.latch := Free(cell.latch.counter + 1);
        case AppendPin(latch) =>
          cell.word := TogglePin(latch);
          cell.latch := Free(cell.latch.counter);
        case _ =>
      }
      guard := NoGuard;
    }
  }
}
