/** The roll-back of stored sections (`setValidSections` in core/chain_indexer.go), read and write by
    read and write. After a failed reset one runs without the lock, and a locked one may run beside it;
    both work on the same counter and the same database. */
module RollBacks {
  import opened Chain
  import opened SectionIndexes

  const WORD: nat := 0x1_0000_0000_0000_0000

  /** Where a roll-back stands: before writing the count, at the loop test, loading and storing the
      decremented counter, reading the section to remove, removing it, and before the last assignment. */
  datatype Pc = Count | Test | Load | Store(loaded: nat) | Key | Delete(section: nat) | Assign | Finished

  datatype Thread = Thread(target: nat, pc: Pc)

  /** What the threads share: the database and the counter in memory. */
  datatype Shared = Shared(disk: Disk, stored: nat)

  /** The effect of a thread's next step; the 64-bit counter wraps around below zero. */
  function StepShared(s: Shared, th: Thread): Shared {
    match th.pc
    case Count => s.(disk := s.disk.(count := th.target))
    case Store(loaded) => s.(stored := if loaded == 0 then WORD - 1 else loaded - 1)
    case Delete(section) => s.(disk := s.disk.(heads := s.disk.heads - {section}))
    case Assign => s.(stored := th.target)
    case _ => s
  }

  function StepThread(s: Shared, th: Thread): Thread {
    th.(pc :=
      match th.pc
      case Count => Test
      case Test => if s.stored > th.target then Load else Assign
      case Load => Store(s.stored)
      case Store(_) => Key
      case Key => Delete(s.stored)
      case Delete(_) => Test
      case Assign => Finished
      case Finished => Finished)
  }

  // ---- one roll-back on its own ----

  /** How the counter, the count and the place of a roll-back fit together while nobody interferes. */
  ghost predicate Alone(th: Thread, s: Shared) {
    && th.target <= s.stored
    && (!th.pc.Count? ==> s.disk.count == th.target)
    && match th.pc
       case Load => th.target < s.stored
       case Store(loaded) => th.target < s.stored == loaded
       case Delete(section) => section == s.stored
       case Assign => s.stored == th.target
       case Finished => s.stored == th.target
       case _ => true
  }

  /** The sections counted in memory are linked, and the database counts no others above the base. */
  ghost predicate Backed(s: Shared, base: nat, size: nat)
    requires size > 0
  {
    Linked(Disk(s.stored, s.disk.heads), base, size) && (s.disk.count <= s.stored || s.disk.count <= base)
  }

  lemma BackedLinked(s: Shared, base: nat, size: nat)
    requires size > 0 && Backed(s, base, size)
    ensures Linked(s.disk, base, size)
  {
    if s.disk.count > base {
      LinkedShrinks(Disk(s.stored, s.disk.heads), s.disk, base, size);
    }
  }

  /** On its own a roll-back keeps every state of the database linked, and its counter never wraps. */
  lemma AloneStep(th: Thread, s: Shared, base: nat, size: nat)
    requires size > 0 && Alone(th, s) && Backed(s, base, size)
    ensures var next := StepShared(s, th);
      Alone(StepThread(s, th), next) && Backed(next, base, size) && next.stored <= s.stored
    ensures th.pc.Store? ==> th.pc.loaded > 0
  {
    var next := StepShared(s, th);
    LinkedShrinks(Disk(s.stored, s.disk.heads), Disk(next.stored, next.disk.heads), base, size);
  }

  // ---- two roll-backs beside each other ----

  datatype Race = Race(shared: Shared, unlocked: Thread, locked: Thread)

  /** The next step of one of the two threads. */
  function Turn(r: Race, unlocked: bool): Race {
    if unlocked then Race(StepShared(r.shared, r.unlocked), StepThread(r.shared, r.unlocked), r.locked)
    else Race(StepShared(r.shared, r.locked), r.unlocked, StepThread(r.shared, r.locked))
  }

  function Turns(r: Race, schedule: seq<bool>): Race {
    if schedule == [] then r else Turn(Turns(r, schedule[..|schedule| - 1]), schedule[|schedule| - 1])
  }

  /** All stored sections are about to be dropped, and a locked roll-back to `target` is decided. */
  function Start(disk: Disk, target: nat): Race {
    Race(Shared(disk, disk.count), Thread(0, Count), Thread(target, Count))
  }

  lemma {:induction false} TurnsConcat(r: Race, a: seq<bool>, b: seq<bool>)
    ensures Turns(r, a + b) == Turns(Turns(r, a), b)
    decreases |b|
  {
    if b == [] {
      assert a + b == a;
    } else {
      TurnsConcat(r, a, b[..|b| - 1]);
      assert (a + b)[..|a + b| - 1] == a + b[..|b| - 1];
    }
  }

  lemma TurnsOne(r: Race, who: bool)
    ensures Turns(r, [who]) == Turn(r, who)
  {
    assert [who][..0] == [];
  }

  /** Appends one turn to a schedule. */
  lemma TurnsNext(r: Race, schedule: seq<bool>, who: bool)
    ensures Turns(r, schedule + [who]) == Turn(Turns(r, schedule), who)
  {
    TurnsConcat(r, schedule, [who]);
    TurnsOne(Turns(r, schedule), who);
  }

  /** Until one thread writes its count nothing is removed, and no count written is above the base. */
  lemma {:induction false} LowCounts(disk: Disk, target: nat, base: nat, schedule: seq<bool>)
    requires target <= base
    ensures var r := Turns(Start(disk, target), schedule);
      && r.unlocked.target == 0 && r.locked.target == target
      && (r.shared.disk.count <= base || (r.unlocked.pc.Count? && r.locked.pc.Count? && r.shared.disk == disk))
  {
    if schedule != [] {
      LowCounts(disk, target, base, schedule[..|schedule| - 1]);
    }
  }

  /** One unlocked round of the loop: test, load, store, key, delete. */
  const ROUND: seq<bool> := [true, true, true, true, true]

  lemma RoundEffect(r: Race)
    requires r.unlocked == Thread(0, Test) && r.shared.stored > 0
    ensures var last := r.shared.stored - 1;
      Turns(r, ROUND) == r.(shared := Shared(Disk(r.shared.disk.count, r.shared.disk.heads - {last}), last))
  {
    var r1 := Turn(r, true);
    var r2 := Turn(r1, true);
    var r3 := Turn(r2, true);
    var r4 := Turn(r3, true);
    var r5 := Turn(r4, true);
    TurnsOne(r, true);
    TurnsNext(r, [true], true);
    TurnsNext(r, [true, true], true);
    TurnsNext(r, [true, true, true], true);
    TurnsNext(r, [true, true, true, true], true);
    assert [true] + [true] == [true, true];
    assert [true, true] + [true] == [true, true, true];
    assert [true, true, true] + [true] == [true, true, true, true];
    assert [true, true, true, true] + [true] == ROUND;
  }

  function Rounds(n: nat): seq<bool> {
    if n == 0 then [] else Rounds(n - 1) + ROUND
  }

  /** The unlocked thread removes one head a round, whatever the count on disk says. */
  lemma {:induction false} RoundsEffect(r: Race, n: nat)
    requires r.unlocked == Thread(0, Test) && n <= r.shared.stored
    ensures var left := r.shared.stored - n;
      var heads := Dropped(r.shared.disk.heads, left, r.shared.stored);
      Turns(r, Rounds(n)) == r.(shared := Shared(Disk(r.shared.disk.count, heads), left))
  {
    if n == 0 {
      assert Dropped(r.shared.disk.heads, r.shared.stored, r.shared.stored) == r.shared.disk.heads;
    } else {
      RoundsEffect(r, n - 1);
      var before := Turns(r, Rounds(n - 1));
      RoundEffect(before);
      TurnsConcat(r, Rounds(n - 1), ROUND);
      var left := r.shared.stored - n;
      assert before.shared.disk.heads - {left} == Dropped(r.shared.disk.heads, left, r.shared.stored);
    }
  }

  /** For a target above the base a schedule leaves a count without its head: both threads write their
      count, the locked one last, and the unlocked one goes on removing heads. */
  lemma BreakingSchedule(disk: Disk, target: nat, base: nat, size: nat) returns (schedule: seq<bool>)
    requires size > 0 && base < target < disk.count
    ensures !Linked(Turns(Start(disk, target), schedule).shared.disk, base, size)
  {
    var start := Start(disk, target);
    TurnsOne(start, true);
    TurnsNext(start, [true], false);
    var r := Turn(Turn(start, true), false);
    var n := disk.count - target + 1;
    RoundsEffect(r, n);
    schedule := [true] + [false] + Rounds(n);
    TurnsConcat(start, [true] + [false], Rounds(n));
    HeadMissing(Turns(start, schedule).shared.disk, target - 1, base, size);
  }

  /** Another one: the unlocked thread removes heads under its own count zero, and the locked count comes
      after them. */
  lemma LateCount(disk: Disk, target: nat, base: nat, size: nat) returns (schedule: seq<bool>)
    requires size > 0 && base < target < disk.count
    ensures !Linked(Turns(Start(disk, target), schedule).shared.disk, base, size)
    ensures schedule != [] && Turns(Start(disk, target), schedule[..|schedule| - 1]).shared.disk.count == 0
  {
    var start := Start(disk, target);
    TurnsOne(start, true);
    var n := disk.count - target + 1;
    RoundsEffect(Turn(start, true), n);
    TurnsConcat(start, [true], Rounds(n));
    schedule := [true] + Rounds(n) + [false];
    TurnsNext(start, [true] + Rounds(n), false);
    assert schedule[..|schedule| - 1] == [true] + Rounds(n);
    HeadMissing(Turns(start, schedule).shared.disk, target - 1, base, size);
  }

  /** Every schedule of an unlocked roll-back and a locked one beside it keeps all states of the database
      linked if and only if the locked one does not go to a count above the base. */
  lemma RaceExact(disk: Disk, target: nat, base: nat, size: nat)
    requires size > 0 && Linked(disk, base, size) && target < disk.count
    ensures target <= base <==>
            forall schedule :: Linked(Turns(Start(disk, target), schedule).shared.disk, base, size)
  {
    if target <= base {
      forall schedule ensures Linked(Turns(Start(disk, target), schedule).shared.disk, base, size) {
        LowCounts(disk, target, base, schedule);
      }
    } else {
      var schedule := BreakingSchedule(disk, target, base, size);
    }
  }

  /** Whatever the locked target is, some schedule makes the counter wrap: the locked thread, past its
      loop test long ago, lowers it to zero between the unlocked test and load. */
  lemma WrappingSchedule(disk: Disk, target: nat) returns (schedule: seq<bool>)
    requires target < disk.count
    ensures Turns(Start(disk, target), schedule).shared.stored == WORD - 1
  {
    var start := Start(disk, target);
    var n := disk.count - 1;
    var early := [false] + [false] + [true];
    TurnsOne(start, false);
    TurnsNext(start, [false], false);
    TurnsNext(start, [false] + [false], true);
    RoundsEffect(Turns(start, early), n);
    TurnsConcat(start, early, Rounds(n));
    var late := LateStore(Turns(start, early + Rounds(n)));
    schedule := early + Rounds(n) + late;
    TurnsConcat(start, early + Rounds(n), late);
  }

  /** The locked thread loads one, the unlocked one passes its test, and the locked one stores zero. */
  lemma LateStore(r: Race) returns (schedule: seq<bool>)
    requires r.unlocked == Thread(0, Test) && r.locked.pc.Load? && r.shared.stored == 1
    ensures Turns(r, schedule).shared.stored == WORD - 1
  {
    schedule := [false];
    TurnsOne(r, false);
    TurnsNext(r, schedule, true);
    schedule := schedule + [true];
    TurnsNext(r, schedule, false);
    schedule := schedule + [false];
    TurnsNext(r, schedule, true);
    schedule := schedule + [true];
    TurnsNext(r, schedule, true);
    schedule := schedule + [true];
  }

  /** The counter wraps exactly when zero was loaded, which takes a second thread between the test and
      the load. */
  lemma WrapsAtZero(s: Shared, th: Thread)
    ensures th.pc.Store? ==> (StepShared(s, th).stored > th.pc.loaded <==> th.pc.loaded == 0)
    ensures Alone(th, s) && th.pc.Store? ==> StepShared(s, th).stored < s.stored
  {
  }

  /** Three sections are stored and a reset fails. A locked roll-back to one section, or to two, beside the
      unlocked one can leave a count without its head. */
  lemma OvertakenReset() returns (early: seq<bool>, late: seq<bool>)
    ensures Linked(Disk(3, LineHeads(3)), 0, 1)
    ensures !Linked(Turns(Start(Disk(3, LineHeads(3)), 1), early).shared.disk, 0, 1)
    ensures !Linked(Turns(Start(Disk(3, LineHeads(3)), 2), late).shared.disk, 0, 1)
  {
    LineLinked(3, 3);
    early := BreakingSchedule(Disk(3, LineHeads(3)), 1, 0, 1);
    late := LateCount(Disk(3, LineHeads(3)), 2, 0, 1);
  }
}
