/** The background section indexer (core/chain_indexer.go). What the source does without the indexer's
    lock is split into single steps: the processing of a section into one per header, and the roll-back
    after a failed reset into its single reads and writes. While a section is in flight the roll-backs
    made under the lock are split in the same way, so that both may interleave. */
module ChainIndexers {
  import opened Chain
  import opened SectionIndexes
  import opened RollBacks

  /** The section in flight while the lock is released; `reset` is the roll-back after a failed reset. */
  datatype Job =
    Job(section: nat, oldHead: Option<Hash>, next: nat, lastHead: Option<Hash>, failed: bool, reset: Option<Thread>)

  /** Where the verification of the last head stands, between its single reads of the counter. */
  datatype VerifyPc = NotEmpty | AboveCheckpoint | LastHead | Compare(head: Option<Hash>) | Target

  /** What the holder of the lock is doing: deciding on a reorg, verifying the last head, or rolling back.
XX. */
  datatype Task =
    | Decide(target: nat, cascade: nat)
    | Verify(pc: VerifyPc)
    | Lower(thread: Thread, after: Option<nat>)

  datatype Op =
    | NewHead(head: nat, reorg: bool)
    | ChainChange(canon: map<nat, Hash>)
    | Begin
    | ProcessHeader(stored: bool, processed: bool)
    | GiveUp
    | Finish(committed: bool)
    | ResetFails
    | UnlockedStep
    | LockedStep
    | ResetEnds
    | AskSections

  /** The canonical index is a chain: every slot holds a block of its height, and the slots below hold
      its ancestors. */
  ghost predicate ChainLike(canon: map<nat, Hash>) {
    forall m: nat, n: nat :: m <= n && n in canon ==> Number(canon[n]) == n && m in canon && canon[m] == At(canon[n], m)
  }

  class ChainIndexer {
    const sectionSize: nat
    const confirmsReq: nat

    // chain database
    var canon: map<nat, Hash>
    // index database
    var disk: Disk
    // memory
    var storedSections: nat
    var knownSections: nat
    var cascadedHead: int
    var checkpointSections: nat
    var checkpointHead: Option<Hash>
    var job: Option<Job>
    var locked: Option<Task>

    // bookkeeping of the model
    /** Every state the index database went through, one per single write. */
    ghost var history: seq<Disk>
    /** The sections below were supplied by a checkpoint. */
    var base: nat
    /** The targets of the locked roll-backs that overlapped the one after a failed reset. */
    var overlaps: set<nat>

    ghost predicate Recorded()
      reads this`history, this`disk, this`base
    {
      && sectionSize > 0 && history != [] && history[|history| - 1] == disk
      && AllLinked(history, base, sectionSize)
    }

    /** A locked roll-back to a count above the base overlapped the one after a failed reset. */
    predicate Crossed()
      reads this`overlaps, this`base
    {
      exists t :: t in overlaps && t > base
    }

    function Here(): Shared
      reads this`disk, this`storedSections
    {
      Shared(disk, storedSections)
    }

    predicate Resetting()
      reads this`job
    {
      job.Some? && job.value.reset.Some?
    }

    predicate Lowering()
      reads this`locked
    {
      locked.Some? && locked.value.Lower?
    }

    /** Nobody holds the lock between steps, and no roll-back runs without it. */
    predicate Quiet()
      reads this`job, this`locked
    {
      locked.None? && !Resetting()
    }

    /** At most one roll-back is under way, and it is undisturbed. */
    ghost predicate Calm()
      reads this
      requires sectionSize > 0
    {
      && Backed(Here(), base, sectionSize)
      && (Resetting() ==> !Lowering() && job.value.reset.value.target == 0 && Alone(job.value.reset.value, Here()))
      && (!Resetting() ==> locked.Some? ==> TaskValid(locked.value))
      && (job.Some? && !Resetting() ==> JobValid(job.value))
    }

    ghost predicate TaskValid(t: Task)
      reads this`disk, this`storedSections
    {
      match t
      case Decide(_, _) => true
      case Verify(pc) => pc != NotEmpty ==> storedSections > 0
      case Lower(thread, _) => Alone(thread, Here()) && !thread.pc.Finished?
    }

    /** After a failed reset, locked roll-backs to counts not above the base have interfered. The counter
        may be anything until all are done, but no count above the base is written. */
    ghost predicate Stirred()
      reads this
    {
      && Resetting() && job.value.reset.value.target == 0 && overlaps != {}
      && (Lowering() ==> locked.value.thread.target <= base && !locked.value.thread.pc.Finished?)
      && (disk.count <= base || (job.value.reset.value.pc.Count? && Lowering() && locked.value.thread.pc.Count?))
      && (job.value.reset.value.pc.Finished? && !Lowering() ==> storedSections <= base)
    }

    ghost predicate Valid()
      reads this
    {
      && Recorded() && checkpointSections <= base
      && !Crossed()
      && (Calm() || Stirred())
    }

    /** The section just counted out of memory still waits for the removal of its head. */
    predicate Pending()
      reads this`locked
    {
      Lowering() && Removing(locked.value.thread)
    }

    /** The headers processed so far descend from the head the job started from, and unless sections
        were rolled back meanwhile, the job's section is the next one. */
    ghost predicate JobValid(j: Job)
      reads this
    {
      && JobHead(j.section, j.oldHead, Here(), Pending())
      && j.section * sectionSize <= j.next <= (j.section + 1) * sectionSize
      && (j.next > j.section * sectionSize ==>
           j.lastHead.Some? && Number(j.lastHead.value) + 1 == j.next
           && (j.section > 0 ==>
                j.oldHead.Some? && IsAncestor(j.oldHead.value, j.lastHead.value)
                && Number(j.oldHead.value) + 1 == j.section * sectionSize))
      && (j.next == j.section * sectionSize ==> j.lastHead == j.oldHead)
    }

    function SectionHead(section: int): Option<Hash>
      reads this`disk
    {
      if section >= 0 && section in disk.heads then Some(disk.heads[section]) else None
    }

    function ReadCanonicalHash(number: int): Option<Hash>
      reads this`canon
    {
      if number >= 0 && number in canon then Some(canon[number]) else None
    }

    /** Starts from whatever an earlier run, possibly cut short between two writes, left on disk. */
    constructor (disk: Disk, base: nat, sectionSize: nat, confirmsReq: nat, canon: map<nat, Hash>)
      requires sectionSize > 0 && Linked(disk, base, sectionSize)
      ensures Valid() && Quiet() && history == [disk] && overlaps == {}
      ensures this.disk == disk && storedSections == disk.count && this.base == base && this.canon == canon
      ensures this.sectionSize == sectionSize && this.confirmsReq == confirmsReq
      ensures knownSections == checkpointSections == 0 && job.None?
    {
      this.sectionSize, this.confirmsReq, this.canon, this.disk := sectionSize, confirmsReq, canon, disk;
      storedSections, knownSections, cascadedHead := disk.count, 0, 0;
      checkpointSections, checkpointHead, job, locked := 0, None, None, None;
      history, this.base, overlaps := [disk], base, {};
    }

    /** A single write to the index database. */
    method Write(next: Disk)
      requires Recorded() && Linked(next, base, sectionSize)
      modifies this`disk, this`history
      ensures Recorded() && disk == next && history == old(history) + [next]
    {
      disk, history := next, history + [next];
    }

    /** Lowers the section count: the count goes first, then the heads one by one, highest first. */
    method LowerValidSections(sections: nat)
      requires sections <= storedSections && Recorded()
      requires Linked(Disk(storedSections, disk.heads), base, sectionSize)
      modifies this`disk, this`history, this`storedSections
      ensures old(history) <= history && Recorded()
      ensures storedSections == sections
      ensures disk == Disk(sections, Dropped(old(disk).heads, sections, old(storedSections)))
      ensures Linked(disk, base, sectionSize)
    {
      assert sectionSize > 0;
      hide Recorded, Linked;
      ghost var before := Disk(storedSections, disk.heads);
      LinkedShrinks(before, disk.(count := sections), base, sectionSize);
      Write(disk.(count := sections));
      while storedSections > sections
        invariant sections <= storedSections <= old(storedSections) && old(history) <= history
        invariant disk == Disk(sections, Dropped(before.heads, storedSections, old(storedSections)))
        invariant Recorded()
      {
        storedSections := storedSections - 1;
        LinkedShrinks(before, disk.(heads := disk.heads - {storedSections}), base, sectionSize);
        Write(disk.(heads := disk.heads - {storedSections}));
      }
      LinkedShrinks(before, disk, base, sectionSize);
    }

    /** Rolls back to `sections` if that is fewer; the job in flight finds out by its section head. */
    method RollBack(sections: nat)
      requires Valid() && Quiet() && sections <= storedSections
      modifies this`disk, this`history, this`storedSections
      ensures old(history) <= history
      ensures Valid() && storedSections == sections
      ensures disk == Disk(sections, Dropped(old(disk).heads, sections, old(storedSections)))
    {
      hide Recorded, Linked, Crossed;
      LowerValidSections(sections);
    }

    /** The last stored section head is the canonical block of its height. */
    predicate LastHeadCanonical()
      reads this`disk, this`canon, this`storedSections
    {
      SectionHead(storedSections - 1) == ReadCanonicalHash(storedSections * sectionSize - 1)
    }

    /** Going from a database with `was` sections to one with `now`, exactly the sections in between were
        dropped, none of whose heads is the canonical block of its height. */
    ghost predicate OnlyStaleDropped(before: Disk, was: nat, after: Disk, now: nat)
      reads this`canon
    {
      && now <= was
      && (if now == was then after == before else after == Disk(now, Dropped(before.heads, now, was)))
      && forall s :: now <= s < was ==>
        (if s in before.heads then Some(before.heads[s]) else None) != ReadCanonicalHash((s + 1) * sectionSize - 1)
    }

    lemma OneMoreDropped(before: Disk, was: nat, mid: Disk, n: nat, after: Disk)
      requires n > 0 && OnlyStaleDropped(before, was, mid, n)
      requires after == Disk(n - 1, Dropped(mid.heads, n - 1, n))
      requires (if n - 1 in mid.heads then Some(mid.heads[n - 1]) else None) != ReadCanonicalHash(n * sectionSize - 1)
      ensures OnlyStaleDropped(before, was, after, n - 1)
    {
      assert Dropped(Dropped(before.heads, n, was), n - 1, n) == Dropped(before.heads, n - 1, was);
      assert n < was ==> (n - 1 in mid.heads <==> n - 1 in before.heads);
    }

    /** Drops section heads until the last one is the canonical block of its height, or the checkpoint
        is reached. */
    method VerifyLastHead()
      requires Valid() && Quiet()
      modifies this`disk, this`history, this`storedSections
      ensures old(history) <= history
      ensures Valid() && storedSections <= old(storedSections)
      ensures old(storedSections) >= checkpointSections ==> storedSections >= checkpointSections
      ensures OnlyStaleDropped(old(disk), old(storedSections), disk, storedSections)
      ensures storedSections == 0 || storedSections <= checkpointSections || LastHeadCanonical()
      ensures ChainLike(canon) ==> Canonical()
    {
      while storedSections > 0 && storedSections > checkpointSections
        invariant Valid() && storedSections <= old(storedSections) && old(history) <= history
        invariant old(storedSections) >= checkpointSections ==> storedSections >= checkpointSections
        invariant OnlyStaleDropped(old(disk), old(storedSections), disk, storedSections)
      {
        if LastHeadCanonical() {
          if ChainLike(canon) {
            LastHeadSuffices();
          }
          return;
        }
        ghost var mid, n := disk, storedSections;
        RollBack(storedSections - 1);
        OneMoreDropped(old(disk), old(storedSections), mid, n, disk);
      }
    }

    /** Every stored section head from the base on is the canonical block of its height. */
    ghost predicate Canonical()
      reads this`disk, this`canon, this`storedSections, this`base
    {
      sectionSize > 0 && forall s: nat :: base <= s < storedSections ==>
        SectionHead(s).Some? && SectionHead(s) == ReadCanonicalHash((s + 1) * sectionSize - 1)
    }

    /** On a canonical chain, one canonical section head makes all lower ones canonical. */
    lemma LastHeadSuffices()
      requires Valid() && Quiet() && ChainLike(canon) && storedSections > 0 && LastHeadCanonical()
      ensures Canonical()
    {
      if storedSections > base {
        forall s: nat | base <= s < storedSections
          ensures SectionHead(s).Some? && SectionHead(s) == ReadCanonicalHash((s + 1) * sectionSize - 1)
        {
          HeadsDescend(Disk(storedSections, disk.heads), base, sectionSize, s, storedSections - 1);
        }
      }
    }

    /** Adds a checkpoint while no section is in flight: the sections up to it count as stored, with the
        given head for the last of them. */
    method AddCheckpoint(section: nat, shead: Hash)
      requires Valid() && job.None? && locked.None?
      modifies this`disk, this`history, this`storedSections, this`checkpointSections, this`checkpointHead, this`base
      ensures old(history) <= history
      ensures Valid()
      ensures if old(checkpointSections) > section || section < old(storedSections)
              then checkpointSections == old(checkpointSections)
                   && storedSections == old(storedSections) && disk == old(disk)
              else storedSections == section + 1 == checkpointSections && SectionHead(section) == Some(shead)
    {
      if checkpointSections >= section + 1 || section < storedSections {
        return;
      }
      checkpointSections, checkpointHead := section + 1, Some(shead);
      Rebase(if base < section + 1 then section + 1 else base);
      Write(disk.(heads := disk.heads[section := shead]));
      Write(disk.(count := section + 1));
      storedSections := section + 1;
    }

    /** Trusting more sections asks less of the database. */
    method Rebase(next: nat)
      requires Recorded() && !Crossed() && base <= next
      requires disk.count <= storedSections || disk.count <= base
      modifies this`base
      ensures base == next && Recorded() && !Crossed()
      ensures disk.count <= storedSections || disk.count <= base
    {
      base := next;
    }

    /** The known count after a reorg down to a common ancestor at `head`, the stored sections to keep,
        and the height to cascade. */
    method ForgetKnown(head: nat) returns (stored: nat, cascade: nat)
      requires sectionSize > 0
      modifies this`knownSections
      ensures forall s: nat :: s < stored <==> Survives(s, head, checkpointSections, sectionSize)
      ensures knownSections <= old(knownSections) && knownSections * sectionSize <= head + 1
    {
      var known := (head + 1) / sectionSize;
      stored := known;
      Survivors(head, checkpointSections, sectionSize);
      DivBounds(head + 1, sectionSize);
      if known < checkpointSections {
        known := 0;
      }
      if stored < checkpointSections {
        stored := checkpointSections;
      }
      if known < knownSections {
        knownSections := known;
      }
      MulMonotone(knownSections, (head + 1) / sectionSize, sectionSize);
      cascade := known * sectionSize;
    }

    method Cascade(head: nat)
      modifies this`cascadedHead
      ensures cascadedHead == if head < old(cascadedHead) then head else old(cascadedHead)
    {
      if head < cascadedHead {
        cascadedHead := head;
      }
    }

    /** Reverts to a reorg point: exactly the sections that end at or below it, or lie under the
        checkpoint, stay. */
    method RevertTo(head: nat)
      requires Valid() && Quiet()
      modifies this`disk, this`history, this`storedSections, this`knownSections, this`cascadedHead
      ensures old(history) <= history
      ensures Valid()
      ensures KeepsSurvivors(storedSections, old(storedSections), head, checkpointSections, sectionSize)
      ensures knownSections <= old(knownSections) && knownSections * sectionSize <= head + 1
    {
      assert sectionSize > 0;
      hide Recorded, Linked, JobValid, Survives, Crossed;
      var stored, cascade := ForgetKnown(head);
      if stored < storedSections {
        RollBack(stored);
      }
      Cascade(cascade);
    }

    /** A new head only ever raises the known count, to the last section with enough confirmations,
        and past the checkpoint only if the chain agrees with it. */
    method Advance(head: nat)
      requires Valid()
      modifies this`knownSections
      ensures Valid() && knownSections >= old(knownSections)
      ensures knownSections != old(knownSections) ==>
        && knownSections * sectionSize + confirmsReq <= head + 1 < (knownSections + 1) * sectionSize + confirmsReq
        && checkpointSections <= knownSections
        && (old(knownSections) < checkpointSections ==>
          ReadCanonicalHash(checkpointSections * sectionSize - 1) == checkpointHead)
      ensures knownSections == old(knownSections) ==>
        || head + 1 < (knownSections + 1) * sectionSize + confirmsReq
        || head + 1 < checkpointSections * sectionSize + confirmsReq
        || (knownSections < checkpointSections
          && ReadCanonicalHash(checkpointSections * sectionSize - 1) != checkpointHead)
    {
      if head >= confirmsReq {
        var sections := (head + 1 - confirmsReq) / sectionSize;
        DivBounds(head + 1 - confirmsReq, sectionSize);
        var low := if sections < knownSections then sections + 1 else knownSections + 1;
        MulMonotone(low, knownSections + 1, sectionSize);
        if sections < checkpointSections {
          MulMonotone(sections + 1, checkpointSections, sectionSize);
          sections := 0;
        }
        if sections > knownSections {
          if knownSections < checkpointSections {
            var syncedHead := ReadCanonicalHash(checkpointSections * sectionSize - 1);
            if syncedHead != checkpointHead {
              return;
            }
          }
          knownSections := sections;
        }
      } else {
        MulMonotone(0, knownSections + 1, sectionSize);
      }
    }

    /** Notifies the indexer about a new chain head, or a reorg down to a common ancestor at `head`. */
    method NewHead(head: nat, reorg: bool)
      requires Valid() && Quiet()
      modifies this`disk, this`history, this`storedSections, this`knownSections, this`cascadedHead
      ensures old(history) <= history
      ensures Valid()
      ensures reorg ==> KeepsSurvivors(storedSections, old(storedSections), head, checkpointSections, sectionSize)
      ensures reorg ==> knownSections <= old(knownSections) && knownSections * sectionSize <= head + 1
      ensures !reorg ==> disk == old(disk) && knownSections >= old(knownSections)
      ensures !reorg && knownSections != old(knownSections) ==> knownSections * sectionSize + confirmsReq <= head + 1
    {
      hide KeepsSurvivors;
      if reorg {
        RevertTo(head);
      } else {
        Advance(head);
      }
    }

    /** Takes up the next section, if one is known to be complete, and releases the lock. */
    method Begin()
      requires Valid() && job.None? && locked.None?
      modifies this`disk, this`history, this`storedSections, this`job
      ensures old(history) <= history
      ensures Valid() && storedSections <= old(storedSections)
      ensures knownSections > old(storedSections) ==>
        job.Some? && Fresh(job.value) && job.value.section == storedSections && (ChainLike(canon) ==> Canonical())
      ensures knownSections <= old(storedSections) ==> job.None? && disk == old(disk)
      ensures OnlyStaleDropped(old(disk), old(storedSections), disk, storedSections)
    {
      hide Recorded, Crossed, Calm, Stirred, Canonical, ChainLike;
      if knownSections > storedSections {
        VerifyLastHead();
        TakeUp();
      }
    }

    method TakeUp()
      requires Valid() && job.None? && locked.None?
      modifies this`job
      ensures Valid() && job.Some? && Fresh(job.value) && job.value.section == storedSections
    {
      var section := storedSections;
      MulMonotone(section, section + 1, sectionSize);
      var oldHead := if section > 0 then SectionHead(section - 1) else None;
      job := Some(Job(section, oldHead, section * sectionSize, oldHead, false, None));
    }

    /** Nothing of the section is processed yet. */
    predicate Fresh(j: Job) {
      !j.failed && j.reset.None? && j.next == j.section * sectionSize
    }

    /** Gives up on the section in flight until further notice. */
    method Abandon()
      requires Valid() && Quiet()
      modifies this`disk, this`history, this`storedSections, this`knownSections, this`job
      ensures old(history) <= history
      ensures Valid() && job.None? && knownSections == storedSections <= old(storedSections)
      ensures OnlyStaleDropped(old(disk), old(storedSections), disk, storedSections)
    {
      job := None;
      VerifyLastHead();
      knownSections := storedSections;
    }

    /** Processes one header, without the lock: the next canonical block must be there, be stored, and
        continue the headers processed so far; otherwise the section has failed. */
    method ProcessHeader(stored: bool, processed: bool)
      requires Valid() && Processing() && job.value.next < (job.value.section + 1) * sectionSize
      modifies this`job
      ensures Valid() && job.Some?
      ensures var was, hash := old(job).value, ReadCanonicalHash(old(job).value.next);
        if hash.Some? && stored && Number(hash.value) == was.next && ParentHash(hash.value) == was.lastHead && processed
        then job == Some(was.(next := was.next + 1, lastHead := hash))
        else job == Some(was.(failed := true))
    {
      var j := job.value;
      var hash := ReadCanonicalHash(j.next);
      if hash.None? || !stored || Number(hash.value) != j.next || ParentHash(hash.value) != j.lastHead || !processed {
        job := Some(j.(failed := true));
        return;
      }
      if hash.value.Child? {
        ParentIsAncestor(hash.value);
        if j.section > 0 && j.next > j.section * sectionSize {
          AncestorTransitive(j.oldHead.value, j.lastHead.value, hash.value);
        }
      }
      job := Some(j.(next := j.next + 1, lastHead := hash));
    }

    /** Commits a fully processed section, unless the sections below it were rolled back meanwhile. */
    method Finish(committed: bool)
      requires Valid() && locked.None? && Processing() && job.value.next == (job.value.section + 1) * sectionSize
      modifies this`disk, this`history, this`storedSections, this`knownSections, this`cascadedHead, this`job
      ensures old(history) <= history
      ensures Valid() && job.None?
      ensures var was := old(job).value;
        if committed && old(storedSections) == was.section
        then storedSections == was.section + 1 && SectionHead(was.section) == was.lastHead
             && knownSections == old(knownSections) && cascadedHead == storedSections * sectionSize - 1
        else knownSections == storedSections
             && OnlyStaleDropped(old(disk), old(storedSections), disk, storedSections)
    {
      var j := job.value;
      assert j.next > j.section * sectionSize by {
        MulMonotone(j.section, j.section + 1, sectionSize);
      }
      if committed && (j.section == 0 || j.oldHead == SectionHead(j.section - 1)) {
        StoreSection(j.section, j.oldHead, j.lastHead.value);
        cascadedHead := storedSections * sectionSize - 1;
      } else {
        Abandon();
      }
    }

    /** Writes the head of the next section, then the count. */
    method StoreSection(section: nat, oldHead: Option<Hash>, head: Hash)
      requires Valid() && Quiet() && section == storedSections && Number(head) + 1 == (section + 1) * sectionSize
      requires section > 0 ==>
        oldHead.Some? && oldHead == SectionHead(section - 1) && IsAncestor(oldHead.value, head)
        && Number(oldHead.value) + 1 == section * sectionSize
      modifies this`disk, this`history, this`storedSections, this`job
      ensures old(history) <= history
      ensures Valid() && job.None?
      ensures storedSections == section + 1 && SectionHead(section) == Some(head)
    {
      hide JobValid, AllLinked;
      job := None;
      var written := disk.(heads := disk.heads[section := head]);
      LinkedShrinks(Disk(section, disk.heads), Disk(section, written.heads), base, sectionSize);
      if disk.count > base {
        LinkedShrinks(Disk(section, written.heads), written, base, sectionSize);
      }
      Write(written);
      LinkedGrows(Disk(section, written.heads), base, sectionSize);
      Write(written.(count := section + 1));
      storedSections := section + 1;
    }

    lemma SizePositive()
      requires Valid()
      ensures sectionSize > 0
    {
    }

    /** The number of processed sections, the last block they cover (wrapping around when there is
        none), and the head of the last one. */
    method Sections() returns (sections: nat, lastBlock: nat, head: Option<Hash>)
      requires Valid() && Quiet()
      modifies this`disk, this`history, this`storedSections
      ensures old(history) <= history
      ensures Valid() && storedSections <= old(storedSections)
      ensures sections == storedSections && head == SectionHead(sections - 1)
      ensures lastBlock == if sections == 0 then WORD - 1 else sections * sectionSize - 1
      // only stale sections are dropped
      ensures OnlyStaleDropped(old(disk), old(storedSections), disk, storedSections)
      // no stale section is ever reported
      ensures ChainLike(canon) ==> Canonical()
    {
      hide Valid, Quiet, Canonical, ChainLike, OnlyStaleDropped, LastHeadCanonical, SectionHead;
      SizePositive();
      VerifyLastHead();
      sections, head := storedSections, SectionHead(storedSections - 1);
      if sections == 0 {
        lastBlock := WORD - 1;
      } else {
        MulMonotone(1, sections, sectionSize);
        lastBlock := sections * sectionSize - 1;
      }
    }

    /** A crash may leave the database in any state it ever went through; the next start accepts it. */
    method Restart(crashed: Disk) returns (c: ChainIndexer)
      requires Valid() && crashed in history
      ensures fresh(c) && c.Valid() && c.Quiet() && c.disk == crashed
    {
      c := new ChainIndexer(crashed, base, sectionSize, confirmsReq, canon);
    }

    // ---- step by step ----

    predicate Processing()
      reads this`job
    {
      job.Some? && job.value.reset.None? && !job.value.failed
    }

    /** One step of a roll-back on the shared counter and database. */
    method StepOn(th: Thread)
      requires Recorded() && Linked(StepShared(Here(), th).disk, base, sectionSize)
      modifies this`disk, this`history, this`storedSections
      ensures Recorded() && old(history) <= history
      ensures Here() == StepShared(old(Here()), th)
    {
      var next := StepShared(Here(), th);
      storedSections := next.stored;
      if th.pc.Count? || th.pc.Delete? {
        Write(next.disk);
      }
    }

    /** The backend could not be reset: a roll-back of everything starts without the lock. A locked one
        may be under way. */
    method ResetFails()
      requires Valid() && job.Some? && Fresh(job.value)
      modifies this`job, this`overlaps
      ensures job == Some(old(job).value.(reset := Some(Thread(0, Count))))
      ensures overlaps == old(overlaps) + if Lowering() then {locked.value.thread.target} else {}
      ensures Valid() || Crossed()
    {
      job := Some(job.value.(reset := Some(Thread(0, Count))));
      if Lowering() {
        overlaps := overlaps + {locked.value.thread.target};
      }
    }

    /** The next step of the roll-back that runs without the lock. */
    method UnlockedStep()
      requires Valid() && Resetting()
      modifies this`disk, this`history, this`storedSections, this`job
      ensures Valid() && old(history) <= history
      ensures Here() == StepShared(old(Here()), old(job).value.reset.value)
      ensures job == Some(old(job).value.(reset := Some(StepThread(old(Here()), old(job).value.reset.value))))
      // without an overlap the counter only falls
      ensures overlaps == {} ==> storedSections <= old(storedSections)
    {
      var th := job.value.reset.value;
      UnlockedLinked();
      job := Some(job.value.(reset := Some(StepThread(Here(), th))));
      StepOn(th);
    }

    lemma UnlockedLinked()
      requires Valid() && Resetting()
      ensures Linked(StepShared(Here(), job.value.reset.value).disk, base, sectionSize)
      ensures Calm() ==>
        var th := job.value.reset.value;
        Backed(StepShared(Here(), th), base, sectionSize) && Alone(StepThread(Here(), th), StepShared(Here(), th))
        && StepShared(Here(), th).stored <= storedSections
    {
      var th := job.value.reset.value;
      if Calm() {
        AloneStep(th, Here(), base, sectionSize);
        BackedLinked(StepShared(Here(), th), base, sectionSize);
      }
    }

    /** The lock is taken again when the unlocked roll-back is done, and the section given up. */
    method ResetEnds()
      requires Valid() && Resetting() && job.value.reset.value.pc.Finished? && locked.None?
      modifies this`disk, this`history, this`storedSections, this`knownSections, this`job
      ensures old(history) <= history
      ensures Valid() && job.None? && knownSections == storedSections
      ensures OnlyStaleDropped(old(disk), old(storedSections), disk, storedSections)
    {
      job := None;
      Abandon();
    }

    /** Takes the lock for a reorg: the known count falls at once, the stored one step by step. */
    method StartRevert(head: nat)
      requires Valid() && locked.None?
      modifies this`knownSections, this`locked
      ensures Valid()
      ensures knownSections <= old(knownSections) && knownSections * sectionSize <= head + 1
      ensures locked.Some? && locked.value.Decide?
      ensures forall s: nat :: s < locked.value.target <==> Survives(s, head, checkpointSections, sectionSize)
    {
      var stored, cascade := ForgetKnown(head);
      locked := Some(Decide(stored, cascade));
    }

    /** Takes the lock to verify the last head, as `Sections` does. */
    method StartVerify()
      requires Valid() && locked.None?
      modifies this`locked
      ensures Valid() && locked == Some(Verify(NotEmpty))
    {
      locked := Some(Verify(NotEmpty));
    }

    /** A locked roll-back is decided. */
    method StartLower(target: nat, cascade: Option<nat>)
      requires Valid() && locked.Some? && !Lowering()
      requires Resetting() || target <= storedSections
      modifies this`locked, this`overlaps
      ensures locked == Some(Lower(Thread(target, Count), cascade))
      ensures overlaps == old(overlaps) + if Resetting() then {target} else {}
      ensures Valid() || Crossed()
    {
      locked := Some(Lower(Thread(target, Count), cascade));
      if Resetting() {
        overlaps := overlaps + {target};
      }
    }

    /** The next step of whoever holds the lock; every read of the counter is one. */
    method LockedStep()
      requires Valid() && locked.Some?
      modifies this`disk, this`history, this`storedSections, this`cascadedHead, this`locked, this`overlaps
      ensures Valid() || Crossed()
      ensures old(history) <= history && old(overlaps) <= overlaps
      ensures overlaps != old(overlaps) ==> Resetting()
      ensures !old(Lowering()) ==> Here() == old(Here())
      ensures old(locked).value.Decide? ==>
        var t := old(locked).value;
        if t.target < storedSections
        then locked == Some(Lower(Thread(t.target, Count), Some(t.cascade)))
             && overlaps == old(overlaps) + if Resetting() then {t.target} else {}
        else locked.None? && overlaps == old(overlaps)
      ensures old(Lowering()) ==> Valid() && Here() == StepShared(old(Here()), old(locked).value.thread)
    {
      match locked.value
      case Decide(target, cascade) =>
        if target < storedSections {
          StartLower(target, Some(cascade));
        } else {
          Cascade(cascade);
          locked := None;
        }
      case Verify(pc) =>
        VerifyStep(pc);
      case Lower(thread, cascade) =>
        LowerStep(thread, cascade);
    }

    /** Where the verification of the last head goes from `pc`: `None` when it is over. */
    function VerifyNext(pc: VerifyPc): Option<VerifyPc>
      reads this`storedSections, this`checkpointSections, this`disk, this`canon
    {
      match pc
      case NotEmpty => if storedSections > 0 then Some(AboveCheckpoint) else None
      case AboveCheckpoint => if storedSections > checkpointSections then Some(LastHead) else None
      case LastHead => Some(Compare(SectionHead(Below(storedSections))))
      case Compare(head) =>
        var lastBlock := Below(storedSections * sectionSize % WORD);
        if head == ReadCanonicalHash(lastBlock) then None else Some(Target)
      case Target => Some(NotEmpty)
    }

    /** The verification of the last head reads the counter five times. */
    method VerifyStep(pc: VerifyPc)
      requires Valid() && locked == Some(Verify(pc))
      modifies this`locked, this`overlaps
      ensures Valid() || Crossed()
      ensures old(overlaps) <= overlaps && (overlaps != old(overlaps) ==> Resetting())
      ensures locked == if pc.Target? then Some(Lower(Thread(Below(storedSections), Count), None))
                        else if VerifyNext(pc).Some? then Some(Verify(VerifyNext(pc).value)) else None
    {
      if pc.Target? {
        StartLower(Below(storedSections), None);
      } else {
        var next := VerifyNext(pc);
        locked := if next.Some? then Some(Verify(next.value)) else None;
      }
    }

    /** A counter that has wrapped around passes for verified: neither database knows its sections, so
        two missing hashes are compared, and `Sections` reports it. */
    lemma WrappedReport()
      requires storedSections == WORD - 1 && checkpointSections < WORD - 1
      requires SectionHead(WORD - 2).None? && ReadCanonicalHash(Below(storedSections * sectionSize % WORD)).None?
      ensures VerifyNext(NotEmpty) == Some(AboveCheckpoint) && VerifyNext(AboveCheckpoint) == Some(LastHead)
      ensures VerifyNext(LastHead) == Some(Compare(None)) && VerifyNext(Compare(None)) == None
    {
    }

    /** The 64-bit number before a section number. */
    function Below(section: nat): nat {
      if section == 0 then WORD - 1 else section - 1
    }

    /** One step of a locked roll-back; at its end a reorg cascades and a verification goes on. */
    method LowerStep(thread: Thread, cascade: Option<nat>)
      requires Valid() && locked == Some(Lower(thread, cascade))
      modifies this`disk, this`history, this`storedSections, this`cascadedHead, this`locked
      ensures Valid() && old(history) <= history
      ensures Here() == StepShared(old(Here()), thread)
      // without an overlap the counter only falls
      ensures overlaps == {} ==> storedSections <= old(storedSections)
    {
      hide Alone, Backed, JobHead, Crossed, AllLinked, Linked;
      LockedLinked(thread);
      var next := StepThread(Here(), thread);
      StepOn(thread);
      if next.pc.Finished? {
        if cascade.Some? {
          Cascade(cascade.value);
          locked := None;
        } else {
          locked := Some(Verify(NotEmpty));
        }
      } else {
        locked := Some(Lower(next, cascade));
      }
    }

    lemma LockedLinked(th: Thread)
      requires Valid() && Lowering() && locked.value.thread == th
      ensures Linked(StepShared(Here(), th).disk, base, sectionSize)
      ensures Calm() ==>
        && Backed(StepShared(Here(), th), base, sectionSize)
        && Alone(StepThread(Here(), th), StepShared(Here(), th))
        && StepShared(Here(), th).stored <= storedSections
      ensures Calm() && job.Some? ==>
        JobHead(job.value.section, job.value.oldHead, StepShared(Here(), th), Removing(StepThread(Here(), th)))
    {
      if Calm() {
        AloneStep(th, Here(), base, sectionSize);
        BackedLinked(StepShared(Here(), th), base, sectionSize);
        if job.Some? {
          JobHeadStep(job.value.section, job.value.oldHead, Here(), th);
        }
      }
    }

    /** Every interleaving of notifications, processing steps, single reads and writes of both kinds of
        roll-back, and changes of the canonical chain: as long as no locked roll-back to a count above the
        base overlaps the one after a failed reset, every state the index database ever went through is
        linked. Without a failed reset nothing overlaps. A run is followed up to such an overlap. */
    method Run(ops: seq<Op>)
      requires Valid()
      modifies this
      ensures base == old(base) && old(history) <= history && old(overlaps) <= overlaps
      ensures Valid() || Crossed()
      ensures (forall t :: t in overlaps ==> t <= base) ==> AllLinked(history, base, sectionSize)
      ensures Op.ResetFails !in ops && !old(Resetting()) ==> overlaps == old(overlaps)
    {
      for i := 0 to |ops|
        invariant Valid() || Crossed()
        invariant base == old(base) && old(history) <= history && old(overlaps) <= overlaps
        invariant Op.ResetFails !in ops && !old(Resetting()) ==> !Resetting() && overlaps == old(overlaps)
      {
        if Crossed() {
          return;
        }
        Apply(ops[i]);
      }
    }

    method Apply(op: Op)
      requires Valid()
      modifies this
      ensures Valid() || Crossed()
      ensures base == old(base) && old(history) <= history && old(overlaps) <= overlaps
      ensures Resetting() ==> old(Resetting()) || op.ResetFails?
      ensures overlaps != old(overlaps) ==> old(Resetting()) || op.ResetFails?
    {
      match op
      case NewHead(head, reorg) =>
        if locked.None? {
          ApplyHead(head, reorg);
        }
      case ChainChange(next) => canon := next;
      case Begin =>
        if job.None? && locked.None? {
          Begin();
        }
      case ProcessHeader(stored, processed) =>
        if Processing() && job.value.next < (job.value.section + 1) * sectionSize {
          ProcessHeader(stored, processed);
        }
      case GiveUp =>
        if job.Some? && job.value.failed && Quiet() {
          Abandon();
        }
      case Finish(committed) =>
        if locked.None? && Processing() && job.value.next == (job.value.section + 1) * sectionSize {
          Finish(committed);
        }
      case ResetFails =>
        if job.Some? && Fresh(job.value) {
          ResetFails();
        }
      case UnlockedStep =>
        if Resetting() {
          UnlockedStep();
        }
      case LockedStep =>
        if locked.Some? {
          LockedStep();
        }
      case ResetEnds =>
        if Resetting() && job.value.reset.value.pc.Finished? && locked.None? {
          ResetEnds();
        }
      case AskSections =>
        if locked.None? {
          if job.None? {
            var sections, lastBlock, head := Sections();
          } else {
            StartVerify();
          }
        }
    }

    /** With a section in flight the notification of a reorg proceeds step by step. */
    method ApplyHead(head: nat, reorg: bool)
      requires Valid() && locked.None?
      modifies this`disk, this`history, this`storedSections, this`knownSections, this`cascadedHead, this`locked
      ensures Valid() && old(history) <= history
    {
      if !reorg {
        Advance(head);
      } else if job.None? {
        RevertTo(head);
      } else {
        StartRevert(head);
      }
    }
  }

  predicate Removing(th: Thread) {
    th.pc.Key? || th.pc.Delete?
  }

  /** The section of a job is the next one, with the head it started from below it, unless sections were
      rolled back; then the head below it is gone, or about to be removed. */
  ghost predicate JobHead(section: nat, oldHead: Option<Hash>, s: Shared, removing: bool) {
    && s.stored <= section
    && (s.stored < section ==> section - 1 !in s.disk.heads || (removing && s.stored == section - 1))
    && (s.stored == section > 0 ==>
         oldHead == if section - 1 in s.disk.heads then Some(s.disk.heads[section - 1]) else None)
  }

  lemma JobHeadStep(section: nat, oldHead: Option<Hash>, s: Shared, th: Thread)
    requires Alone(th, s) && JobHead(section, oldHead, s, Removing(th))
    ensures JobHead(section, oldHead, StepShared(s, th), Removing(StepThread(s, th)))
  {
  }

  lemma DivBounds(a: nat, b: nat)
    requires b > 0
    ensures a / b * b <= a < (a / b + 1) * b
  {
  }

  lemma MulMonotone(a: nat, b: nat, c: nat)
    requires a <= b && c > 0
    ensures a * c <= b * c
    ensures a < b ==> a * c < b * c
  {
  }

  /** Section `s` survives a reorg down to a common ancestor at height `head`. */
  predicate Survives(s: nat, head: nat, checkpoint: nat, size: nat) {
    s < checkpoint || (s + 1) * size <= head + 1
  }

  /** Exactly the surviving ones of the sections below `before` are still below `count`. */
  ghost predicate KeepsSurvivors(count: nat, before: nat, head: nat, checkpoint: nat, size: nat) {
    forall s: nat :: s < count <==> s < before && Survives(s, head, checkpoint, size)
  }

  lemma Survivors(head: nat, checkpoint: nat, size: nat)
    requires size > 0
    ensures forall s: nat :: Survives(s, head, checkpoint, size) <==> s < (head + 1) / size || s < checkpoint
  {
    forall s: nat ensures Survives(s, head, checkpoint, size) <==> s < (head + 1) / size || s < checkpoint {
      SectionFits(s, head + 1, size);
    }
  }

  lemma SectionFits(s: nat, a: nat, size: nat)
    requires size > 0
    ensures s < a / size <==> (s + 1) * size <= a
  {
    DivBounds(a, size);
    if s < a / size {
      MulMonotone(s + 1, a / size, size);
    } else {
      MulMonotone(a / size + 1, s + 1, size);
    }
  }

  // ---- a locked roll-back beside the one after a failed reset ----

  /** Three stored sections of size one, and the fourth taken up. */
  method ThreeStored() returns (c: ChainIndexer)
    ensures fresh(c) && c.Valid() && c.base == 0 && c.sectionSize == 1 && c.checkpointSections == 0
    ensures c.Here() == Shared(Disk(3, LineHeads(3)), 3) && c.job.Some? && c.Fresh(c.job.value)
    ensures c.locked.None? && c.overlaps == {}
  {
    hide ChainIndexer.Recorded, Linked, ChainLike;
    LineLinked(3, 3);
    LineAt(3, 3);
    c := new ChainIndexer(Disk(3, LineHeads(3)), 0, 1, 0, LineHeads(4));
    c.Advance(3);
    assert c.knownSections == 4;
    assert c.LastHeadCanonical();
    c.Begin();
  }

  /** The reset of the fourth section fails, and a reorg to height zero decides to keep one section: both
      roll-backs are about to start, with every schedule open. */
  method Overlap() returns (c: ChainIndexer, r: Race)
    ensures fresh(c) && c.base == 0 && c.overlaps == {1} && c.Resetting() && c.Lowering()
    ensures r == Race(c.Here(), c.job.value.reset.value, c.locked.value.thread) == Start(Disk(3, LineHeads(3)), 1)
  {
    hide Linked;
    c := ThreeStored();
    c.ResetFails();
    c.StartRevert(0);
    assert Survives(0, 0, 0, 1) && !Survives(1, 0, 0, 1);
    assert c.locked.value.target == 1;
    c.LockedStep();
    r := Race(c.Here(), c.job.value.reset.value, c.locked.value.thread);
  }
}
