/** The journal file and the sessions that replace it. A replacement is a compare-and-swap:
    the file holds the old journal or the new one at every step, and a session whose journal
    is no longer the one in the file cannot change it. */
module JournalSession {
  import opened Wrappers

  datatype Name = Target | Pending(id: nat)

  /** A file with its inode; a truncated pending file holds no journal yet. */
  datatype File<J> = File(inode: nat, content: Option<J>)

  /** The journal parser; whether the printed journal stays within the size that a reader admits, which
      is no part of parsing it; and whether a replacement keeps the request and run of what it replaces. */
  datatype Rules<!J> = Rules(parses: J -> bool, fits: J -> bool, correlated: (J, J) -> bool)

  datatype Snapshot<J> = Snapshot(inode: nat, journal: J)

  /** The directory of one journal. Inode numbers come from the system, which may hand out one
      again that it handed out before. */
  class Directory<J(==)> {
    const inodes: nat -> nat
    const faults: nat -> bool
    var files: map<Name, File<J>>
    var step: nat
    /** What the journal path held after each operation. */
    ghost var seen: seq<Option<File<J>>>

    constructor (inodes: nat -> nat, faults: nat -> bool)
      ensures Fresh() && files == map[] && step == 0 && seen == [] && this.faults == faults && this.inodes == inodes
    {
      this.inodes, this.faults, files, step, seen := inodes, faults, map[], 0, [];
    }

    function Held(): Option<File<J>>
      reads this`files
    {
      if Target in files then Some(files[Target]) else None
    }

    ghost predicate Faulty(from: nat, to: nat) { exists n :: from <= n < to && faults(n) }

    /** Every pending name so far was drawn before this step, so the next one is unused. */
    ghost predicate Fresh()
      reads this
    {
      forall id: nat :: Pending(id) in files ==> id < step
    }

    /** An operation that does not touch the directory. */
    method Attempt() returns (ok: bool)
      modifies this`step
      ensures step == old(step) + 1 && (ok <==> !faults(old(step)))
    {
      ok := !faults(step);
      step := step + 1;
    }

    /** An exclusive open. */
    method OpenNew(name: Name) returns (ok: bool)
      modifies this
      ensures step == old(step) + 1 && (ok <==> !faults(old(step)) && name !in old(files))
      ensures files == if ok then old(files)[name := File(inodes(old(step)), None)] else old(files)
      ensures seen == old(seen) + [Held()]
    {
      ok := !faults(step) && name !in files;
      if ok { files := files[name := File(inodes(step), None)]; }
      step := step + 1;
      seen := seen + [Held()];
    }

    method WriteAndSync(name: Name, journal: J) returns (ok: bool)
      requires name in files
      modifies this
      ensures step == old(step) + 1 && (ok <==> !faults(old(step)))
      ensures files == if ok then old(files)[name := File(old(files)[name].inode, Some(journal))] else old(files)
      ensures seen == old(seen) + [Held()]
    {
      ok := !faults(step);
      if ok { files := files[name := File(files[name].inode, Some(journal))]; }
      step := step + 1;
      seen := seen + [Held()];
    }

    /** A new journal written under a pending name; a write that fails leaves the name behind. */
    method WritePending(journal: J) returns (ok: bool, temporary: Name)
      modifies this
      ensures temporary == Pending(old(step)) && step > old(step) && (old(Fresh()) ==> Fresh())
      ensures Held() == old(Held()) && old(seen) <= seen
      ensures forall i :: |old(seen)| <= i < |seen| ==> seen[i] == old(Held())
      ensures ok ==> temporary in files && files[temporary].content == Some(journal)
      ensures !ok ==> !old(Fresh()) || Faulty(old(step), step)
    {
      temporary := Pending(step);
      ok := OpenNew(temporary);
      if ok { ok := WriteAndSync(temporary, journal); }
      assert !ok ==> temporary in old(files) || faults(step - 1);
    }

    method Rename(from: Name, to: Name) returns (ok: bool)
      requires from in files && from != to
      modifies this
      ensures step == old(step) + 1 && (ok <==> !faults(old(step)))
      ensures files == if ok then (old(files) - {from})[to := old(files)[from]] else old(files)
      ensures seen == old(seen) + [Held()]
    {
      ok := !faults(step);
      if ok { files := (files - {from})[to := files[from]]; }
      step := step + 1;
      seen := seen + [Held()];
    }

    /** link: fails if the new name exists. */
    method Link(from: Name, to: Name) returns (ok: bool)
      requires from in files
      modifies this
      ensures step == old(step) + 1 && (ok <==> !faults(old(step)) && to !in old(files))
      ensures files == if ok then old(files)[to := old(files)[from]] else old(files)
      ensures seen == old(seen) + [Held()]
    {
      ok := !faults(step) && to !in files;
      if ok { files := files[to := files[from]]; }
      step := step + 1;
      seen := seen + [Held()];
    }

    method Unlink(name: Name)
      modifies this
      ensures step == old(step) + 1 && (files == old(files) || files == old(files) - {name})
      ensures seen == old(seen) + [Held()]
    {
      if !faults(step) { files := files - {name}; }
      step := step + 1;
      seen := seen + [Held()];
    }

    /** The path holds a journal that a session can be opened on. */
    predicate Openable(rules: Rules<J>)
      reads this`files
    {
      && Held().Some? && Held().value.content.Some?
      && rules.parses(Held().value.content.value) && rules.fits(Held().value.content.value)
    }

    /** Reads and parses the journal, if the file is not too large, and optionally only under an
        expected inode. */
    method Read(expected: Option<nat>, rules: Rules<J>) returns (r: Option<Snapshot<J>>)
      modifies this`step
      ensures step == old(step) + 1
      ensures r.Some? <==>
        !faults(old(step)) && Openable(rules) && (expected.Some? ==> Held().value.inode == expected.value)
      ensures r.Some? ==> r.value == Snapshot(Held().value.inode, Held().value.content.value)
    {
      var fault := faults(step);
      step := step + 1;
      if fault || Target !in files { return None; }
      var f := files[Target];
      if (expected.Some? && f.inode != expected.value) || f.content.None? || !rules.fits(f.content.value)
         || !rules.parses(f.content.value) {
        return None;
      }
      return Some(Snapshot(f.inode, f.content.value));
    }
  }

  class Session<J(==)> {
    const directory: Directory<J>
    const rules: Rules<J>
    var snapshot: Snapshot<J>

    constructor (directory: Directory<J>, rules: Rules<J>, initial: Snapshot<J>)
      ensures this.directory == directory && this.rules == rules && snapshot == initial
    {
      this.directory, this.rules, snapshot := directory, rules, initial;
    }

    /** What the session believes is what the file holds. */
    ghost predicate Current()
      reads this, directory
    {
      directory.Held() == Some(File(snapshot.inode, Some(snapshot.journal)))
    }

    method AssertCurrent(expected: J) returns (ok: bool)
      modifies directory`step
      ensures directory.step >= old(directory.step)
      ensures ok ==> Current() && expected == snapshot.journal && directory.Openable(rules)
      ensures !ok ==> !Current() || expected != snapshot.journal || !directory.Openable(rules)
                      || directory.Faulty(old(directory.step), directory.step)
    {
      if expected != snapshot.journal { return false; }
      var current := directory.Read(Some(snapshot.inode), rules);
      if current.None? {
        if directory.Held().Some? {
          assert Current() && directory.Openable(rules) ==> directory.faults(directory.step - 1);
        }
        return false;
      }
      ok := current.value.journal == expected;
    }

    /** What the replacement demands before it renames. */
    ghost predicate MayReplace(expected: J, next: J)
      reads this, directory
    {
      && Current() && directory.Openable(rules) && expected == snapshot.journal
      && rules.parses(next) && rules.correlated(expected, next)
    }

    /** Compare and swap: whatever fails, the path holds the old file or the new one at every
        step, and it changes only if it held exactly what this session last saw. The size of the new
        one is not among the demands: a journal that is too large is swapped in and then refused. */
    method Replace(expected: J, next: J) returns (ok: bool)
      modifies this`snapshot, directory
      ensures old(directory.seen) <= directory.seen
      ensures forall i :: |old(directory.seen)| <= i < |directory.seen| ==>
        || directory.seen[i] == old(directory.Held())
        || (directory.seen[i].Some? && directory.seen[i].value.content == Some(next))
      ensures directory.Held() != old(directory.Held()) ==>
        && old(Current()) && expected == old(snapshot.journal) && rules.parses(next) && rules.correlated(expected, next)
        && directory.Held().Some? && directory.Held().value.content == Some(next)
      ensures ok ==> old(Current()) && Current() && snapshot.journal == next && directory.Openable(rules)
      ensures !ok ==> snapshot == old(snapshot)
      ensures old(directory.Fresh()) ==> directory.Fresh()
      ensures directory.step >= old(directory.step)
      ensures !directory.Faulty(old(directory.step), directory.step) && old(directory.Fresh()) ==>
        && (ok <==> old(MayReplace(expected, next)) && rules.fits(next))
        && (old(MayReplace(expected, next)) ==> directory.Held().Some? && directory.Held().value.content == Some(next))
    {
      if !rules.parses(next) || !rules.correlated(expected, next) { return false; }
      ok := AssertCurrent(expected);
      if !ok { return; }
      var temporary;
      ok, temporary := directory.WritePending(next);
      if !ok { return; }
      ok := Swap(expected, next, temporary);
    }

    /** The second check, the rename, and the confirmation; then the temporary name is dropped. */
    method Swap(expected: J, next: J, temporary: Name) returns (ok: bool)
      requires temporary != Target && temporary in directory.files && directory.files[temporary].content == Some(next)
      modifies this`snapshot, directory
      ensures old(directory.seen) <= directory.seen
      ensures forall i :: |old(directory.seen)| <= i < |directory.seen| ==>
        || directory.seen[i] == old(directory.Held())
        || (directory.seen[i].Some? && directory.seen[i].value.content == Some(next))
      ensures directory.Held() != old(directory.Held()) ==>
        old(Current()) && directory.Held().Some? && directory.Held().value.content == Some(next)
      ensures ok ==> old(Current()) && Current() && snapshot.journal == next && directory.Openable(rules)
      ensures ok ==> old(directory.Openable(rules)) && expected == old(snapshot.journal)
      ensures !ok ==> snapshot == old(snapshot)
      ensures directory.step > old(directory.step)
      ensures old(directory.Fresh()) ==> directory.Fresh()
      ensures !directory.Faulty(old(directory.step), directory.step) && old(MayReplace(expected, next)) ==>
        && (ok <==> rules.fits(next))
        && directory.Held().Some? && directory.Held().value.content == Some(next)
    {
      ok := directory.Attempt();
      if ok { ok := AssertCurrent(expected); }
      if ok { ok := directory.Rename(temporary, Target); }
      assert !ok ==> directory.faults(directory.step - 1) || !old(MayReplace(expected, next))
                     || directory.Faulty(old(directory.step), directory.step);
      if ok { ok := Confirm(next); }
      var held := directory.Held();
      directory.Unlink(temporary);
      assert directory.Held() == held;
    }

    /** The sync of the directory, and the read of what was swapped in. */
    method Confirm(next: J) returns (ok: bool)
      modifies this`snapshot, directory`step
      ensures directory.step > old(directory.step)
      ensures ok ==> Current() && snapshot.journal == next && directory.Openable(rules)
      ensures !ok ==> snapshot == old(snapshot)
      ensures !ok ==> directory.Faulty(old(directory.step), directory.step) || !directory.Openable(rules)
                      || directory.Held().value.content != Some(next)
    {
      ok := directory.Attempt();
      assert !ok ==> directory.faults(directory.step - 1);
      if ok {
        var current := directory.Read(None, rules);
        assert current.None? ==> directory.faults(directory.step - 1) || !directory.Openable(rules);
        ok := current.Some? && current.value.journal == next;
        if ok { snapshot := current.value; }
      }
    }
  }

  /** The first journal is linked into place, so one that is there is never replaced; one that is too
      large is linked all the same. */
  method LinkFirst<J(==)>(directory: Directory<J>, rules: Rules<J>, journal: J)
    returns (current: Option<Snapshot<J>>)
    modifies directory
    ensures old(directory.Held()).Some? ==> current.None? && directory.Held() == old(directory.Held())
    ensures current.Some? ==>
      && directory.Held() == Some(File(current.value.inode, Some(journal))) && current.value.journal == journal
      && directory.Openable(rules)
    ensures old(directory.seen) <= directory.seen
    ensures forall i :: |old(directory.seen)| <= i < |directory.seen| ==>
      || directory.seen[i] == old(directory.Held())
      || (old(directory.Held()).None? && directory.seen[i].Some? && directory.seen[i].value.content == Some(journal))
    ensures old(directory.Fresh()) ==> directory.Fresh()
    ensures directory.step >= old(directory.step)
    ensures !directory.Faulty(old(directory.step), directory.step) && old(directory.Fresh())
            && old(directory.Held()).None? && rules.parses(journal) ==>
      && (current.Some? <==> rules.fits(journal))
      && directory.Held().Some? && directory.Held().value.content == Some(journal)
  {
    current := None;
    if !rules.parses(journal) { return; }
    var ok, temporary := directory.WritePending(journal);
    if !ok { return; }
    ok := directory.Link(temporary, Target);
    if ok {
      directory.Unlink(temporary);
      ok := directory.Attempt();
    }
    if ok { current := directory.Read(None, rules); }
    directory.Unlink(temporary);
  }

  /** createComposedJournalSession. */
  method CreateSession<J(==)>(directory: Directory<J>, rules: Rules<J>, journal: J)
    returns (s: Option<Session<J>>)
    modifies directory
    ensures old(directory.Held()).Some? ==> s.None? && directory.Held() == old(directory.Held())
    ensures s.Some? ==> s.value.directory == directory && s.value.Current() && s.value.snapshot.journal == journal
    ensures !directory.Faulty(old(directory.step), directory.step) && old(directory.Fresh()) ==>
      (s.Some? <==> old(directory.Held()).None? && rules.parses(journal) && rules.fits(journal))
  {
    var current := LinkFirst(directory, rules, journal);
    if current.None? { return None; }
    var session := new Session(directory, rules, current.value);
    return Some(session);
  }

  /** openComposedJournalSession, without the comparison of authority and run. */
  method OpenSession<J(==)>(directory: Directory<J>, rules: Rules<J>) returns (s: Option<Session<J>>)
    modifies directory`step
    ensures s.Some? ==> directory.Openable(rules) && s.value.directory == directory && s.value.Current()
    ensures s.None? ==> !directory.Openable(rules) || directory.Faulty(old(directory.step), directory.step)
  {
    var current := directory.Read(None, rules);
    if current.None? {
      assert directory.Openable(rules) ==> directory.faults(directory.step - 1);
      return None;
    }
    var session := new Session(directory, rules, current.value);
    return Some(session);
  }

  /** A session whose journal is no longer in the file, because another session replaced it,
      cannot overwrite what is there. */
  method StaleReplaceChangesNothing<J(==)>(stale: Session<J>, expected: J, next: J) returns (ok: bool)
    requires stale.directory.Held().Some? && stale.directory.Held().value.content != Some(stale.snapshot.journal)
    modifies stale`snapshot, stale.directory
    ensures !ok && stale.directory.Held() == old(stale.directory.Held()) && stale.snapshot == old(stale.snapshot)
  {
    ok := stale.Replace(expected, next);
  }

  /** A journal that parses but is too large takes the place of the old one with no fault at all, the
      replacement throws, and no session can be opened on the path again. */
  method OversizedJournalLocksOut<J(==)>(session: Session<J>, expected: J, next: J)
    returns (ok: bool, reopened: Option<Session<J>>)
    requires session.directory.Fresh() && session.MayReplace(expected, next) && !session.rules.fits(next)
    requires forall n :: !session.directory.faults(n)
    modifies session`snapshot, session.directory
    ensures !ok && reopened.None?
    ensures session.directory.Held().Some? && session.directory.Held().value.content == Some(next)
    ensures !session.directory.Openable(session.rules)
  {
    ok := session.Replace(expected, next);
    reopened := OpenSession(session.directory, session.rules);
  }
}
