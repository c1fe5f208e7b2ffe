/**
 Hiding the index directory during version clean-up, and recovering it after a
 crash (src/store/lance/mod.rs, io_cleanup_aggressive and
 recover_stranded_index_backups).

 A dataset directory may hold `_indices` and `_indices_backup_fixb`. Every
 rename and directory removal is atomic; a process may die before any of them.
 `budget` is the number of file-system operations before it does.
 */
module IndexRecovery {
  import opened Outcomes

  type Name = string
  type Content = int
  type Dir = map<Name, Content>

  function Entries(d: Option<Dir>): Dir {
    if d.Some? then d.value else map[]
  }

  /** No entry name is in both directories. */
  predicate NamesApart(a: Option<Dir>, b: Option<Dir>) {
    Entries(a).Keys !! Entries(b).Keys
  }

  lemma MoveEntry(a: Dir, b: Dir, n: Name)
    requires n in a && n !in b
    ensures (a - {n}) + b[n := a[n]] == a + b
    ensures a.Keys !! b.Keys ==> (a - {n}).Keys !! b[n := a[n]].Keys
  {
  }

  /** How a clean-up ends: it may die, or fail to hide the index directory. */
  datatype CleanEnd = Died | HideFailed | Finished

  lemma NothingAdded(a: Dir)
    ensures a + map[] == a && map[] + a == a
  {
  }

  lemma SumSwaps(a: Dir, b: Dir)
    requires a.Keys !! b.Keys
    ensures a + b == b + a
  {
  }

  class DatasetDir {
    var indices: Option<Dir>
    var backup: Option<Dir>

    constructor (entries: Dir)
      ensures indices == Some(entries) && backup == None
    {
      indices, backup := Some(entries), None;
    }

    /** All index entries of the dataset, wherever they are. */
    function All(): Dir
      reads this
    {
      Entries(indices) + Entries(backup)
    }

    predicate Apart()
      reads this
    {
      NamesApart(indices, backup)
    }

    /**
     Startup recovery. It moves stranded entries back unless the name is taken;
     once complete, the backup is gone iff no name was in both directories.
     */
    method Recover(budget: nat) returns (completed: bool, left: nat)
      modifies this
      ensures old(backup) == None ==> completed && indices == old(indices) && backup == None
      ensures old(backup).Some? ==> completed ==>
                && indices == Some(Entries(old(backup)) + Entries(old(indices)))
                && (backup == None <==> NamesApart(old(indices), old(backup)))
                && (backup.Some? ==> backup.value.Keys == Entries(old(backup)).Keys * Entries(old(indices)).Keys)
      ensures old(Apart()) ==> Apart() && All() == old(All())
      ensures old(backup).Some? && budget >= |old(backup).value| + 1 ==> completed
    {
      left := budget;
      if backup == None {
        return true, left;
      }
      if indices == None {
        if left == 0 {
          return false, left;
        }
        indices, backup := backup, None;
        assert Entries(old(backup)) + map[] == old(backup).value;
        return true, left - 1;
      }
      ghost var stranded, there := backup.value, indices.value;
      completed, left := MergeBack(left);
      MergedDone(stranded, there);
      if !completed {
        return false, left;
      }
      if left == 0 {
        return false, left;
      }
      left := left - 1;
      if backup.value == map[] {
        backup := None;
      }
    }

    /** Move every backup entry whose name is free into `_indices`. */
    method MergeBack(budget: nat) returns (completed: bool, left: nat)
      requires backup.Some? && indices.Some?
      modifies this
      ensures backup.Some? && indices.Some?
      ensures completed ==> backup.value == Left(old(backup).value, old(indices).value, {})
      ensures completed ==> indices.value == Merged(old(backup).value, old(indices).value, {})
      ensures NamesApart(old(indices), old(backup)) ==> Apart() && All() == old(All())
      ensures left <= budget
      ensures budget >= |old(backup).value| ==> completed && left == budget - |old(backup).value|
    {
      ghost var stranded, there := backup.value, indices.value;
      left := budget;
      var rest := backup.value.Keys;
      assert |rest| == |backup.value|;
      MergedStart(stranded, there);
      while rest != {}
        invariant rest <= stranded.Keys
        invariant backup == Some(Left(stranded, there, rest)) && indices == Some(Merged(stranded, there, rest))
        invariant left <= budget && left + |stranded| == budget + |rest|
        decreases |rest|
      {
        if left == 0 {
          MergedTotal(stranded, there, rest);
          return false, left;
        }
        left := left - 1;
        var n :| n in rest;
        MergedStep(stranded, there, rest, n);
        rest := rest - {n};
        if n !in indices.value {
          indices, backup := Some(indices.value[n := backup.value[n]]), Some(backup.value - {n});
        }
      }
      MergedTotal(stranded, there, {});
      completed := true;
    }

    /** Hiding would rename `_indices` onto a backup directory with entries, which fails. */
    predicate Blocked()
      reads this
    {
      indices.Some? && backup.Some? && backup.value != map[]
    }

    /**
     The clean-up hides `_indices` if there is one, lets Lance clean (which may
     write entries anew), and puts it back. If it cannot hide it, it stops.
     */
    method HideCleanRestore(recreated: Option<Dir>, budget: nat) returns (end: CleanEnd, cleaned: bool)
      requires NamesApart(indices, recreated) && NamesApart(backup, recreated)
      modifies this
      ensures old(Apart()) ==> Apart()
      ensures All() == if cleaned then old(All()) + Entries(recreated) else old(All())
      ensures cleaned <==> !old(Blocked()) && budget >= HideCost(old(indices)) + 1
      ensures end == HideFailed <==> old(Blocked()) && budget >= 1
      ensures end == HideFailed ==> indices == old(indices) && backup == old(backup)
      ensures end == Finished <==>
                !old(Blocked()) && budget >= HideCost(old(indices)) + 1 + (if old(indices).Some? then RestoreCost(recreated) else 0)
      ensures end == Finished && old(indices).Some? ==> backup == None && indices == Some(All())
    {
      end, cleaned := Died, false;
      var left := budget;
      if left == 0 {
        return;
      }
      if indices == None {
        SumSwaps(Entries(backup), Entries(recreated));
        NothingAdded(Entries(backup));
        indices, cleaned, end := recreated, true, Finished;
        return;
      }
      if backup.Some? && backup.value != map[] {
        return HideFailed, false;
      }
      NothingAdded(indices.value);
      var completed;
      completed, cleaned := CleanHidden(recreated, left);
      end := if completed then Finished else Died;
    }

    /** The same when `_indices` can be hidden. */
    method CleanHidden(recreated: Option<Dir>, budget: nat) returns (completed: bool, cleaned: bool)
      requires indices.Some? && !Blocked() && NamesApart(indices, recreated)
      modifies this
      ensures Apart()
      ensures All() == if cleaned then old(indices).value + Entries(recreated) else old(indices).value
      ensures completed ==> backup == None && indices == Some(All())
      ensures cleaned <==> budget >= 2
      ensures completed <==> budget >= 2 + RestoreCost(recreated)
    {
      completed, cleaned := false, false;
      var left := budget;
      if left == 0 {
        return;
      }
      backup, indices, left := indices, None, left - 1;
      if left == 0 {
        return;
      }
      indices, cleaned, left := recreated, true, left - 1;
      assert All() == old(indices).value + Entries(recreated) by {
        SumSwaps(old(indices).value, Entries(recreated));
      }
      completed := Restore(left);
    }

    static function HideCost(there: Option<Dir>): nat {
      if there.Some? then 1 else 0
    }

    /** File-system operations a restore takes: a move for each entry and a removal if there is a directory, and the rename. */
    static function RestoreCost(there: Option<Dir>): nat {
      1 + (if there.Some? then |there.value| + 1 else 0)
    }

    method MoveOut(n: Name)
      requires indices.Some? && backup.Some? && Apart() && n in indices.value
      modifies this
      ensures indices.Some? && backup.Some? && Apart() && All() == old(All())
      ensures |indices.value| == |old(indices).value| - 1
    {
      MoveEntry(indices.value, backup.value, n);
      assert (indices.value - {n}).Keys == indices.value.Keys - {n};
      assert |indices.value - {n}| == |(indices.value - {n}).Keys| && |indices.value| == |indices.value.Keys|;
      indices, backup := Some(indices.value - {n}), Some(backup.value[n := indices.value[n]]);
    }

    /** Move what was written meanwhile into the backup, then rename the backup back. */
    method Restore(budget: nat) returns (completed: bool)
      requires backup.Some? && Apart()
      modifies this
      ensures Apart() && All() == old(All())
      ensures completed ==> backup == None && indices == Some(All())
      ensures completed <==> budget >= RestoreCost(old(indices))
    {
      var left := budget;
      if indices.Some? {
        var emptied;
        emptied, left := EmptyIndices(left);
        if !emptied || left == 0 {
          return false;
        }
        left := left - 1;
        indices := None;
      }
      assert All() == backup.value;
      if left == 0 {
        return false;
      }
      indices, backup := backup, None;
      assert All() == indices.value;
      completed := true;
    }

    method EmptyIndices(budget: nat) returns (completed: bool, left: nat)
      requires indices.Some? && backup.Some? && Apart()
      modifies this
      ensures indices.Some? && backup.Some? && Apart() && All() == old(All())
      ensures completed ==> indices.value == map[] && backup.value == old(All())
      ensures completed <==> budget >= |old(indices).value|
      ensures completed ==> left == budget - |old(indices).value|
    {
      left := budget;
      while indices.value != map[]
        invariant indices.Some? && backup.Some? && Apart() && All() == old(All())
        invariant left <= budget && left + |old(indices).value| == budget + |indices.value|
        decreases |indices.value|
      {
        if left == 0 {
          return false, left;
        }
        left := left - 1;
        var n :| n in indices.value;
        MoveOut(n);
      }
      assert All() == backup.value;
      completed := true;
    }

    /**
     A clean-up that may die anywhere, any number of recoveries that may die
     anywhere, and one that completes: every hidden and every recreated entry
     is in `_indices`, and no backup is left.
     */
    method CrashAndRecover(recreated: Option<Dir>, cleanBudget: nat, recoveryBudgets: seq<nat>) returns (cleaned: bool)
      requires Apart() && NamesApart(indices, recreated) && NamesApart(backup, recreated)
      modifies this
      ensures backup == None
      ensures Entries(indices) == if cleaned then old(All()) + Entries(recreated) else old(All())
      ensures cleaned <==> !old(Blocked()) && cleanBudget >= HideCost(old(indices)) + 1
    {
      var end;
      end, cleaned := HideCleanRestore(recreated, cleanBudget);
      RecoverRepeatedly(recoveryBudgets);
      RecoverFully();
    }

    /** A recovery that lives: enough budget for every stranded entry and the last removal. */
    method RecoverFully()
      requires Apart()
      modifies this
      ensures backup == None && Entries(indices) == old(All())
    {
      var done, _ := Recover(|Entries(backup)| + 1);
    }

    /** Recoveries that may each die anywhere lose and mix up nothing. */
    method RecoverRepeatedly(budgets: seq<nat>)
      requires Apart()
      modifies this
      ensures Apart() && All() == old(All())
    {
      for i := 0 to |budgets|
        invariant Apart() && All() == old(All())
      {
        var _, _ := Recover(budgets[i]);
      }
    }
  }

  /** The backup, and `_indices`, while the names in `rest` are still to be looked at. */
  function Left(stranded: Dir, there: Dir, rest: set<Name>): Dir {
    map n | n in stranded && (n in rest || n in there) :: stranded[n]
  }

  function Merged(stranded: Dir, there: Dir, rest: set<Name>): Dir {
    (map n | n in stranded && n !in rest && n !in there :: stranded[n]) + there
  }

  lemma MergedStart(stranded: Dir, there: Dir)
    ensures Left(stranded, there, stranded.Keys) == stranded && Merged(stranded, there, stranded.Keys) == there
  {
  }

  lemma MergedStep(stranded: Dir, there: Dir, rest: set<Name>, n: Name)
    requires rest <= stranded.Keys && n in rest
    ensures var b, i := Left(stranded, there, rest), Merged(stranded, there, rest);
            && n in b && (n in i <==> n in there)
            && Left(stranded, there, rest - {n}) == (if n in i then b else b - {n})
            && Merged(stranded, there, rest - {n}) == (if n in i then i else i[n := b[n]])
  {
    var b, i := Left(stranded, there, rest), Merged(stranded, there, rest);
    assert Left(stranded, there, rest - {n}) == (if n in i then b else b - {n});
  }

  lemma MergedTotal(stranded: Dir, there: Dir, rest: set<Name>)
    requires rest <= stranded.Keys
    ensures var b, i := Left(stranded, there, rest), Merged(stranded, there, rest);
            stranded.Keys !! there.Keys ==> i.Keys !! b.Keys && i + b == there + stranded
  {
  }

  lemma MergedDone(stranded: Dir, there: Dir)
    ensures Merged(stranded, there, {}) == stranded + there
    ensures Left(stranded, there, {}).Keys == stranded.Keys * there.Keys
    ensures Left(stranded, there, {}) == map[] <==> stranded.Keys !! there.Keys
  {
    var b := Left(stranded, there, {});
    if b == map[] {
      forall n ensures !(n in stranded && n in there) { assert n !in b; }
    }
  }
}
