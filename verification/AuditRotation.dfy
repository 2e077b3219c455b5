/**
  Audit log rotation.  The files are a map from suffix to contents: 0 is the current file,
  k > 0 is `<path>.k`.  Rotation renames downwards through the suffixes; the results say that
  the files read from the highest kept suffix down to the current one always continue the
  events written so far, whatever the disk held at the start and whichever calls fail.
 */
module AuditRotation {

  datatype AuditEvent = AuditEvent(json: string)

  type Files = map<nat, seq<AuditEvent>>

  function Contents(fs: Files, k: nat): seq<AuditEvent> { if k in fs then fs[k] else [] }

  /** The events in the files with suffixes below `m`, oldest first. */
  function Stream(fs: Files, m: nat): seq<AuditEvent> {
    if m == 0 then [] else Contents(fs, m - 1) + Stream(fs, m - 1)
  }

  /** How many files rotation cycles through: with MaxFiles 1 the current one and `.1`. */
  function Kept(maxFiles: nat): nat { if maxFiles < 2 then 2 else maxFiles }

  /** What rotation means: every kept file moves up one suffix, the highest is lost, files
      beyond the kept suffixes are untouched, and the current file is empty. */
  predicate Rotated(before: Files, after: Files, m: nat) {
    && 0 in after && after[0] == []
    && (forall k | 0 < k < m :: (k in after <==> k - 1 in before) && Contents(after, k) == Contents(before, k - 1))
    && Untouched(before, after, m)
  }

  predicate Untouched(before: Files, after: Files, m: nat) {
    && (forall k | k in before && k >= m :: k in after && after[k] == before[k])
    && (forall k | k in after && k >= m :: k in before)
  }

  lemma {:induction false} StreamMovesUp(before: Files, after: Files, m: nat, j: nat)
    requires Rotated(before, after, m) && j < m
    ensures Stream(after, j + 1) == Stream(before, j)
  {
    if j > 0 {
      StreamMovesUp(before, after, m, j - 1);
      assert Contents(after, j) == Contents(before, j - 1);
    }
  }

  /** Rotation loses exactly the highest kept file and keeps everything else in order. */
  lemma RotationKeepsOrder(before: Files, after: Files, m: nat)
    requires Rotated(before, after, m) && m > 0
    ensures Contents(before, m - 1) + Stream(after, m) == Stream(before, m)
  {
    StreamMovesUp(before, after, m, m - 1);
  }

  lemma {:induction false} StreamSame(fs: Files, gs: Files, m: nat)
    requires forall k | 0 <= k < m :: Contents(fs, k) == Contents(gs, k)
    ensures Stream(fs, m) == Stream(gs, m)
  {
    if m > 0 {
      StreamSame(fs, gs, m - 1);
    }
  }

  lemma {:induction false} StreamGrows(fs: Files, gs: Files, m: nat, e: AuditEvent)
    requires m > 0 && Contents(gs, 0) == Contents(fs, 0) + [e]
    requires forall k | 0 < k < m :: Contents(gs, k) == Contents(fs, k)
    ensures Stream(gs, m) == Stream(fs, m) + [e]
  {
    if m > 1 {
      StreamGrows(fs, gs, m - 1, e);
    } else {
      assert Stream(fs, 0) == [] == Stream(gs, 0);
    }
  }

  /** While the loop is at `i`: the suffixes above have moved up and `i + 1` is free. */
  predicate MovedAbove(before: Files, now: Files, i: nat, n: nat) {
    && (forall k | 0 <= k <= i :: (k in now <==> k in before) && Contents(now, k) == Contents(before, k))
    && (i + 1 < n ==> i + 1 !in now)
    && (forall k | i + 2 <= k < n :: (k in now <==> k - 1 in before) && Contents(now, k) == Contents(before, k - 1))
    && Untouched(before, now, n)
  }

  /** One turn of the loop, at suffix `i`. */
  function ShiftTurn(now: Files, i: nat, n: nat): Files {
    if i !in now then now else if i == n - 1 then now - {i} else (now - {i})[i + 1 := now[i]]
  }

  lemma TurnMovesUp(before: Files, now: Files, i: nat, n: nat)
    requires 0 < i < n && MovedAbove(before, now, i, n)
    ensures MovedAbove(before, ShiftTurn(now, i, n), i - 1, n)
  {
    var after := ShiftTurn(now, i, n);
    forall k | i + 1 <= k < n
      ensures (k in after <==> k - 1 in before) && Contents(after, k) == Contents(before, k - 1)
    {
    }
    assert Untouched(before, after, n);
  }

  lemma {:induction false} ShiftedStream(before: Files, now: Files, n: nat, j: nat)
    requires n >= 2 && MovedAbove(before, now, 0, n) && 2 <= j <= n
    ensures Stream(now, j) == Stream(before, j - 1)
  {
    if j > 2 {
      ShiftedStream(before, now, n, j - 1);
      assert Contents(now, j - 1) == Contents(before, j - 2);
    } else {
      assert Stream(now, 1) == Contents(now, 0) + Stream(now, 0);
      assert Stream(before, 1) == Contents(before, 0) + Stream(before, 0);
    }
  }

  /** The effect of the renaming loop on the disk. */
  predicate Shifted(before: Files, now: Files, n: nat) {
    if n >= 2 then MovedAbove(before, now, 0, n) else now == before
  }

  /** What the renaming loop removes. */
  function Removed(before: Files, n: nat): seq<AuditEvent> {
    if n >= 2 then Contents(before, n - 1) else []
  }

  /** Even a rotation abandoned after the loop keeps the events in order. */
  lemma ShiftKeepsOrder(before: Files, now: Files, n: nat)
    requires n > 0 && Shifted(before, now, n)
    ensures Removed(before, n) + Stream(now, Kept(n)) == Stream(before, Kept(n))
    ensures Untouched(before, now, Kept(n))
  {
    if n >= 2 {
      ShiftedStream(before, now, n, n);
    }
  }

  /** The loop followed by the rename of the current file to `.1` and a new current file. */
  lemma ShiftThenMove(before: Files, shifted: Files, n: nat)
    requires n > 0 && Shifted(before, shifted, n) && 0 in before && 0 in shifted && shifted[0] == before[0]
    ensures Rotated(before, shifted[1 := shifted[0]][0 := []], Kept(n))
  {
    var after := shifted[1 := shifted[0]][0 := []];
    forall k | 0 < k < Kept(n)
      ensures (k in after <==> k - 1 in before) && Contents(after, k) == Contents(before, k - 1)
    {
    }
  }

  /** The events lost, then those on disk, are those found at the start, then those logged. */
  predicate Balanced(initial: Files, files: Files, logged: seq<AuditEvent>, lost: seq<AuditEvent>, m: nat) {
    && lost + Stream(files, m) == Stream(initial, m) + logged
    && Untouched(initial, files, m)
  }

  lemma BalancedAfterWrite(initial: Files, files: Files, logged: seq<AuditEvent>, lost: seq<AuditEvent>, m: nat,
                           e: AuditEvent)
    requires m > 0 && Balanced(initial, files, logged, lost, m) && 0 in files
    ensures Balanced(initial, files[0 := files[0] + [e]], logged + [e], lost, m)
  {
    StreamGrows(files, files[0 := files[0] + [e]], m, e);
    assert lost + (Stream(files, m) + [e]) == lost + Stream(files, m) + [e];
    assert Stream(initial, m) + logged + [e] == Stream(initial, m) + (logged + [e]);
  }

  lemma BalancedAfterMove(initial: Files, files: Files, files': Files, logged: seq<AuditEvent>,
                          lost: seq<AuditEvent>, out: seq<AuditEvent>, m: nat)
    requires Balanced(initial, files, logged, lost, m)
    requires out + Stream(files', m) == Stream(files, m) && Untouched(files, files', m)
    ensures Balanced(initial, files', logged, lost + out, m)
  {
    assert lost + out + Stream(files', m) == lost + (out + Stream(files', m));
  }

  lemma BalancedAtStart(disk: Files, m: nat)
    requires m > 0
    ensures Balanced(disk, disk[0 := Contents(disk, 0)], [], [], m)
  {
    StreamSame(disk, disk[0 := Contents(disk, 0)], m);
    assert [] + Stream(disk, m) == Stream(disk, m) + [];
  }

  lemma BalancedWithoutCurrent(initial: Files, files: Files, logged: seq<AuditEvent>, lost: seq<AuditEvent>, m: nat)
    requires m > 0 && 0 !in files && Balanced(initial, files[0 := []], logged, lost, m)
    ensures Balanced(initial, files, logged, lost, m)
  {
    StreamSame(files, files[0 := []], m);
  }

  function SizeOf(es: seq<AuditEvent>, bytes: AuditEvent -> nat): nat {
    if es == [] then 0 else SizeOf(es[..|es| - 1], bytes) + bytes(es[|es| - 1])
  }

  /** The size of a file is the bytes of all its events: these three equations leave no other
      function. */
  lemma {:induction false} SizeIsAdditive(es: seq<AuditEvent>, fs: seq<AuditEvent>, bytes: AuditEvent -> nat)
    ensures SizeOf([], bytes) == 0
    ensures forall e :: SizeOf([e], bytes) == bytes(e)
    ensures SizeOf(es + fs, bytes) == SizeOf(es, bytes) + SizeOf(fs, bytes)
  {
    if fs == [] {
      assert es + fs == es;
    } else {
      var n := |fs| - 1;
      SizeIsAdditive(es, fs[..n], bytes);
      assert (es + fs)[..|es| + n] == es + fs[..n];
    }
  }

  /** The operating system call that fails during a call of Log, if any. */
  datatype Fault = NoFault | WriteFails | StatFails | CloseFails | RenameFails | ReopenFails

  class AuditLogger {
    const maxFileSize: nat
    const maxFiles: nat
    const bytes: AuditEvent -> nat      // encoded size
    const initial: Files                // the disk when the logger was opened
    var files: Files
    var open: bool                      // the file handle accepts writes
    var encoderFailed: bool             // the JSON encoder has met a write error, which it keeps
    ghost var logged: seq<AuditEvent>   // events for which Log returned nil
    ghost var lost: seq<AuditEvent>     // events in files removed or overwritten so far

    ghost predicate Valid()
      reads this
    {
      && maxFiles > 0 && maxFileSize > 0
      && (open ==> 0 in files)
      && Balanced(initial, files, logged, lost, Kept(maxFiles))
    }

    /** Opening creates the current file or appends to it; non-positive limits get defaults. */
    constructor (disk: Files, maxFileSize: int, maxFiles: int, bytes: AuditEvent -> nat)
      ensures Valid() && open && !encoderFailed && initial == disk && logged == [] && lost == []
      ensures this.maxFileSize == if maxFileSize <= 0 then 104857600 else maxFileSize
      ensures this.maxFiles == if maxFiles <= 0 then 10 else maxFiles
    {
      this.maxFileSize := if maxFileSize <= 0 then 104857600 else maxFileSize;
      this.maxFiles := if maxFiles <= 0 then 10 else maxFiles;
      this.bytes := bytes;
      initial, files, open := disk, disk[0 := Contents(disk, 0)], true;
      logged, lost, encoderFailed := [], [], false;
      new;
      BalancedAtStart(disk, Kept(this.maxFiles));
    }

    /** The renaming loop.  No rename in it lands on an existing file. */
    method ShiftFiles()
      requires maxFiles > 0 && 0 in files
      modifies this`files
      ensures 0 in files && files[0] == old(files)[0]
      ensures Shifted(old(files), files, maxFiles)
    {
      var i := maxFiles - 1;
      while i > 0
        invariant 0 <= i < maxFiles
        invariant var moved := MovedAbove(old(files), files, i, maxFiles);
                  maxFiles >= 2 ==> moved
        invariant maxFiles < 2 ==> files == old(files)
        decreases i
      {
        TurnMovesUp(old(files), files, i, maxFiles);
        ghost var turned := ShiftTurn(files, i, maxFiles);
        if i in files {
          if i == maxFiles - 1 {
            files := files - {i};
          } else {
            assert i + 1 !in files;
            files := (files - {i})[i + 1 := files[i]];
          }
        }
        assert files == turned;
        i := i - 1;
      }
    }

    /** `clobbers`: the final rename replaces an existing `.1`. */
    method Rotate(fault: Fault) returns (err: bool, ghost clobbers: bool)
      requires Valid() && open
      modifies this`files, this`open, this`lost
      ensures Valid() && open == !err
      ensures err == (fault.CloseFails? || fault.RenameFails? || fault.ReopenFails?)
      ensures !err ==> Rotated(old(files), files, Kept(maxFiles))
      ensures !err ==> lost == old(lost) + Contents(old(files), Kept(maxFiles) - 1)
      ensures clobbers <==> !fault.CloseFails? && !fault.RenameFails? && maxFiles == 1 && 1 in old(files)
    {
      ghost var before, m := files, Kept(maxFiles);
      open := false;
      if fault.CloseFails? {
        return true, false;
      }
      ShiftFiles();
      ghost var shifted := files;
      if fault.RenameFails? {
        ShiftKeepsOrder(before, shifted, maxFiles);
        BalancedAfterMove(initial, before, shifted, logged, lost, Removed(before, maxFiles), m);
        lost := lost + Removed(before, maxFiles);
        return true, false;
      }
      clobbers := 1 in files;
      files := (files - {0})[1 := files[0]];
      ghost var reopened := files[0 := []];
      assert reopened == shifted[1 := shifted[0]][0 := []];
      ShiftThenMove(before, shifted, maxFiles);
      RotationKeepsOrder(before, reopened, m);
      BalancedAfterMove(initial, before, reopened, logged, lost, Contents(before, m - 1), m);
      lost := lost + Contents(before, m - 1);
      if fault.ReopenFails? {
        BalancedWithoutCurrent(initial, files, logged, lost, m);
        return true, clobbers;
      }
      files := files[0 := []];
      open := true;
      return false, clobbers;
    }

    /** `valid` is the verdict of validateEvent.  A rotation error is not reported, but it
        leaves the handle closed, and a write error stays with the encoder: after either every
        later Log fails and writes nothing. */
    method Log(event: AuditEvent, valid: bool, fault: Fault) returns (err: bool)
      requires Valid()
      modifies this
      ensures Valid()
      ensures err == (!valid || !old(open) || old(encoderFailed) || fault.WriteFails?)
      ensures encoderFailed == (old(encoderFailed) || (valid && old(open) && fault.WriteFails?))
      ensures logged == if err then old(logged) else old(logged) + [event]
      ensures err ==> files == old(files) && lost == old(lost) && open == old(open)
      ensures !err ==> 0 in old(files) && AfterWrite(old(files)[0 := old(files)[0] + [event]], old(lost), fault)
      ensures !err && fault.StatFails? ==> open && files == old(files)[0 := old(files)[0] + [event]]
      ensures !err && fault.NoFault? ==>
                && 0 in files && SizeOf(files[0], bytes) < maxFileSize
                && files[0] == if SizeOf(old(files)[0], bytes) + bytes(event) >= maxFileSize then []
                               else old(files)[0] + [event]
    {
      if !valid || !open || encoderFailed {
        return true;
      }
      if fault.WriteFails? {
        encoderFailed := true;
        return true;
      }
      BalancedAfterWrite(initial, files, logged, lost, Kept(maxFiles), event);
      files := files[0 := files[0] + [event]];
      logged := logged + [event];
      SizeIsAdditive(old(files)[0], [event], bytes);
      if !fault.StatFails? && SizeOf(files[0], bytes) >= maxFileSize {
        var _, _ := Rotate(fault);
      }
      return false;
    }

    /** What checkRotation makes of the disk just written: a file below the limit stays, a full
        one is rotated, and a failing rotation leaves the handle closed. */
    ghost predicate AfterWrite(written: Files, lostBefore: seq<AuditEvent>, fault: Fault)
      reads this
    {
      if fault.StatFails? || SizeOf(Contents(written, 0), bytes) < maxFileSize then
        files == written && lost == lostBefore && open
      else
        && open == !(fault.CloseFails? || fault.RenameFails? || fault.ReopenFails?)
        && (open ==> && Rotated(written, files, Kept(maxFiles))
                     && lost == lostBefore + Contents(written, Kept(maxFiles) - 1))
    }

    /** In every reachable state, whatever failed: on a disk that held no higher suffix at the
        start there are at most MaxFiles files, for MaxFiles of at least 2. */
    lemma FilesBounded()
      requires Valid() && maxFiles >= 2 && forall k | k in initial :: k < maxFiles
      ensures |files| <= maxFiles
    {
      Below(files.Keys, maxFiles);
      assert |files| == |files.Keys|;
    }

    method Close()
      requires Valid()
      modifies this`open
      ensures Valid() && !open
    {
      open := false;
    }
  }

  /** A logger whose configuration asks for one file still leaves two after a rotation: the
      bound of MaxFiles files survives a rotation exactly from MaxFiles = 2 on. */
  lemma FileBound(before: Files, after: Files, maxFiles: nat)
    requires maxFiles > 0 && Rotated(before, after, Kept(maxFiles))
    requires forall k | k in before :: k < Kept(maxFiles)
    requires 0 in before
    ensures |after| <= maxFiles <==> maxFiles >= 2
  {
    Below(after.Keys, Kept(maxFiles));
    if maxFiles == 1 {
      assert 1 in after;
      assert after.Keys == {0, 1};
    }
    assert |after| == |after.Keys|;
  }

  lemma {:induction false} Below(ks: set<nat>, m: nat)
    requires forall k | k in ks :: k < m
    ensures |ks| <= m
  {
    if m > 0 {
      Below(ks - {m - 1}, m - 1);
    } else {
      assert ks == {};
    }
  }
}
