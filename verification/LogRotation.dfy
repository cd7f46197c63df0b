/**
 The rotating log of the desktop application (internal/desktop/logging.go): a base file, numbered
 backups, and what may be missing when they are read back in order.
 */
module LogRotation {
  type Bytes = seq<int>

  /** The files of one log by index: 0 is the base file, i > 0 the backup with suffix i. */
  type Directory = map<nat, Bytes>

  function Content(files: Directory, i: nat): Bytes {
    if i in files then files[i] else []
  }

  function Flatten(pieces: seq<Bytes>): Bytes {
    if pieces == [] then [] else pieces[0] + Flatten(pieces[1..])
  }

  lemma {:induction false} FlattenAppend(a: seq<Bytes>, b: seq<Bytes>)
    ensures Flatten(a + b) == Flatten(a) + Flatten(b)
  {
    if a == [] {
      assert a + b == b;
    } else {
      FlattenAppend(a[1..], b);
      assert (a + b)[1..] == a[1..] + b && (a + b)[0] == a[0];
      assert Flatten(a + b) == a[0] + Flatten(a[1..] + b);
    }
  }

  lemma FlattenOne(p: Bytes)
    ensures Flatten([p]) == p
  {
    assert Flatten([p]) == p + Flatten([]);
  }

  lemma FlattenLast(front: seq<Bytes>, last: Bytes, p: Bytes)
    ensures Flatten(front + [last + p]) == Flatten(front + [last]) + p
  {
    hide Flatten;
    FlattenAppend(front, [last]);
    FlattenAppend(front, [last + p]);
    FlattenOne(last);
    FlattenOne(last + p);
  }

  /** What reading the files in this order gives. */
  function ReadAll(files: Directory, paths: seq<nat>): Bytes {
    if paths == [] then [] else Content(files, paths[0]) + ReadAll(files, paths[1..])
  }

  function Max(a: int, b: int): int {
    if a >= b then a else b
  }

  lemma Shifted(files: Directory, shifted: Directory, pieces: seq<Bytes>, n: nat, largest: int)
    requires forall i :: 0 <= i <= n ==> |Content(files, i)| <= largest
    requires |pieces| > n && forall i :: 0 <= i <= n ==> Content(files, i) == pieces[|pieces| - 1 - i]
    requires forall i: nat :: 0 < i <= n ==> Content(shifted, i) == Content(files, i - 1)
    requires Content(shifted, 0) == []
    ensures forall i :: 0 <= i <= n ==> Content(shifted, i) == (pieces + [[]])[|pieces| - i]
    ensures forall i :: 0 <= i <= n ==> |Content(shifted, i)| <= largest
  {
    assert |Content(files, 0)| <= largest;
  }

  lemma Appended(files: Directory, pieces: seq<Bytes>, n: nat, p: Bytes, largest: int)
    requires 0 in files && |pieces| > n && forall i :: 0 <= i <= n ==> Content(files, i) == pieces[|pieces| - 1 - i]
    requires forall i :: 0 <= i <= n ==> |Content(files, i)| <= largest
    ensures var after, last := files[0 := files[0] + p], |pieces| - 1;
            && (forall i :: 0 <= i <= n ==> Content(after, i) == (pieces[..last] + [pieces[last] + p])[last - i])
            && (forall i :: 0 < i <= n ==> |Content(after, i)| <= largest)
            && Content(after, 0) == pieces[last] + p
  {
    var after := files[0 := files[0] + p];
    assert Content(files, 0) == files[0];
    forall i | 0 < i <= n
      ensures Content(after, i) == Content(files, i)
    {
    }
  }

  class RotatingFileWriter {
    const maxBytes: int
    const maxBackups: nat
    var files: Directory
    var isOpen: bool
    var currentSize: nat

    // Every file there ever was, oldest first, the bytes they hold together, and the largest size
    // excused so far: maxBytes, a file found at the start or one single write.
    ghost var pieces: seq<Bytes>
    ghost var logged: Bytes
    ghost var largest: int

    ghost predicate Valid()
      reads this
    {
      && |pieces| > maxBackups && Flatten(pieces) == logged
      && (forall i :: 0 <= i <= maxBackups ==> Content(files, i) == pieces[|pieces| - 1 - i])
      && (forall i :: 0 <= i <= maxBackups ==> |Content(files, i)| <= largest)
      && maxBytes <= largest
      && (isOpen ==> 0 in files && currentSize == |files[0]|)
    }

    /** The log as it is found: whatever base file and backups earlier sessions left. */
    constructor (files: Directory, maxBytes: int, maxBackups: nat, ghost found: seq<Bytes>, ghost largest: int)
      requires |found| == maxBackups + 1 && maxBytes <= largest
      requires forall i :: 0 <= i <= maxBackups ==>
                 Content(files, i) == found[maxBackups - i] && |Content(files, i)| <= largest
      ensures Valid() && isOpen && pieces == found && this.maxBackups == maxBackups && this.maxBytes == maxBytes
      ensures logged == Flatten(found) && this.largest == largest
    {
      this.maxBytes, this.maxBackups, this.files, isOpen, currentSize := maxBytes, maxBackups, files, false, 0;
      pieces, logged, this.largest := found, Flatten(found), largest;
      new;
      OpenCurrent();
    }

    method OpenCurrent()
      requires Valid() && !isOpen
      modifies this`files, this`isOpen, this`currentSize
      ensures Valid() && isOpen
      ensures forall i: nat :: Content(files, i) == old(Content(files, i))
      ensures forall i: nat :: i > 0 ==> (i in files <==> i in old(files))
    {
      if 0 !in files {
        files := files[0 := []];
      }
      assert forall i: nat :: Content(files, i) == old(Content(files, i));
      isOpen, currentSize := true, |files[0]|;
    }

    /** Drops the oldest backup, renames the others one up and starts an empty base file. */
    method Rotate()
      requires Valid() && isOpen
      modifies this`files, this`isOpen, this`currentSize, this`pieces
      ensures Valid() && isOpen && currentSize == 0 && pieces == old(pieces) + [[]]
      ensures forall i: nat :: i > maxBackups ==>
                Content(files, i) == old(Content(files, i)) && (i in files <==> i in old(files))
    {
      hide Flatten;
      isOpen, currentSize := false, 0;
      if maxBackups > 0 {
        ShiftBackups();
      } else {
        files := files - {0};
      }
      FlattenAppend(pieces, [[]]);
      FlattenOne([]);
      ghost var was := pieces;
      pieces := pieces + [[]];
      Shifted(old(files), files, was, maxBackups, largest);
      OpenCurrent();
    }

    /** The renames of a rotation, highest backup first, so that none is overwritten. */
    method ShiftBackups()
      requires maxBackups > 0
      modifies this`files
      ensures 0 !in files
      ensures forall i: nat :: 0 < i <= maxBackups ==> Content(files, i) == old(Content(files, i - 1))
      ensures forall i: nat :: i > maxBackups ==>
                Content(files, i) == old(Content(files, i)) && (i in files <==> i in old(files))
    {
      files := files - {maxBackups};
      var i := maxBackups - 1;
      while i >= 1
        invariant 0 <= i < maxBackups && i + 1 !in files
        invariant forall j: nat :: i + 1 < j <= maxBackups ==> Content(files, j) == old(Content(files, j - 1))
        invariant forall j: nat :: j <= i || j > maxBackups ==>
                    (j in files <==> j in old(files)) && Content(files, j) == old(Content(files, j))
      {
        Rename(i, i + 1);
        i := i - 1;
      }
      Rename(0, 1);
    }

    /** os.Rename to a name that is free; a missing source is not an error. */
    method Rename(src: nat, dst: nat)
      requires src != dst && dst !in files
      modifies this`files
      ensures src !in files && Content(files, dst) == old(Content(files, src)) && (dst in files <==> src in old(files))
      ensures forall j: nat :: j != src && j != dst ==>
                (j in files <==> j in old(files)) && Content(files, j) == old(Content(files, j))
    {
      if src in files {
        files := (files - {src})[dst := files[src]];
      }
    }

    /** Appends p, after rotating when the base file would outgrow the limit. */
    method Write(p: Bytes)
      requires Valid()
      modifies this
      ensures Valid() && isOpen && logged == old(logged) + p
      ensures largest == Max(old(largest), |p|)
      ensures var base := |old(Content(files, 0))|;
              if base > 0 && base + |p| > maxBytes then
                pieces == old(pieces) + [p]
              else
                pieces == old(pieces)[..|old(pieces)| - 1] + [old(Content(files, 0)) + p]
    {
      if !isOpen {
        OpenCurrent();
      }
      if currentSize > 0 && currentSize + |p| > maxBytes {
        Rotate();
      }
      assert [] + p == p;
      assert Content(files, 0) == pieces[|pieces| - 1];
      Append(p);
    }

    /** file.Write */
    method Append(p: Bytes)
      requires Valid() && isOpen && (currentSize == 0 || currentSize + |p| <= maxBytes)
      modifies this`files, this`currentSize, this`pieces, this`logged, this`largest
      ensures Valid() && logged == old(logged) + p && largest == Max(old(largest), |p|)
      ensures pieces == old(pieces)[..|old(pieces)| - 1] + [old(Content(files, 0)) + p]
    {
      hide Flatten;
      ghost var n := |pieces| - 1;
      FlattenLast(pieces[..n], pieces[n], p);
      assert pieces[..n] + [pieces[n]] == pieces;
      Appended(files, pieces, maxBackups, p, largest);
      files := files[0 := files[0] + p];
      currentSize := currentSize + |p|;
      pieces := pieces[..n] + [pieces[n] + p];
      logged, largest := logged + p, Max(largest, |p|);
    }

    method Close()
      requires Valid()
      modifies this`isOpen, this`currentSize
      ensures Valid() && !isOpen
    {
      isOpen, currentSize := false, 0;
    }

    /** The backups oldest first, then the base file. */
    method CollectRotatedLogPaths() returns (paths: seq<nat>)
      ensures |paths| == maxBackups + 1 && forall k :: 0 <= k <= maxBackups ==> paths[k] == maxBackups - k
    {
      paths := [];
      var i := maxBackups;
      while i >= 1
        invariant 0 <= i <= maxBackups && |paths| == maxBackups - i
        invariant forall k :: 0 <= k < |paths| ==> paths[k] == maxBackups - k
      {
        paths := paths + [i];
        i := i - 1;
      }
      paths := paths + [0];
    }

    /**
     Reading the files in that order gives the end of everything ever logged, cut before a whole file,
     and no file is larger than excused.
     */
    lemma ReadsASuffix(paths: seq<nat>)
      requires Valid()
      requires |paths| == maxBackups + 1 && forall k :: 0 <= k <= maxBackups ==> paths[k] == maxBackups - k
      ensures var cut := |pieces| - (maxBackups + 1);
              && logged == Flatten(pieces[..cut]) + ReadAll(files, paths)
              && ReadAll(files, paths) == Flatten(pieces[cut..])
    {
      hide Flatten, ReadAll;
      var cut := |pieces| - (maxBackups + 1);
      FlattenAppend(pieces[..cut], pieces[cut..]);
      assert pieces[..cut] + pieces[cut..] == pieces;
      ReadsPieces(files, paths, pieces[cut..]);
    }
  }

  lemma {:induction false} ReadsPieces(files: Directory, paths: seq<nat>, pieces: seq<Bytes>)
    requires |paths| == |pieces| && forall k :: 0 <= k < |paths| ==> Content(files, paths[k]) == pieces[k]
    ensures ReadAll(files, paths) == Flatten(pieces)
  {
    if paths != [] {
      ReadsPieces(files, paths[1..], pieces[1..]);
    }
  }
}
