/** The elements of a sequence that satisfy a property, and edits that address
    those elements by their rank among themselves. */
module Sublists {
  function Kept<T>(s: seq<T>, keep: T -> bool): seq<T> {
    if s == [] then []
    else if keep(s[0]) then [s[0]] + Kept(s[1..], keep)
    else Kept(s[1..], keep)
  }

  lemma {:induction false} KeptOfConcat<T>(a: seq<T>, b: seq<T>, keep: T -> bool)
    ensures Kept(a + b, keep) == Kept(a, keep) + Kept(b, keep)
  {
    if a == [] {
      assert a + b == b;
    } else {
      var rest := a[1..];
      KeptOfConcat(rest, b, keep);
      assert (a + b)[1..] == rest + b;
      if keep(a[0]) {
        assert [a[0]] + (Kept(rest, keep) + Kept(b, keep)) == ([a[0]] + Kept(rest, keep)) + Kept(b, keep);
      }
    }
  }

  lemma {:induction false} KeptAll<T>(s: seq<T>, keep: T -> bool)
    requires forall i :: 0 <= i < |s| ==> keep(s[i])
    ensures Kept(s, keep) == s
  {
    if s != [] {
      KeptAll(s[1..], keep);
      assert s == [s[0]] + s[1..];
    }
  }

  /** Replacing one element by some others. */
  function Spliced<T>(s: seq<T>, k: nat, middle: seq<T>): seq<T>
    requires k < |s|
  {
    s[..k] + middle + s[k + 1..]
  }

  lemma KeptOfSpliced<T>(s: seq<T>, k: nat, middle: seq<T>, keep: T -> bool)
    requires k < |s|
    ensures Kept(Spliced(s, k, middle), keep) == Kept(s[..k], keep) + Kept(middle, keep) + Kept(s[k + 1..], keep)
  {
    KeptOfConcat(s[..k] + middle, s[k + 1..], keep);
    KeptOfConcat(s[..k], middle, keep);
  }

  lemma KeptIgnores<T>(s: seq<T>, k: nat, x: T, keep: T -> bool)
    requires k < |s| && !keep(s[k]) && !keep(x)
    ensures Kept(s[k := x], keep) == Kept(s, keep)
  {
    assert Spliced(s, k, [x]) == s[k := x] && Spliced(s, k, [s[k]]) == s;
    KeptOfSpliced(s, k, [x], keep);
    KeptOfSpliced(s, k, [s[k]], keep);
  }

  lemma KeptDrops<T>(s: seq<T>, k: nat, keep: T -> bool)
    requires k < |s|
    ensures |Kept(Spliced(s, k, []), keep)| == |Kept(s, keep)| - if keep(s[k]) then 1 else 0
    ensures !keep(s[k]) ==> Kept(Spliced(s, k, []), keep) == Kept(s, keep)
  {
    assert Spliced(s, k, [s[k]]) == s;
    KeptOfSpliced(s, k, [], keep);
    KeptOfSpliced(s, k, [s[k]], keep);
  }

  lemma KeptCounts<T>(s: seq<T>, k: nat, x: T, keep: T -> bool)
    requires k < |s| && keep(s[k]) && keep(x)
    ensures |Kept(s[k := x], keep)| == |Kept(s, keep)|
  {
    assert Spliced(s, k, [x]) == s[k := x] && Spliced(s, k, [s[k]]) == s;
    KeptOfSpliced(s, k, [x], keep);
    KeptOfSpliced(s, k, [s[k]], keep);
    KeptAll([x], keep);
    KeptAll([s[k]], keep);
  }

  /** Where the kept element of that rank stands; the length if there is none. */
  function PositionOf<T>(s: seq<T>, rank: nat, keep: T -> bool): (k: nat)
    ensures k <= |s|
  {
    if s == [] then 0
    else if !keep(s[0]) then 1 + PositionOf(s[1..], rank, keep)
    else if rank == 0 then 0
    else 1 + PositionOf(s[1..], rank - 1, keep)
  }

  lemma {:induction false} PositionSplits<T>(s: seq<T>, rank: nat, keep: T -> bool)
    ensures var k, fs := PositionOf(s, rank, keep), Kept(s, keep);
      if rank < |fs| then
        && k < |s| && keep(s[k]) && s[k] == fs[rank]
        && Kept(s[..k], keep) == fs[..rank] && Kept(s[k + 1..], keep) == fs[rank + 1..]
      else k == |s|
  {
    if s != [] && !(keep(s[0]) && rank == 0) {
      var rest, rank' := s[1..], if keep(s[0]) then rank - 1 else rank;
      PositionSplits(rest, rank', keep);
      var k, fs := PositionOf(rest, rank', keep), Kept(rest, keep);
      assert PositionOf(s, rank, keep) == k + 1;
      if rank' < |fs| {
        assert s[k + 2..] == rest[k + 1..];
        var front := s[..k + 1];
        assert front[0] == s[0] && front[1..] == rest[..k];
        if keep(s[0]) {
          assert ([s[0]] + fs)[..rank] == [s[0]] + fs[..rank'];
          assert ([s[0]] + fs)[rank + 1..] == fs[rank' + 1..];
        }
      }
    }
  }

  /** Edits that name their target by rank. */
  datatype Edit<T> = Insert(rank: nat, value: T) | Remove(rank: nat) | Change(rank: nat, value: T)

  /** The edit on a sequence in which everything is kept. */
  function EditAlone<T>(fs: seq<T>, e: Edit<T>): seq<T> {
    match e
    case Insert(rank, x) => if rank < |fs| then Spliced(fs, rank, [x, fs[rank]]) else fs + [x]
    case Remove(rank) => if rank < |fs| then Spliced(fs, rank, []) else fs
    case Change(rank, x) => if rank < |fs| then Spliced(fs, rank, [x]) else fs
  }

  /** The same edit among elements that are not kept. */
  function EditAmong<T>(s: seq<T>, e: Edit<T>, keep: T -> bool): seq<T> {
    var k := PositionOf(s, e.rank, keep);
    match e
    case Insert(_, x) => if k < |s| then Spliced(s, k, [x, s[k]]) else s + [x]
    case Remove(_) => if k < |s| then Spliced(s, k, []) else s
    case Change(_, x) => if k < |s| then Spliced(s, k, [x]) else s
  }

  lemma EditCommutes<T>(s: seq<T>, e: Edit<T>, keep: T -> bool)
    requires e.Remove? || keep(e.value)
    ensures Kept(EditAmong(s, e, keep), keep) == EditAlone(Kept(s, keep), e)
  {
    hide PositionOf;
    var k := PositionOf(s, e.rank, keep);
    PositionSplits(s, e.rank, keep);
    if k < |s| {
      hide Kept;
      var middle := match e case Insert(_, x) => [x, s[k]] case Remove(_) => [] case Change(_, x) => [x];
      KeptAll(middle, keep);
      KeptOfSpliced(s, k, middle, keep);
    } else if e.Insert? {
      KeptOfConcat(s, [e.value], keep);
    }
  }
}
