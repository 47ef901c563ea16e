/**
 The order of a listing: files by name, as `sort_by` of the standard library leaves them
 (src/sd_psbt.rs). The library promises a stable sort; there is only one result of such a sort, and
 `Sorted` is it.
 */
module NameOrder {
  import opened Bytes
  import opened Utf16

  datatype File = File(name: seq<scalar>, shortName: seq<byte>, size: nat)

  /** Comparing UTF-8 bytes compares the characters they stand for. */
  predicate Below(a: seq<scalar>, b: seq<scalar>) {
    a == [] || (b != [] && (a[0] < b[0] || (a[0] == b[0] && Below(a[1..], b[1..]))))
  }

  lemma {:induction false} BelowTotal(a: seq<scalar>, b: seq<scalar>)
    ensures Below(a, b) || Below(b, a)
    ensures Below(a, b) && Below(b, a) ==> a == b
  {
    if a != [] && b != [] && a[0] == b[0] {
      BelowTotal(a[1..], b[1..]);
      assert a == [a[0]] + a[1..] && b == [b[0]] + b[1..];
    }
  }

  lemma {:induction false} BelowTrans(a: seq<scalar>, b: seq<scalar>, c: seq<scalar>)
    requires Below(a, b) && Below(b, c)
    ensures Below(a, c)
  {
    if a != [] && a[0] == b[0] == c[0] {
      BelowTrans(a[1..], b[1..], c[1..]);
    }
  }

  ghost predicate Ordered(files: seq<File>) {
    forall i, j :: 0 <= i < j < |files| ==> Below(files[i].name, files[j].name)
  }

  /** The files of one name, in their order. */
  function Named(files: seq<File>, name: seq<scalar>): seq<File> {
    if files == [] then []
    else (if files[0].name == name then [files[0]] else []) + Named(files[1..], name)
  }

  /** In order, and files of the same name as they were before. */
  ghost predicate StableSort(files: seq<File>, sorted: seq<File>) {
    Ordered(sorted) && forall name :: Named(sorted, name) == Named(files, name)
  }

  function Insert(f: File, files: seq<File>): seq<File> {
    if files == [] || Below(f.name, files[0].name) then [f] + files
    else [files[0]] + Insert(f, files[1..])
  }

  function Sorted(files: seq<File>): seq<File> {
    if files == [] then [] else Insert(files[0], Sorted(files[1..]))
  }

  lemma {:induction false} InsertedIn(f: File, files: seq<File>)
    ensures multiset(Insert(f, files)) == multiset([f]) + multiset(files)
  {
    if files != [] && !Below(f.name, files[0].name) {
      InsertedIn(f, files[1..]);
      assert files == [files[0]] + files[1..];
    }
  }

  lemma {:induction false} InsertKeepsOrder(f: File, files: seq<File>)
    requires Ordered(files)
    ensures Ordered(Insert(f, files))
  {
    if files != [] {
      if Below(f.name, files[0].name) {
        HeadIsLeast([f] + files);
      } else {
        BelowTotal(f.name, files[0].name);
        InsertKeepsOrder(f, files[1..]);
        InsertedIn(f, files[1..]);
        BoundedBelow(files[0], f, files[1..]);
      }
    }
  }

  lemma HeadIsLeast(files: seq<File>)
    requires |files| >= 2 && Ordered(files[1..]) && Below(files[0].name, files[1].name)
    ensures Ordered(files)
  {
    forall j | 1 <= j < |files| ensures Below(files[0].name, files[j].name) {
      assert files[1..][0] == files[1] && files[1..][j - 1] == files[j];
      if j > 1 { BelowTrans(files[0].name, files[1].name, files[j].name); }
    }
    forall i, j | 1 <= i < j < |files| ensures Below(files[i].name, files[j].name) {
      assert files[1..][i - 1] == files[i] && files[1..][j - 1] == files[j];
    }
  }

  lemma BoundedBelow(least: File, f: File, files: seq<File>)
    requires Below(least.name, f.name) && Ordered([least] + files) && Ordered(Insert(f, files))
    ensures Ordered([least] + Insert(f, files))
  {
    InsertedIn(f, files);
    var r := [least] + Insert(f, files);
    forall j | 1 <= j < |r| ensures Below(least.name, r[j].name) {
      assert r[j] in multiset(Insert(f, files));
      if r[j] != f {
        var k :| 0 <= k < |files| && files[k] == r[j];
        assert ([least] + files)[0] == least && ([least] + files)[k + 1] == files[k];
      }
    }
  }

  lemma {:induction false} InsertIsStable(f: File, files: seq<File>, name: seq<scalar>)
    requires Ordered(files)
    ensures Named(Insert(f, files), name) == (if f.name == name then [f] else []) + Named(files, name)
  {
    if files != [] && !Below(f.name, files[0].name) {
      InsertIsStable(f, files[1..], name);
      assert Insert(f, files)[1..] == Insert(f, files[1..]);
      BelowTotal(f.name, f.name);
    } else {
      assert ([f] + files)[1..] == files;
    }
  }

  /** `Sorted` is a stable sort and loses no file. */
  lemma {:induction false} SortedIsStable(files: seq<File>)
    ensures StableSort(files, Sorted(files)) && multiset(Sorted(files)) == multiset(files)
  {
    if files != [] {
      SortedIsStable(files[1..]);
      InsertKeepsOrder(files[0], Sorted(files[1..]));
      InsertedIn(files[0], Sorted(files[1..]));
      assert files == [files[0]] + files[1..];
      forall name ensures Named(Sorted(files), name) == Named(files, name) {
        InsertIsStable(files[0], Sorted(files[1..]), name);
      }
    }
  }

  lemma {:induction false} NamedHasIt(files: seq<File>, i: nat)
    requires i < |files|
    ensures Named(files, files[i].name) != []
  {
    if i > 0 { NamedHasIt(files[1..], i - 1); }
  }

  lemma {:induction false} NamedIsIn(files: seq<File>, name: seq<scalar>) returns (i: nat)
    requires Named(files, name) != []
    ensures i < |files| && files[i].name == name
  {
    if files[0].name == name {
      i := 0;
    } else {
      i := NamedIsIn(files[1..], name);
      i := i + 1;
    }
  }

  /** Two ordered listings that agree name by name begin alike. */
  lemma HeadsAgree(a: seq<File>, b: seq<File>)
    requires a != [] && Ordered(a) && Ordered(b) && forall name :: Named(a, name) == Named(b, name)
    ensures b != [] && a[0] == b[0]
  {
    NamedHasIt(a, 0);
    var i := NamedIsIn(b, a[0].name);
    NamedHasIt(b, 0);
    var j := NamedIsIn(a, b[0].name);
    BelowTotal(a[0].name, b[0].name);
    assert Named(a, a[0].name)[0] == a[0] && Named(b, b[0].name)[0] == b[0];
  }

  lemma {:induction false} OneStableSort(a: seq<File>, b: seq<File>)
    requires Ordered(a) && Ordered(b) && forall name :: Named(a, name) == Named(b, name)
    ensures a == b
  {
    if a != [] {
      HeadsAgree(a, b);
      forall name ensures Named(a[1..], name) == Named(b[1..], name) {
        var n := if a[0].name == name then 1 else 0;
        assert Named(a[1..], name) == Named(a, name)[n..] == Named(b, name)[n..] == Named(b[1..], name);
      }
      OneStableSort(a[1..], b[1..]);
      assert a == [a[0]] + a[1..] && b == [b[0]] + b[1..];
    } else if b != [] {
      NamedHasIt(b, 0);
    }
  }

  /** Every stable sort by name gives this listing. */
  lemma SortIsUnique(files: seq<File>, sorted: seq<File>)
    ensures StableSort(files, sorted) <==> sorted == Sorted(files)
  {
    SortedIsStable(files);
    if StableSort(files, sorted) {
      OneStableSort(sorted, Sorted(files));
    }
  }
}
