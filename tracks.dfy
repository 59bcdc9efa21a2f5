/**
 * The part of `getTrackList` that runs once every directory listing has
 * arrived: each entry is tagged with the track directory it was listed from,
 * the listings are concatenated in the configured order, directories are
 * dropped, and the files are sorted by their order key with `Helper.compare`
 * in ascending mode.
 *
 * The library's `Array.prototype.sort` is stable; it is modelled by a stable
 * insertion sort driven by the same comparator. When every order key is a
 * decimal numeral the comparator is a total preorder and the sorted list is
 * ascending by value with equal keys in their original order, which is what
 * any stable sort produces.
 */
module Tracks {
  import opened Wrappers
  import Helper
  import opened AlistApi

  // ------------------------------------------------------- tag and concat

  /** The entries of one listing, each tagged with `path`. */
  function Tag(path: string, entries: seq<Entry>): (r: seq<Entry>)
    ensures |r| == |entries|
    ensures forall j | 0 <= j < |r| :: r[j] == entries[j].(path := path)
  {
    if entries == [] then []
    else Tag(path, entries[..|entries| - 1]) + [entries[|entries| - 1].(path := path)]
  }

  /** The number of entries in all listings together. */
  function Total(listings: seq<seq<Entry>>): nat
  {
    if listings == [] then 0 else Total(listings[..|listings| - 1]) + |listings[|listings| - 1]|
  }

  /** The collected list: listing `i`, tagged with `paths[i]`, after all listings before it. */
  function Tagged(paths: seq<string>, listings: seq<seq<Entry>>): (r: seq<Entry>)
    requires |paths| == |listings|
    ensures |r| == Total(listings)
  {
    if listings == [] then []
    else
      var n := |listings| - 1;
      Tagged(paths[..n], listings[..n]) + Tag(paths[n], listings[n])
  }

  /**
   * Entry `j` of listing `i` is found, tagged with `paths[i]`, after the
   * entries of all earlier listings: directory order first, then the order
   * within a listing.
   */
  lemma {:induction false} TaggedAt(paths: seq<string>, listings: seq<seq<Entry>>, i: nat, j: nat)
    requires |paths| == |listings| && i < |listings| && j < |listings[i]|
    ensures Total(listings[..i]) + j < |Tagged(paths, listings)|
    ensures Tagged(paths, listings)[Total(listings[..i]) + j] == listings[i][j].(path := paths[i])
    decreases |listings|
  {
    var n := |listings| - 1;
    assert listings[..n][..n] == listings[..n];
    if i == n {
      assert Tagged(paths, listings) == Tagged(paths[..n], listings[..n]) + Tag(paths[n], listings[n]);
    } else {
      assert listings[..n][..i] == listings[..i];
      TaggedAt(paths[..n], listings[..n], i, j);
      assert Total(listings[..n]) + |listings[n]| == Total(listings);
    }
  }

  /**
   * The two nested loops of `getTrackList`: every entry of result `index` gets
   * `path = paths[index]`, then the whole listing is pushed onto `contents`.
   */
  method TagAndConcat(paths: seq<string>, listings: seq<seq<Entry>>) returns (contents: seq<Entry>)
    requires |paths| == |listings|
    ensures contents == Tagged(paths, listings)
  {
    contents := [];
    var index := 0;
    while index < |listings|
      invariant 0 <= index <= |listings|
      invariant contents == Tagged(paths[..index], listings[..index])
    {
      var content := listings[index];
      var k := 0;
      while k < |content|
        invariant 0 <= k <= |content| && |content| == |listings[index]|
        invariant content[..k] == Tag(paths[index], listings[index][..k])
        invariant content[k..] == listings[index][k..]
      {
        assert listings[index][..k + 1][..k] == listings[index][..k];
        content := content[k := content[k].(path := paths[index])];
        k := k + 1;
      }
      assert content == content[..k];
      assert listings[index][..k] == listings[index];
      assert paths[..index + 1][..index] == paths[..index];
      assert listings[..index + 1][..index] == listings[..index];
      contents := contents + content;
      index := index + 1;
    }
    assert paths[..index] == paths && listings[..index] == listings;
  }

  // ------------------------------------------------------------- filter

  /** `contents.filter(item => !item.is_dir)`. */
  function Files(contents: seq<Entry>): (r: seq<Entry>)
    ensures forall i | 0 <= i < |r| :: !r[i].isDir
    ensures forall e :: multiset(r)[e] == if e.isDir then 0 else multiset(contents)[e]
  {
    if contents == [] then []
    else
      var n := |contents| - 1;
      assert contents == contents[..n] + [contents[n]];
      if contents[n].isDir then Files(contents[..n]) else Files(contents[..n]) + [contents[n]]
  }

  /** The files of a non-empty list: those before its last entry, then that entry unless it is a directory. */
  lemma FilesLast(c: seq<Entry>)
    requires c != []
    ensures Files(c) == Files(c[..|c| - 1]) + (if c[|c| - 1].isDir then [] else [c[|c| - 1]])
  {}

  /** Filtering keeps the order: the files of a concatenation are the files of each part, in turn. */
  lemma {:induction false} FilesAppend(a: seq<Entry>, b: seq<Entry>)
    ensures Files(a + b) == Files(a) + Files(b)
    decreases |b|
  {
    if b != [] {
      var n := |b| - 1;
      var ab := a + b;
      assert ab[..|ab| - 1] == a + b[..n];
      assert ab[|ab| - 1] == b[n];
      FilesAppend(a, b[..n]);
      FilesLast(ab);
      FilesLast(b);
      Helper.ConcatAssoc(Files(a), Files(b[..n]), if b[n].isDir then [] else [b[n]]);
    } else {
      assert a + b == a;
    }
  }

  // --------------------------------------------------------------- sort

  /** `Helper.compare(true, item => parseTrackOrder(item.name))`, with the order key given as `key`. */
  function Cmp(key: Entry -> string, collate: (string, string) -> int, a: Entry, b: Entry): int
  {
    Helper.Compare(Some(true), key(a), key(b), collate)
  }

  /** The numeric value of an entry's order key (0 when the key is not a decimal numeral). */
  function KeyValue(key: Entry -> string, e: Entry): nat
  {
    if Helper.AllDigits(key(e)) then Helper.DecimalValue(key(e)) else 0
  }

  predicate AllNumeric(xs: seq<Entry>, key: Entry -> string)
  {
    forall e | e in xs :: Helper.IsNumeric(key(e))
  }

  /** Neighbours are in ascending order of key value. */
  predicate Sorted(xs: seq<Entry>, key: Entry -> string)
  {
    forall i | 0 < i < |xs| :: KeyValue(key, xs[i - 1]) <= KeyValue(key, xs[i])
  }

  /** The entry `y` if its key has value `v`. */
  function Own(y: Entry, key: Entry -> string, v: nat): seq<Entry>
  {
    if KeyValue(key, y) == v then [y] else []
  }

  /** The entries whose key has value `v`, in their order. */
  function Having(xs: seq<Entry>, key: Entry -> string, v: nat): seq<Entry>
  {
    if xs == [] then []
    else Own(xs[0], key, v) + Having(xs[1..], key, v)
  }

  /** For numeric keys the comparator orders entries by key value, ascending. */
  lemma CmpNumeric(key: Entry -> string, collate: (string, string) -> int, a: Entry, b: Entry)
    requires Helper.IsNumeric(key(a)) && Helper.IsNumeric(key(b))
    ensures Cmp(key, collate, a, b) <= 0 <==> KeyValue(key, a) <= KeyValue(key, b)
  {
  }

  /** Inserting `x` before the first entry it does not compare above. */
  function Insert(x: Entry, ys: seq<Entry>, key: Entry -> string, collate: (string, string) -> int): (r: seq<Entry>)
    ensures multiset(r) == multiset(ys) + multiset{x}
    ensures r[0] == x || (ys != [] && r[0] == ys[0])
  {
    if ys == [] then [x]
    else if Cmp(key, collate, x, ys[0]) <= 0 then [x] + ys
    else
      assert ys == [ys[0]] + ys[1..];
      [ys[0]] + Insert(x, ys[1..], key, collate)
  }

  /** The playlist order: each entry inserted, from the last to the first, into the sorted rest. */
  function Sort(xs: seq<Entry>, key: Entry -> string, collate: (string, string) -> int): (r: seq<Entry>)
    ensures multiset(r) == multiset(xs)
  {
    if xs == [] then []
    else
      assert xs == [xs[0]] + xs[1..];
      Insert(xs[0], Sort(xs[1..], key, collate), key, collate)
  }

  lemma {:induction false} InsertSorted(x: Entry, ys: seq<Entry>, key: Entry -> string, collate: (string, string) -> int)
    requires Helper.IsNumeric(key(x)) && AllNumeric(ys, key) && Sorted(ys, key)
    ensures Sorted(Insert(x, ys, key, collate), key)
    decreases |ys|
  {
    if ys == [] {
      SortedCons(x, [], key);
    } else {
      CmpNumeric(key, collate, x, ys[0]);
      if Cmp(key, collate, x, ys[0]) > 0 {
        SortedTail(ys, key);
        InsertSorted(x, ys[1..], key, collate);
        var rest := Insert(x, ys[1..], key, collate);
        assert |ys| > 1 ==> KeyValue(key, ys[0]) <= KeyValue(key, ys[1]);
        SortedCons(ys[0], rest, key);
      } else {
        SortedCons(x, ys, key);
      }
    }
  }

  lemma SortedTail(ys: seq<Entry>, key: Entry -> string)
    requires ys != [] && Sorted(ys, key)
    ensures Sorted(ys[1..], key)
  {
    forall i | 0 < i < |ys[1..]|
      ensures KeyValue(key, ys[1..][i - 1]) <= KeyValue(key, ys[1..][i])
    {
      assert ys[1..][i - 1] == ys[i] && ys[1..][i] == ys[i + 1];
    }
  }

  lemma SortedCons(y: Entry, rest: seq<Entry>, key: Entry -> string)
    requires Sorted(rest, key) && (rest == [] || KeyValue(key, y) <= KeyValue(key, rest[0]))
    ensures Sorted([y] + rest, key)
  {
    var r := [y] + rest;
    forall i | 0 < i < |r|
      ensures KeyValue(key, r[i - 1]) <= KeyValue(key, r[i])
    {
      if i > 1 {
        assert r[i - 1] == rest[i - 2] && r[i] == rest[i - 1];
      }
    }
  }

  /** For numeric keys the sorted list is in ascending order of key value. */
  lemma {:induction false} SortSorted(xs: seq<Entry>, key: Entry -> string, collate: (string, string) -> int)
    requires AllNumeric(xs, key)
    ensures Sorted(Sort(xs, key, collate), key)
    decreases |xs|
  {
    if xs != [] {
      assert xs[0] in xs;
      assert AllNumeric(xs[1..], key) by {
        forall e | e in xs[1..] ensures Helper.IsNumeric(key(e)) {
          assert e in xs;
        }
      }
      SortSorted(xs[1..], key, collate);
      var rest := Sort(xs[1..], key, collate);
      assert AllNumeric(rest, key) by {
        forall e | e in rest ensures Helper.IsNumeric(key(e)) {
          assert e in multiset(rest);
        }
      }
      InsertSorted(xs[0], rest, key, collate);
    }
  }

  lemma HavingCons(y: Entry, s: seq<Entry>, key: Entry -> string, v: nat)
    ensures Having([y] + s, key, v) == Own(y, key, v) + Having(s, key, v)
  {
    assert ([y] + s)[1..] == s;
  }

  /** Inserting `x` puts it first among the entries of its own key value. */
  lemma {:induction false} InsertHaving(x: Entry, ys: seq<Entry>, key: Entry -> string, collate: (string, string) -> int, v: nat)
    requires Helper.IsNumeric(key(x)) && AllNumeric(ys, key)
    ensures Having(Insert(x, ys, key, collate), key, v) == Own(x, key, v) + Having(ys, key, v)
    decreases |ys|
  {
    if ys == [] {
      HavingCons(x, [], key, v);
    } else {
      CmpNumeric(key, collate, x, ys[0]);
      if Cmp(key, collate, x, ys[0]) <= 0 {
        HavingCons(x, ys, key, v);
      } else {
        assert AllNumeric(ys[1..], key) by {
          forall e | e in ys[1..] ensures Helper.IsNumeric(key(e)) {
            assert e in ys;
          }
        }
        InsertHaving(x, ys[1..], key, collate, v);
        HavingPastSmaller(x, ys, Insert(x, ys[1..], key, collate), key, v);
      }
    }
  }

  /** Moving `x` past a smaller entry does not change the entries of any one key value. */
  lemma HavingPastSmaller(x: Entry, ys: seq<Entry>, rest: seq<Entry>, key: Entry -> string, v: nat)
    requires ys != [] && KeyValue(key, ys[0]) < KeyValue(key, x)
    requires Having(rest, key, v) == Own(x, key, v) + Having(ys[1..], key, v)
    ensures Having([ys[0]] + rest, key, v) == Own(x, key, v) + Having(ys, key, v)
  {
    HavingCons(ys[0], rest, key, v);
    HavingCons(ys[0], ys[1..], key, v);
    assert [ys[0]] + ys[1..] == ys;
    var smaller := Own(ys[0], key, v);
    var own := Own(x, key, v);
    var tail := Having(ys[1..], key, v);
    if smaller == [] {
      assert smaller + (own + tail) == own + tail == own + (smaller + tail);
    } else {
      assert own == [];
      assert smaller + (own + tail) == smaller + tail == own + (smaller + tail);
    }
  }

  /** For numeric keys the sort is stable: the entries of each key value keep their relative order. */
  lemma {:induction false} SortStable(xs: seq<Entry>, key: Entry -> string, collate: (string, string) -> int, v: nat)
    requires AllNumeric(xs, key)
    ensures Having(Sort(xs, key, collate), key, v) == Having(xs, key, v)
    decreases |xs|
  {
    if xs != [] {
      assert xs[0] in xs;
      assert AllNumeric(xs[1..], key) by {
        forall e | e in xs[1..] ensures Helper.IsNumeric(key(e)) {
          assert e in xs;
        }
      }
      SortStable(xs[1..], key, collate, v);
      var rest := Sort(xs[1..], key, collate);
      assert AllNumeric(rest, key) by {
        forall e | e in rest ensures Helper.IsNumeric(key(e)) {
          assert e in multiset(rest);
        }
      }
      InsertHaving(xs[0], rest, key, collate, v);
    }
  }

  /** Sortedness of neighbours extends to every pair. */
  lemma {:induction false} SortedPairs(xs: seq<Entry>, key: Entry -> string, i: nat, j: nat)
    requires Sorted(xs, key) && i <= j < |xs|
    ensures KeyValue(key, xs[i]) <= KeyValue(key, xs[j])
    decreases j - i
  {
    if i < j {
      SortedPairs(xs, key, i, j - 1);
    }
  }

  // ----------------------------------------------------------- the result

  /** What `getTrackList` resolves to once all listings have arrived. */
  function TrackList(paths: seq<string>, listings: seq<seq<Entry>>, key: Entry -> string,
                     collate: (string, string) -> int): seq<Entry>
    requires |paths| == |listings|
  {
    Sort(Files(Tagged(paths, listings)), key, collate)
  }

  /**
   * The collected list holds no directory and is a permutation of the files
   * fetched; when every order key is a decimal numeral it is ascending by key
   * value and the files of equal key keep their order of collection.
   */
  lemma TrackListProperties(paths: seq<string>, listings: seq<seq<Entry>>, key: Entry -> string,
                            collate: (string, string) -> int, v: nat)
    requires |paths| == |listings|
    ensures var r := TrackList(paths, listings, key, collate);
      && (forall e | e in r :: !e.isDir)
      && (forall e :: multiset(r)[e] == if e.isDir then 0 else multiset(Tagged(paths, listings))[e])
    ensures AllNumeric(Files(Tagged(paths, listings)), key) ==>
      var r := TrackList(paths, listings, key, collate);
      && Sorted(r, key)
      && Having(r, key, v) == Having(Files(Tagged(paths, listings)), key, v)
  {
    var files := Files(Tagged(paths, listings));
    var r := TrackList(paths, listings, key, collate);
    forall e | e in r ensures !e.isDir {
      assert e in multiset(r);
    }
    if AllNumeric(files, key) {
      SortSorted(files, key, collate);
      SortStable(files, key, collate, v);
    }
  }
}
