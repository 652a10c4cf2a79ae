/** Name/value fields (HTTP headers and query parameters) and the order SigV4
    canonicalisation puts them in: `Object.keys(record).sort()`, which compares
    names character by character. */
module Fields {

  datatype Field = Field(name: string, value: string)

  /** Lexicographic order on names, comparing code points (equal to the
      UTF-16 code-unit order JavaScript's default sort uses for every name
      below U+D800, which covers the ASCII names signed here). */
  predicate NameLe(a: string, b: string)
    decreases |a|
  {
    |a| == 0 || (|b| > 0 && (a[0] < b[0] || (a[0] == b[0] && NameLe(a[1..], b[1..]))))
  }

  lemma {:induction false} NameLeTotal(a: string, b: string)
    ensures NameLe(a, b) || NameLe(b, a)
    decreases |a|
  {
    if |a| > 0 && |b| > 0 && a[0] == b[0] {
      NameLeTotal(a[1..], b[1..]);
    }
  }

  lemma {:induction false} NameLeTransitive(a: string, b: string, c: string)
    requires NameLe(a, b) && NameLe(b, c)
    ensures NameLe(a, c)
    decreases |a|
  {
    if |a| > 0 && a[0] == b[0] && b[0] == c[0] {
      NameLeTransitive(a[1..], b[1..], c[1..]);
    }
  }

  lemma {:induction false} NameLeAntisymmetric(a: string, b: string)
    requires NameLe(a, b) && NameLe(b, a)
    ensures a == b
    decreases |a|
  {
    if |a| > 0 {
      NameLeAntisymmetric(a[1..], b[1..]);
      assert a == [a[0]] + a[1..];
      assert b == [b[0]] + b[1..];
    }
  }

  /** A common prefix does not change the order of two names. */
  lemma {:induction false} NameLeCommonPrefix(p: string, a: string, b: string)
    requires NameLe(a, b)
    ensures NameLe(p + a, p + b)
    decreases |p|
  {
    if |p| > 0 {
      NameLeCommonPrefix(p[1..], a, b);
      assert (p + a)[1..] == p[1..] + a;
      assert (p + b)[1..] == p[1..] + b;
      assert (p + a)[0] == p[0] == (p + b)[0];
      assert NameLe((p + a)[1..], (p + b)[1..]);
    } else {
      assert p + a == a && p + b == b;
    }
  }

  function Names(fs: seq<Field>): (r: seq<string>)
    ensures |r| == |fs| && forall i :: 0 <= i < |fs| ==> r[i] == fs[i].name
  {
    if |fs| == 0 then [] else [fs[0].name] + Names(fs[1..])
  }

  predicate SortedByName(fs: seq<Field>) {
    forall i, j :: 0 <= i < j < |fs| ==> NameLe(fs[i].name, fs[j].name)
  }

  /** Insert `f` before the first field it does not follow. */
  function Insert(f: Field, fs: seq<Field>): (r: seq<Field>)
    ensures multiset(r) == multiset(fs) + multiset{f}
  {
    if |fs| == 0 then [f]
    else if NameLe(f.name, fs[0].name) then [f] + fs
    else
      assert fs == [fs[0]] + fs[1..];
      [fs[0]] + Insert(f, fs[1..])
  }

  /** Inserting into a sorted list keeps it sorted. */
  lemma {:induction false} InsertSorted(f: Field, fs: seq<Field>)
    requires SortedByName(fs)
    ensures SortedByName(Insert(f, fs))
  {
    if |fs| == 0 {
    } else if NameLe(f.name, fs[0].name) {
      var r := Insert(f, fs);
      forall i, j | 0 <= i < j < |r|
        ensures NameLe(r[i].name, r[j].name)
      {
        if i == 0 && j > 1 {
          NameLeTransitive(f.name, fs[0].name, fs[j - 1].name);
        }
      }
    } else {
      NameLeTotal(f.name, fs[0].name);
      var tail := Insert(f, fs[1..]);
      InsertSorted(f, fs[1..]);
      InsertLowerBound(f, fs[1..], fs[0].name);
      var r := [fs[0]] + tail;
      assert r == Insert(f, fs);
      forall i, j | 0 <= i < j < |r|
        ensures NameLe(r[i].name, r[j].name)
      {
        if i == 0 {
          assert r[j] == tail[j - 1];
        } else {
          assert r[i] == tail[i - 1] && r[j] == tail[j - 1];
        }
      }
    }
  }

  /** A name at or below `f` and every name of `fs` is at or below every
      name after inserting `f`. */
  lemma {:induction false} InsertLowerBound(f: Field, fs: seq<Field>, low: string)
    requires NameLe(low, f.name)
    requires forall i :: 0 <= i < |fs| ==> NameLe(low, fs[i].name)
    ensures forall i :: 0 <= i < |Insert(f, fs)| ==> NameLe(low, Insert(f, fs)[i].name)
  {
    if |fs| > 0 && !NameLe(f.name, fs[0].name) {
      InsertLowerBound(f, fs[1..], low);
      var tail := Insert(f, fs[1..]);
      assert Insert(f, fs) == [fs[0]] + tail;
      forall i | 0 <= i < |Insert(f, fs)|
        ensures NameLe(low, Insert(f, fs)[i].name)
      {
        if i > 0 {
          assert Insert(f, fs)[i] == tail[i - 1];
        }
      }
    }
  }

  /** `keys.sort()` over whole fields: a sorted permutation of the input. */
  function SortByName(fs: seq<Field>): (r: seq<Field>)
    ensures SortedByName(r)
    ensures multiset(r) == multiset(fs)
  {
    if |fs| == 0 then []
    else
      assert fs == [fs[0]] + fs[1..];
      InsertSorted(fs[0], SortByName(fs[1..]));
      Insert(fs[0], SortByName(fs[1..]))
  }

  /** Sorting leaves an already sorted list untouched. */
  lemma {:induction false} SortSortedIsIdentity(fs: seq<Field>)
    requires SortedByName(fs)
    ensures SortByName(fs) == fs
  {
    if |fs| > 0 {
      SortSortedIsIdentity(fs[1..]);
      assert fs == [fs[0]] + fs[1..];
    }
  }

  /** Canonicalising the field order twice is the same as once. */
  lemma SortIdempotent(fs: seq<Field>)
    ensures SortByName(SortByName(fs)) == SortByName(fs)
  {
    SortSortedIsIdentity(SortByName(fs));
  }

  /** Neighbour-wise order extends to every pair, by transitivity. */
  lemma {:induction false} SortedStep(fs: seq<Field>, i: nat, j: nat)
    requires i < j < |fs|
    requires forall k :: 0 <= k < |fs| - 1 ==> NameLe(fs[k].name, fs[k + 1].name)
    ensures NameLe(fs[i].name, fs[j].name)
    decreases j - i
  {
    if j > i + 1 {
      SortedStep(fs, i + 1, j);
      NameLeTransitive(fs[i].name, fs[i + 1].name, fs[j].name);
    }
  }

  /** A list whose neighbouring names are in order is sorted. */
  lemma NeighboursSorted(fs: seq<Field>)
    requires forall k :: 0 <= k < |fs| - 1 ==> NameLe(fs[k].name, fs[k + 1].name)
    ensures SortedByName(fs)
  {
    forall i, j | 0 <= i < j < |fs|
      ensures NameLe(fs[i].name, fs[j].name)
    {
      SortedStep(fs, i, j);
    }
  }
}
