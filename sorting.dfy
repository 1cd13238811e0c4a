/** `sort_by` on names: Rust's slice sort is stable, so it is modelled by a
    stable insertion sort, and stability is proved. */
module Sorting {
  import opened Db
  import opened Names
  import opened Seqs

  ghost predicate SortedByName(s: seq<Character>) {
    forall i, j :: 0 <= i < j < |s| ==> NameLe(s[i].name, s[j].name)
  }

  /** Inserts `x` before the first element whose name is not smaller than its own. */
  function InsertByName(x: Character, s: seq<Character>): (r: seq<Character>)
    ensures multiset(r) == multiset(s) + multiset{x}
  {
    if s == [] || NameLe(x.name, s[0].name) then [x] + s
    else
      assert s == [s[0]] + s[1..];
      [s[0]] + InsertByName(x, s[1..])
  }

  /** The characters of `s` ordered by name, equal names kept in input order. */
  function SortByName(s: seq<Character>): (r: seq<Character>)
    ensures multiset(r) == multiset(s)
    ensures |r| == |s|
  {
    if s == [] then []
    else
      assert s == [s[0]] + s[1..];
      InsertByName(s[0], SortByName(s[1..]))
  }

  /** Sorting neither adds nor drops a character. */
  lemma SortByNameSameMembers(s: seq<Character>)
    ensures forall c :: c in SortByName(s) <==> c in s
  {
    forall c ensures c in SortByName(s) <==> c in s {
      assert c in SortByName(s) <==> c in multiset(SortByName(s));
      assert c in s <==> c in multiset(s);
    }
  }

  lemma {:induction false} InsertByNameSorted(x: Character, s: seq<Character>)
    requires SortedByName(s)
    ensures SortedByName(InsertByName(x, s))
  {
    var r := InsertByName(x, s);
    if s == [] {
    } else if NameLe(x.name, s[0].name) {
      forall j | 1 <= j < |r| ensures NameLe(x.name, r[j].name) {
        if j > 1 { NameLeTransitive(x.name, s[0].name, s[j - 1].name); }
      }
    } else {
      NameLeTotal(x.name, s[0].name);
      InsertByNameSorted(x, s[1..]);
      var rest := InsertByName(x, s[1..]);
      assert r == [s[0]] + rest;
      forall j | 0 <= j < |rest| ensures NameLe(s[0].name, rest[j].name) {
        assert rest[j] in multiset(rest);
        if rest[j] != x {
          assert rest[j] in multiset(s[1..]);
          var i :| 0 <= i < |s[1..]| && s[1..][i] == rest[j];
          assert s[i + 1] == rest[j];
        }
      }
    }
  }

  /** What `sort_by` promises: the result is ascending by name. */
  lemma {:induction false} SortByNameSorted(s: seq<Character>)
    ensures SortedByName(SortByName(s))
  {
    if s != [] {
      SortByNameSorted(s[1..]);
      InsertByNameSorted(s[0], SortByName(s[1..]));
    }
  }

  /** Whether a character is named `k`. */
  function HasName(k: string): Character -> bool {
    (c: Character) => c.name == k
  }

  /** The characters of `s` named `k`, in order. */
  function Named(s: seq<Character>, k: string): seq<Character> {
    Filter(s, HasName(k))
  }

  /** The characters of a one-element list named `k`. */
  lemma NamedSingleton(x: Character, k: string)
    ensures Named([x], k) == if x.name == k then [x] else []
  {
    assert [x][1..] == [];
    assert Filter([x][1..], HasName(k)) == [];
    assert HasName(k)(x) <==> x.name == k;
  }

  lemma {:induction false} InsertByNameNamed(x: Character, s: seq<Character>, k: string)
    ensures Named(InsertByName(x, s), k) == if x.name == k then [x] + Named(s, k) else Named(s, k)
  {
    NamedSingleton(x, k);
    if s == [] || NameLe(x.name, s[0].name) {
      FilterConcat([x], s, HasName(k));
    } else {
      var rest := InsertByName(x, s[1..]);
      assert InsertByName(x, s) == [s[0]] + rest;
      assert s == [s[0]] + s[1..];
      InsertByNameNamed(x, s[1..], k);
      FilterConcat([s[0]], rest, HasName(k));
      FilterConcat([s[0]], s[1..], HasName(k));
      NamedSingleton(s[0], k);
      if x.name == k {
        NameLeReflexive(x.name);
        assert s[0].name != k;
      }
    }
  }

  /** Stability: the characters sharing any one name keep their input order. */
  lemma {:induction false} SortByNameStable(s: seq<Character>, k: string)
    ensures Named(SortByName(s), k) == Named(s, k)
  {
    if s != [] {
      SortByNameStable(s[1..], k);
      InsertByNameNamed(s[0], SortByName(s[1..]), k);
      FilterConcat([s[0]], s[1..], HasName(k));
      NamedSingleton(s[0], k);
      assert s == [s[0]] + s[1..];
    }
  }
}
