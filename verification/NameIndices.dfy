/** One secondary index: a map from names to owner keys, against the names each owner really has. */
module NameIndices {
  type Index = map<string, string>

  /** The names of every stored owner, as a scan would collect them. */
  type Owners = map<string, set<string>>

  function Put(m: Index, names: set<string>, key: string): Index {
    m + map n | n in names :: key
  }

  /** Erasing only the entries that point to the given key. */
  function EraseOwned(m: Index, names: set<string>, key: string): Index {
    m - set n | n in names && n in m && m[n] == key
  }

  function AllNames(o: Owners, keys: set<string>): set<string> {
    set k, n | k in keys && k in o && n in o[k] :: n
  }

  /** The index holds a name exactly when some owner has it, and points to that owner. */
  ghost predicate Exact(m: Index, o: Owners) {
    && (forall n :: n in m ==> m[n] in o && n in o[m[n]])
    && (forall k, n :: k in o && n in o[k] ==> n in m && m[n] == k)
  }

  /** No name has two owners. */
  ghost predicate Unshared(o: Owners) {
    forall k, l, n :: k in o && l in o && n in o[k] && n in o[l] ==> k == l
  }

  /** The index built from scratch by a full scan. */
  ghost function Scan(o: Owners): Index {
    map n | n in AllNames(o, o.Keys) :: (var k :| k in o && n in o[k]; k)
  }

  /** An exact index is the scan, and one exists only when no name is shared. */
  lemma ExactIsScan(m: Index, o: Owners)
    ensures Exact(m, o) <==> Unshared(o) && m == Scan(o)
  {
    forall n
      ensures n in Scan(o) <==> exists k :: k in o && n in o[k]
      ensures n in Scan(o) ==> Scan(o)[n] in o && n in o[Scan(o)[n]]
    {
      if k :| k in o && n in o[k] {
        assert n in AllNames(o, o.Keys);
      }
    }
    if Exact(m, o) {
      forall k, l, n | k in o && l in o && n in o[k] && n in o[l]
        ensures k == l
      {
        assert m[n] == k && m[n] == l;
      }
      assert m == Scan(o);
    }
  }

  /** None of the names is indexed for another key. */
  predicate NoForeign(m: Index, names: set<string>, key: string) {
    forall n :: n in names && n in m ==> m[n] == key
  }

  /** Removing owners with all their names keeps the index exact, with no owner check needed. */
  lemma EraseExact(m: Index, o: Owners, keys: set<string>)
    requires Exact(m, o)
    ensures Exact(m - AllNames(o, keys), o - keys)
  {
    forall k, n | k in o - keys && n in o[k]
      ensures n !in AllNames(o, keys)
    {
      assert m[n] == k;
    }
  }

  /** Changing one owner's names from kept + gone to kept + come, erasing the old entries and then
      adding the new ones: exact afterwards just when no new name is taken by another owner and no
      kept name was erased for good. */
  lemma SwapExactIff(m: Index, o: Owners, k: string, kept: set<string>, gone: set<string>, come: set<string>)
    requires Exact(m, o) && k in o && o[k] == kept + gone
    ensures Exact(Put(EraseOwned(m, gone, k), come, k), o[k := kept + come]) <==>
            NoForeign(m, come, k) && forall n :: n in gone && n in kept ==> n in come
  {
    var next, owners := Put(EraseOwned(m, gone, k), come, k), o[k := kept + come];
    assert forall n :: n in gone ==> n in m && m[n] == k;
    if n :| n in come && n in m && m[n] != k {
      assert n in owners[m[n]] && next[n] == k;
    } else if n :| n in gone && n in kept && n !in come {
      assert n in owners[k] && n !in next;
    }
  }

  /** Erasing without adding: exact afterwards just when no kept name was erased. */
  lemma EraseExactIff(m: Index, o: Owners, k: string, kept: set<string>, gone: set<string>)
    requires Exact(m, o) && k in o && o[k] == kept + gone
    ensures Exact(EraseOwned(m, gone, k), o[k := kept]) <==> gone !! kept
  {
    var less := EraseOwned(m, gone, k);
    assert Put(less, {}, k) == less && kept + {} == kept;
    SwapExactIff(m, o, k, kept, gone, {});
  }

  /** Indexing names for nobody: exact afterwards just when that changed nothing. */
  lemma PutExactIff(m: Index, o: Owners, names: set<string>, key: string)
    requires Exact(m, o)
    ensures Exact(Put(m, names, key), o) <==> forall n :: n in names ==> n in m && m[n] == key
  {
    if forall n :: n in names ==> n in m && m[n] == key {
      assert Put(m, names, key) == m;
    } else {
      var n :| n in names && !(n in m && m[n] == key);
      assert Put(m, names, key)[n] == key;
    }
  }

  lemma InsertExactIff(m: Index, o: Owners, k: string, names: set<string>)
    requires Exact(m, o) && k !in o
    ensures Exact(Put(m, names, k), o[k := names]) <==> NoForeign(m, names, k)
  {
    if n :| n in names && n in m && m[n] != k {
      assert Put(m, names, k)[n] == k && n in o[k := names][m[n]];
    }
  }

  lemma EraseAllOwned(m: Index, o: Owners, k: string)
    requires Exact(m, o) && k in o
    ensures EraseOwned(m, o[k], k) == m - o[k]
  {
    assert forall n :: n in o[k] ==> n in m && m[n] == k;
  }

  lemma ReplaceExactIff(m: Index, o: Owners, k: string, names: set<string>)
    requires Exact(m, o) && k in o
    ensures Exact(Put(m - o[k], names, k), o[k := names]) <==> NoForeign(m, names, k)
  {
    EraseAllOwned(m, o, k);
    assert {} + o[k] == o[k] && {} + names == names;
    SwapExactIff(m, o, k, {}, o[k], names);
  }

  /** Two owners become one whose names come from the two: always exact. */
  lemma MergeExact(m: Index, o: Owners, k: string, l: string, names: set<string>)
    requires Exact(m, o) && k in o && l in o && k != l && names <= o[k] + o[l]
    ensures Exact(Put(m - o[k] - o[l], names, k), (o - {l})[k := names])
  {
    var next, owners := Put(m - o[k] - o[l], names, k), (o - {l})[k := names];
    forall j, n | j in owners && n in owners[j]
      ensures n in next && next[n] == j
    {
      if j != k {
        assert m[n] == j;
        assert n !in o[k] && n !in o[l];
      }
    }
  }

  /** Changing an owner's names without touching the index is exact only when nothing changes. */
  lemma UntouchedExactIff(m: Index, o: Owners, k: string, names: set<string>)
    requires Exact(m, o) && k in o
    ensures Exact(m, o[k := names]) <==> names == o[k]
  {
    if names == o[k] {
      assert o[k := names] == o;
    } else if Exact(m, o[k := names]) {
      assert forall n :: n in o[k] <==> n in m && m[n] == k;
      assert forall n :: n in o[k := names][k] <==> n in m && m[n] == k;
      assert false;
    }
  }

  /** Erasing an owner's names and adding the same names again changes nothing. */
  lemma RefreshIsIdentity(m: Index, o: Owners, k: string)
    requires Exact(m, o) && k in o
    ensures Put(m - o[k], o[k], k) == m
  {
    assert forall n :: n in o[k] ==> n in m && m[n] == k;
  }
}
