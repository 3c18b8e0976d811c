/** The property pipeline: merging a source bag into a target bag
    (`copyFromAtoB`) and rewriting keys through `propertyNamesMap`
    (`renameProperties`). The loop that renames in place lives in the manager
    class; this module holds the reference definition it is proved against. */
module PropertyStore {
  import opened Values

  /** `copyFromAtoB(source, target)`: every key of `source` is written into
      `target`, so the source wins on a collision. */
  function Merge(target: Bag, source: Bag): (r: Bag)
    ensures r.Keys == target.Keys + source.Keys
    ensures forall k :: k in source ==> r[k] == source[k]
    ensures forall k :: k in target && k !in source ==> r[k] == target[k]
  {
    target + source
  }

  /** Copying from an empty bag leaves the target as it was. */
  lemma MergeNothing(target: Bag)
    ensures Merge(target, map[]) == target
  {
    SameBag(Merge(target, map[]), target);
  }

  /** A key is renamed only when its entry in the table is truthy. */
  predicate Renames(m: NameMap, k: string)
  {
    k in m && m[k] != ""
  }

  /** No rename target is itself renamed, so one pass never chains `a -> b -> c`. */
  predicate ChainFree(m: NameMap)
  {
    forall k | k in m :: Renames(m, k) ==> !Renames(m, m[k])
  }

  /** No two renamed keys share a target. */
  predicate Injective(m: NameMap)
  {
    forall j, k | j in m && k in m :: Renames(m, j) && Renames(m, k) && j != k ==> m[j] != m[k]
  }

  /** The tables for which the outcome of a rename pass does not depend on
      the order in which the keys are visited. */
  predicate Unambiguous(m: NameMap)
  {
    ChainFree(m) && Injective(m)
  }


  /** The bag after the renamed keys in `done` have been moved to their
      targets (a moved value overwrites whatever was there). */
  function PartlyRenamed(bag: Bag, m: NameMap, done: set<string>): Bag
    requires Injective(m)
  {
    var kept := map k | k in bag && !(k in done && Renames(m, k)) :: bag[k];
    var moved := map k | k in bag && k in done && Renames(m, k) :: m[k] := bag[k];
    kept + moved
  }

  /** The reference result of one complete rename pass over `bag`. */
  function Renamed(bag: Bag, m: NameMap): Bag
    requires Injective(m)
  {
    PartlyRenamed(bag, m, bag.Keys)
  }

  /** `k` is where some renamed key of `bag` listed in `done` is moved to. */
  ghost predicate MovedTo(bag: Bag, m: NameMap, done: set<string>, k: string)
  {
    exists s :: s in bag && s in done && Renames(m, s) && m[s] == k
  }

  /** `k` is where some renamed key of `bag` is moved to by a full pass. */
  ghost predicate IsRenameTarget(bag: Bag, m: NameMap, k: string)
  {
    MovedTo(bag, m, bag.Keys, k)
  }

  /** Two bags with the same keys and the same value under each key are equal. */
  lemma SameBag(a: Bag, b: Bag)
    requires forall k :: (k in a <==> k in b) && (k in a ==> a[k] == b[k])
    ensures a == b
  {
  }

  /** What `PartlyRenamed` holds under one key. */
  lemma PartlyRenamedAt(bag: Bag, m: NameMap, done: set<string>, k: string)
    requires Injective(m)
    ensures k in PartlyRenamed(bag, m, done)
            <==> (k in bag && !(k in done && Renames(m, k))) || MovedTo(bag, m, done, k)
    ensures forall s :: s in bag && s in done && Renames(m, s) && m[s] == k
                        ==> PartlyRenamed(bag, m, done)[k] == bag[s]
    ensures !MovedTo(bag, m, done, k) && k in bag && !(k in done && Renames(m, k))
            ==> PartlyRenamed(bag, m, done)[k] == bag[k]
  {
    if MovedTo(bag, m, done, k) {
      var s :| s in bag && s in done && Renames(m, s) && m[s] == k;
      assert k in PartlyRenamed(bag, m, done);
    }
  }

  lemma PartlyRenamedNothing(bag: Bag, m: NameMap)
    requires Injective(m)
    ensures PartlyRenamed(bag, m, {}) == bag
  {
    var p := PartlyRenamed(bag, m, {});
    forall k ensures (k in p <==> k in bag) && (k in p ==> p[k] == bag[k]) {
      PartlyRenamedAt(bag, m, {}, k);
    }
    SameBag(p, bag);
  }

  /** A key without a truthy entry moves nothing anywhere. */
  lemma MovedToSkip(bag: Bag, m: NameMap, done: set<string>, key: string, k: string)
    requires !Renames(m, key)
    ensures MovedTo(bag, m, done + {key}, k) <==> MovedTo(bag, m, done, k)
  {
    if MovedTo(bag, m, done + {key}, k) {
      var s :| s in bag && s in done + {key} && Renames(m, s) && m[s] == k;
      assert s in done;
    }
  }

  /** Visiting a key without a truthy entry changes nothing. */
  lemma PartlyRenamedSkip(bag: Bag, m: NameMap, done: set<string>, key: string)
    requires Injective(m) && !Renames(m, key)
    ensures PartlyRenamed(bag, m, done + {key}) == PartlyRenamed(bag, m, done)
  {
    var a := PartlyRenamed(bag, m, done + {key});
    var b := PartlyRenamed(bag, m, done);
    forall k ensures (k in a <==> k in b) && (k in a ==> a[k] == b[k]) {
      PartlyRenamedAt(bag, m, done + {key}, k);
      PartlyRenamedAt(bag, m, done, k);
      MovedToSkip(bag, m, done, key, k);
    }
    SameBag(a, b);
  }

  /** Visiting a renamed key changes what is moved onto its target only. */
  lemma MovedToStep(bag: Bag, m: NameMap, done: set<string>, key: string, k: string)
    requires ChainFree(m) && key in m
    ensures k != m[key] ==> (MovedTo(bag, m, done + {key}, k) <==> MovedTo(bag, m, done, k))
    ensures Renames(m, key) ==> !MovedTo(bag, m, done + {key}, key)
  {
    if MovedTo(bag, m, done + {key}, k) && k != m[key] {
      var s :| s in bag && s in done + {key} && Renames(m, s) && m[s] == k;
      assert s in done;
    }
  }

  /** `PartlyRenamedStep` under one key. */
  lemma PartlyRenamedStepAt(bag: Bag, m: NameMap, done: set<string>, key: string, k: string)
    requires Unambiguous(m) && key in bag && key !in done && Renames(m, key)
    ensures var a := PartlyRenamed(bag, m, done + {key});
            var b := (PartlyRenamed(bag, m, done) - {key})[m[key] := bag[key]];
            (k in a <==> k in b) && (k in a ==> a[k] == b[k])
  {
    PartlyRenamedAt(bag, m, done + {key}, k);
    MovedToStep(bag, m, done, key, k);
    if k != key && k != m[key] {
      PartlyRenamedAt(bag, m, done, k);
    }
  }

  /** Visiting a renamed key deletes it and writes its value under its target. */
  lemma PartlyRenamedStep(bag: Bag, m: NameMap, done: set<string>, key: string)
    requires Unambiguous(m) && key in bag && key !in done && Renames(m, key)
    ensures key in PartlyRenamed(bag, m, done) && PartlyRenamed(bag, m, done)[key] == bag[key]
    ensures PartlyRenamed(bag, m, done + {key})
            == (PartlyRenamed(bag, m, done) - {key})[m[key] := bag[key]]
  {
    PartlyRenamedAt(bag, m, done, key);
    MovedToStep(bag, m, done, key, key);
    var a := PartlyRenamed(bag, m, done + {key});
    var b := (PartlyRenamed(bag, m, done) - {key})[m[key] := bag[key]];
    forall k ensures (k in a <==> k in b) && (k in a ==> a[k] == b[k]) {
      PartlyRenamedStepAt(bag, m, done, key, k);
    }
    SameBag(a, b);
  }

  /** A renamed key disappears and its value appears under its target. */
  lemma RenamedMoves(bag: Bag, m: NameMap, k: string)
    requires Unambiguous(m) && k in bag && Renames(m, k)
    ensures k !in Renamed(bag, m)
    ensures m[k] in Renamed(bag, m) && Renamed(bag, m)[m[k]] == bag[k]
  {
    PartlyRenamedAt(bag, m, bag.Keys, k);
    PartlyRenamedAt(bag, m, bag.Keys, m[k]);
  }

  /** A key without a truthy entry that nothing is renamed onto keeps its value. */
  lemma RenamedKeeps(bag: Bag, m: NameMap, k: string)
    requires Injective(m) && k in bag && !Renames(m, k) && !IsRenameTarget(bag, m, k)
    ensures k in Renamed(bag, m) && Renamed(bag, m)[k] == bag[k]
  {
    PartlyRenamedAt(bag, m, bag.Keys, k);
  }

  /** The keys of the result: the unrenamed keys and the rename targets. */
  lemma RenamedKeys(bag: Bag, m: NameMap, k: string)
    requires Injective(m)
    ensures k in Renamed(bag, m) <==> (k in bag && !Renames(m, k)) || IsRenameTarget(bag, m, k)
  {
    PartlyRenamedAt(bag, m, bag.Keys, k);
  }

  /** Under an unambiguous table no renamed key survives a pass, so a second
      pass (as every later `setProperties` on the same bag performs) changes
      nothing. */
  lemma RenamedIdempotent(bag: Bag, m: NameMap)
    requires Unambiguous(m)
    ensures Renamed(Renamed(bag, m), m) == Renamed(bag, m)
  {
    var r := Renamed(bag, m);
    forall k | k in r ensures !Renames(m, k) {
      RenamedKeys(bag, m, k);
      if Renames(m, k) && k in bag {
        RenamedMoves(bag, m, k);
      }
    }
    var rr := Renamed(r, m);
    forall k ensures (k in rr <==> k in r) && (k in rr ==> rr[k] == r[k]) {
      PartlyRenamedAt(r, m, r.Keys, k);
    }
    SameBag(rr, r);
  }

  /** Copy, then rename: when the source holds both `a` and its target `b`,
      only `b` survives, holding the value that came in under `a`. */
  lemma CopyThenRename(target: Bag, source: Bag, m: NameMap, a: string)
    requires Unambiguous(m) && Renames(m, a) && a in source && m[a] in source
    ensures a !in Renamed(Merge(target, source), m)
    ensures Renamed(Merge(target, source), m)[m[a]] == source[a]
  {
    RenamedMoves(Merge(target, source), m, a);
  }

  /** What one rename pass guarantees whatever the table and whatever order the
      keys are visited in; for an unambiguous table it is exactly `Renamed`. */
  ghost predicate RenameOutcome(bag: Bag, m: NameMap, r: Bag)
  {
    && ValuesFrom(bag, r)
    && Untouched(bag, m, r)
    && KeysFrom(bag, m, r, {})
    && (Unambiguous(m) ==> r == Renamed(bag, m))
  }

  /** A key written by the merge that is neither renamed nor a rename target
      arrives with the value the caller gave it (used for `isPayer`). */
  lemma MergedKeySurvives(target: Bag, source: Bag, m: NameMap, r: Bag, k: string)
    requires RenameOutcome(Merge(target, source), m, r)
    requires k in source && !Renames(m, k) && !IsRenameTarget(Merge(target, source), m, k)
    ensures k in r && r[k] == source[k]
  {
  }

  /** Every value of `r` is a value of `bag`. */
  ghost predicate ValuesFrom(bag: Bag, r: Bag)
  {
    forall k :: k in r ==> r[k] in bag.Values
  }

  /** Every key of `bag` without a truthy entry that nothing moves onto is
      still in `r` with its value. */
  ghost predicate Untouched(bag: Bag, m: NameMap, r: Bag)
  {
    forall k :: k in bag && !Renames(m, k) && !IsRenameTarget(bag, m, k) ==> k in r && r[k] == bag[k]
  }

  /** Every key of `r` is a key of `bag` that is not (or not yet) renamed, or a
      rename target. */
  ghost predicate KeysFrom(bag: Bag, m: NameMap, r: Bag, pending: set<string>)
  {
    forall k :: k in r ==> (k in bag && (!Renames(m, k) || k in pending)) || IsRenameTarget(bag, m, k)
  }

  /** The state of a rename pass over `bag` that has visited the keys in
      `visited` and has the keys in `pending` still to visit. */
  ghost predicate RenamePass(bag: Bag, m: NameMap, r: Bag, pending: set<string>, visited: set<string>)
  {
    && pending !! visited && pending + visited == bag.Keys
    && pending <= r.Keys
    && |r| <= |bag|
    && ValuesFrom(bag, r)
    && Untouched(bag, m, r)
    && KeysFrom(bag, m, r, pending)
    && (Unambiguous(m) ==> r == PartlyRenamed(bag, m, visited))
  }

  lemma RenamePassStart(bag: Bag, m: NameMap)
    ensures RenamePass(bag, m, bag, bag.Keys, {})
  {
    if Unambiguous(m) {
      PartlyRenamedNothing(bag, m);
    }
  }

  /** Visiting a key without a truthy entry. */
  lemma RenamePassSkip(bag: Bag, m: NameMap, r: Bag, pending: set<string>, visited: set<string>, key: string)
    requires RenamePass(bag, m, r, pending, visited) && key in pending && !Renames(m, key)
    ensures RenamePass(bag, m, r, pending - {key}, visited + {key})
  {
    if Unambiguous(m) {
      PartlyRenamedSkip(bag, m, visited, key);
    }
  }

  /** Moving one key never adds a key. */
  lemma MoveKeepsSize(r: Bag, key: string, target: string)
    requires key in r
    ensures |(r - {key})[target := r[key]]| <= |r|
  {
    assert (r - {key}).Keys == r.Keys - {key};
    assert |r - {key}| == |r| - 1;
  }

  /** Moving one key introduces no new value. */
  lemma MoveKeepsValues(bag: Bag, r: Bag, key: string, target: string)
    requires ValuesFrom(bag, r) && key in r
    ensures ValuesFrom(bag, (r - {key})[target := r[key]])
  {
    var r' := (r - {key})[target := r[key]];
    forall k | k in r' ensures r'[k] in bag.Values {
      if k != target {
        assert r'[k] == r[k];
      }
    }
  }

  /** Moving a renamed key to its target leaves the untouched keys alone. */
  lemma MoveKeepsUntouched(bag: Bag, m: NameMap, r: Bag, key: string)
    requires Untouched(bag, m, r) && key in bag && key in r && Renames(m, key)
    ensures Untouched(bag, m, (r - {key})[m[key] := r[key]])
  {
    var r' := (r - {key})[m[key] := r[key]];
    forall k | k in bag && !Renames(m, k) && !IsRenameTarget(bag, m, k) ensures k in r' && r'[k] == bag[k] {
      assert k != m[key] && k != key;
    }
  }

  /** Moving a renamed key to its target keeps the shape of the keys. */
  lemma MoveKeepsKeys(bag: Bag, m: NameMap, r: Bag, pending: set<string>, key: string)
    requires KeysFrom(bag, m, r, pending) && key in bag && key in r && Renames(m, key)
    ensures KeysFrom(bag, m, (r - {key})[m[key] := r[key]], pending - {key})
  {
    var r' := (r - {key})[m[key] := r[key]];
    assert IsRenameTarget(bag, m, m[key]) by {
      assert key in bag && Renames(m, key) && m[key] == m[key];
    }
    forall k | k in r' ensures (k in bag && (!Renames(m, k) || k in pending - {key})) || IsRenameTarget(bag, m, k) {
      if k != m[key] {
        assert k in r && k != key;
      }
    }
  }

  /** Visiting a key with a truthy entry: delete it, write its value under
      the entry. */
  lemma RenamePassMove(bag: Bag, m: NameMap, r: Bag, pending: set<string>, visited: set<string>, key: string)
    requires RenamePass(bag, m, r, pending, visited) && key in pending && Renames(m, key)
    ensures RenamePass(bag, m, (r - {key})[m[key] := r[key]], pending - {key}, visited + {key})
  {
    MoveKeepsSize(r, key, m[key]);
    MoveKeepsValues(bag, r, key, m[key]);
    MoveKeepsUntouched(bag, m, r, key);
    MoveKeepsKeys(bag, m, r, pending, key);
    if Unambiguous(m) {
      PartlyRenamedStep(bag, m, visited, key);
    }
  }

  /** A pass with nothing left to visit has the outcome promised. */
  lemma RenamePassDone(bag: Bag, m: NameMap, r: Bag, visited: set<string>)
    requires RenamePass(bag, m, r, {}, visited)
    ensures RenameOutcome(bag, m, r)
  {
    assert visited == bag.Keys;
  }
}
