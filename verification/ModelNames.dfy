/** Ordered-set algebra on model name lists: every operation normalises its inputs, that
    is, trims the names, drops empty ones and keeps first occurrences. */
module ModelNames {
  import opened Basics
  import opened Text

  /** Trimmed, non-empty and without repetition. */
  predicate Clean(names: seq<string>) {
    Distinct(names) && forall k :: k in names ==> TrimSpace(k) == k != ""
  }

  /** lo.Uniq, given what has been seen so far. */
  function Uniq(seen: set<string>, names: seq<string>): seq<string>
    decreases names
  {
    if names == [] then []
    else if names[0] in seen then Uniq(seen, names[1..])
    else [names[0]] + Uniq(seen + {names[0]}, names[1..])
  }

  function Normalize(names: seq<string>): seq<string> {
    Uniq({}, NonBlank(names))
  }

  lemma {:induction false} UniqIsFresh(seen: set<string>, names: seq<string>)
    ensures Uniq(seen, NonBlank(names)) == Fresh(seen, names)
    decreases names
  {
    if names != [] {
      var t := TrimSpace(names[0]);
      var rest := NonBlank(names[1..]);
      if t == "" {
        assert NonBlank(names) == rest;
        UniqIsFresh(seen, names[1..]);
      } else {
        assert NonBlank(names) == [t] + rest;
        assert NonBlank(names)[1..] == rest;
        UniqIsFresh(seen, names[1..]);
        UniqIsFresh(seen + {t}, names[1..]);
      }
    }
  }

  /** Normalising yields a clean list of exactly the names of the input. */
  lemma NormalizeFacts(names: seq<string>)
    ensures Clean(Normalize(names))
    ensures forall k :: k in Normalize(names) <==> k in Names(names)
    ensures Names(Normalize(names)) == Names(names)
  {
    UniqIsFresh({}, names);
    FreshFacts({}, names);
    NamesOfClean(Normalize(names));
  }

  lemma NamesOfClean(names: seq<string>)
    requires Clean(names)
    ensures forall k :: k in Names(names) <==> k in names
  {
  }

  lemma {:induction false} FreshOfClean(seen: set<string>, names: seq<string>)
    requires Clean(names) && forall k :: k in names ==> k !in seen
    ensures Fresh(seen, names) == names
    decreases names
  {
    if names != [] {
      assert names[0] in names;
      FreshOfClean(seen + {names[0]}, names[1..]);
    }
  }

  /** Clean lists are exactly the fixpoints of normalisation; in particular it is idempotent. */
  lemma NormalizeFixpoint(names: seq<string>)
    ensures Normalize(names) == names <==> Clean(names)
  {
    NormalizeFacts(names);
    if Clean(names) {
      UniqIsFresh({}, names);
      FreshOfClean({}, names);
    }
  }

  // ---------- filters ----------

  /** The names outside `drop`, in order. */
  function Without(names: seq<string>, drop: set<string>): seq<string> {
    if names == [] then [] else (if names[0] in drop then [] else [names[0]]) + Without(names[1..], drop)
  }

  lemma {:induction false} WithoutMembers(names: seq<string>, drop: set<string>)
    ensures forall k :: k in Without(names, drop) <==> k in names && k !in drop
  {
    if names != [] {
      WithoutMembers(names[1..], drop);
      assert forall k :: k in names <==> k == names[0] || k in names[1..];
    }
  }

  lemma {:induction false} WithoutDistinct(names: seq<string>, drop: set<string>)
    requires Distinct(names)
    ensures Distinct(Without(names, drop))
  {
    if names != [] {
      WithoutDistinct(names[1..], drop);
      WithoutMembers(names[1..], drop);
      assert names[0] !in names[1..];
    }
  }

  lemma WithoutFacts(names: seq<string>, drop: set<string>)
    requires Clean(names)
    ensures Clean(Without(names, drop))
    ensures forall k :: k in Without(names, drop) <==> k in names && k !in drop
  {
    WithoutMembers(names, drop);
    WithoutDistinct(names, drop);
  }

  lemma {:induction false} WithoutNothing(names: seq<string>, drop: set<string>)
    ensures Without(names, drop) == names <==> forall k :: k in names ==> k !in drop
  {
    WithoutMembers(names, drop);
    if names != [] {
      WithoutNothing(names[1..], drop);
      WithoutLength(names[1..], drop);
      assert forall k :: k in names <==> k == names[0] || k in names[1..];
      if names[0] !in drop {
        assert Without(names, drop)[1..] == Without(names[1..], drop);
      }
    }
  }

  lemma {:induction false} WithoutLength(names: seq<string>, drop: set<string>)
    ensures |Without(names, drop)| <= |names|
  {
    if names != [] {
      WithoutLength(names[1..], drop);
    }
  }

  // ---------- the operations ----------

  /** subtractModelNames */
  function Subtract(base: seq<string>, removed: seq<string>): seq<string> {
    Without(Normalize(base), Names(removed))
  }

  /** intersectModelNames */
  function Intersect(base: seq<string>, allowed: seq<string>): seq<string> {
    Without(Normalize(base), Names(base) - Names(allowed))
  }

  function Merge(base: seq<string>, appended: seq<string>): seq<string> {
    Normalize(base) + Fresh(Names(base), appended)
  }

  /** mergeModelNames */
  method MergeModelNames(base: seq<string>, appended: seq<string>) returns (merged: seq<string>)
    ensures merged == Merge(base, appended)
  {
    merged := Normalize(base);
    NormalizeFacts(base);
    var seen: set<string> := set k | k in merged;
    assert seen == Names(base);
    var more := Normalize(appended);
    UniqIsFresh({}, appended);
    for i := 0 to |more|
      invariant merged + Uniq(seen, more[i..]) == Normalize(base) + Uniq(Names(base), more)
    {
      assert more[i..][1..] == more[i + 1..];
      if more[i] !in seen {
        seen := seen + {more[i]};
        merged := merged + [more[i]];
      }
    }
    UniqTwice(Names(base), appended);
  }

  /** De-duplicating first makes no difference to what is new. */
  lemma UniqTwice(seen: set<string>, names: seq<string>)
    ensures Uniq(seen, Normalize(names)) == Fresh(seen, names)
  {
    UniqIsFresh({}, names);
    UniqOfFresh(seen, {}, names);
    assert seen + {} == seen;
  }

  lemma {:induction false} UniqOfFresh(seen: set<string>, earlier: set<string>, names: seq<string>)
    ensures Uniq(seen + earlier, Fresh(earlier, names)) == Fresh(seen + earlier, names)
    decreases names
  {
    if names != [] {
      var t := TrimSpace(names[0]);
      if t == "" || t in earlier {
        UniqOfFresh(seen, earlier, names[1..]);
      } else {
        var rest := Fresh(earlier + {t}, names[1..]);
        assert Fresh(earlier, names) == [t] + rest;
        assert Fresh(earlier, names)[1..] == rest;
        UniqOfFresh(seen, earlier + {t}, names[1..]);
        assert seen + (earlier + {t}) == seen + earlier + {t};
        if t in seen {
          assert seen + earlier + {t} == seen + earlier;
        }
      }
    }
  }

  lemma MergeFacts(base: seq<string>, appended: seq<string>)
    ensures Clean(Merge(base, appended))
    ensures forall k :: k in Merge(base, appended) <==> k in Names(base) || k in Names(appended)
    ensures Normalize(base) <= Merge(base, appended)
  {
    NormalizeFacts(base);
    FreshFacts(Names(base), appended);
    var first, second := Normalize(base), Fresh(Names(base), appended);
    forall i, j | 0 <= i < j < |first + second|
      ensures (first + second)[i] != (first + second)[j]
    {
      if i < |first| <= j {
        assert first[i] in first && second[j - |first|] in second;
      }
    }
  }

  lemma SubtractFacts(base: seq<string>, removed: seq<string>)
    ensures Clean(Subtract(base, removed))
    ensures forall k :: k in Subtract(base, removed) <==> k in Names(base) && k !in Names(removed)
  {
    NormalizeFacts(base);
    WithoutFacts(Normalize(base), Names(removed));
  }

  lemma IntersectFacts(base: seq<string>, allowed: seq<string>)
    ensures Clean(Intersect(base, allowed))
    ensures forall k :: k in Intersect(base, allowed) <==> k in Names(base) && k in Names(allowed)
  {
    NormalizeFacts(base);
    WithoutFacts(Normalize(base), Names(base) - Names(allowed));
  }

  /** applySelectedModelChanges */
  function ApplySelected(origin: seq<string>, addModels: seq<string>, removeModels: seq<string>): seq<string> {
    var normalizedAdd := Normalize(addModels);
    var normalizedRemove := Subtract(Normalize(removeModels), normalizedAdd);
    Subtract(Merge(origin, normalizedAdd), normalizedRemove)
  }

  /** A model selected both for adding and for removal is added. */
  lemma ApplySelectedFacts(origin: seq<string>, addModels: seq<string>, removeModels: seq<string>)
    ensures var next := ApplySelected(origin, addModels, removeModels);
      && Clean(next)
      && forall k :: k in next <==> k in Names(addModels) || (k in Names(origin) && k !in Names(removeModels))
  {
    var normalizedAdd := Normalize(addModels);
    var normalizedRemove := Subtract(Normalize(removeModels), normalizedAdd);
    NormalizeFacts(addModels);
    NormalizeFacts(removeModels);
    SubtractFacts(Normalize(removeModels), normalizedAdd);
    NamesOfClean(normalizedRemove);
    MergeFacts(origin, normalizedAdd);
    NamesOfClean(Merge(origin, normalizedAdd));
    SubtractFacts(Merge(origin, normalizedAdd), normalizedRemove);
  }

  lemma NothingAdded(origin: seq<string>, appended: seq<string>)
    requires Clean(origin) && forall k :: k in Names(appended) ==> k in origin
    ensures Merge(origin, appended) == origin
  {
    NormalizeFixpoint(origin);
    NamesOfClean(origin);
    FreshFacts(Names(origin), appended);
    HasMember(Fresh(Names(origin), appended));
  }

  lemma NothingRemoved(origin: seq<string>, removed: seq<string>)
    requires Clean(origin) && forall k :: k in Names(removed) ==> k !in origin
    ensures Subtract(origin, removed) == origin
  {
    NormalizeFixpoint(origin);
    WithoutNothing(origin, Names(removed));
  }

  /** Applying a selection leaves the list as it is exactly when it leaves the set as it is. */
  lemma SameListIffSameSet(origin: seq<string>, addModels: seq<string>, removeModels: seq<string>)
    requires Clean(origin)
    ensures var next := ApplySelected(origin, addModels, removeModels);
      next == origin <==> Names(next) == Names(origin)
  {
    var next := ApplySelected(origin, addModels, removeModels);
    ApplySelectedFacts(origin, addModels, removeModels);
    NamesOfClean(next);
    NamesOfClean(origin);
    if Names(next) == Names(origin) {
      var normalizedAdd := Normalize(addModels);
      var normalizedRemove := Subtract(Normalize(removeModels), normalizedAdd);
      NormalizeFacts(addModels);
      NormalizeFacts(removeModels);
      assert forall k :: k in Names(normalizedAdd) ==> k in next;
      assert forall k :: k in Names(normalizedAdd) ==> k in origin;
      NothingAdded(origin, normalizedAdd);
      SubtractFacts(Normalize(removeModels), normalizedAdd);
      NamesOfClean(normalizedRemove);
      assert forall k :: k in Names(normalizedRemove) ==> k !in next;
      NothingRemoved(origin, normalizedRemove);
    }
  }
}
