/** The recursive deep merge of an override dictionary into a base dictionary
    (`dict_merge`). */
module Merging {
  import opened Values

  /** What `dict_merge` ends with: the merged dictionary, or the
      AttributeError Python raises when it recurses into an override value
      that is not a dictionary and calls `iteritems` on it. */
  datatype MergeOutcome = Merged(result: Mapping) | AttributeError

  /** `dict_merge(first, second)` runs to completion: `second` is a
      dictionary, and wherever `first` holds a dictionary under a key of
      `second`, the same holds one level down. */
  predicate Mergeable(first: Mapping, second: Value)
    decreases second
  {
    && second.Dict?
    && forall k :: k in second.entries && k in first && first[k].Dict? ==>
         Mergeable(first[k].entries, second.entries[k])
  }

  /** The dictionary `dict_merge(first, second)` leaves in `first`: every key
      of either side; the override's value wins unless both sides hold a
      dictionary there, in which case the two are merged recursively. */
  function Merge(first: Mapping, second: Value): Mapping
    requires Mergeable(first, second)
    decreases second
  {
    map k | k in first.Keys + second.entries.Keys ::
      if k !in second.entries then first[k]
      else if k in first && first[k].Dict? then Dict(Merge(first[k].entries, second.entries[k]))
      else second.entries[k]
  }

  /** Adding one more override key `k` to a mergeable override extends the
      merge by that key alone. */
  lemma MergeStep(first: Mapping, done: Mapping, k: string, v: Value)
    requires Mergeable(first, Dict(done)) && k !in done
    requires k in first && first[k].Dict? ==> Mergeable(first[k].entries, v)
    ensures Mergeable(first, Dict(done[k := v]))
    ensures Merge(first, Dict(done[k := v])) ==
      Merge(first, Dict(done))[k := if k in first && first[k].Dict? then Dict(Merge(first[k].entries, v)) else v]
  {
    var after := Dict(done[k := v]);
    assert Mergeable(first, after);
    var lhs := Merge(first, after);
    var rhs := Merge(first, Dict(done))[k := if k in first && first[k].Dict? then Dict(Merge(first[k].entries, v)) else v];
    assert lhs.Keys == rhs.Keys;
    forall j | j in lhs.Keys ensures lhs[j] == rhs[j] {
    }
  }

  /** dict_merge: walks the keys of `second` in an arbitrary order, recursing
      where `first` holds a dictionary and overwriting (with a copy) otherwise.
      Because maps are values here, updating `acc` plays the part of updating
      `first` in place, and the deep copy is implicit. */
  method DictMerge(first: Mapping, second: Value) returns (r: MergeOutcome)
    ensures r.Merged? <==> Mergeable(first, second)
    ensures r.Merged? ==> r.result == Merge(first, second)
    ensures r.Merged? ==> r.result.Keys == first.Keys + second.entries.Keys
    ensures r.Merged? ==> forall k :: k in first && k !in second.entries ==> r.result[k] == first[k]
    ensures r.Merged? ==> forall k :: k in second.entries && !(k in first && first[k].Dict?) ==>
              r.result[k] == second.entries[k]
    decreases second
  {
    if !second.Dict? {
      return AttributeError;
    }
    var acc := first;
    var todo := second.entries.Keys;
    ghost var done: Mapping := map[];
    while todo != {}
      invariant todo <= second.entries.Keys
      invariant done == map k | k in second.entries && k !in todo :: second.entries[k]
      invariant Mergeable(first, Dict(done))
      invariant acc == Merge(first, Dict(done))
      decreases todo
    {
      var k :| k in todo;
      var v := second.entries[k];
      assert k !in done;
      if k in acc && acc[k].Dict? {
        assert acc[k] == first[k];
        var sub := DictMerge(acc[k].entries, v);
        if sub.AttributeError? {
          assert !Mergeable(first[k].entries, v);
          return AttributeError;
        }
        MergeStep(first, done, k, v);
        acc := acc[k := Dict(sub.result)];
      } else {
        MergeStep(first, done, k, v);
        acc := acc[k := v];
      }
      todo := todo - {k};
      done := done[k := v];
    }
    assert done == second.entries;
    MergeTopLevel(first, second);
    return Merged(acc);
  }

  /** One level of the merge: the key set is the union of both key sets, a
      key only in `first` keeps its value, a key of `second` where `first`
      holds no dictionary takes the override's value, and where `first` holds
      a dictionary its keys not mentioned by the override survive. */
  lemma MergeTopLevel(first: Mapping, second: Value)
    requires Mergeable(first, second)
    ensures Merge(first, second).Keys == first.Keys + second.entries.Keys
    ensures forall k :: k in first && k !in second.entries ==> Merge(first, second)[k] == first[k]
    ensures forall k :: k in second.entries && !(k in first && first[k].Dict?) ==>
              Merge(first, second)[k] == second.entries[k]
    ensures forall k :: k in second.entries && k in first && first[k].Dict? ==>
              && second.entries[k].Dict?
              && Merge(first, second)[k] == Dict(Merge(first[k].entries, second.entries[k]))
    ensures forall k, j ::
              (k in second.entries && k in first && first[k].Dict? && second.entries[k].Dict? &&
               j in first[k].entries && j !in second.entries[k].entries) ==>
              && Merge(first, second)[k].Dict?
              && j in Merge(first, second)[k].entries
              && Merge(first, second)[k].entries[j] == first[k].entries[j]
  {
  }

  /** Every scalar the override holds at some path is what the merged
      dictionary holds at that path: overrides win on conflict. */
  lemma {:induction false} MergeOverrideWins(first: Mapping, second: Value, path: seq<string>, x: string)
    requires Mergeable(first, second)
    requires At(second, path) == Some(Str(x))
    ensures At(Dict(Merge(first, second)), path) == Some(Str(x))
    decreases |path|
  {
    var k := path[0];
    var m := Merge(first, second);
    assert k in second.entries && At(second.entries[k], path[1..]) == Some(Str(x));
    if k in first && first[k].Dict? {
      MergeOverrideWins(first[k].entries, second.entries[k], path[1..], x);
    } else {
      assert m[k] == second.entries[k];
    }
  }

  /** Every path the override does not reach keeps the base's value there:
      template values survive wherever the override is silent. */
  lemma {:induction false} MergeBaseSurvives(first: Mapping, second: Value, path: seq<string>, v: Value)
    requires Mergeable(first, second)
    requires At(Dict(first), path) == Some(v)
    requires At(second, path) == None
    ensures At(Dict(Merge(first, second)), path) == Some(v)
    decreases |path|
  {
    var k := path[0];
    var m := Merge(first, second);
    assert k in first && At(first[k], path[1..]) == Some(v);
    if k !in second.entries {
      assert m[k] == first[k];
    } else if first[k].Dict? {
      assert At(second.entries[k], path[1..]) == None;
      assert first[k] == Dict(first[k].entries);
      MergeBaseSurvives(first[k].entries, second.entries[k], path[1..], v);
    } else {
      assert false;
    }
  }

  /** Nothing is invented: every scalar of the merged dictionary comes from
      the override at the same path, or, where the override reaches nothing,
      from the base. */
  lemma {:induction false} MergeLeafOrigin(first: Mapping, second: Value, path: seq<string>, x: string)
    requires Mergeable(first, second)
    requires At(Dict(Merge(first, second)), path) == Some(Str(x))
    ensures At(second, path) == Some(Str(x)) || (At(second, path) == None && At(Dict(first), path) == Some(Str(x)))
    decreases |path|
  {
    var m := Merge(first, second);
    var k := path[0];
    assert k in m && At(m[k], path[1..]) == Some(Str(x));
    if k !in second.entries {
      assert At(Dict(first), path) == At(first[k], path[1..]);
    } else if k in first && first[k].Dict? {
      MergeLeafOrigin(first[k].entries, second.entries[k], path[1..], x);
      assert At(second, path) == At(second.entries[k], path[1..]);
      assert At(Dict(first), path) == At(Dict(first[k].entries), path[1..]);
    } else {
      assert At(second, path) == At(second.entries[k], path[1..]);
    }
  }

  /** A conflict: a path where the base holds a dictionary and the override
      a scalar. */
  predicate ConflictAt(first: Mapping, second: Value, path: seq<string>)
  {
    && path != []
    && At(Dict(first), path).Some? && At(Dict(first), path).value.Dict?
    && At(second, path).Some? && At(second, path).value.Str?
  }

  /** dict_merge fails exactly when some path of the override holds a scalar
      where the base holds a dictionary (given a dictionary at the top). */
  lemma {:induction false} MergeFailsExactlyOnConflict(first: Mapping, second: Mapping)
    ensures !Mergeable(first, Dict(second)) <==> exists path :: ConflictAt(first, Dict(second), path)
    decreases Dict(second)
  {
    if !Mergeable(first, Dict(second)) {
      var k :| k in second && k in first && first[k].Dict? && !Mergeable(first[k].entries, second[k]);
      assert At(Dict(first), [k]) == Some(first[k]);
      if second[k].Str? {
        assert At(Dict(second), [k]) == Some(second[k]);
        assert ConflictAt(first, Dict(second), [k]);
      } else {
        MergeFailsExactlyOnConflict(first[k].entries, second[k].entries);
        var p :| ConflictAt(first[k].entries, second[k], p);
        assert At(Dict(first), [k] + p) == At(Dict(first[k].entries), p) by {
          assert ([k] + p)[1..] == p;
        }
        assert At(Dict(second), [k] + p) == At(second[k], p) by {
          assert ([k] + p)[1..] == p;
        }
        assert ConflictAt(first, Dict(second), [k] + p);
      }
    } else {
      forall p | ConflictAt(first, Dict(second), p) ensures false {
        NoConflictWhenMergeable(first, Dict(second), p);
      }
    }
  }

  lemma {:induction false} NoConflictWhenMergeable(first: Mapping, second: Value, path: seq<string>)
    requires Mergeable(first, second)
    ensures !ConflictAt(first, second, path)
    decreases |path|
  {
    if ConflictAt(first, second, path) {
      var k, rest := path[0], path[1..];
      assert k in first && At(first[k], rest) == At(Dict(first), path);
      assert k in second.entries && At(second.entries[k], rest) == At(second, path);
      if rest == [] {
        assert false;
      } else {
        assert first[k] == Dict(first[k].entries);
        NoConflictWhenMergeable(first[k].entries, second.entries[k], rest);
        assert false;
      }
    }
  }

  /** Merging a dictionary into itself is possible and changes nothing. */
  lemma {:induction false} MergeSelf(d: Mapping)
    ensures Mergeable(d, Dict(d))
    ensures Merge(d, Dict(d)) == d
    decreases Dict(d)
  {
    forall k | k in d && d[k].Dict?
      ensures Mergeable(d[k].entries, d[k]) && Merge(d[k].entries, d[k]) == d[k].entries
    {
      MergeSelf(d[k].entries);
    }
    assert Mergeable(d, Dict(d));
    var m := Merge(d, Dict(d));
    forall k | k in d ensures m[k] == d[k] {
      if d[k].Dict? {
        assert m[k] == Dict(Merge(d[k].entries, d[k]));
      }
    }
  }

  /** The merged dictionary can take the same override again. */
  lemma {:induction false} MergeableAfterMerge(first: Mapping, second: Value)
    requires Mergeable(first, second)
    ensures Mergeable(Merge(first, second), second)
    decreases second
  {
    var m := Merge(first, second);
    forall k | k in second.entries && k in m && m[k].Dict?
      ensures Mergeable(m[k].entries, second.entries[k])
    {
      if k in first && first[k].Dict? {
        MergeableAfterMerge(first[k].entries, second.entries[k]);
      } else {
        MergeSelf(second.entries[k].entries);
      }
    }
  }

  /** Applying the same override twice gives the same descriptor as once. */
  lemma {:induction false} MergeIdempotent(first: Mapping, second: Value)
    requires Mergeable(first, second)
    ensures Mergeable(Merge(first, second), second)
    ensures Merge(Merge(first, second), second) == Merge(first, second)
    decreases second
  {
    MergeableAfterMerge(first, second);
    var m := Merge(first, second);
    var m2 := Merge(m, second);
    forall k | k in m ensures m2[k] == m[k] {
      if k in second.entries && m[k].Dict? {
        if k in first && first[k].Dict? {
          MergeIdempotent(first[k].entries, second.entries[k]);
        } else {
          MergeSelf(second.entries[k].entries);
        }
      }
    }
  }

  /** An empty override leaves the base as it is. */
  lemma MergeEmptyOverride(first: Mapping)
    ensures Mergeable(first, Dict(map[]))
    ensures Merge(first, Dict(map[])) == first
  {
    assert Merge(first, Dict(map[])).Keys == first.Keys;
  }
}
