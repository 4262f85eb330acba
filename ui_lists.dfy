/** The list-state rules the management screens share: a record list keyed by a string
    id, the `id: String(list.length + 1)` rule of their add handlers, and the
    `list.filter(x => x.id !== id)` of their delete handlers. */
module UiLists {
  import opened Seqs
  import opened Text

  /** The id the add handlers assign to a list of length `n`: `String(n + 1)`. */
  function LengthId(n: nat): string {
    DecimalString(n + 1)
  }

  /** Entry `i` (from 0) carries id `String(i + 1)`: what a list built only by the add
      rule, starting from the screens' initial records, looks like. */
  predicate IdsArePositions<T>(s: seq<T>, key: T -> string) {
    forall i :: 0 <= i < |s| ==> key(s[i]) == DecimalString(i + 1)
  }

  /** No two entries share an id. */
  predicate UniqueKeys<T>(s: seq<T>, key: T -> string) {
    forall i, j :: 0 <= i < j < |s| ==> key(s[i]) != key(s[j])
  }

  /** A positional list has unique ids, and the add rule keeps it positional. */
  lemma PositionalIds<T>(s: seq<T>, key: T -> string, x: T)
    requires IdsArePositions(s, key)
    ensures UniqueKeys(s, key)
    ensures key(x) == LengthId(|s|) ==> IdsArePositions(s + [x], key)
  {
    forall i, j | 0 <= i < j < |s| ensures key(s[i]) != key(s[j]) {
      DecimalStringInjective(i + 1, j + 1);
    }
  }

  // ---------------------------------------------------------------------------
  // Delete by id

  function KeyIsNot<T>(key: T -> string, id: string): T -> bool { (x: T) => key(x) != id }

  /** `list.filter(x => x.id !== id)`. */
  function RemoveKey<T>(s: seq<T>, key: T -> string, id: string): seq<T> {
    Filter(s, KeyIsNot(key, id))
  }

  /** After a delete no entry carries the id, every entry with another id is still there,
      nothing new appears, relative order is kept, and deleting an absent id changes
      nothing. */
  lemma RemoveKeyMeaning<T>(s: seq<T>, t: seq<T>, key: T -> string, id: string)
    ensures forall i :: 0 <= i < |RemoveKey(s, key, id)| ==>
      key(RemoveKey(s, key, id)[i]) != id && RemoveKey(s, key, id)[i] in s
    ensures forall i :: 0 <= i < |s| && key(s[i]) != id ==> s[i] in RemoveKey(s, key, id)
    ensures RemoveKey(s + t, key, id) == RemoveKey(s, key, id) + RemoveKey(t, key, id)
    ensures (forall i :: 0 <= i < |s| ==> key(s[i]) != id) ==> RemoveKey(s, key, id) == s
  {
    FilterConcat(s, t, KeyIsNot(key, id));
    if forall i :: 0 <= i < |s| ==> key(s[i]) != id {
      FilterAllPass(s, KeyIsNot(key, id));
    }
  }

  /** With unique ids, deleting the id of entry `k` removes exactly that entry. */
  lemma RemoveUniqueId<T>(s: seq<T>, key: T -> string, k: nat)
    requires UniqueKeys(s, key) && k < |s|
    ensures RemoveKey(s, key, key(s[k])) == s[..k] + s[k + 1..]
  {
    var p := KeyIsNot(key, key(s[k]));
    var a, b := s[..k], s[k + 1..];
    forall i | 0 <= i < |a| ensures p(a[i]) {
      assert a[i] == s[i];
    }
    forall i | 0 <= i < |b| ensures p(b[i]) {
      assert b[i] == s[k + 1 + i];
    }
    assert s == a + [s[k]] + b;
    FilterDropOne(a, s[k], b, p);
  }

  /** The add rule reuses an id once an entry other than the last has been deleted: the
      new id is the id of the last entry, which is still in the list, so the entry added
      under it leaves two entries sharing an id. */
  lemma AddAfterRemoveReusesId<T>(s: seq<T>, key: T -> string, k: nat, x: T)
    requires IdsArePositions(s, key) && k + 1 < |s|
    ensures var rest := RemoveKey(s, key, key(s[k]));
      && |rest| + 1 == |s|
      && LengthId(|rest|) == key(s[|s| - 1])
      && s[|s| - 1] in rest
      && (key(x) == LengthId(|rest|) ==> !UniqueKeys(rest + [x], key))
  {
    PositionalIds(s, key, s[0]);
    RemoveUniqueId(s, key, k);
    var rest := RemoveKey(s, key, key(s[k]));
    assert rest[|rest| - 1] == s[|s| - 1];
    if key(x) == LengthId(|rest|) {
      var after := rest + [x];
      assert after[|rest| - 1] == rest[|rest| - 1] && after[|rest|] == x;
      assert key(after[|rest| - 1]) == key(after[|rest|]);
    }
  }

  // ---------------------------------------------------------------------------
  // An id rule that never collides

  predicate NumericKeys<T>(s: seq<T>, key: T -> string) {
    forall i :: 0 <= i < |s| ==> AllDigits(key(s[i]))
  }

  /** The largest number an id spells. */
  function MaxNumericId<T>(s: seq<T>, key: T -> string): (m: nat)
    requires NumericKeys(s, key)
    ensures forall i :: 0 <= i < |s| ==> ParseDecimal(key(s[i])) <= m
    ensures s == [] ==> m == 0
    ensures s != [] ==> exists i :: 0 <= i < |s| && ParseDecimal(key(s[i])) == m
  {
    if s == [] then 0
    else
      var init := s[..|s| - 1];
      var m0 := MaxNumericId(init, key);
      assert forall i :: 0 <= i < |init| ==> init[i] == s[i];
      var last := ParseDecimal(key(s[|s| - 1]));
      if last > m0 then last else m0
  }

  /** One more than the largest id in use: never an id already present. */
  function FreshId<T>(s: seq<T>, key: T -> string): (r: string)
    requires NumericKeys(s, key)
    ensures AllDigits(r)
    ensures forall i :: 0 <= i < |s| ==> key(s[i]) != r
  {
    var m := MaxNumericId(s, key);
    ParseDecimalString(m + 1);
    DecimalString(m + 1)
  }

  /** As long as nothing has been deleted, the fresh id is the id the add rule assigns. */
  lemma {:induction false} FreshIdOnPositionalIds<T>(s: seq<T>, key: T -> string)
    requires IdsArePositions(s, key)
    ensures NumericKeys(s, key) && MaxNumericId(s, key) == |s|
    ensures FreshId(s, key) == LengthId(|s|)
  {
    if s != [] {
      var init := s[..|s| - 1];
      assert forall i :: 0 <= i < |init| ==> init[i] == s[i];
      FreshIdOnPositionalIds(init, key);
      ParseDecimalString(|s|);
    }
  }

  /** Appending an entry under the fresh rule keeps ids numeric, keeps unique ids unique,
      and, on a positional list, assigns the id the add rule would. */
  lemma FreshAppend<T>(s: seq<T>, key: T -> string, x: T)
    requires NumericKeys(s, key) && key(x) == FreshId(s, key)
    ensures NumericKeys(s + [x], key)
    ensures UniqueKeys(s, key) ==> UniqueKeys(s + [x], key)
    ensures IdsArePositions(s, key) ==> key(x) == LengthId(|s|)
  {
    var s' := s + [x];
    forall i | 0 <= i < |s'| ensures AllDigits(key(s'[i])) {
      if i < |s| {
        assert s'[i] == s[i];
      }
    }
    if UniqueKeys(s, key) {
      forall i, j | 0 <= i < j < |s'| ensures key(s'[i]) != key(s'[j]) {
        if j == |s| {
          assert s'[i] == s[i];
        } else {
          assert s'[i] == s[i] && s'[j] == s[j];
        }
      }
    }
    if IdsArePositions(s, key) {
      FreshIdOnPositionalIds(s, key);
    }
  }

  /** Filtering keeps ids unique and numeric, whatever the filter keeps. */
  lemma {:induction false} RemoveKeepsUnique<T>(s: seq<T>, key: T -> string, id: string)
    requires UniqueKeys(s, key) && NumericKeys(s, key)
    ensures UniqueKeys(RemoveKey(s, key, id), key) && NumericKeys(RemoveKey(s, key, id), key)
  {
    if s != [] {
      var rest := s[1..];
      assert UniqueKeys(rest, key) by {
        forall i, j | 0 <= i < j < |rest| ensures key(rest[i]) != key(rest[j]) {
          assert rest[i] == s[i + 1] && rest[j] == s[j + 1];
        }
      }
      RemoveKeepsUnique(rest, key, id);
      var tail := RemoveKey(rest, key, id);
      assert RemoveKey(s, key, id) == (if key(s[0]) != id then [s[0]] else []) + tail;
      forall i | 0 <= i < |tail| ensures key(tail[i]) != key(s[0]) {
        var j :| 0 <= j < |rest| && rest[j] == tail[i];
        assert s[j + 1] == tail[i];
      }
    }
  }
}
