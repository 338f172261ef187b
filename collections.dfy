/** The three list transforms every resource page applies to its `data` state after a
    successful request: the spread-append `[...prevData, record]` of a create, the
    `prevData.map(r => r.id === selected.id ? form : r)` of an edit and the
    `prevData.filter(r => r.id !== selected.id)` of a delete. They are generic in the
    record type and take the record's id field as a projection `id`. */
module Collections {

  /** The collection after a create: the server's record goes at the end and every
      earlier record keeps its place. */
  function Append<T>(s: seq<T>, x: T): (r: seq<T>)
    ensures |r| == |s| + 1
    ensures r[..|s|] == s && r[|s|] == x
  {
    s + [x]
  }

  /** The collection after an edit: each record whose id is `key` becomes `x`. */
  function ReplaceById<T, K(==)>(s: seq<T>, id: T -> K, key: K, x: T): (r: seq<T>)
    ensures |r| == |s|
  {
    if s == [] then []
    else [if id(s[0]) == key then x else s[0]] + ReplaceById(s[1..], id, key, x)
  }

  /** The collection after a delete: the records whose id is not `key`, in their order. */
  function RemoveById<T, K(==)>(s: seq<T>, id: T -> K, key: K): (r: seq<T>)
    ensures |r| <= |s|
  {
    if s == [] then []
    else if id(s[0]) == key then RemoveById(s[1..], id, key)
    else [s[0]] + RemoveById(s[1..], id, key)
  }

  /** No record of `s` carries the id `key`. */
  predicate NoneWithId<T, K(==)>(s: seq<T>, id: T -> K, key: K) {
    forall i :: 0 <= i < |s| ==> id(s[i]) != key
  }

  // ---------------------------------------------------------------------------
  // Create

  /** A created record whose id was not yet in the collection appears in it exactly
      once afterwards, at the end. */
  lemma AppendFreshOnce<T, K>(s: seq<T>, id: T -> K, x: T)
    requires NoneWithId(s, id, id(x))
    ensures forall i :: 0 <= i < |Append(s, x)| ==> (id(Append(s, x)[i]) == id(x) <==> i == |s|)
  {
  }

  // ---------------------------------------------------------------------------
  // Edit

  /** Exactly the records carrying the selected id are replaced by the form record;
      every other record stays where it was, and the length does not change. */
  lemma {:induction false} ReplaceByIdSpec<T, K>(s: seq<T>, id: T -> K, key: K, x: T)
    ensures |ReplaceById(s, id, key, x)| == |s|
    ensures forall i :: 0 <= i < |s| ==>
      ReplaceById(s, id, key, x)[i] == (if id(s[i]) == key then x else s[i])
  {
    if s != [] {
      ReplaceByIdSpec(s[1..], id, key, x);
      var r := ReplaceById(s, id, key, x);
      forall i | 0 <= i < |s|
        ensures r[i] == (if id(s[i]) == key then x else s[i])
      {
        if i > 0 {
          assert r[i] == ReplaceById(s[1..], id, key, x)[i - 1];
        }
      }
    }
  }

  /** Editing a record no row carries leaves the collection as it was. */
  lemma ReplaceByIdAbsent<T, K>(s: seq<T>, id: T -> K, key: K, x: T)
    requires NoneWithId(s, id, key)
    ensures ReplaceById(s, id, key, x) == s
  {
    ReplaceByIdSpec(s, id, key, x);
  }

  /** Saving the same edit twice gives what saving it once gave. */
  lemma ReplaceByIdIdempotent<T, K>(s: seq<T>, id: T -> K, key: K, x: T)
    ensures ReplaceById(ReplaceById(s, id, key, x), id, key, x) == ReplaceById(s, id, key, x)
  {
    var r := ReplaceById(s, id, key, x);
    ReplaceByIdSpec(s, id, key, x);
    ReplaceByIdSpec(r, id, key, x);
  }

  /** When the form keeps the selected id (the edit click copies the row into the form),
      the ids of the collection are exactly those it had before. */
  lemma ReplaceByIdKeepsIds<T, K>(s: seq<T>, id: T -> K, key: K, x: T)
    requires id(x) == key
    ensures forall i :: 0 <= i < |s| ==> id(ReplaceById(s, id, key, x)[i]) == id(s[i])
  {
    ReplaceByIdSpec(s, id, key, x);
  }

  // ---------------------------------------------------------------------------
  // Delete

  /** A record is kept by the delete if and only if it was there and does not carry the
      deleted id; in particular no record with that id is left. */
  lemma {:induction false} RemoveByIdMembers<T, K>(s: seq<T>, id: T -> K, key: K)
    ensures forall y :: y in RemoveById(s, id, key) <==> (y in s && id(y) != key)
  {
    if s != [] {
      RemoveByIdMembers(s[1..], id, key);
      assert s == [s[0]] + s[1..];
    }
  }

  /** No record with the deleted id is left. */
  lemma {:induction false} RemoveByIdNoneLeft<T, K>(s: seq<T>, id: T -> K, key: K)
    ensures NoneWithId(RemoveById(s, id, key), id, key)
  {
    if s != [] {
      RemoveByIdNoneLeft(s[1..], id, key);
      var t := RemoveById(s[1..], id, key);
      if id(s[0]) != key {
        var r := [s[0]] + t;
        forall i | 0 <= i < |r| ensures id(r[i]) != key {
          if i > 0 { assert r[i] == t[i - 1]; }
        }
      }
    }
  }

  /** The delete works segment by segment: filtering a concatenation is concatenating the
      filtered parts, so the records that stay keep their relative order. */
  lemma {:induction false} RemoveByIdConcat<T, K>(a: seq<T>, b: seq<T>, id: T -> K, key: K)
    ensures RemoveById(a + b, id, key) == RemoveById(a, id, key) + RemoveById(b, id, key)
  {
    if a == [] {
      assert a + b == b;
    } else {
      var ab := a + b;
      assert ab != [] && ab[0] == a[0];
      assert ab[1..] == a[1..] + b;
      RemoveByIdConcat(a[1..], b, id, key);
      var rest := RemoveById(a[1..], id, key);
      if id(a[0]) == key {
        assert RemoveById(ab, id, key) == RemoveById(a[1..] + b, id, key);
      } else {
        assert RemoveById(ab, id, key) == [a[0]] + (rest + RemoveById(b, id, key));
        assert RemoveById(a, id, key) == [a[0]] + rest;
      }
    }
  }

  /** Deleting an id no record carries leaves the collection as it was. */
  lemma {:induction false} RemoveByIdAbsent<T, K>(s: seq<T>, id: T -> K, key: K)
    requires NoneWithId(s, id, key)
    ensures RemoveById(s, id, key) == s
  {
    if s != [] {
      RemoveByIdAbsent(s[1..], id, key);
      assert s == [s[0]] + s[1..];
    }
  }

  /** The collection shrinks if and only if some record carried the deleted id. */
  lemma {:induction false} RemoveByIdShrinks<T, K>(s: seq<T>, id: T -> K, key: K)
    ensures |RemoveById(s, id, key)| < |s| <==> !NoneWithId(s, id, key)
  {
    if s != [] {
      RemoveByIdShrinks(s[1..], id, key);
      if NoneWithId(s[1..], id, key) && id(s[0]) != key {
        assert NoneWithId(s, id, key) by {
          forall i | 0 <= i < |s| ensures id(s[i]) != key {
            if i > 0 { assert s[i] == s[1..][i - 1]; }
          }
        }
      }
      if !NoneWithId(s[1..], id, key) {
        var j :| 0 <= j < |s[1..]| && id(s[1..][j]) == key;
        assert id(s[j + 1]) == key;
      }
    }
  }

  /** Confirming the same delete twice gives what confirming it once gave. */
  lemma RemoveByIdIdempotent<T, K>(s: seq<T>, id: T -> K, key: K)
    ensures RemoveById(RemoveById(s, id, key), id, key) == RemoveById(s, id, key)
  {
    RemoveByIdNoneLeft(s, id, key);
    RemoveByIdAbsent(RemoveById(s, id, key), id, key);
  }

  // ---------------------------------------------------------------------------
  // How the transforms combine

  /** Deleting the id of a record just created takes it out again, and leaves what the
      same delete would have left before the create. */
  lemma AppendThenRemove<T, K>(s: seq<T>, id: T -> K, x: T)
    ensures RemoveById(Append(s, x), id, id(x)) == RemoveById(s, id, id(x))
  {
    RemoveByIdConcat(s, [x], id, id(x));
    assert RemoveById([x], id, id(x)) == [];
  }

  /** Deleting after an edit that kept the id leaves what deleting alone leaves. */
  lemma {:induction false} ReplaceThenRemove<T, K>(s: seq<T>, id: T -> K, key: K, x: T)
    requires id(x) == key
    ensures RemoveById(ReplaceById(s, id, key, x), id, key) == RemoveById(s, id, key)
  {
    if s != [] {
      ReplaceThenRemove(s[1..], id, key, x);
    }
  }
}
