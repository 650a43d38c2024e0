/**
 * The list semantics behind `LivroService`: the first-match lookup of a
 * stream `filter(...).findFirst()`, `List.remove(Object)`, `List.removeIf`,
 * and the catalog that an update leaves behind, with the properties that
 * lookup, add, update and delete have on a catalog.
 */
module Catalog {
  import opened Wrappers
  import opened Model

  /** Some record of the catalog has id `id`. */
  predicate HasId(s: seq<LivroRecord>, id: Uuid)
  {
    exists i :: 0 <= i < |s| && s[i].id == id
  }

  /** No two records of the catalog share an id. */
  predicate UniqueIds(s: seq<LivroRecord>)
  {
    forall i, j :: 0 <= i < j < |s| ==> s[i].id != s[j].id
  }

  /** The number of records with id `id`. */
  function CountId(s: seq<LivroRecord>, id: Uuid): (n: nat)
    ensures n <= |s|
  {
    if s == [] then 0 else (if s[0].id == id then 1 else 0) + CountId(s[1..], id)
  }

  /** The position of the first record with id `id`, or `|s|` when there is none. */
  function FirstIndex(s: seq<LivroRecord>, id: Uuid): (k: nat)
    ensures k <= |s|
    ensures forall j :: 0 <= j < k ==> s[j].id != id
    ensures k < |s| ==> s[k].id == id
    ensures k < |s| <==> HasId(s, id)
  {
    if s == [] then 0
    else if s[0].id == id then 0
    else 1 + FirstIndex(s[1..], id)
  }

  /** `stream().filter(l -> l.getId().equals(id)).findFirst()`. */
  function FindFirst(s: seq<LivroRecord>, id: Uuid): (r: Option<LivroRecord>)
    ensures r.None? <==> !HasId(s, id)
    ensures r.Some? ==>
      exists k :: 0 <= k < |s| && s[k] == r.value && r.value.id == id &&
                  forall j :: 0 <= j < k ==> s[j].id != id
  {
    var k := FirstIndex(s, id);
    if k < |s| then Some(s[k]) else None
  }

  /** `List.remove(Object)`: drops the first occurrence of `x`, if any. */
  function RemoveFirst(s: seq<LivroRecord>, x: LivroRecord): (r: seq<LivroRecord>)
    ensures x in s ==> |r| == |s| - 1
    ensures x !in s ==> r == s
  {
    if s == [] then []
    else if s[0] == x then s[1..]
    else [s[0]] + RemoveFirst(s[1..], x)
  }

  /** The position of the first occurrence of `x`. */
  function IndexOf(s: seq<LivroRecord>, x: LivroRecord): (k: nat)
    requires x in s
    ensures k < |s| && s[k] == x && x !in s[..k]
  {
    if s[0] == x then 0 else 1 + IndexOf(s[1..], x)
  }

  /** `List.remove(Object)` takes out the first occurrence and keeps the rest in order. */
  lemma {:induction false} RemoveFirstAt(s: seq<LivroRecord>, x: LivroRecord)
    requires x in s
    ensures RemoveFirst(s, x) == s[..IndexOf(s, x)] + s[IndexOf(s, x) + 1..]
  {
    if s[0] != x {
      var k := IndexOf(s, x);
      assert x in s[1..] && IndexOf(s[1..], x) == k - 1;
      assert RemoveFirst(s, x) == [s[0]] + RemoveFirst(s[1..], x);
      RemoveFirstAt(s[1..], x);
      assert s[..k] == [s[0]] + s[1..][..k - 1];
      assert s[k + 1..] == s[1..][k..];
    }
  }

  /** `List.removeIf(l -> l.getId().equals(id))`: the records whose id is not `id`, in order. */
  function RemoveAllWithId(s: seq<LivroRecord>, id: Uuid): (r: seq<LivroRecord>)
    ensures |r| <= |s|
  {
    if s == [] then []
    else if s[0].id == id then RemoveAllWithId(s[1..], id)
    else [s[0]] + RemoveAllWithId(s[1..], id)
  }

  /**
   * What `removeIf` keeps: no record with the id, only records of the list,
   * every record without the id, and the length less the number of matches.
   */
  lemma {:induction false} RemoveAllWithIdSpec(s: seq<LivroRecord>, id: Uuid)
    ensures forall i :: 0 <= i < |RemoveAllWithId(s, id)| ==> RemoveAllWithId(s, id)[i].id != id
    ensures forall x :: x in RemoveAllWithId(s, id) ==> x in s
    ensures forall x :: x in s && x.id != id ==> x in RemoveAllWithId(s, id)
    ensures |RemoveAllWithId(s, id)| == |s| - CountId(s, id)
  {
    if s != [] {
      RemoveAllWithIdSpec(s[1..], id);
      assert s == [s[0]] + s[1..];
    }
  }

  /**
   * The catalog after a successful update with `b`: the first record with
   * `b.id` taken out, `b` appended at the end.
   */
  function Updated(s: seq<LivroRecord>, b: LivroRecord): (r: seq<LivroRecord>)
    requires HasId(s, b.id)
    ensures |r| == |s|
    ensures r[|s| - 1] == b
  {
    var k := FirstIndex(s, b.id);
    s[..k] + s[k + 1..] + [b]
  }

  /** An update takes out exactly one record, the first with the id, and adds the new one. */
  lemma UpdatedReplacesFirst(s: seq<LivroRecord>, b: LivroRecord)
    requires HasId(s, b.id)
    ensures multiset(Updated(s, b)) == multiset(s) - multiset{s[FirstIndex(s, b.id)]} + multiset{b}
  {
    MultisetReplaceAt(s, FirstIndex(s, b.id), b);
  }

  lemma MultisetReplaceAt(s: seq<LivroRecord>, k: nat, b: LivroRecord)
    requires k < |s|
    ensures multiset(s[..k] + s[k + 1..] + [b]) == multiset(s) - multiset{s[k]} + multiset{b}
  {
    assert s == s[..k] + [s[k]] + s[k + 1..];
  }

  // ---- Lookup and the first match ----

  /** Removing the record that the lookup found is removing the first record with that id. */
  lemma {:induction false} RemoveFirstAtFirstIndex(s: seq<LivroRecord>, id: Uuid)
    requires HasId(s, id)
    ensures RemoveFirst(s, s[FirstIndex(s, id)]) == s[..FirstIndex(s, id)] + s[FirstIndex(s, id) + 1..]
  {
    var k := FirstIndex(s, id);
    if s[0].id != id {
      assert s[0] != s[k];
      var t := s[1..];
      assert HasId(t, id) by { assert t[k - 1].id == id; }
      RemoveFirstAtFirstIndex(t, id);
      assert FirstIndex(t, id) == k - 1;
      assert s[..k] == [s[0]] + t[..k - 1];
      assert s[k + 1..] == t[k..];
    }
  }

  /** The number of records with an id is positive exactly when the id is present. */
  lemma {:induction false} CountIdPositive(s: seq<LivroRecord>, id: Uuid)
    ensures CountId(s, id) > 0 <==> HasId(s, id)
  {
    if s != [] {
      CountIdPositive(s[1..], id);
      if s[0].id != id && HasId(s, id) {
        var i :| 0 <= i < |s| && s[i].id == id;
        assert s[1..][i - 1].id == id;
      }
      if HasId(s[1..], id) {
        var i :| 0 <= i < |s[1..]| && s[1..][i].id == id;
        assert s[i + 1].id == id;
      }
    }
  }

  // ---- Delete ----

  /**
   * `removeIf` reports a removal exactly when some record had the id, and it
   * leaves a catalog without that id as it was.
   */
  lemma RemoveIfReportsMatch(s: seq<LivroRecord>, id: Uuid)
    ensures |RemoveAllWithId(s, id)| < |s| <==> HasId(s, id)
    ensures !HasId(s, id) ==> RemoveAllWithId(s, id) == s
  {
    CountIdPositive(s, id);
    RemoveAllWithIdSpec(s, id);
    if !HasId(s, id) {
      NoMatchKeepsAll(s, id);
    }
  }

  lemma {:induction false} NoMatchKeepsAll(s: seq<LivroRecord>, id: Uuid)
    requires !HasId(s, id)
    ensures RemoveAllWithId(s, id) == s
  {
    if s != [] {
      assert s[0].id != id;
      assert !HasId(s[1..], id);
      NoMatchKeepsAll(s[1..], id);
      assert s == [s[0]] + s[1..];
    }
  }

  /**
   * `removeIf` works element by element: on a concatenation it is the
   * concatenation of its results, so the kept records stay in their order.
   */
  lemma {:induction false} RemoveAllWithIdAppend(a: seq<LivroRecord>, b: seq<LivroRecord>, id: Uuid)
    ensures RemoveAllWithId(a + b, id) == RemoveAllWithId(a, id) + RemoveAllWithId(b, id)
  {
    if a == [] {
      assert a + b == b;
    } else {
      var c := a + b;
      assert c[0] == a[0] && c[1..] == a[1..] + b;
      RemoveAllWithIdAppend(a[1..], b, id);
      if a[0].id == id {
        assert RemoveAllWithId(c, id) == RemoveAllWithId(c[1..], id);
        assert RemoveAllWithId(a, id) == RemoveAllWithId(a[1..], id);
      } else {
        assert RemoveAllWithId(c, id) == [a[0]] + RemoveAllWithId(c[1..], id);
        assert RemoveAllWithId(a, id) == [a[0]] + RemoveAllWithId(a[1..], id);
      }
    }
  }

  /** Deleting keeps the ids of a catalog unique. */
  lemma {:induction false} RemoveAllKeepsUnique(s: seq<LivroRecord>, id: Uuid)
    requires UniqueIds(s)
    ensures UniqueIds(RemoveAllWithId(s, id))
  {
    if s != [] {
      var t := s[1..];
      UniqueTail(s);
      RemoveAllKeepsUnique(t, id);
      if s[0].id != id {
        var rt := RemoveAllWithId(t, id);
        RemoveAllWithIdSpec(t, id);
        NoIdInPart(rt, t, s[0].id);
        UniqueCons(s[0], rt);
      }
    }
  }

  lemma UniqueTail(s: seq<LivroRecord>)
    requires UniqueIds(s) && s != []
    ensures UniqueIds(s[1..]) && !HasId(s[1..], s[0].id)
  {
    var t := s[1..];
    forall i, j | 0 <= i < j < |t| ensures t[i].id != t[j].id {
      assert t[i] == s[i + 1] && t[j] == s[j + 1];
    }
    forall i | 0 <= i < |t| ensures t[i].id != s[0].id {
      assert t[i] == s[i + 1];
    }
  }

  lemma UniqueCons(x: LivroRecord, t: seq<LivroRecord>)
    requires UniqueIds(t) && !HasId(t, x.id)
    ensures UniqueIds([x] + t)
  {
    var r := [x] + t;
    forall i, j | 0 <= i < j < |r| ensures r[i].id != r[j].id {
      assert r[j] == t[j - 1];
      if i > 0 { assert r[i] == t[i - 1]; }
    }
  }

  lemma NoIdInPart(r: seq<LivroRecord>, t: seq<LivroRecord>, id: Uuid)
    requires forall x :: x in r ==> x in t
    requires !HasId(t, id)
    ensures !HasId(r, id)
  {
    forall i | 0 <= i < |r| ensures r[i].id != id {
      assert r[i] in t;
    }
  }

  // ---- Add ----

  /** Appending keeps ids unique exactly when the appended id is new. */
  lemma AppendUnique(s: seq<LivroRecord>, b: LivroRecord)
    ensures UniqueIds(s + [b]) <==> UniqueIds(s) && !HasId(s, b.id)
  {
    var t := s + [b];
    if UniqueIds(t) {
      assert UniqueIds(s) by {
        forall i, j | 0 <= i < j < |s| ensures s[i].id != s[j].id {
          assert t[i] == s[i] && t[j] == s[j];
        }
      }
      assert !HasId(s, b.id) by {
        forall i | 0 <= i < |s| ensures s[i].id != b.id {
          assert t[i] == s[i] && t[|s|] == b;
        }
      }
    }
  }

  /**
   * A lookup after an append finds the old first match when the id was
   * already present; only a new id finds the appended record.
   */
  lemma FindAfterAppend(s: seq<LivroRecord>, b: LivroRecord, id: Uuid)
    ensures FindFirst(s + [b], id) ==
      if HasId(s, id) then FindFirst(s, id)
      else if b.id == id then Some(b)
      else None
  {
    var t := s + [b];
    var k := FirstIndex(t, id);
    var k0 := FirstIndex(s, id);
    if HasId(s, id) {
      assert t[k0].id == id;
      assert k <= k0;
      assert k == k0;
    } else if b.id == id {
      assert t[|s|].id == id;
      assert k == |s|;
    }
  }

  // ---- Update ----

  /**
   * Apart from the records with the updated id, an update changes nothing:
   * the other records keep their relative order.
   */
  lemma UpdatedKeepsOthers(s: seq<LivroRecord>, b: LivroRecord)
    requires HasId(s, b.id)
    ensures RemoveAllWithId(Updated(s, b), b.id) == RemoveAllWithId(s, b.id)
  {
    var k := FirstIndex(s, b.id);
    RemoveAllAtMatch(s, k, b.id);
    RemoveAllWithIdAppend(s[..k] + s[k + 1..], [b], b.id);
    assert RemoveAllWithId([b], b.id) == [];
  }

  /** Dropping one record that has the id does not change what `removeIf` keeps. */
  lemma RemoveAllAtMatch(s: seq<LivroRecord>, k: nat, id: Uuid)
    requires k < |s| && s[k].id == id
    ensures RemoveAllWithId(s[..k] + s[k + 1..], id) == RemoveAllWithId(s, id)
  {
    var pre, post := s[..k], s[k + 1..];
    assert s == pre + ([s[k]] + post);
    RemoveAllWithIdAppend(pre, [s[k]] + post, id);
    RemoveAllWithIdAppend([s[k]], post, id);
    assert RemoveAllWithId([s[k]], id) == [];
    RemoveAllWithIdAppend(pre, post, id);
  }

  /** On a catalog with unique ids, update takes out the only record with that id. */
  lemma UpdatedRemovesOnlyMatch(s: seq<LivroRecord>, b: LivroRecord)
    requires UniqueIds(s) && HasId(s, b.id)
    ensures !HasId(s[..FirstIndex(s, b.id)] + s[FirstIndex(s, b.id) + 1..], b.id)
  {
  }

  /** Update keeps the ids of a catalog unique. */
  lemma UpdatedKeepsUnique(s: seq<LivroRecord>, b: LivroRecord)
    requires UniqueIds(s) && HasId(s, b.id)
    ensures UniqueIds(Updated(s, b))
  {
    var k := FirstIndex(s, b.id);
    UpdatedRemovesOnlyMatch(s, b);
    UniqueWithoutAt(s, k);
    AppendUnique(s[..k] + s[k + 1..], b);
  }

  /** Dropping one record keeps the ids unique. */
  lemma UniqueWithoutAt(s: seq<LivroRecord>, k: nat)
    requires UniqueIds(s) && k < |s|
    ensures UniqueIds(s[..k] + s[k + 1..])
  {
    var t := s[..k] + s[k + 1..];
    forall i, j | 0 <= i < j < |t| ensures t[i].id != t[j].id {
      var i' := if i < k then i else i + 1;
      var j' := if j < k then j else j + 1;
      assert t[i] == s[i'] && t[j] == s[j'];
    }
  }

  /** On a catalog with unique ids, a lookup of the updated id finds the new record. */
  lemma FindAfterUpdate(s: seq<LivroRecord>, b: LivroRecord)
    requires UniqueIds(s) && HasId(s, b.id)
    ensures FindFirst(Updated(s, b), b.id) == Some(b)
  {
    var k := FirstIndex(s, b.id);
    UpdatedRemovesOnlyMatch(s, b);
    FindAfterAppend(s[..k] + s[k + 1..], b, b.id);
  }

  /**
   * With a duplicate id (which add does not prevent), a lookup after update
   * finds the next old record with that id, not the new one.
   */
  lemma FindAfterUpdateWithDuplicate(s: seq<LivroRecord>, b: LivroRecord)
    requires HasId(s, b.id)
    requires HasId(s[FirstIndex(s, b.id) + 1..], b.id)
    ensures FindFirst(Updated(s, b), b.id) == FindFirst(s[FirstIndex(s, b.id) + 1..], b.id)
  {
    var k := FirstIndex(s, b.id);
    var p, u := s[..k], s[k + 1..];
    assert !HasId(p, b.id);
    FindAfterPrefix(p, u, b.id);
    FindAfterAppend(p + u, b, b.id);
  }

  /** A lookup behind a prefix without the id finds what it finds in the rest. */
  lemma FindAfterPrefix(p: seq<LivroRecord>, u: seq<LivroRecord>, id: Uuid)
    requires !HasId(p, id)
    ensures FindFirst(p + u, id) == FindFirst(u, id)
  {
    FirstIndexAfterPrefix(p, u, id);
    var ku := FirstIndex(u, id);
    if ku < |u| {
      assert (p + u)[|p| + ku] == u[ku];
    }
  }

  /** Behind a prefix without the id, the first match is the first match of the rest, shifted. */
  lemma {:induction false} FirstIndexAfterPrefix(p: seq<LivroRecord>, u: seq<LivroRecord>, id: Uuid)
    requires !HasId(p, id)
    ensures FirstIndex(p + u, id) == |p| + FirstIndex(u, id)
  {
    if p != [] {
      assert p[0].id != id;
      assert !HasId(p[1..], id) by {
        forall i | 0 <= i < |p[1..]| ensures p[1..][i].id != id {
          assert p[1..][i] == p[i + 1];
        }
      }
      FirstIndexAfterPrefix(p[1..], u, id);
      assert (p + u)[0] == p[0] && (p + u)[1..] == p[1..] + u;
    } else {
      assert p + u == u;
    }
  }
}
