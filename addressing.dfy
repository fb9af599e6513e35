/**
 * Card addressing in Tabletop Simulator decks, shared by both deck
 * encoders: each distinct face sheet of a deck gets an index 1..k, and a
 * card's id is 100 times its sheet's index plus its slot on the sheet.
 */
module Addressing {
  import opened Strings

  /** Some face has index `i`. */
  predicate Used(idx: map<string, nat>, i: nat) {
    exists f :: f in idx && idx[f] == i
  }

  /** Every face of `idx` has an index in 1..k, no two faces share one, and every index is used. */
  predicate Bijective(idx: map<string, nat>, k: nat) {
    && (forall f :: f in idx ==> 1 <= idx[f] <= k)
    && (forall f, g :: f in idx && g in idx && idx[f] == idx[g] ==> f == g)
    && (forall i :: 1 <= i <= k ==> Used(idx, i))
  }

  /**
   * `{face: i + 1 for i, face in enumerate(set(faces))}`. Python's set
   * iteration order is not specified, so neither is which face gets which
   * index: the result is some bijection from the faces onto 1..k.
   */
  method IndexFaces(faces: set<string>) returns (idx: map<string, nat>)
    ensures idx.Keys == faces
    ensures Bijective(idx, |faces|)
  {
    idx := map[];
    var remaining := faces;
    var i := 0;
    while remaining != {}
      invariant Indexed(idx, remaining, faces, i)
      decreases |remaining|
    {
      var f :| f in remaining;
      IndexStep(idx, remaining, faces, i, f);
      idx := idx[f := i + 1];
      remaining := remaining - {f};
      i := i + 1;
    }
  }

  /** The loop state: `idx` numbers the faces taken so far 1..i, `remaining` holds the rest. */
  predicate Indexed(idx: map<string, nat>, remaining: set<string>, faces: set<string>, i: nat) {
    && idx.Keys + remaining == faces && idx.Keys !! remaining
    && i == |idx.Keys| && i + |remaining| == |faces|
    && Bijective(idx, i)
  }

  /** Taking one more face keeps the loop state. */
  lemma IndexStep(idx: map<string, nat>, remaining: set<string>, faces: set<string>, i: nat, f: string)
    requires Indexed(idx, remaining, faces, i) && f in remaining
    ensures Indexed(idx[f := i + 1], remaining - {f}, faces, i + 1)
  {
    AddFace(idx, i, f);
    assert (idx[f := i + 1]).Keys == idx.Keys + {f};
    MoveOne(idx.Keys, remaining, faces, f);
  }

  lemma MoveOne(taken: set<string>, remaining: set<string>, faces: set<string>, f: string)
    requires taken + remaining == faces && taken !! remaining && f in remaining
    ensures (taken + {f}) + (remaining - {f}) == faces && (taken + {f}) !! (remaining - {f})
    ensures |taken + {f}| == |taken| + 1 && |remaining - {f}| == |remaining| - 1
  {
  }

  /** Giving a new face the next index keeps the map a bijection. */
  lemma AddFace(idx: map<string, nat>, k: nat, f: string)
    requires Bijective(idx, k) && f !in idx
    ensures Bijective(idx[f := k + 1], k + 1)
  {
    var next := idx[f := k + 1];
    forall j | 1 <= j <= k + 1 ensures Used(next, j) {
      if j == k + 1 {
        assert next[f] == j;
      } else {
        assert Used(idx, j);
        var g :| g in idx && idx[g] == j;
        assert g in next && next[g] == j;
      }
    }
  }

  /** `100 * face_index + index` */
  function CardId(faceIndex: nat, slot: int): int {
    100 * faceIndex + slot
  }

  /** With a slot below 100, the face index and the slot can be read back from the id. */
  lemma CardIdDecode(faceIndex: nat, slot: int)
    requires 0 <= slot < 100
    ensures CardId(faceIndex, slot) / 100 == faceIndex
    ensures CardId(faceIndex, slot) % 100 == slot
  {
  }

  /** So cards on different sheets, or in different slots of one sheet, get different ids. */
  lemma CardIdInjective(f1: nat, s1: int, f2: nat, s2: int)
    requires 0 <= s1 < 100 && 0 <= s2 < 100
    ensures CardId(f1, s1) == CardId(f2, s2) ==> f1 == f2 && s1 == s2
  {
    CardIdDecode(f1, s1);
    CardIdDecode(f2, s2);
  }

  /** The CustomDeck keys: `str(i)` for every index in use. */
  function DeckKeys(idx: map<string, nat>): set<string> {
    set f | f in idx :: NatStr(idx[f])
  }

  /** Distinct faces get distinct CustomDeck keys. */
  lemma DeckKeysInjective(idx: map<string, nat>, k: nat)
    requires Bijective(idx, k)
    ensures forall f, g :: f in idx && g in idx && NatStr(idx[f]) == NatStr(idx[g]) ==> f == g
  {
    forall f, g | f in idx && g in idx && NatStr(idx[f]) == NatStr(idx[g]) ensures f == g {
      NatStrInjective(idx[f], idx[g]);
    }
  }

  /** "1" .. str(k) */
  function KeyRange(k: nat): set<string> {
    set i: nat | 1 <= i <= k :: NatStr(i)
  }

  /** The CustomDeck keys are exactly "1" .. str(k). */
  lemma DeckKeysRange(idx: map<string, nat>, k: nat)
    requires Bijective(idx, k)
    ensures DeckKeys(idx) == KeyRange(k)
  {
    var r := KeyRange(k);
    forall s | s in DeckKeys(idx) ensures s in r {
      var f :| f in idx && s == NatStr(idx[f]);
      assert 1 <= idx[f] <= k;
    }
    forall s | s in r ensures s in DeckKeys(idx) {
      var i :| 1 <= i <= k && s == NatStr(i);
      assert Used(idx, i);
      var f :| f in idx && idx[f] == i;
    }
    assert DeckKeys(idx) == r;
  }
}
