/**
 * The two maps both card databases keep, and the rules both apply to them:
 * `update` assigns card by card so the last card with a code wins, and
 * `upload_prompt` walks the distinct non-empty faces in sorted order,
 * asks for a URL for each face not yet mapped, and keeps the non-empty
 * answers.
 */
module CardMaps {
  import opened Sorting

  /** The map after `for card in cards: db[key(card)] = card`. */
  function Merge<C>(m: map<string, C>, cs: seq<C>, key: C -> string): map<string, C>
    decreases |cs|
  {
    if cs == [] then m
    else Merge(m, cs[..|cs| - 1], key)[key(cs[|cs| - 1]) := cs[|cs| - 1]]
  }

  /** The keys after an update are the old keys and the keys of the new cards. */
  lemma {:induction false} MergeKeys<C>(m: map<string, C>, cs: seq<C>, key: C -> string)
    ensures Merge(m, cs, key).Keys == m.Keys + set c | c in cs :: key(c)
    decreases |cs|
  {
    if cs != [] {
      var n := |cs| - 1;
      MergeKeys(m, cs[..n], key);
      assert cs == cs[..n] + [cs[n]];
      assert (set c | c in cs :: key(c)) == (set c | c in cs[..n] :: key(c)) + {key(cs[n])};
    }
  }

  /** The last card with a key is the one stored under it. */
  lemma {:induction false} MergeLastWins<C>(m: map<string, C>, cs: seq<C>, key: C -> string, i: nat)
    requires i < |cs|
    requires forall j :: i < j < |cs| ==> key(cs[j]) != key(cs[i])
    ensures key(cs[i]) in Merge(m, cs, key) && Merge(m, cs, key)[key(cs[i])] == cs[i]
    decreases |cs|
  {
    var n := |cs| - 1;
    if i < n {
      MergeLastWins(m, cs[..n], key, i);
    }
  }

  /** A key no new card has keeps its old entry. */
  lemma {:induction false} MergeUntouched<C>(m: map<string, C>, cs: seq<C>, key: C -> string, k: string)
    requires forall i :: 0 <= i < |cs| ==> key(cs[i]) != k
    ensures k in Merge(m, cs, key) <==> k in m
    ensures k in m ==> Merge(m, cs, key)[k] == m[k]
    decreases |cs|
  {
    if cs != [] {
      MergeUntouched(m, cs[..|cs| - 1], key, k);
    }
  }

  /** Every entry of `m` is stored under its own key. */
  predicate KeyedBy<C>(m: map<string, C>, key: C -> string) {
    forall k :: k in m ==> key(m[k]) == k
  }

  /** An update keeps every entry under its own key. */
  lemma {:induction false} MergeKeyedBy<C>(m: map<string, C>, cs: seq<C>, key: C -> string)
    requires KeyedBy(m, key)
    ensures KeyedBy(Merge(m, cs, key), key)
    decreases |cs|
  {
    if cs != [] {
      MergeKeyedBy(m, cs[..|cs| - 1], key);
    }
  }

  /**
   * The faces `upload_prompt` collects: the non-empty face of every card in
   * every API language.
   */
  function Faces<C(!new,==), L(!new,==)>(cards: map<string, C>, langs: seq<L>, faceOf: (C, L) -> string): (r: set<string>)
    ensures forall c, l :: c in cards.Values && l in langs && faceOf(c, l) != "" ==> faceOf(c, l) in r
    ensures "" !in r
  {
    set c, l | c in cards.Values && l in langs && faceOf(c, l) != "" :: faceOf(c, l)
  }

  predicate StrLt(a: string, b: string) { StrLe(a, b) && a != b }

  /** Sorted and free of duplicates. */
  predicate StrictlyIncreasing(s: seq<string>) {
    forall i, j :: 0 <= i < j < |s| ==> StrLt(s[i], s[j])
  }

  lemma MinExists(s: set<string>)
    requires s != {}
    ensures exists m :: m in s && forall x :: x in s ==> StrLe(m, x)
    decreases |s|
  {
    var a :| a in s;
    var rest := s - {a};
    if rest == {} {
      assert s == {a};
      StrLeReflexive(a);
    } else {
      MinExists(rest);
      var m :| m in rest && forall x :: x in rest ==> StrLe(m, x);
      StrLeTotal(a, m);
      if StrLe(a, m) {
        forall x | x in s ensures StrLe(a, x) {
          if x != a { StrLeTransitive(a, m, x); } else { StrLeReflexive(a); }
        }
      } else {
        forall x | x in s ensures StrLe(m, x) {
          if x == a { StrLeTotal(m, a); }
        }
      }
    }
  }

  /** `sorted(set(faces))`: the distinct faces in increasing order. */
  method SortedFaces(faces: set<string>) returns (r: seq<string>)
    ensures StrictlyIncreasing(r)
    ensures forall f :: f in r <==> f in faces
    ensures |r| == |faces|
  {
    r := [];
    var remaining := faces;
    while remaining != {}
      invariant StrictlyIncreasing(r)
      invariant forall f :: f in faces <==> f in r || f in remaining
      invariant forall i, x :: 0 <= i < |r| && x in remaining ==> StrLt(r[i], x)
      invariant |r| + |remaining| == |faces|
      decreases |remaining|
    {
      MinExists(remaining);
      var m :| m in remaining && forall x :: x in remaining ==> StrLe(m, x);
      forall i, x | 0 <= i < |r| && x in remaining - {m} ensures StrLt(r[i], x) {
        assert StrLt(r[i], m);
        StrLeTransitive(r[i], m, x);
        if r[i] == x { StrLeAntisymmetric(m, x); }
      }
      r := r + [m];
      remaining := remaining - {m};
    }
  }

  /** What a run of the prompt loop leaves: the URL map, the faces asked for, and whether input lasted. */
  datatype Prompted = Prompted(urls: map<string, string>, asked: seq<string>, complete: bool)

  /**
   * The prompt loop over `faces` with the user's answers in order. A face
   * already mapped is skipped; otherwise the next answer is read and kept
   * if non-empty. When the answers run out, `input()` raises EOFError after
   * showing the prompt, and the loop stops.
   */
  function Prompt(urls: map<string, string>, faces: seq<string>, answers: seq<string>): Prompted
    decreases |faces|
  {
    if faces == [] then Prompted(urls, [], true)
    else if faces[0] in urls then Prompt(urls, faces[1..], answers)
    else if answers == [] then Prompted(urls, [faces[0]], false)
    else
      var next := if answers[0] != "" then urls[faces[0] := answers[0]] else urls;
      var r := Prompt(next, faces[1..], answers[1..]);
      Prompted(r.urls, [faces[0]] + r.asked, r.complete)
  }

  /**
   * The prompt loop itself: `for face in faces: if face not in urls:
   * answer = input(...); if answer: urls[face] = answer`, stopping at the
   * EOFError when the answers run out.
   */
  method RunPrompt(urls0: map<string, string>, faces: seq<string>, answers: seq<string>) returns (p: Prompted)
    ensures p == Prompt(urls0, faces, answers)
  {
    var urls := urls0;
    var asked: seq<string> := [];
    var i, used := 0, 0;
    while i < |faces|
      invariant 0 <= i <= |faces| && 0 <= used <= |answers|
      invariant var r := Prompt(urls, faces[i..], answers[used..]);
                Prompt(urls0, faces, answers) == Prompted(r.urls, asked + r.asked, r.complete)
    {
      var face := faces[i];
      if face !in urls {
        if used == |answers| {
          assert faces[i..][0] == face && answers[used..] == [];
          return Prompted(urls, asked + [face], false);
        }
        var answer := answers[used];
        assert faces[i..][1..] == faces[i + 1..] && answers[used..][1..] == answers[used + 1..];
        asked := asked + [face];
        if answer != "" {
          urls := urls[face := answer];
        }
        used := used + 1;
      } else {
        assert faces[i..][1..] == faces[i + 1..];
      }
      i := i + 1;
    }
    assert asked + [] == asked;
    p := Prompted(urls, asked, true);
  }

  /** The faces of `faces` not mapped in `urls`, in order. */
  function Unmapped(urls: map<string, string>, faces: seq<string>): seq<string> {
    if faces == [] then []
    else (if faces[0] in urls then [] else [faces[0]]) + Unmapped(urls, faces[1..])
  }

  predicate Distinct(s: seq<string>) {
    forall i, j :: 0 <= i < j < |s| ==> s[i] != s[j]
  }

  lemma StrictlyIncreasingDistinct(s: seq<string>)
    requires StrictlyIncreasing(s)
    ensures Distinct(s)
  {
  }

  lemma UnmappedSame(a: map<string, string>, b: map<string, string>, faces: seq<string>)
    requires forall i :: 0 <= i < |faces| ==> (faces[i] in a <==> faces[i] in b)
    ensures Unmapped(a, faces) == Unmapped(b, faces)
    decreases |faces|
  {
    if faces != [] {
      UnmappedSame(a, b, faces[1..]);
    }
  }

  /** An existing mapping is never overwritten or removed. */
  lemma {:induction false} PromptKeepsMapped(urls: map<string, string>, faces: seq<string>, answers: seq<string>)
    ensures forall f :: f in urls ==> (f in Prompt(urls, faces, answers).urls
                                   && Prompt(urls, faces, answers).urls[f] == urls[f])
    decreases |faces|
  {
    if faces != [] && faces[0] !in urls && answers != [] {
      var next := if answers[0] != "" then urls[faces[0] := answers[0]] else urls;
      PromptKeepsMapped(next, faces[1..], answers[1..]);
    } else if faces != [] && faces[0] in urls {
      PromptKeepsMapped(urls, faces[1..], answers);
    }
  }

  /**
   * A face that gains a URL was asked for, and the URL is the non-empty
   * answer given at its turn.
   */
  lemma {:induction false} PromptNewEntries(urls: map<string, string>, faces: seq<string>, answers: seq<string>, f: string)
    requires f in Prompt(urls, faces, answers).urls && f !in urls
    ensures exists j :: 0 <= j < |Prompt(urls, faces, answers).asked| && j < |answers|
                        && Prompt(urls, faces, answers).asked[j] == f && answers[j] == Prompt(urls, faces, answers).urls[f]
                        && answers[j] != ""
    decreases |faces|
  {
    var r := Prompt(urls, faces, answers);
    if faces[0] in urls {
      PromptNewEntries(urls, faces[1..], answers, f);
    } else {
      var next := if answers[0] != "" then urls[faces[0] := answers[0]] else urls;
      var r1 := Prompt(next, faces[1..], answers[1..]);
      if f == faces[0] && answers[0] != "" {
        PromptKeepsMapped(next, faces[1..], answers[1..]);
        assert r.asked[0] == f;
      } else {
        PromptNewEntries(next, faces[1..], answers[1..], f);
        var j :| 0 <= j < |r1.asked| && j < |answers[1..]| && r1.asked[j] == f && answers[1..][j] == r1.urls[f]
                 && answers[1..][j] != "";
        assert r.asked[j + 1] == f;
      }
    }
  }

  /**
   * With distinct faces, the loop asks exactly for the unmapped faces, in
   * order, once each, when there are enough answers; with too few, it asks
   * for the first ones of them and stops.
   */
  lemma {:induction false} PromptAsksUnmapped(urls: map<string, string>, faces: seq<string>, answers: seq<string>)
    requires Distinct(faces)
    ensures var r := Prompt(urls, faces, answers);
            r.complete <==> |Unmapped(urls, faces)| <= |answers|
    ensures var r := Prompt(urls, faces, answers);
            r.complete ==> r.asked == Unmapped(urls, faces)
    ensures var r := Prompt(urls, faces, answers);
            !r.complete ==> r.asked == Unmapped(urls, faces)[..|answers| + 1]
    decreases |faces|
  {
    if faces != [] {
      assert Distinct(faces[1..]);
      if faces[0] in urls {
        PromptAsksUnmapped(urls, faces[1..], answers);
      } else if answers != [] {
        var next := if answers[0] != "" then urls[faces[0] := answers[0]] else urls;
        forall i | 0 <= i < |faces[1..]| ensures faces[1..][i] in next <==> faces[1..][i] in urls {
          assert faces[1..][i] == faces[i + 1] != faces[0];
        }
        UnmappedSame(next, urls, faces[1..]);
        PromptAsksUnmapped(next, faces[1..], answers[1..]);
      }
    }
  }

  /** The faces asked for whose answer was empty, in order. */
  function EmptyAnswered(asked: seq<string>, answers: seq<string>): seq<string>
    requires |asked| <= |answers|
  {
    if asked == [] then []
    else (if answers[0] == "" then [asked[0]] else []) + EmptyAnswered(asked[1..], answers[1..])
  }

  /**
   * Running the prompt again over the same faces, after a run that
   * finished, asks exactly for the faces that got an empty answer: so a
   * second run asks nothing when every answer was a URL.
   */
  lemma {:induction false} RepromptAsksEmptyAnswered(urls: map<string, string>, faces: seq<string>,
                                                     answers: seq<string>, again: seq<string>)
    requires Distinct(faces)
    requires Prompt(urls, faces, answers).complete
    ensures |Prompt(urls, faces, answers).asked| <= |answers|
    ensures Unmapped(Prompt(urls, faces, answers).urls, faces)
         == EmptyAnswered(Prompt(urls, faces, answers).asked, answers)
    ensures |EmptyAnswered(Prompt(urls, faces, answers).asked, answers)| <= |again| ==>
              Prompt(Prompt(urls, faces, answers).urls, faces, again).asked
              == EmptyAnswered(Prompt(urls, faces, answers).asked, answers)
    decreases |faces|
  {
    var r := Prompt(urls, faces, answers);
    PromptAsksUnmapped(urls, faces, answers);
    FirstRunLeavesEmptyAnswered(urls, faces, answers);
    PromptAsksUnmapped(r.urls, faces, again);
  }

  lemma {:induction false} FirstRunLeavesEmptyAnswered(urls: map<string, string>, faces: seq<string>, answers: seq<string>)
    requires Distinct(faces)
    requires Prompt(urls, faces, answers).complete
    ensures |Prompt(urls, faces, answers).asked| <= |answers|
    ensures Unmapped(Prompt(urls, faces, answers).urls, faces)
         == EmptyAnswered(Prompt(urls, faces, answers).asked, answers)
    decreases |faces|
  {
    var r := Prompt(urls, faces, answers);
    if faces != [] {
      assert Distinct(faces[1..]);
      PromptKeepsMapped(urls, faces, answers);
      if faces[0] in urls {
        FirstRunLeavesEmptyAnswered(urls, faces[1..], answers);
        UnmappedSame(r.urls, r.urls, faces[1..]);
      } else {
        var next := if answers[0] != "" then urls[faces[0] := answers[0]] else urls;
        var r1 := Prompt(next, faces[1..], answers[1..]);
        FirstRunLeavesEmptyAnswered(next, faces[1..], answers[1..]);
        assert r.asked[1..] == r1.asked;
        PromptKeepsMapped(next, faces[1..], answers[1..]);
        if answers[0] == "" {
          // faces[0] stays unmapped: no later face equals it
          PromptUnmappedStays(next, faces[1..], answers[1..], faces[0]);
        }
      }
    }
  }

  /** A face outside `faces` gains no URL. */
  lemma {:induction false} PromptUnmappedStays(urls: map<string, string>, faces: seq<string>, answers: seq<string>, f: string)
    requires f !in urls && f !in faces
    ensures f !in Prompt(urls, faces, answers).urls
    decreases |faces|
  {
    if faces != [] {
      if faces[0] in urls {
        PromptUnmappedStays(urls, faces[1..], answers, f);
      } else if answers != [] {
        var next := if answers[0] != "" then urls[faces[0] := answers[0]] else urls;
        PromptUnmappedStays(next, faces[1..], answers[1..], f);
      }
    }
  }

  /** `get_face_url(face)`: the mapped URL, or the face itself when none is mapped. */
  function FaceUrl(urls: map<string, string>, face: string): string {
    if face in urls then urls[face] else face
  }

  /**
   * After the prompt, a face that was asked for resolves to the answer given
   * for it, or to itself when that answer was empty; a face mapped before
   * resolves as it did.
   */
  lemma {:induction false} PromptFaceUrls(urls: map<string, string>, faces: seq<string>, answers: seq<string>)
    requires Distinct(faces)
    ensures var p := Prompt(urls, faces, answers);
            forall j :: 0 <= j < |p.asked| && j < |answers| ==>
              FaceUrl(p.urls, p.asked[j]) == (if answers[j] != "" then answers[j] else p.asked[j])
    ensures forall f :: f in urls ==> FaceUrl(Prompt(urls, faces, answers).urls, f) == FaceUrl(urls, f)
    decreases |faces|
  {
    PromptKeepsMapped(urls, faces, answers);
    if faces != [] {
      assert Distinct(faces[1..]);
      if faces[0] in urls {
        PromptFaceUrls(urls, faces[1..], answers);
      } else if answers != [] {
        var next := if answers[0] != "" then urls[faces[0] := answers[0]] else urls;
        var p := Prompt(urls, faces, answers);
        var r1 := Prompt(next, faces[1..], answers[1..]);
        PromptFaceUrls(next, faces[1..], answers[1..]);
        PromptKeepsMapped(next, faces[1..], answers[1..]);
        if answers[0] == "" {
          PromptUnmappedStays(next, faces[1..], answers[1..], faces[0]);
        }
        forall j | 0 <= j < |p.asked| && j < |answers|
          ensures FaceUrl(p.urls, p.asked[j]) == (if answers[j] != "" then answers[j] else p.asked[j])
        {
          if j > 0 {
            assert p.asked[j] == r1.asked[j - 1];
            assert answers[j] == answers[1..][j - 1];
          }
        }
      }
    }
  }
}
