/** `resolveDiagramType` (src/utils/DiagramParser.js:76-107): score the dialects and pick one. */
module DiagramTypes {
  import opened DiagramModel

  /** Attributes plus methods over all classes (the `reduce` of the class score). */
  function MemberCount(classes: seq<ClassNode>): nat {
    if classes == [] then 0
    else MemberCount(classes[..|classes| - 1])
         + |classes[|classes| - 1].attributes| + |classes[|classes| - 1].methods|
  }

  function Score(d: Diagrams, k: DiagramKind): nat {
    match k
    case UseCaseKind => |d.useCase.associations|
    case SequenceKind => |d.sequence.messages| + |d.sequence.activations|
    case ClassKind => 2 * |d.classDiagram.classes| + |d.classDiagram.relations| + MemberCount(d.classDiagram.classes)
    case StateKind => |d.state.transitions|
  }

  datatype Entry = Entry(kind: DiagramKind, score: nat)

  /** The position of a dialect in the score table: use case, sequence, class, state. */
  function Rank(k: DiagramKind): nat {
    match k
    case UseCaseKind => 0
    case SequenceKind => 1
    case ClassKind => 2
    case StateKind => 3
  }

  /** The kinds follow the table order, each at most once. */
  predicate KindsAscending(ks: seq<DiagramKind>) {
    forall i, j :: 0 <= i < j < |ks| ==> Rank(ks[i]) < Rank(ks[j])
  }

  predicate EntriesAscending(es: seq<Entry>) {
    forall i, j :: 0 <= i < j < |es| ==> Rank(es[i].kind) < Rank(es[j].kind)
  }

  /** `Object.entries(scoreMap)`: the four dialects in declaration order. */
  function Entries(d: Diagrams): (es: seq<Entry>)
    ensures |es| == 4 && EntriesAscending(es)
    ensures forall i :: 0 <= i < 4 ==> es[i].score == Score(d, es[i].kind)
  {
    [Entry(UseCaseKind, Score(d, UseCaseKind)), Entry(SequenceKind, Score(d, SequenceKind)),
     Entry(ClassKind, Score(d, ClassKind)), Entry(StateKind, Score(d, StateKind))]
  }

  /** The entries with a positive score, in their order (the `filter`/`map` of `detectedTypes`). */
  function Positive(es: seq<Entry>): (ks: seq<DiagramKind>)
    ensures |ks| <= |es|
    ensures ks == [] <==> forall i :: 0 <= i < |es| ==> es[i].score == 0
    ensures forall k :: k in ks <==> exists i :: 0 <= i < |es| && es[i].kind == k && es[i].score > 0
    ensures EntriesAscending(es) ==> KindsAscending(ks)
  {
    if es == [] then []
    else
      var rest := Positive(es[1..]);
      assert forall i :: 1 <= i < |es| ==> es[i] == es[1..][i - 1];
      if es[0].score > 0 then
        assert forall j :: 0 <= j < |rest| ==> rest[j] in rest;
        [es[0].kind] + rest
      else rest
  }

  predicate SortedDesc(es: seq<Entry>) {
    forall i, j :: 0 <= i < j < |es| ==> es[i].score >= es[j].score
  }

  /** Insert `e` after every entry whose score is at least its own: the stable position. */
  function Insert(e: Entry, s: seq<Entry>): (r: seq<Entry>)
    ensures |r| == |s| + 1
    ensures forall x :: x in r <==> x in s || x == e
  {
    if s == [] then [e]
    else if s[0].score >= e.score then [s[0]] + Insert(e, s[1..])
    else [e] + s
  }

  /** `sort((a, b) => b[1] - a[1])`: a stable sort by descending score, as a stable insertion sort. */
  function SortByScore(es: seq<Entry>): (r: seq<Entry>)
    ensures |r| == |es|
    ensures forall x :: x in r <==> x in es
  {
    if es == [] then []
    else
      var r := Insert(es[|es| - 1], SortByScore(es[..|es| - 1]));
      assert forall x :: x in es <==> x in es[..|es| - 1] || x == es[|es| - 1] by {
        assert es == es[..|es| - 1] + [es[|es| - 1]];
      }
      r
  }

  /** How many entries score at least `m`. */
  function CountAtLeast(es: seq<Entry>, m: nat): nat {
    if es == [] then 0 else (if es[0].score >= m then 1 else 0) + CountAtLeast(es[1..], m)
  }

  lemma InsertSorted(e: Entry, s: seq<Entry>)
    requires SortedDesc(s)
    ensures SortedDesc(Insert(e, s))
    ensures forall m :: CountAtLeast(Insert(e, s), m) == CountAtLeast(s, m) + (if e.score >= m then 1 else 0)
  {
    InsertOrdered(e, s);
    forall m ensures CountAtLeast(Insert(e, s), m) == CountAtLeast(s, m) + (if e.score >= m then 1 else 0) {
      InsertCount(e, s, m);
    }
  }

  /** An entry scoring at least every entry of a sorted list can go in front of it. */
  lemma ConsSorted(h: Entry, t: seq<Entry>)
    requires SortedDesc(t) && forall i :: 0 <= i < |t| ==> t[i].score <= h.score
    ensures SortedDesc([h] + t)
  {
    var r := [h] + t;
    forall i, j | 0 <= i < j < |r| ensures r[i].score >= r[j].score {
      assert r[j] == t[j - 1];
      if i > 0 {
        assert r[i] == t[i - 1];
      }
    }
  }

  /** Inserting keeps every score within a bound that `e` and all of `t` respect. */
  lemma {:induction false} InsertBelow(e: Entry, t: seq<Entry>, b: nat)
    requires e.score <= b && forall i :: 0 <= i < |t| ==> t[i].score <= b
    ensures forall i :: 0 <= i < |Insert(e, t)| ==> Insert(e, t)[i].score <= b
  {
    if t != [] && t[0].score >= e.score {
      InsertBelow(e, t[1..], b);
      var r := Insert(e, t);
      assert r == [t[0]] + Insert(e, t[1..]);
      forall i | 0 < i < |r| ensures r[i].score <= b {
        assert r[i] == Insert(e, t[1..])[i - 1];
      }
    }
  }

  lemma {:induction false} InsertOrdered(e: Entry, s: seq<Entry>)
    requires SortedDesc(s)
    ensures SortedDesc(Insert(e, s))
  {
    if s != [] && s[0].score >= e.score {
      var t := s[1..];
      assert SortedDesc(t) && forall i :: 0 <= i < |t| ==> t[i].score <= s[0].score by {
        forall i | 0 <= i < |t| ensures t[i] == s[i + 1] { }
      }
      InsertOrdered(e, t);
      InsertBelow(e, t, s[0].score);
      ConsSorted(s[0], Insert(e, t));
    } else if s != [] {
      ConsSorted(e, s);
    }
  }

  lemma {:induction false} InsertCount(e: Entry, s: seq<Entry>, m: nat)
    ensures CountAtLeast(Insert(e, s), m) == CountAtLeast(s, m) + (if e.score >= m then 1 else 0)
  {
    if s != [] && s[0].score >= e.score {
      InsertCount(e, s[1..], m);
      assert ([s[0]] + Insert(e, s[1..]))[1..] == Insert(e, s[1..]);
    } else {
      assert ([e] + s)[1..] == s;
    }
  }

  lemma {:induction false} SortSorted(es: seq<Entry>)
    ensures SortedDesc(SortByScore(es))
    ensures forall m :: CountAtLeast(SortByScore(es), m) == CountAtLeast(es, m)
  {
    if es != [] {
      var init := es[..|es| - 1];
      var last := es[|es| - 1];
      SortSorted(init);
      InsertSorted(last, SortByScore(init));
      forall m ensures CountAtLeast(es, m) == CountAtLeast(init, m) + (if last.score >= m then 1 else 0) {
        CountAtLeastSnoc(init, last, m);
        assert init + [last] == es;
      }
    }
  }

  lemma {:induction false} CountAtLeastSnoc(s: seq<Entry>, e: Entry, m: nat)
    ensures CountAtLeast(s + [e], m) == CountAtLeast(s, m) + (if e.score >= m then 1 else 0)
  {
    if s != [] {
      assert (s + [e])[1..] == s[1..] + [e];
      CountAtLeastSnoc(s[1..], e, m);
    }
  }

  /** In a sequence sorted by descending score, the first `n` entries reach `m` exactly when
      at least `n` entries do. */
  lemma {:induction false} SortedCount(s: seq<Entry>, m: nat)
    requires SortedDesc(s) && |s| >= 2
    ensures CountAtLeast(s, m) >= 1 <==> s[0].score >= m
    ensures CountAtLeast(s, m) >= 2 <==> s[1].score >= m
  {
    assert CountAtLeast(s, m) == (if s[0].score >= m then 1 else 0)
      + (if s[1].score >= m then 1 else 0) + CountAtLeast(s[2..], m) by {
      assert s[1..][1..] == s[2..];
    }
    if s[1].score < m {
      NoneAtLeast(s[2..], m, s[1].score);
    }
    if s[0].score < m {
      assert s[1].score <= s[0].score;
    }
  }

  lemma {:induction false} NoneAtLeast(s: seq<Entry>, m: nat, bound: nat)
    requires bound < m && forall i :: 0 <= i < |s| ==> s[i].score <= bound
    ensures CountAtLeast(s, m) == 0
  {
    if s != [] {
      NoneAtLeast(s[1..], m, bound);
    }
  }

  /** `resolveDiagramType`: `unknown` when nothing scores, `mixed` when the two best scores tie,
      otherwise the best-scoring dialect. */
  function ResolveDiagramType(d: Diagrams): (r: (DiagramType, seq<DiagramKind>))
  {
    var es := Entries(d);
    var detected := Positive(es);
    if |detected| == 0 then (Unknown, [])
    else
      var sorted := SortByScore(es);
      if sorted[0].score > 0 && sorted[1].score == sorted[0].score then (Mixed, detected)
      else (Single(sorted[0].kind), detected)
  }

  /** The largest of the four scores. */
  function MaxScore(d: Diagrams): (m: nat)
    ensures forall k :: Score(d, k) <= m
    ensures exists k :: Score(d, k) == m
  {
    var a := Score(d, UseCaseKind);
    var b := Score(d, SequenceKind);
    var c := Score(d, ClassKind);
    var e := Score(d, StateKind);
    var ab := if a >= b then a else b;
    var ce := if c >= e then c else e;
    if ab >= ce then ab else ce
  }

  lemma EntryKinds(d: Diagrams, k: DiagramKind) returns (i: nat)
    ensures i < 4 && Entries(d)[i] == Entry(k, Score(d, k))
    ensures forall j :: 0 <= j < 4 && Entries(d)[j].kind == k ==> j == i
  {
    match k
    case UseCaseKind => i := 0;
    case SequenceKind => i := 1;
    case ClassKind => i := 2;
    case StateKind => i := 3;
  }

  lemma EntriesCount(d: Diagrams, m: nat)
    ensures CountAtLeast(Entries(d), m) ==
      (if Score(d, UseCaseKind) >= m then 1 else 0) + (if Score(d, SequenceKind) >= m then 1 else 0)
      + (if Score(d, ClassKind) >= m then 1 else 0) + (if Score(d, StateKind) >= m then 1 else 0)
  {
    var es := Entries(d);
    assert es[1..][1..][1..][1..] == [];
    assert CountAtLeast(es[3..], m) == (if es[3].score >= m then 1 else 0) by {
      assert es[3..][1..] == [];
    }
    assert CountAtLeast(es[2..], m) == (if es[2].score >= m then 1 else 0) + CountAtLeast(es[3..], m) by {
      assert es[2..][1..] == es[3..];
    }
    assert CountAtLeast(es[1..], m) == (if es[1].score >= m then 1 else 0) + CountAtLeast(es[2..], m) by {
      assert es[1..][1..] == es[2..];
    }
  }

  /** The sorted table starts with a best-scoring dialect, and its second entry ties with it
      exactly when two dialects share the best score. */
  lemma SortedHeads(d: Diagrams)
    ensures var s := SortByScore(Entries(d));
            s[0].score == MaxScore(d) && s[0].score == Score(d, s[0].kind)
    ensures var s := SortByScore(Entries(d));
            (exists k1, k2 :: k1 != k2 && Score(d, k1) == MaxScore(d) && Score(d, k2) == MaxScore(d))
            <==> s[1].score >= MaxScore(d)
  {
    var es := Entries(d);
    var s := SortByScore(es);
    var m := MaxScore(d);
    SortSorted(es);
    SortedCount(s, m);
    EntriesCount(d, m);
    assert s[0] in es && s[1] in es;
    TieMeansTwo(d, s, m);
  }

  lemma TieMeansTwo(d: Diagrams, s: seq<Entry>, m: nat)
    requires m == MaxScore(d) && |s| == 4
    requires s[1] in Entries(d)
    requires CountAtLeast(Entries(d), m) >= 2 <==> s[1].score >= m
    requires CountAtLeast(Entries(d), m) ==
      (if Score(d, UseCaseKind) >= m then 1 else 0) + (if Score(d, SequenceKind) >= m then 1 else 0)
      + (if Score(d, ClassKind) >= m then 1 else 0) + (if Score(d, StateKind) >= m then 1 else 0)
    ensures (exists k1, k2 :: k1 != k2 && Score(d, k1) == m && Score(d, k2) == m) <==> s[1].score >= m
  {
    if exists k1, k2 :: k1 != k2 && Score(d, k1) == m && Score(d, k2) == m {
      var k1, k2 :| k1 != k2 && Score(d, k1) == m && Score(d, k2) == m;
      assert CountAtLeast(Entries(d), m) >= 2;
    }
    if s[1].score >= m {
      if Score(d, UseCaseKind) >= m {
        assert Score(d, UseCaseKind) == m;
      }
    }
  }

  /** `unknown` exactly when every dialect scores zero, and then nothing is detected. */
  lemma ResolveUnknown(d: Diagrams)
    ensures ResolveDiagramType(d).0 == Unknown <==> forall k :: Score(d, k) == 0
    ensures ResolveDiagramType(d).0 == Unknown ==> ResolveDiagramType(d).1 == []
  {
    var es := Entries(d);
    if forall k :: Score(d, k) == 0 {
      assert forall i :: 0 <= i < 4 ==> es[i].score == 0;
    } else {
      var k :| Score(d, k) != 0;
      var i := EntryKinds(d, k);
      assert k in Positive(es);
    }
  }

  /** A dialect is detected exactly when its score is positive; detection keeps the table order, so
      the first detected dialect is the earliest positive one in the table. */
  lemma DetectedTypes(d: Diagrams, k: DiagramKind)
    ensures k in ResolveDiagramType(d).1 <==> Score(d, k) > 0
    ensures KindsAscending(ResolveDiagramType(d).1)
  {
    var i := EntryKinds(d, k);
    if Score(d, k) > 0 {
      assert k in Positive(Entries(d));
    }
  }

  /** `mixed` exactly when the best positive score is shared by two dialects. */
  lemma ResolveMixed(d: Diagrams)
    ensures ResolveDiagramType(d).0 == Mixed <==>
      MaxScore(d) > 0 && exists k1, k2 :: k1 != k2 && Score(d, k1) == MaxScore(d) && Score(d, k2) == MaxScore(d)
  {
    SortedHeads(d);
    ResolveUnknown(d);
    SortSorted(Entries(d));
  }

  /** A single dialect wins exactly when it alone has the best score, and that score is positive. */
  lemma ResolveSingle(d: Diagrams, k: DiagramKind)
    ensures ResolveDiagramType(d).0 == Single(k) <==>
      Score(d, k) > 0 && forall k2 :: k2 != k ==> Score(d, k2) < Score(d, k)
  {
    SortedHeads(d);
    ResolveUnknown(d);
    SortSorted(Entries(d));
    var s := SortByScore(Entries(d));
    var i0 := EntryKinds(d, s[0].kind);
    if Score(d, k) > 0 && forall k2 :: k2 != k ==> Score(d, k2) < Score(d, k) {
      assert s[0].kind == k;
    }
  }
}
