/** Box sizes and the inheritance levels of a class diagram (src/renderers/ClassRenderer.jsx:9-122). */
module ClassLayout {
  import opened Options
  import opened DiagramModel
  import opened Router

  // ---------------------------------------------------------------- box sizes

  /** `calculateClassHeight`: a 48-unit header, at least one 24-unit row per section, 8 of padding. */
  function ClassHeight(c: ClassNode): (h: int)
    ensures h >= 48 + 24 + 24 + 8
  {
    var attributeRows := if 1 > |c.attributes| then 1 else |c.attributes|;
    var methodRows := if 1 > |c.methods| then 1 else |c.methods|;
    48 + attributeRows * 24 + methodRows * 24 + 8
  }

  /** The header is 42 units high, then the attribute rows, then the method rows; every label row
      of the box body (at 18 + 24 i below the top of its section) ends above the bottom of the box. */
  lemma SectionsFitBox(c: ClassNode, y: int)
    ensures var attrRows := if |c.attributes| > 0 then |c.attributes| else 1;
            var methodRows := if |c.methods| > 0 then |c.methods| else 1;
            var attributesBottom := y + 42 + 24 * attrRows;
            (forall i :: 0 <= i < |c.attributes| ==> y + 42 + 18 + 24 * i < attributesBottom)
            && (forall i :: 0 <= i < |c.methods| ==> attributesBottom + 18 + 24 * i < attributesBottom + 24 * methodRows)
            && attributesBottom + 24 * methodRows < y + ClassHeight(c)
  {
  }

  /** One character of `estimateTextWidth`: 4 for a space, 8.7 above U+00FF, 7.2 otherwise. */
  function CharWidth(ch: char): (w: real)
    ensures 4.0 <= w <= 8.7
  {
    if ch == ' ' then 4.0 else if ch as int > 255 then 8.7 else 7.2
  }

  /** `estimateTextWidth`: the sum of the character widths, a fold from the left. */
  function TextWidth(s: string): (w: real)
    ensures 4.0 * |s| as real <= w <= 8.7 * |s| as real
    decreases |s|
  {
    if |s| == 0 then 0.0 else TextWidth(s[..|s| - 1]) + CharWidth(s[|s| - 1])
  }

  /** The width of joined text is the sum of the widths. */
  lemma {:induction false} TextWidthConcat(a: string, b: string)
    ensures TextWidth(a + b) == TextWidth(a) + TextWidth(b)
    decreases |b|
  {
    if |b| > 0 {
      var b' := b[..|b| - 1];
      assert (a + b)[..|a + b| - 1] == a + b';
      TextWidthConcat(a, b');
    } else {
      assert a + b == a;
    }
  }

  /** A longer prefix is strictly wider, even with the same suffix after it. */
  lemma PrefixWider(s: string, j: nat, k: nat, suffix: string)
    requires j < k <= |s|
    ensures TextWidth(s[..j] + suffix) < TextWidth(s[..k] + suffix)
  {
    assert s[..k] == s[..j] + s[j..k];
    TextWidthConcat(s[..j], s[j..k]);
    TextWidthConcat(s[..j], suffix);
    TextWidthConcat(s[..k], suffix);
  }

  const Ellipsis: string := "..."

  /** The first `k` characters followed by the ellipsis fit in `maxWidth`. */
  predicate PrefixFits(value: string, k: nat, maxWidth: real)
    requires k <= |value|
  {
    TextWidth(value[..k] + Ellipsis) <= maxWidth
  }

  /** `fitTextToWidth`: text that fits is kept; otherwise characters are dropped from the end until the
      rest and the ellipsis fit, down to the ellipsis alone. The kept prefix is the longest that fits. */
  method FitTextToWidth(value: string, maxWidth: real) returns (r: string)
    ensures TextWidth(value) <= maxWidth ==> r == value
    ensures TextWidth(value) > maxWidth ==>
              exists k :: 0 <= k <= |value| && r == value[..k] + Ellipsis
                && (k > 0 ==> PrefixFits(value, k, maxWidth))
                && forall j :: k < j <= |value| ==> !PrefixFits(value, j, maxWidth)
  {
    if TextWidth(value) <= maxWidth {
      return value;
    }
    var truncated := value;
    while |truncated| > 0 && TextWidth(truncated + Ellipsis) > maxWidth
      invariant |truncated| <= |value| && truncated == value[..|truncated|]
      invariant forall j :: |truncated| < j <= |value| ==> !PrefixFits(value, j, maxWidth)
    {
      truncated := truncated[..|truncated| - 1];
    }
    r := if |truncated| > 0 then truncated + Ellipsis else Ellipsis;
    assert r == value[..|truncated|] + Ellipsis;
  }

  /** Every shorter prefix fits as well, so the kept prefix separates the ones that fit from the
      ones that do not. */
  lemma FittingPrefixesAreDownwardClosed(value: string, j: nat, k: nat, maxWidth: real)
    requires j <= k <= |value| && PrefixFits(value, k, maxWidth)
    ensures PrefixFits(value, j, maxWidth)
  {
    if j < k {
      PrefixWider(value, j, k, Ellipsis);
    }
  }

  /** The lines whose width decides the box width: the name, then attributes, then methods. */
  function Members(c: ClassNode): seq<string> {
    [c.name] + c.attributes + c.methods
  }

  /** The `reduce` of `getClassWidth`: the widest line, but never less than 120. */
  function Widest(lines: seq<string>): (w: real)
    ensures w >= 120.0
    ensures forall line :: line in lines ==> TextWidth(line) <= w
    ensures w == 120.0 || exists line :: line in lines && w == TextWidth(line)
    decreases |lines|
  {
    if |lines| == 0 then 120.0
    else
      var rest := Widest(lines[..|lines| - 1]);
      var last := lines[|lines| - 1];
      assert forall line :: line in lines <==> line in lines[..|lines| - 1] || line == last;
      if TextWidth(last) > rest then
        assert last in lines && TextWidth(last) == TextWidth(last);
        TextWidth(last)
      else
        assert rest == 120.0 || exists line :: line in lines && rest == TextWidth(line) by {
          if rest != 120.0 {
            var line :| line in lines[..|lines| - 1] && rest == TextWidth(line);
            assert line in lines;
          }
        }
        rest
  }

  /** `getClassWidth`: the widest line plus 34, rounded up, kept between 250 and 320. */
  function ClassWidth(c: ClassNode): (w: int)
    ensures 250 <= w <= 320
    ensures w == 320 || forall line :: line in Members(c) ==> TextWidth(line) + 34.0 <= w as real
    ensures w == 250 || w == 320 || exists line :: line in Members(c) && w == Ceil(TextWidth(line) + 34.0)
  {
    var widest := Widest(Members(c));
    var capped := if 320 < Ceil(widest + 34.0) then 320 else Ceil(widest + 34.0);
    if 250 > capped then 250 else capped
  }

  // ---------------------------------------------------------------- inheritance maps

  /** The class identifiers, in order. */
  function ClassIds(classes: seq<ClassNode>): (ids: seq<string>)
    ensures |ids| == |classes| && forall i :: 0 <= i < |classes| ==> ids[i] == classes[i].id
  {
    seq(|classes|, i requires 0 <= i < |classes| => classes[i].id)
  }

  /** `relations.filter(item => item.relationType === 'inheritance')`. */
  function InheritanceOf(relations: seq<ClassRelation>): (inh: seq<ClassRelation>)
    ensures forall r :: r in inh <==> r in relations && r.relationType == Inheritance
    decreases |relations|
  {
    if |relations| == 0 then []
    else
      var init := relations[..|relations| - 1];
      var last := relations[|relations| - 1];
      assert forall r :: r in relations <==> r in init || r == last;
      InheritanceOf(init) + (if last.relationType == Inheritance then [last] else [])
  }

  /** An inheritance relation both of whose ends are known classes. */
  predicate Known(ids: seq<string>, r: ClassRelation) {
    r.from in ids && r.to in ids
  }

  /** `childrenByParent[parent]`: the `from` of every known relation into `parent`, in order. */
  function ChildrenOf(ids: seq<string>, inh: seq<ClassRelation>, parent: string): seq<string>
    decreases |inh|
  {
    if |inh| == 0 then []
    else
      var r := inh[|inh| - 1];
      ChildrenOf(ids, inh[..|inh| - 1], parent) + (if Known(ids, r) && r.to == parent then [r.from] else [])
  }

  /** `parentsByChild[child]`: the `to` of every known relation out of `child`, in order. */
  function ParentsOf(ids: seq<string>, inh: seq<ClassRelation>, child: string): seq<string>
    decreases |inh|
  {
    if |inh| == 0 then []
    else
      var r := inh[|inh| - 1];
      ParentsOf(ids, inh[..|inh| - 1], child) + (if Known(ids, r) && r.from == child then [r.to] else [])
  }

  lemma {:induction false} ChildrenMembers(ids: seq<string>, inh: seq<ClassRelation>, parent: string, child: string)
    ensures child in ChildrenOf(ids, inh, parent)
            <==> exists r :: r in inh && Known(ids, r) && r.from == child && r.to == parent
    decreases |inh|
  {
    if |inh| > 0 {
      var init := inh[..|inh| - 1];
      ChildrenMembers(ids, init, parent, child);
      assert forall r :: r in inh <==> r in init || r == inh[|inh| - 1];
    }
  }

  lemma {:induction false} ParentsMembers(ids: seq<string>, inh: seq<ClassRelation>, parent: string, child: string)
    ensures parent in ParentsOf(ids, inh, child)
            <==> exists r :: r in inh && Known(ids, r) && r.from == child && r.to == parent
    decreases |inh|
  {
    if |inh| > 0 {
      var init := inh[..|inh| - 1];
      ParentsMembers(ids, init, parent, child);
      assert forall r :: r in inh <==> r in init || r == inh[|inh| - 1];
    }
  }

  /** The two maps describe the same edges: `c` is listed under `p` as a child exactly when `p` is
      listed under `c` as a parent, and then both are known classes. */
  lemma ChildParentDual(ids: seq<string>, inh: seq<ClassRelation>, parent: string, child: string)
    ensures child in ChildrenOf(ids, inh, parent) <==> parent in ParentsOf(ids, inh, child)
    ensures child in ChildrenOf(ids, inh, parent) ==> child in ids && parent in ids
  {
    ChildrenMembers(ids, inh, parent, child);
    ParentsMembers(ids, inh, parent, child);
  }

  /** The `filter` of `buildInheritanceMaps`, element by element. */
  method FilterInheritance(relations: seq<ClassRelation>) returns (inheritance: seq<ClassRelation>)
    ensures inheritance == InheritanceOf(relations)
  {
    inheritance := [];
    for i := 0 to |relations|
      invariant inheritance == InheritanceOf(relations[..i])
    {
      assert relations[..i + 1][..i] == relations[..i];
      if relations[i].relationType == Inheritance {
        inheritance := inheritance + [relations[i]];
      }
    }
    assert relations[..|relations|] == relations;
  }

  /** The `forEach` that gives every class an empty list in both maps. */
  method EmptyLists(classes: seq<ClassNode>) returns (lists: map<string, seq<string>>)
    ensures forall x :: x in lists <==> x in ClassIds(classes)
    ensures forall x :: x in lists ==> lists[x] == []
  {
    lists := map[];
    for i := 0 to |classes|
      invariant forall x :: x in lists <==> x in ClassIds(classes[..i])
      invariant forall x :: x in lists ==> lists[x] == []
    {
      assert ClassIds(classes[..i + 1]) == ClassIds(classes[..i]) + [classes[i].id];
      lists := lists[classes[i].id := []];
    }
    assert classes[..|classes|] == classes;
  }

  /** One more relation appends at most one entry to each list. */
  lemma EdgesStep(ids: seq<string>, inh: seq<ClassRelation>, i: nat, x: string)
    requires i < |inh|
    ensures ChildrenOf(ids, inh[..i + 1], x)
            == ChildrenOf(ids, inh[..i], x) + (if Known(ids, inh[i]) && inh[i].to == x then [inh[i].from] else [])
    ensures ParentsOf(ids, inh[..i + 1], x)
            == ParentsOf(ids, inh[..i], x) + (if Known(ids, inh[i]) && inh[i].from == x then [inh[i].to] else [])
  {
    assert inh[..i + 1][..i] == inh[..i];
  }

  /** The `forEach` callback of `buildInheritanceMaps` for relation `i`: when both ends are known
      classes, the child is pushed under the parent and the parent under the child. */
  method AddRelation(ids: seq<string>, inheritance: seq<ClassRelation>, i: nat,
                     childrenByParent: map<string, seq<string>>, parentsByChild: map<string, seq<string>>)
    returns (childrenByParent': map<string, seq<string>>, parentsByChild': map<string, seq<string>>)
    requires i < |inheritance|
    requires forall x :: (x in childrenByParent <==> x in ids) && (x in parentsByChild <==> x in ids)
    requires forall p {:trigger childrenByParent[p]} :: p in childrenByParent ==> childrenByParent[p] == ChildrenOf(ids, inheritance[..i], p)
    requires forall c {:trigger parentsByChild[c]} :: c in parentsByChild ==> parentsByChild[c] == ParentsOf(ids, inheritance[..i], c)
    ensures forall x :: (x in childrenByParent' <==> x in ids) && (x in parentsByChild' <==> x in ids)
    ensures forall p {:trigger childrenByParent'[p]} :: p in childrenByParent' ==> childrenByParent'[p] == ChildrenOf(ids, inheritance[..i + 1], p)
    ensures forall c {:trigger parentsByChild'[c]} :: c in parentsByChild' ==> parentsByChild'[c] == ParentsOf(ids, inheritance[..i + 1], c)
  {
    var child, parent := inheritance[i].from, inheritance[i].to;
    childrenByParent', parentsByChild' := childrenByParent, parentsByChild;
    if child in childrenByParent && parent in childrenByParent {
      childrenByParent' := childrenByParent[parent := childrenByParent[parent] + [child]];
      parentsByChild' := parentsByChild[child := parentsByChild[child] + [parent]];
    }
    forall p | p in childrenByParent' ensures childrenByParent'[p] == ChildrenOf(ids, inheritance[..i + 1], p) {
      EdgesStep(ids, inheritance, i, p);
    }
    forall c | c in parentsByChild' ensures parentsByChild'[c] == ParentsOf(ids, inheritance[..i + 1], c) {
      EdgesStep(ids, inheritance, i, c);
    }
  }

  /** `buildInheritanceMaps`: an empty list per class, then one push per known inheritance relation. */
  method BuildInheritanceMaps(classes: seq<ClassNode>, relations: seq<ClassRelation>)
    returns (inheritance: seq<ClassRelation>, childrenByParent: map<string, seq<string>>,
             parentsByChild: map<string, seq<string>>)
    ensures inheritance == InheritanceOf(relations)
    ensures forall x :: (x in childrenByParent <==> x in ClassIds(classes)) && (x in parentsByChild <==> x in ClassIds(classes))
    ensures forall p {:trigger childrenByParent[p]} :: p in childrenByParent ==> childrenByParent[p] == ChildrenOf(ClassIds(classes), inheritance, p)
    ensures forall c {:trigger parentsByChild[c]} :: c in parentsByChild ==> parentsByChild[c] == ParentsOf(ClassIds(classes), inheritance, c)
  {
    var ids := ClassIds(classes);
    inheritance := FilterInheritance(relations);
    childrenByParent := EmptyLists(classes);
    parentsByChild := childrenByParent;
    for i := 0 to |inheritance|
      invariant forall x :: (x in childrenByParent <==> x in ids) && (x in parentsByChild <==> x in ids)
      invariant forall p {:trigger childrenByParent[p]} :: p in childrenByParent ==> childrenByParent[p] == ChildrenOf(ids, inheritance[..i], p)
      invariant forall c {:trigger parentsByChild[c]} :: c in parentsByChild ==> parentsByChild[c] == ParentsOf(ids, inheritance[..i], c)
    {
      childrenByParent, parentsByChild := AddRelation(ids, inheritance, i, childrenByParent, parentsByChild);
    }
    assert inheritance[..|inheritance|] == inheritance;
  }
}
