/**
 * The line rules of src/utils/DiagramParser.js:170-278 recognise the lines they are written for: a
 * class relation, an activation command, a use case, a state transition and a sequence message,
 * each written from its parts in the usual way, come back with exactly those parts.
 */
module LineFacts {
  import opened Options
  import opened JsString
  import opened LineRules

  // ---------------------------------------------------------------- pieces

  /** `\s*(.+)$` from `t`, over white space up to a non-space character at `j`, captures the rest of
      the line from `j`. */
  lemma RestOfLineOf(s: string, t: nat, j: nat)
    requires t <= j < |s| && !IsSpace(s[j]) && NoLineTerminator(s[j..])
    requires forall i :: t <= i < j ==> IsSpace(s[i])
    ensures RestOfLine(s, t) == Some(s[j..])
  {
    SpaceEndOver(s, t, j);
  }

  // ---------------------------------------------------------------- class relations

  /** The written token is the one the alternation finds. */
  lemma TokenOf(s: string, p: nat, q: nat, t: RelationToken)
    requires q == p + |TokenText(t)| && q <= |s| && s[p..q] == TokenText(t)
    ensures TokenAt(s, p) == Some(t)
  {
    assert s[p] == TokenText(t)[0] && s[p + 1] == TokenText(t)[1];
    if t != AssociationToken {
      assert s[p + 2] == TokenText(t)[2];
    }
  }

  /** An identifier after white space that runs to the end of the line is the right-hand group. */
  lemma IdentTailOf(s: string, q: nat, j: nat)
    requires q <= j < |s| && !IsSpace(s[j])
    requires forall i :: q <= i < j ==> IsSpace(s[i])
    requires forall i :: j <= i < |s| ==> IsIdentChar(s[i])
    ensures IdentTail(s, q) == Some(s[j..])
  {
    SpaceEndOver(s, q, j);
    IdentEndToEnd(s, j);
  }

  /** With the first group holding the first `a` characters, the token at `p` and an identifier
      tail after it, from `q`, complete the pattern. */
  lemma AtTokenOf(s: string, a: nat, p: nat, q: nat, t: RelationToken, right: string)
    requires a <= p <= |s| && TokenAt(s, p) == Some(t) && q == p + |TokenText(t)|
    requires IdentTail(s, q) == Some(right)
    ensures RelationAtToken(s, a, p) == Some(RelationMatch(s[..a], t, right))
  {
  }

  /** With the white space after the first group ending at `p`, the rest of the pattern is tried
      at `p`. */
  lemma WithLeftOf(s: string, a: nat, p: nat)
    requires 1 <= a <= p <= |s| && IsIdentifier(s[..a]) && SpaceEnd(s, a) == p
    ensures RelationWithLeft(s, a) == RelationAtToken(s, a, p)
  {
  }

  /** A match with the whole identifier run from the start as first group is the first one tried. */
  lemma FromLongestOf(s: string, a: nat)
    requires 1 <= a == IdentEnd(s, 0) && IsIdentifier(s[..a]) && RelationWithLeft(s, a).Some?
    ensures MatchClassRelation(s) == RelationWithLeft(s, a)
  {
  }

  /** The token and the identifier tail of a relation line whose token runs from `a + 1` to `q`. */
  lemma TokenAndTailOf(s: string, a: nat, q: nat, t: RelationToken, right: string)
    requires 1 <= a && q == a + 1 + |TokenText(t)| && q + 1 < |s|
    requires s[q] == ' ' && s[a + 1..q] == TokenText(t)
    requires right == s[q + 1..] && forall i :: q + 1 <= i < |s| ==> IsIdentChar(s[i])
    ensures RelationAtToken(s, a, a + 1) == Some(RelationMatch(s[..a], t, right))
  {
    TokenOf(s, a + 1, q, t);
    assert !IsSpace(s[q + 1]);
    IdentTailOf(s, q, q + 1);
    AtTokenOf(s, a, a + 1, q, t, right);
  }

  /** The relation pattern on a line whose identifier run from the start ends at `a`, followed by
      one space, the token up to `q`, one space and an identifier to the end. */
  lemma RelationAt(s: string, a: nat, q: nat, t: RelationToken, right: string)
    requires 1 <= a && q == a + 1 + |TokenText(t)| && q + 1 < |s|
    requires forall i :: 0 <= i < a ==> IsIdentChar(s[i])
    requires s[a] == ' ' && s[q] == ' ' && s[a + 1..q] == TokenText(t)
    requires right == s[q + 1..] && forall i :: q + 1 <= i < |s| ==> IsIdentChar(s[i])
    ensures MatchClassRelation(s) == Some(RelationMatch(s[..a], t, right))
  {
    IdentEndOver(s, 0, a);
    IdentPrefix(s, a);
    TokenAndTailOf(s, a, q, t, right);
    assert s[a + 1] == TokenText(t)[0];
    SpaceEndOver(s, a, a + 1);
    WithLeftOf(s, a, a + 1);
    FromLongestOf(s, a);
  }

  /** `Left TOKEN Right` gives the two identifiers and the token. */
  lemma RelationOf(left: string, t: RelationToken, right: string)
    requires IsIdentifier(left) && IsIdentifier(right)
    ensures MatchClassRelation(left + " " + TokenText(t) + " " + right) == Some(RelationMatch(left, t, right))
  {
    var s := left + " " + TokenText(t) + " " + right;
    var a := |left|;
    var q := a + 1 + |TokenText(t)|;
    assert forall i :: 0 <= i < a ==> s[i] == left[i];
    assert forall i :: q + 1 <= i < |s| ==> s[i] == right[i - q - 1];
    assert s[a + 1..q] == TokenText(t) && s[..a] == left && s[q + 1..] == right;
    RelationAt(s, a, q, t, right);
  }

  // ---------------------------------------------------------------- activation commands

  /** A keyword written in any mix of ASCII cases at the start of the line is recognised. */
  lemma KeywordOf(s: string, keyword: string, kind: ActivationKind)
    requires |keyword| <= |s| && s[..|keyword|] == keyword && LowerAsciiString(keyword) == KeywordText(kind)
    ensures KeywordAt(s) == Some((kind, |keyword|))
  {
    if kind == DeactivateCommand {
      assert LowerAsciiString(s[..8])[0] == LowerAsciiString(keyword)[0] == 'd';
    }
  }

  /** The keyword, white space up to `j` and the rest of the line from `j`. */
  lemma ActivationShapedOf(s: string, k: nat, j: nat, kind: ActivationKind, participant: string)
    requires KeywordAt(s) == Some((kind, k)) && k < j < |s| && !IsSpace(s[j])
    requires forall i :: k <= i < j ==> IsSpace(s[i])
    requires participant == s[j..] && NoLineTerminator(participant)
    ensures MatchActivation(s) == Some((kind, participant))
  {
    RestOfLineOf(s, k + 1, j);
  }

  /** `activate X` and `deactivate X`, the keyword in any mix of ASCII cases, give the command and `X`. */
  lemma ActivationOf(keyword: string, kind: ActivationKind, gap: string, participant: string)
    requires LowerAsciiString(keyword) == KeywordText(kind)
    requires |gap| >= 1 && AllSpace(gap)
    requires |participant| >= 1 && !IsSpace(participant[0]) && NoLineTerminator(participant)
    ensures MatchActivation(keyword + gap + participant) == Some((kind, participant))
  {
    var s := keyword + gap + participant;
    var k := |keyword|;
    var j := k + |gap|;
    assert s[..k] == keyword && s[j..] == participant;
    assert forall i :: k <= i < j ==> s[i] == gap[i - k];
    KeywordOf(s, keyword, kind);
    ActivationShapedOf(s, k, j, kind, participant);
  }

  // ---------------------------------------------------------------- arrows

  /** The arrow as written: `-->` for an asynchronous message or a dashed edge, `->` otherwise. */
  function ArrowText(async: bool): string {
    if async then "-->" else "->"
  }

  /** The written arrow is found, with its own length. */
  lemma ArrowOf(s: string, p: nat, async: bool)
    requires p + |ArrowText(async)| <= |s| && s[p..p + |ArrowText(async)|] == ArrowText(async)
    ensures ArrowAt(s, p) == Some(p + |ArrowText(async)|)
  {
    assert s[p] == s[p..p + |ArrowText(async)|][0];
    assert s[p + 1] == s[p..p + |ArrowText(async)|][1];
    if async {
      assert s[p + 2] == s[p..p + 3][2];
    }
  }

  /** One space and the written arrow: the white space stops at the arrow, which is found. */
  lemma SpacedArrowOf(s: string, n: nat, async: bool)
    requires n + 1 + |ArrowText(async)| <= |s| && s[n] == ' '
    requires s[n + 1..n + 1 + |ArrowText(async)|] == ArrowText(async)
    ensures SpaceEnd(s, n) == n + 1 && ArrowAt(s, n + 1) == Some(n + 1 + |ArrowText(async)|)
  {
    assert s[n + 1] == s[n + 1..n + 1 + |ArrowText(async)|][0];
    SpaceEndOver(s, n, n + 1);
    ArrowOf(s, n + 1, async);
  }

  /** No arrow starts at a character other than `-`. */
  lemma NoArrowAt(s: string, p: nat)
    requires p < |s| && s[p] != '-'
    ensures ArrowAt(s, p).None?
  {
  }

  /** Where the white space from `k` stops, inside a text that ends in a non-space character. */
  lemma SpaceStopsBefore(s: string, k: nat, n: nat)
    requires k < n <= |s| && !IsSpace(s[n - 1])
    ensures SpaceEnd(s, k) < n
  {
    SpaceEndSpaces(s, k);
  }

  /** The character at `i` is neither `stop` nor a line terminator, so a lazy group can grow over it. */
  predicate PlainAt(s: string, i: nat, stop: char) {
    i < |s| && s[i] != stop && !IsLineTerminator(s[i])
  }

  /** A copy of a text free of `stop` and of line terminators is plain at every position. */
  lemma PlainCopy(s: string, c: nat, t: string, stop: char)
    requires c + |t| <= |s| && stop !in t && NoLineTerminator(t)
    requires forall i :: c <= i < c + |t| ==> s[i] == t[i - c]
    ensures forall i :: c <= i < c + |t| ==> PlainAt(s, i, stop)
  {
  }

  /** The same for a text found as a slice of the line. */
  lemma PlainSlice(s: string, c: nat, t: string, stop: char)
    requires c + |t| <= |s| && stop !in t && NoLineTerminator(t) && s[c..c + |t|] == t
    ensures forall i :: c <= i < c + |t| ==> PlainAt(s, i, stop)
  {
    forall i | c <= i < c + |t|
      ensures PlainAt(s, i, stop)
    {
      assert s[i] == t[i - c];
    }
  }

  // ---------------------------------------------------------------- use-case associations

  /** The lazy first group of the use-case pattern grows past a prefix of the actor: it is not
      followed by white space and an arrow. */
  lemma UseCaseStep(s: string, n: nat, k: nat)
    requires 1 <= k < n <= |s| && !IsSpace(s[n - 1])
    requires forall i :: 0 <= i < n ==> PlainAt(s, i, '-')
    ensures UseCaseFrom(s, k) == UseCaseFrom(s, k + 1)
  {
    var p := SpaceEnd(s, k);
    SpaceStopsBefore(s, k, n);
    assert PlainAt(s, p, '-') && PlainAt(s, k - 1, '-');
    UseCaseNext(s, k, p);
  }

  /** A first group not followed by white space and an arrow grows by one character. */
  lemma UseCaseNext(s: string, k: nat, p: nat)
    requires 1 <= k < |s| && !IsLineTerminator(s[k - 1]) && p == SpaceEnd(s, k) && p < |s| && s[p] != '-'
    ensures UseCaseFrom(s, k) == UseCaseFrom(s, k + 1)
  {
    NoArrowAt(s, p);
    assert UseCaseAfter(s, k).None?;
  }

  /** The lazy first group grows over the whole actor. */
  lemma UseCaseGrows(s: string, n: nat)
    requires 1 <= n <= |s| && !IsSpace(s[n - 1])
    requires forall i :: 0 <= i < n ==> PlainAt(s, i, '-')
    ensures UseCaseFrom(s, 1) == UseCaseFrom(s, n)
  {
    var k := 1;
    while k < n
      invariant 1 <= k <= n
      invariant UseCaseFrom(s, 1) == UseCaseFrom(s, k)
      decreases n - k
    {
      UseCaseStep(s, n, k);
      k := k + 1;
    }
  }

  /** One space and `(u)` to the end of the line close a use-case line. */
  lemma UseCaseCloseOf(s: string, e: nat, u: string)
    requires |u| >= 1 && NoLineTerminator(u)
    requires |s| == e + 3 + |u| && s[e] == ' ' && s[e + 1] == '(' && s[e + 2..|s| - 1] == u && s[|s| - 1] == ')'
    ensures UseCaseClose(s, e) == Some(u)
  {
    SpaceEndOver(s, e, e + 1);
  }

  /** One space and the arrow after the actor lead to the closing part. */
  lemma UseCaseAfterOf(s: string, n: nat, async: bool)
    requires n + 1 + |ArrowText(async)| <= |s| && s[n] == ' '
    requires s[n + 1..n + 1 + |ArrowText(async)|] == ArrowText(async)
    ensures UseCaseAfter(s, n) == UseCaseClose(s, n + 1 + |ArrowText(async)|)
  {
    assert s[n + 1] == s[n + 1..n + 1 + |ArrowText(async)|][0];
    SpaceEndOver(s, n, n + 1);
    ArrowOf(s, n + 1, async);
  }

  /** Where the characters of a use-case line built from its parts are. */
  predicate UseCaseShaped(s: string, actor: string, arrow: string, useCase: string) {
    var n, e := |actor|, |actor| + 1 + |arrow|;
    && |s| == e + 3 + |useCase|
    && (forall i :: 0 <= i < n ==> s[i] == actor[i])
    && s[n] == ' ' && s[n + 1..e] == arrow
    && s[e] == ' ' && s[e + 1] == '(' && s[e + 2..|s| - 1] == useCase && s[|s| - 1] == ')'
  }

  lemma UseCaseShape(s: string, actor: string, arrow: string, useCase: string)
    requires s == actor + " " + arrow + " (" + useCase + ")"
    ensures UseCaseShaped(s, actor, arrow, useCase) && s[..|actor|] == actor
  {
  }

  /** A line shaped like a use-case association is recognised with its parts. */
  lemma UseCaseShapedOf(s: string, actor: string, async: bool, useCase: string)
    requires |actor| >= 1 && '-' !in actor && !IsSpace(actor[|actor| - 1]) && NoLineTerminator(actor)
    requires |useCase| >= 1 && NoLineTerminator(useCase)
    requires UseCaseShaped(s, actor, ArrowText(async), useCase) && s[..|actor|] == actor
    ensures MatchUseCase(s) == Some((actor, useCase))
  {
    var n := |actor|;
    PlainCopy(s, 0, actor, '-');
    UseCaseGrows(s, n);
    UseCaseCloseOf(s, n + 1 + |ArrowText(async)|, useCase);
    UseCaseAfterOf(s, n, async);
  }

  /** `Actor -> (Use case)` and `Actor --> (Use case)` give the actor and the use case, for an actor
      without `-` that does not end in white space. */
  lemma UseCaseOf(actor: string, async: bool, useCase: string)
    requires |actor| >= 1 && '-' !in actor && !IsSpace(actor[|actor| - 1]) && NoLineTerminator(actor)
    requires |useCase| >= 1 && NoLineTerminator(useCase)
    ensures MatchUseCase(actor + " " + ArrowText(async) + " (" + useCase + ")") == Some((actor, useCase))
  {
    var s := actor + " " + ArrowText(async) + " (" + useCase + ")";
    UseCaseShape(s, actor, ArrowText(async), useCase);
    UseCaseShapedOf(s, actor, async, useCase);
  }

  // ---------------------------------------------------------------- state transitions

  /** The optional label of a state line as written: nothing, or ` : ` and the label. */
  function LabelSuffix(caption: string): string {
    if caption == [] then [] else " : " + caption
  }

  /** A label written as ` : text` from position `t` is the label `text`. */
  lemma ColonLabelOf(s: string, t: nat, caption: string)
    requires |caption| >= 1 && !IsSpace(caption[0]) && NoLineTerminator(caption)
    requires t + 3 + |caption| == |s| && s[t..] == " : " + caption
    ensures ColonLabel(s, t) == Some(caption)
  {
    assert s[t] == ' ' && s[t + 1] == ':' && s[t + 2] == ' ' && s[t + 3] == caption[0];
    SpaceEndOver(s, t, t + 1);
    SpaceEndOver(s, t + 2, t + 3);
    assert s[t + 3..] == caption;
  }

  /** The optional label as written is the label found. */
  lemma StateTailOf(s: string, t: nat, caption: string)
    requires caption == [] || (!IsSpace(caption[0]) && NoLineTerminator(caption))
    requires t <= |s| && s[t..] == LabelSuffix(caption)
    ensures StateTail(s, t) == Some(caption)
  {
    if caption != [] {
      ColonLabelOf(s, t, caption);
    }
  }

  /** A second group not followed by `]` grows by one character. */
  lemma StateSecondNext(s: string, c: nat, b: nat)
    requires 1 <= b && c + b < |s| && !IsLineTerminator(s[c + b - 1]) && s[c + b] != ']'
    ensures StateSecond(s, c, b) == StateSecond(s, c, b + 1)
  {
  }

  /** The second group stops at `m` characters once `]` and a label follow. */
  lemma StateSecondStop(s: string, c: nat, m: nat, caption: string)
    requires 1 <= m && c + m < |s| && !IsLineTerminator(s[c + m - 1])
    requires s[c + m] == ']' && StateTail(s, c + m + 1) == Some(caption)
    ensures StateSecond(s, c, m) == Some((s[c..c + m], caption))
  {
  }

  /** A second group free of `]` and of line terminators, then `]` and a label, is what the lazy
      group finds from its first character. */
  lemma StateSecondFrom(s: string, c: nat, m: nat, caption: string)
    requires 1 <= m && c + m < |s| && s[c + m] == ']'
    requires forall i :: c <= i < c + m ==> PlainAt(s, i, ']')
    requires StateTail(s, c + m + 1) == Some(caption)
    ensures StateSecond(s, c, 1) == Some((s[c..c + m], caption))
  {
    assert PlainAt(s, c + m - 1, ']');
    StateSecondStop(s, c, m, caption);
    StateSecondGrows(s, c, m);
  }

  /** The lazy second group grows to the first `]`. */
  lemma StateSecondGrows(s: string, c: nat, m: nat)
    requires 1 <= m && c + m < |s|
    requires forall i :: c <= i < c + m ==> PlainAt(s, i, ']')
    ensures StateSecond(s, c, 1) == StateSecond(s, c, m)
  {
    var b := 1;
    while b < m
      invariant 1 <= b <= m
      invariant StateSecond(s, c, 1) == StateSecond(s, c, b)
      decreases m - b
    {
      StateSecondStep(s, c, m, b);
      b := b + 1;
    }
  }

  /** The lazy second group grows past a prefix of the target: no `]` follows it. */
  lemma StateSecondStep(s: string, c: nat, m: nat, b: nat)
    requires 1 <= b < m && c + m < |s|
    requires forall i :: c <= i < c + m ==> PlainAt(s, i, ']')
    ensures StateSecond(s, c, b) == StateSecond(s, c, b + 1)
  {
    assert PlainAt(s, c + b - 1, ']') && PlainAt(s, c + b, ']');
    StateSecondNext(s, c, b);
  }

  /** After the white space ending at `q`, `[` starts the second group. */
  lemma StateTargetFrom(s: string, e: nat, q: nat)
    requires e <= q && q + 1 < |s| && SpaceEnd(s, e) == q && s[q] == '['
    ensures StateTarget(s, e) == StateSecond(s, q + 1, 1)
  {
  }

  /** One space, `[target]` and the label as written after the arrow. */
  lemma StateTargetOf(s: string, e: nat, target: string, caption: string)
    requires |target| >= 1 && ']' !in target && NoLineTerminator(target)
    requires caption == [] || (!IsSpace(caption[0]) && NoLineTerminator(caption))
    requires e + 3 + |target| <= |s| && s[e] == ' ' && s[e + 1] == '['
    requires s[e + 2..e + 2 + |target|] == target && s[e + 2 + |target|] == ']'
    requires s[e + 3 + |target|..] == LabelSuffix(caption)
    ensures StateTarget(s, e) == Some((target, caption))
  {
    var c, m := e + 2, |target|;
    PlainSlice(s, c, target, ']');
    StateTailOf(s, c + m + 1, caption);
    StateSecondFrom(s, c, m, caption);
    SpaceEndOver(s, e, e + 1);
    StateTargetFrom(s, e, e + 1);
  }

  /** `]`, one space and the arrow after the source lead to the target part. */
  lemma StateAfterOf(s: string, n: nat, async: bool)
    requires 3 + n + |ArrowText(async)| <= |s| && s[1 + n] == ']' && s[2 + n] == ' '
    requires s[3 + n..3 + n + |ArrowText(async)|] == ArrowText(async)
    ensures StateAfterFirst(s, n) == StateTarget(s, 3 + n + |ArrowText(async)|)
  {
    assert s[3 + n] == s[3 + n..3 + n + |ArrowText(async)|][0];
    SpaceEndOver(s, 2 + n, 3 + n);
    ArrowOf(s, 3 + n, async);
  }

  /** A first group not followed by `]` grows by one character. */
  lemma StateFirstNext(s: string, a: nat)
    requires 1 <= a && 2 + a < |s| && !IsLineTerminator(s[a]) && s[1 + a] != ']'
    ensures StateFirst(s, a) == StateFirst(s, a + 1)
  {
    assert StateAfterFirst(s, a).None?;
  }

  /** The lazy first group grows to the first `]`. */
  lemma StateFirstGrows(s: string, n: nat)
    requires 1 <= n && 1 + n < |s|
    requires forall i :: 1 <= i < 1 + n ==> PlainAt(s, i, ']')
    ensures StateFirst(s, 1) == StateFirst(s, n)
  {
    var a := 1;
    while a < n
      invariant 1 <= a <= n
      invariant StateFirst(s, 1) == StateFirst(s, a)
      decreases n - a
    {
      StateFirstStep(s, n, a);
      a := a + 1;
    }
  }

  /** The lazy first group grows past a prefix of the source: no `]` follows it. */
  lemma StateFirstStep(s: string, n: nat, a: nat)
    requires 1 <= a < n && 1 + n < |s|
    requires forall i :: 1 <= i < 1 + n ==> PlainAt(s, i, ']')
    ensures StateFirst(s, a) == StateFirst(s, a + 1)
  {
    assert PlainAt(s, a, ']') && PlainAt(s, 1 + a, ']');
    StateFirstNext(s, a);
  }

  /** The first group stops at the whole source once the rest of the line matches after it. */
  lemma StateFirstStop(s: string, n: nat, target: string, caption: string)
    requires 1 <= n && 1 + n <= |s| && s[0] == '[' && !IsLineTerminator(s[n])
    requires StateAfterFirst(s, n) == Some((target, caption))
    ensures StateFirst(s, n) == Some(StateMatch(s[1..1 + n], target, caption))
  {
  }

  /** Where the characters of a state line built from its parts are. */
  predicate StateShaped(s: string, source: string, arrow: string, target: string, tail: string) {
    var n, e := |source|, 3 + |source| + |arrow|;
    && |s| == e + 3 + |target| + |tail| && s[0] == '['
    && (forall i :: 1 <= i < 1 + n ==> s[i] == source[i - 1])
    && s[1 + n] == ']' && s[2 + n] == ' ' && s[3 + n..e] == arrow
    && s[e] == ' ' && s[e + 1] == '[' && s[e + 2..e + 2 + |target|] == target && s[e + 2 + |target|] == ']'
    && s[e + 3 + |target|..] == tail
  }

  lemma StateShape(s: string, source: string, arrow: string, target: string, tail: string)
    requires s == "[" + source + "] " + arrow + " [" + target + "]" + tail
    ensures StateShaped(s, source, arrow, target, tail) && s[1..1 + |source|] == source
  {
  }

  /** A line shaped like a state transition is recognised with its parts. */
  lemma StateShapedOf(s: string, source: string, async: bool, target: string, caption: string)
    requires |source| >= 1 && ']' !in source && NoLineTerminator(source)
    requires |target| >= 1 && ']' !in target && NoLineTerminator(target)
    requires caption == [] || (!IsSpace(caption[0]) && NoLineTerminator(caption))
    requires StateShaped(s, source, ArrowText(async), target, LabelSuffix(caption))
    ensures MatchStateTransition(s) == Some(StateMatch(s[1..1 + |source|], target, caption))
  {
    var n, e := |source|, 3 + |source| + |ArrowText(async)|;
    PlainCopy(s, 1, source, ']');
    StateTargetOf(s, e, target, caption);
    StateAfterOf(s, n, async);
    StateFirstStop(s, n, target, caption);
    StateFirstGrows(s, n);
    MatchStateFrom(s, n, StateMatch(s[1..1 + n], target, caption));
  }

  /** The state pattern tries the first group from one character. */
  lemma MatchStateFrom(s: string, n: nat, m: StateMatch)
    requires 1 <= n && 1 + n < |s| && s[0] == '[' && StateFirst(s, 1) == StateFirst(s, n) == Some(m)
    ensures MatchStateTransition(s) == Some(m)
  {
  }

  /** `[Source] -> [Target]`, with `-->` as well, and optionally ` : label`, gives the two states and
      the label (empty when there is none), for state texts without `]`. */
  lemma StateOf(source: string, async: bool, target: string, caption: string)
    requires |source| >= 1 && ']' !in source && NoLineTerminator(source)
    requires |target| >= 1 && ']' !in target && NoLineTerminator(target)
    requires caption == [] || (!IsSpace(caption[0]) && NoLineTerminator(caption))
    ensures MatchStateTransition("[" + source + "] " + ArrowText(async) + " [" + target + "]" + LabelSuffix(caption))
            == Some(StateMatch(source, target, caption))
  {
    var s := "[" + source + "] " + ArrowText(async) + " [" + target + "]" + LabelSuffix(caption);
    StateShape(s, source, ArrowText(async), target, LabelSuffix(caption));
    StateShapedOf(s, source, async, target, caption);
  }

  // ---------------------------------------------------------------- sequence messages

  /** The lazy third group of the message pattern grows past a prefix of the receiver: it is not
      followed by white space and a colon. */
  lemma MessageThirdStep(s: string, c: nat, m: nat, b: nat)
    requires 1 <= b < m && c + m < |s| && !IsSpace(s[c + m - 1])
    requires forall i :: c <= i < c + m ==> PlainAt(s, i, ':')
    ensures MessageThird(s, c, b) == MessageThird(s, c, b + 1)
  {
    var k := SpaceEnd(s, c + b);
    SpaceStopsBefore(s, c + b, c + m);
    assert PlainAt(s, k, ':') && PlainAt(s, c + b - 1, ':');
    MessageThirdNext(s, c, b, k);
  }

  /** A third group not followed by white space and a colon grows by one character. */
  lemma MessageThirdNext(s: string, c: nat, b: nat, k: nat)
    requires 1 <= b && c + b < |s| && !IsLineTerminator(s[c + b - 1])
    requires k == SpaceEnd(s, c + b) && k < |s| && s[k] != ':'
    ensures MessageThird(s, c, b) == MessageThird(s, c, b + 1)
  {
    assert ColonLabel(s, c + b).None?;
  }

  /** The lazy third group grows over the whole receiver. */
  lemma MessageThirdGrows(s: string, c: nat, m: nat)
    requires 1 <= m && c + m < |s| && !IsSpace(s[c + m - 1])
    requires forall i :: c <= i < c + m ==> PlainAt(s, i, ':')
    ensures MessageThird(s, c, 1) == MessageThird(s, c, m)
  {
    var b := 1;
    while b < m
      invariant 1 <= b <= m
      invariant MessageThird(s, c, 1) == MessageThird(s, c, b)
      decreases m - b
    {
      MessageThirdStep(s, c, m, b);
      b := b + 1;
    }
  }

  /** The third group stops at length `m` when a colon tail follows it. */
  lemma MessageThirdStop(s: string, c: nat, m: nat, text: string)
    requires 1 <= m && c + m <= |s| && !IsLineTerminator(s[c + m - 1])
    requires ColonLabel(s, c + m) == Some(text)
    ensures MessageThird(s, c, m) == Some((s[c..c + m], text))
  {
  }

  /** One space, the receiver and ` : text` after the arrow give the receiver and the text. */
  lemma MessageReceiverOf(s: string, e: nat, receiver: string, text: string)
    requires |receiver| >= 1 && ':' !in receiver && !IsSpace(receiver[0]) && !IsSpace(receiver[|receiver| - 1])
    requires NoLineTerminator(receiver)
    requires |text| >= 1 && !IsSpace(text[0]) && NoLineTerminator(text)
    requires e + 1 + |receiver| <= |s| && s[e] == ' ' && s[e + 1..e + 1 + |receiver|] == receiver
    requires s[e + 1 + |receiver|..] == " : " + text
    ensures MessageReceiver(s, e) == Some((receiver, text))
  {
    var c, m := e + 1, |receiver|;
    PlainSlice(s, c, receiver, ':');
    assert s[c] == receiver[0] && s[c + m - 1] == receiver[m - 1];
    SpaceEndOver(s, e, c);
    ColonLabelOf(s, c + m, text);
    MessageThirdStop(s, c, m, text);
    MessageThirdGrows(s, c, m);
    MessageReceiverFrom(s, e, Some((receiver, text)));
  }

  /** After one white-space character the receiver and label are tried there first. */
  lemma MessageReceiverFrom(s: string, e: nat, r: Option<(string, string)>)
    requires e + 1 < |s| && SpaceEnd(s, e) == e + 1 && MessageThird(s, e + 1, 1) == r && r.Some?
    ensures MessageReceiver(s, e) == r
  {
    assert MessageAfterArrow(s, e, 1) == r;
  }

  /** The lazy first group of the message pattern grows past a prefix of the sender: it is not
      followed by white space and an arrow. */
  lemma MessageFirstStep(s: string, n: nat, a: nat)
    requires 1 <= a < n < |s| && !IsSpace(s[n - 1])
    requires forall i :: 0 <= i < n ==> PlainAt(s, i, '-')
    ensures MessageFirst(s, a) == MessageFirst(s, a + 1)
  {
    var p := SpaceEnd(s, a);
    SpaceStopsBefore(s, a, n);
    assert PlainAt(s, p, '-') && PlainAt(s, a - 1, '-');
    MessageFirstNext(s, a, p);
  }

  /** The lazy first group grows over the whole sender. */
  lemma MessageFirstGrows(s: string, n: nat)
    requires 1 <= n < |s| && !IsSpace(s[n - 1])
    requires forall i :: 0 <= i < n ==> PlainAt(s, i, '-')
    ensures MessageFirst(s, 1) == MessageFirst(s, n)
  {
    var a := 1;
    while a < n
      invariant 1 <= a <= n
      invariant MessageFirst(s, 1) == MessageFirst(s, a)
      decreases n - a
    {
      MessageFirstStep(s, n, a);
      a := a + 1;
    }
  }

  /** A first group not followed by white space and an arrow grows by one character. */
  lemma MessageFirstNext(s: string, a: nat, p: nat)
    requires 1 <= a < |s| && !IsLineTerminator(s[a - 1]) && p == SpaceEnd(s, a) && p < |s| && s[p] != '-'
    ensures MessageFirst(s, a) == MessageFirst(s, a + 1)
  {
    NoArrowAt(s, p);
    assert MessageAfterFirst(s, a).None?;
  }

  /** The arrow at `p` and the receiver part after it complete the pattern. */
  lemma MessageArrowAtOf(s: string, a: nat, p: nat, e: nat, receiver: string, text: string)
    requires a <= p <= e <= |s| && ArrowAt(s, p) == Some(e)
    requires MessageReceiver(s, e) == Some((receiver, text))
    ensures MessageArrowAt(s, a, p) == Some(MessageMatch(s[..a], e == p + 3, receiver, text))
  {
  }

  /** With the white space after the sender ending at `p`, the message pattern after the sender is
      the one at the arrow. */
  lemma MessageAfterFirstOf(s: string, n: nat, p: nat, m: MessageMatch)
    requires 1 <= n <= p <= |s| && SpaceEnd(s, n) == p
    requires MessageArrowAt(s, n, p) == Some(m)
    ensures MessageAfterFirst(s, n) == Some(m)
  {
  }

  /** The first group stops at the whole sender once the rest of the line matches after it. */
  lemma MessageFirstAt(s: string, n: nat, m: MessageMatch)
    requires 1 <= n <= |s| && !IsLineTerminator(s[n - 1])
    requires MessageAfterFirst(s, n) == Some(m)
    ensures MessageFirst(s, n) == Some(m)
  {
  }

  /** Where the characters of a message line built from its parts are. */
  predicate MessageShaped(s: string, sender: string, arrow: string, receiver: string, text: string) {
    var n, e := |sender|, |sender| + 1 + |arrow|;
    && |s| == e + 4 + |receiver| + |text|
    && (forall i :: 0 <= i < n ==> s[i] == sender[i])
    && s[n] == ' ' && s[n + 1..e] == arrow
    && s[e] == ' ' && s[e + 1..e + 1 + |receiver|] == receiver && s[e + 1 + |receiver|..] == " : " + text
  }

  lemma MessageShape(s: string, sender: string, arrow: string, receiver: string, text: string)
    requires s == sender + " " + arrow + " " + receiver + " : " + text
    ensures MessageShaped(s, sender, arrow, receiver, text) && s[..|sender|] == sender
  {
  }

  /** In a line shaped like a message, the rest of the pattern after the sender matches. */
  lemma MessageAfterShaped(s: string, sender: string, async: bool, receiver: string, text: string)
    requires |sender| >= 1 && NoLineTerminator(sender)
    requires |receiver| >= 1 && ':' !in receiver && !IsSpace(receiver[0]) && !IsSpace(receiver[|receiver| - 1])
    requires NoLineTerminator(receiver)
    requires |text| >= 1 && !IsSpace(text[0]) && NoLineTerminator(text)
    requires MessageShaped(s, sender, ArrowText(async), receiver, text) && s[..|sender|] == sender
    ensures MessageAfterFirst(s, |sender|) == Some(MessageMatch(sender, async, receiver, text))
  {
    var n, e := |sender|, |sender| + 1 + |ArrowText(async)|;
    SpacedArrowOf(s, n, async);
    assert (e == n + 1 + 3) == async;
    MessageReceiverOf(s, e, receiver, text);
    MessageArrowAtOf(s, n, n + 1, e, receiver, text);
    MessageAfterFirstOf(s, n, n + 1, MessageMatch(sender, async, receiver, text));
  }

  /** A line shaped like a message is recognised with its parts. */
  lemma MessageShapedOf(s: string, sender: string, async: bool, receiver: string, text: string)
    requires |sender| >= 1 && '-' !in sender && !IsSpace(sender[|sender| - 1]) && NoLineTerminator(sender)
    requires |receiver| >= 1 && ':' !in receiver && !IsSpace(receiver[0]) && !IsSpace(receiver[|receiver| - 1])
    requires NoLineTerminator(receiver)
    requires |text| >= 1 && !IsSpace(text[0]) && NoLineTerminator(text)
    requires MessageShaped(s, sender, ArrowText(async), receiver, text) && s[..|sender|] == sender
    ensures MatchSequenceMessage(s) == Some(MessageMatch(sender, async, receiver, text))
  {
    var n := |sender|;
    PlainCopy(s, 0, sender, '-');
    MessageFirstGrows(s, n);
    MessageAfterShaped(s, sender, async, receiver, text);
    MessageFirstAt(s, n, MessageMatch(sender, async, receiver, text));
  }

  /** `Sender -> Receiver : text` and `Sender --> Receiver : text` give the sender, the arrow kind,
      the receiver and the text, for a sender without `-` and a receiver without `:`, neither padded
      with white space. */
  lemma MessageOf(sender: string, async: bool, receiver: string, text: string)
    requires |sender| >= 1 && '-' !in sender && !IsSpace(sender[|sender| - 1]) && NoLineTerminator(sender)
    requires |receiver| >= 1 && ':' !in receiver && !IsSpace(receiver[0]) && !IsSpace(receiver[|receiver| - 1])
    requires NoLineTerminator(receiver)
    requires |text| >= 1 && !IsSpace(text[0]) && NoLineTerminator(text)
    ensures MatchSequenceMessage(sender + " " + ArrowText(async) + " " + receiver + " : " + text)
            == Some(MessageMatch(sender, async, receiver, text))
  {
    var s := sender + " " + ArrowText(async) + " " + receiver + " : " + text;
    MessageShape(s, sender, ArrowText(async), receiver, text);
    MessageShapedOf(s, sender, async, receiver, text);
  }
}
