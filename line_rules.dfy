/**
 * The regular expressions of the diagram parser (src/utils/DiagramParser.js), each written out
 * as the backtracking search the JavaScript engine performs: greedy quantifiers try the longest
 * span first, lazy ones the shortest, and the first successful attempt decides the groups.
 * `.` matches any character except a line terminator; `\s` is `JsString.IsSpace`.
 */
module LineRules {
  import opened Options
  import opened JsString

  /** The identifier class `[A-Za-z0-9_؀-ۿ]`. */
  predicate IsIdentChar(c: char) {
    ('A' <= c <= 'Z') || ('a' <= c <= 'z') || ('0' <= c <= '9') || c == '_'
    || ('\U{0600}' <= c <= '\U{06FF}')
  }

  predicate IsIdentifier(s: string) {
    |s| >= 1 && forall i :: 0 <= i < |s| ==> IsIdentChar(s[i])
  }

  /** Where a greedy run of identifier characters starting at `i` stops. */
  function IdentEnd(s: string, i: nat): (j: nat)
    requires i <= |s|
    ensures i <= j <= |s|
    ensures j < |s| ==> !IsIdentChar(s[j])
    decreases |s| - i
  {
    if i < |s| && IsIdentChar(s[i]) then IdentEnd(s, i + 1) else i
  }

  /** Every character the run from `i` passes over is an identifier character. */
  lemma {:induction false} IdentEndChars(s: string, i: nat)
    requires i <= |s|
    ensures forall k :: i <= k < IdentEnd(s, i) ==> IsIdentChar(s[k])
    decreases |s| - i
  {
    if i < |s| && IsIdentChar(s[i]) {
      IdentEndChars(s, i + 1);
    }
  }

  lemma {:induction false} IdentEndOver(s: string, i: nat, j: nat)
    requires i <= j < |s|
    requires forall k :: i <= k < j ==> IsIdentChar(s[k])
    requires !IsIdentChar(s[j])
    ensures IdentEnd(s, i) == j
    decreases j - i
  {
    if i < j {
      IdentEndOver(s, i + 1, j);
    }
  }

  lemma {:induction false} IdentEndToEnd(s: string, i: nat)
    requires i <= |s|
    requires forall k :: i <= k < |s| ==> IsIdentChar(s[k])
    ensures IdentEnd(s, i) == |s|
    decreases |s| - i
  {
    if i < |s| {
      IdentEndToEnd(s, i + 1);
    }
  }

  /** A text without line terminators stays so when it grows by a character that is not one. */
  lemma NoLineTerminatorGrows(s: string, i: nat, j: nat)
    requires i <= j < |s| && NoLineTerminator(s[i..j]) && !IsLineTerminator(s[j])
    ensures NoLineTerminator(s[i..j + 1])
  {
    var t := s[i..j + 1];
    forall k | 0 <= k < |t|
      ensures !IsLineTerminator(t[k])
    {
      if k < j - i {
        assert t[k] == s[i..j][k];
      }
    }
  }

  // ---------------------------------------------------------------- comments

  /** The two comment patterns `normalizeLine` removes: `\s*\/\/.*$` and `\s+#.*$`. */
  datatype CommentKind = SlashComment | HashComment

  /** The comment pattern matches when the engine starts at position `i`: the whitespace is maximal
      (a shorter run leaves a space where `/` or `#` is needed) and the comment runs to the end. */
  predicate CommentAt(kind: CommentKind, s: string, i: nat)
    requires i <= |s|
  {
    var j := SpaceEnd(s, i);
    match kind
    case SlashComment => j + 2 <= |s| && s[j] == '/' && s[j + 1] == '/' && NoLineTerminator(s[j + 2..])
    case HashComment => j > i && j < |s| && s[j] == '#' && NoLineTerminator(s[j + 1..])
  }

  /** The leftmost position at or after `i` where the comment pattern matches. */
  function FirstCommentFrom(kind: CommentKind, s: string, i: nat): (r: Option<nat>)
    requires i <= |s|
    ensures r.Some? ==> i <= r.value <= |s| && CommentAt(kind, s, r.value)
    ensures r.Some? ==> forall k :: i <= k < r.value ==> !CommentAt(kind, s, k)
    ensures r.None? ==> forall k :: i <= k <= |s| ==> !CommentAt(kind, s, k)
    decreases |s| - i
  {
    if CommentAt(kind, s, i) then Some(i)
    else if i == |s| then None
    else FirstCommentFrom(kind, s, i + 1)
  }

  /** No match of the comment pattern starts before position `n`. */
  predicate NoCommentBefore(kind: CommentKind, s: string, n: nat)
    requires n <= |s|
  {
    forall k :: 0 <= k < n ==> !CommentAt(kind, s, k)
  }

  /** `s.replace(pattern, '')` for a comment pattern: cut at the leftmost match, and keep the whole
      line when there is none. */
  function StripComment(kind: CommentKind, s: string): (r: string)
    ensures |r| <= |s| && r == s[..|r|]
    ensures NoCommentBefore(kind, s, |r|)
    ensures |r| < |s| ==> CommentAt(kind, s, |r|)
  {
    match FirstCommentFrom(kind, s, 0)
    case Some(i) => s[..i]
    case None => s
  }

  /** `normalizeLine`: drop a `//` comment with the whitespace before it, then a `#` comment that
      follows whitespace, then trim. */
  function NormalizeLine(raw: string): (line: string)
    ensures |line| <= |raw|
    ensures line == [] || (!IsSpace(line[0]) && !IsSpace(line[|line| - 1]))
  {
    var noSlash := StripComment(SlashComment, raw);
    var noHash := StripComment(HashComment, noSlash);
    assert |noHash| <= |noSlash| <= |raw|;
    Trim(noHash)
  }

  // ---------------------------------------------------------------- class declarations

  /** `^class\s+([ident]+)\s*\{`: the class name and the position of `{`. */
  function ClassHead(s: string): (r: Option<(string, nat)>)
    ensures r.Some? ==> IsIdentifier(r.value.0) && r.value.1 < |s| && s[r.value.1] == '{'
  {
    if |s| >= 5 && s[..5] == "class" then
      var a := SpaceEnd(s, 5);
      var b := IdentEnd(s, a);
      var c := SpaceEnd(s, b);
      IdentEndChars(s, a);
      if a > 5 && b > a && c < |s| && s[c] == '{' then Some((s[a..b], c)) else None
    else None
  }

  /** `^class\s+([ident]+)\s*\{(.*)\}$`: the class name and the text between the braces. */
  function MatchClassSingleLine(s: string): (r: Option<(string, string)>)
    ensures r.Some? ==> IsIdentifier(r.value.0) && NoLineTerminator(r.value.1)
  {
    match ClassHead(s)
    case None => None
    case Some((name, c)) =>
      if c + 1 < |s| && s[|s| - 1] == '}' && NoLineTerminator(s[c + 1..|s| - 1])
      then Some((name, s[c + 1..|s| - 1]))
      else None
  }

  /** `^class\s+([ident]+)\s*\{$`: the class name when the line ends right after `{`. */
  function MatchClassStart(s: string): (r: Option<string>)
    ensures r.Some? ==> IsIdentifier(r.value) && |s| > 0 && s[|s| - 1] == '{'
  {
    match ClassHead(s)
    case None => None
    case Some((name, c)) => if c == |s| - 1 then Some(name) else None
  }

  /** A line is never both a one-line class and the start of a class block. */
  lemma ClassFormsExclusive(s: string)
    ensures !(MatchClassSingleLine(s).Some? && MatchClassStart(s).Some?)
  {
  }

  // ---------------------------------------------------------------- class relations

  datatype RelationToken = InheritToken | CompositionToken | AggregationToken | AssociationToken

  function TokenText(t: RelationToken): string {
    match t
    case InheritToken => "<|--"
    case CompositionToken => "*--"
    case AggregationToken => "o--"
    case AssociationToken => "--"
  }

  /** The alternation `<\|--|\*--|o--|--` at position `p`; the alternatives begin with different
      characters, so at most one of them fits. */
  function TokenAt(s: string, p: nat): (r: Option<RelationToken>)
    requires p <= |s|
    ensures r.Some? ==> p + |TokenText(r.value)| <= |s|
  {
    if p + 4 <= |s| && s[p] == '<' && s[p + 1] == '|' && s[p + 2] == '-' && s[p + 3] == '-' then Some(InheritToken)
    else if p + 3 <= |s| && s[p] == '*' && s[p + 1] == '-' && s[p + 2] == '-' then Some(CompositionToken)
    else if p + 3 <= |s| && s[p] == 'o' && s[p + 1] == '-' && s[p + 2] == '-' then Some(AggregationToken)
    else if p + 2 <= |s| && s[p] == '-' && s[p + 1] == '-' then Some(AssociationToken)
    else None
  }

  /** A recognised token occurs literally at the position. */
  lemma TokenAtText(s: string, p: nat, q: nat, tok: RelationToken)
    requires p <= |s| && TokenAt(s, p) == Some(tok) && q == p + |TokenText(tok)|
    ensures q <= |s| && s[p..q] == TokenText(tok)
  {
  }

  datatype RelationMatch = RelationMatch(left: string, token: RelationToken, right: string)

  /** `s` is the identifier `left`, white space, the token, white space and the identifier `right`. */
  predicate RelationLine(s: string, m: RelationMatch) {
    && IsIdentifier(m.left) && IsIdentifier(m.right) && |m.left| + |m.right| <= |s|
    && s[..|m.left|] == m.left && s[|s| - |m.right|..] == m.right
    && var p := SpaceEnd(s, |m.left|);
       var q := p + |TokenText(m.token)|;
       q <= |s| - |m.right| && s[p..q] == TokenText(m.token) && AllSpace(s[q..|s| - |m.right|])
  }

  /** The parts of a relation line, with the token spanning `p` to `q`. */
  lemma RelationLineOf(s: string, m: RelationMatch, p: nat, q: nat)
    requires IsIdentifier(m.left) && IsIdentifier(m.right) && |m.left| + |m.right| <= |s|
    requires s[..|m.left|] == m.left && s[|s| - |m.right|..] == m.right
    requires p == SpaceEnd(s, |m.left|) && q == p + |TokenText(m.token)| && q <= |s| - |m.right|
    requires s[p..q] == TokenText(m.token) && AllSpace(s[q..|s| - |m.right|])
    ensures RelationLine(s, m)
  {
  }

  /** `\s*([ident]+)$` from position `q`. */
  function IdentTail(s: string, q: nat): (r: Option<string>)
    requires q <= |s|
  {
    var j := SpaceEnd(s, q);
    if j < |s| && IdentEnd(s, j) == |s| then Some(s[j..]) else None
  }

  /** The identifier tail closes the line and only white space comes before it. */
  lemma IdentTailEnds(s: string, q: nat, right: string)
    requires q <= |s| && IdentTail(s, q) == Some(right)
    ensures IsIdentifier(right) && |right| <= |s| - q && s[|s| - |right|..] == right
    ensures AllSpace(s[q..|s| - |right|])
  {
    SpaceEndSpaces(s, q);
    IdentEndChars(s, SpaceEnd(s, q));
  }

  /** The token at `p` and the identifier tail after it, the first group being the first `k`
      characters. */
  function RelationAtToken(s: string, k: nat, p: nat): (r: Option<RelationMatch>)
    requires k <= p <= |s|
  {
    match TokenAt(s, p)
    case None => None
    case Some(tok) =>
      match IdentTail(s, p + |TokenText(tok)|)
      case None => None
      case Some(right) => Some(RelationMatch(s[..k], tok, right))
  }

  /** The rest of the relation pattern once the first group has been given the first `k` characters. */
  function RelationWithLeft(s: string, k: nat): (r: Option<RelationMatch>)
    requires k <= |s|
  {
    RelationAtToken(s, k, SpaceEnd(s, k))
  }

  /** The token at `p`, where the white space after an identifier prefix ends, and the identifier
      tail from `q`, where the token ends, form a relation line. */
  lemma RelationAtTokenLine(s: string, k: nat, p: nat, q: nat, tok: RelationToken, right: string)
    requires 1 <= k <= p <= |s| && IsIdentifier(s[..k]) && p == SpaceEnd(s, k)
    requires TokenAt(s, p) == Some(tok) && q == p + |TokenText(tok)| && IdentTail(s, q) == Some(right)
    ensures RelationLine(s, RelationMatch(s[..k], tok, right))
  {
    TokenAtText(s, p, q, tok);
    IdentTailEnds(s, q, right);
    RelationLineOf(s, RelationMatch(s[..k], tok, right), p, q);
  }

  /** Whatever the rest of the pattern finds after an identifier prefix forms a relation line. */
  lemma RelationWithLeftLine(s: string, k: nat)
    requires 1 <= k <= |s| && IsIdentifier(s[..k]) && RelationWithLeft(s, k).Some?
    ensures RelationWithLeft(s, k).value.left == s[..k] && RelationLine(s, RelationWithLeft(s, k).value)
  {
    var p := SpaceEnd(s, k);
    var tok := TokenAt(s, p).value;
    var q := p + |TokenText(tok)|;
    RelationAtTokenLine(s, k, p, q, tok, IdentTail(s, q).value);
  }

  lemma IdentPrefix(s: string, k: nat)
    requires 1 <= k <= IdentEnd(s, 0)
    ensures IsIdentifier(s[..k])
  {
    IdentEndChars(s, 0);
  }

  /** The greedy first group: `k` identifier characters, then fewer on failure. */
  function RelationFrom(s: string, k: nat): (r: Option<RelationMatch>)
    requires k <= |s|
    decreases k
  {
    if k == 0 then None
    else
      match RelationWithLeft(s, k)
      case Some(m) => Some(m)
      case None => RelationFrom(s, k - 1)
  }

  /** A relation found with at most `k` identifier characters in the first group is a relation line. */
  lemma {:induction false} RelationFromLine(s: string, k: nat)
    requires k <= IdentEnd(s, 0) && RelationFrom(s, k).Some?
    ensures |RelationFrom(s, k).value.left| <= k && RelationLine(s, RelationFrom(s, k).value)
    decreases k
  {
    if RelationWithLeft(s, k).Some? {
      IdentPrefix(s, k);
      RelationWithLeftLine(s, k);
    } else {
      RelationFromLine(s, k - 1);
    }
  }

  /** `^([ident]+)\s*(<\|--|\*--|o--|--)\s*([ident]+)$`. */
  function MatchClassRelation(s: string): (r: Option<RelationMatch>)
    ensures r.Some? ==> IsIdentifier(r.value.left) && IsIdentifier(r.value.right)
    ensures r.Some? ==> |r.value.left| + |r.value.right| <= |s|
    ensures r.Some? ==> s[..|r.value.left|] == r.value.left && s[|s| - |r.value.right|..] == r.value.right
    ensures r.Some? ==> RelationLine(s, r.value)
  {
    var r := RelationFrom(s, IdentEnd(s, 0));
    if r.Some? then RelationFromLine(s, IdentEnd(s, 0)); r else None
  }

  // ---------------------------------------------------------------- activation commands

  datatype ActivationKind = ActivateCommand | DeactivateCommand

  /** `rest` is what `\s*(.+)$` captures from position `t`: the line after the white space, or its
      last character when only white space is left. */
  predicate RestAt(s: string, t: nat, rest: string) {
    && t + |rest| <= |s| && |rest| >= 1 && s[|s| - |rest|..] == rest && NoLineTerminator(rest)
    && var k := SpaceEnd(s, t);
       |s| - |rest| == k || (k == |s| && |rest| == 1)
  }

  /** `\s*(.+)$` from position `t`: the greedy whitespace, then the rest of the line. When the
      whitespace reaches the end, it gives back its last character to the group. */
  function RestOfLine(s: string, t: nat): (r: Option<string>)
    requires t <= |s|
  {
    var k := SpaceEnd(s, t);
    if k < |s| then
      if NoLineTerminator(s[k..]) then Some(s[k..]) else None
    else if k > t && !IsLineTerminator(s[|s| - 1]) then Some(s[|s| - 1..])
    else None
  }

  /** The captured rest is non-empty, has no line terminator and closes the line. */
  lemma RestOfLineAt(s: string, t: nat)
    requires t <= |s|
    ensures RestOfLine(s, t).Some? ==> RestAt(s, t, RestOfLine(s, t).value)
  {
  }

  /** The keyword `activate` or `deactivate`, ignoring the case of ASCII letters (the `i` flag). */
  function KeywordAt(s: string): (r: Option<(ActivationKind, nat)>)
    ensures r.Some? ==> r.value.1 <= |s|
  {
    if |s| >= 8 && LowerAsciiString(s[..8]) == "activate" then Some((ActivateCommand, 8))
    else if |s| >= 10 && LowerAsciiString(s[..10]) == "deactivate" then Some((DeactivateCommand, 10))
    else None
  }

  function KeywordText(kind: ActivationKind): string {
    match kind
    case ActivateCommand => "activate"
    case DeactivateCommand => "deactivate"
  }

  /** `s` is the keyword in any mix of ASCII cases, at least one white-space character, and `rest`. */
  predicate ActivationLine(s: string, kind: ActivationKind, rest: string) {
    var k := |KeywordText(kind)|;
    k < |s| && LowerAsciiString(s[..k]) == KeywordText(kind) && IsSpace(s[k]) && RestAt(s, k + 1, rest)
  }

  /** `^(activate|deactivate)\s+(.+)$` (case-insensitive): the command and the raw participant. */
  function MatchActivation(s: string): (r: Option<(ActivationKind, string)>)
    ensures r.Some? ==> |r.value.1| >= 1 && NoLineTerminator(r.value.1)
    ensures r.Some? ==> ActivationLine(s, r.value.0, r.value.1)
  {
    match KeywordAt(s)
    case None => None
    case Some((kind, k)) =>
      if k < |s| && IsSpace(s[k]) then
        RestOfLineAt(s, k + 1);
        match RestOfLine(s, k + 1)
        case None => None
        case Some(rest) => Some((kind, rest))
      else None
  }

  // ---------------------------------------------------------------- arrows

  /** The arrow text at position `p`: `-->` when `async`, `->` otherwise. */
  predicate ArrowIs(s: string, p: nat, async: bool) {
    if async then p + 3 <= |s| && s[p] == '-' && s[p + 1] == '-' && s[p + 2] == '>'
    else p + 2 <= |s| && s[p] == '-' && s[p + 1] == '>'
  }

  /** `--?>` at position `p`: the greedy `-?` prefers `-->`; when that fails `->` is tried, which
      cannot succeed after a second `-`, so the choice is fixed by the text. Returns the end: an arrow
      is found exactly when one of the two texts is there, and `-->` wins. */
  function ArrowAt(s: string, p: nat): (e: Option<nat>)
    requires p <= |s|
    ensures e.Some? <==> ArrowIs(s, p, true) || ArrowIs(s, p, false)
    ensures e.Some? ==> e.value == if ArrowIs(s, p, true) then p + 3 else p + 2
  {
    if p + 3 <= |s| && s[p] == '-' && s[p + 1] == '-' && s[p + 2] == '>' then Some(p + 3)
    else if p + 2 <= |s| && s[p] == '-' && s[p + 1] == '>' then Some(p + 2)
    else None
  }

  /** What `ArrowAt` consumes is the text `-->` or `->`, and `-->` exactly when the text starts with it. */
  lemma ArrowAtText(s: string, p: nat)
    requires p <= |s| && ArrowAt(s, p).Some?
    ensures var e := ArrowAt(s, p).value;
            && (s[p..e] == "-->" || s[p..e] == "->")
            && (s[p..e] == "-->" <==> ArrowIs(s, p, true))
  {
    var e := ArrowAt(s, p).value;
    if ArrowIs(s, p, true) {
      assert s[p..e] == [s[p], s[p + 1], s[p + 2]];
    } else {
      assert s[p..e] == [s[p], s[p + 1]];
      assert |s[p..e]| != |"-->"|;
    }
  }

  // ---------------------------------------------------------------- use-case associations

  /** From position `a`: white space, an arrow, white space, and `(u)` closing the line. */
  predicate UseCaseTail(s: string, a: nat, u: string) {
    && a <= |s|
    && var p := SpaceEnd(s, a);
       ArrowAt(s, p).Some? && ParenthesisedAt(s, ArrowAt(s, p).value, u)
  }

  /** From the end `e` of the arrow: white space and `(u)` closing the line. */
  predicate ParenthesisedAt(s: string, e: nat, u: string) {
    && e <= |s|
    && var q := SpaceEnd(s, e);
       q + 2 < |s| && s[q] == '(' && s[|s| - 1] == ')' && s[q + 1..|s| - 1] == u && NoLineTerminator(u)
  }

  /** `s` is the actor text, white space, an arrow, white space and the use case in parentheses. */
  predicate UseCaseLine(s: string, actor: string, u: string) {
    1 <= |actor| <= |s| && s[..|actor|] == actor && NoLineTerminator(actor) && UseCaseTail(s, |actor|, u)
  }

  /** `\s*--?>\s*\((.+?)\)$` once the first group ends at `a`: the raw use-case text. */
  function UseCaseAfter(s: string, a: nat): (r: Option<string>)
    requires a <= |s|
  {
    match ArrowAt(s, SpaceEnd(s, a))
    case None => None
    case Some(e) => UseCaseClose(s, e)
  }

  /** `\s*\((.+?)\)$` from the end `e` of the arrow: the raw use-case text. */
  function UseCaseClose(s: string, e: nat): (r: Option<string>)
    requires e <= |s|
  {
    var q := SpaceEnd(s, e);
    if q + 2 < |s| && s[q] == '(' && s[|s| - 1] == ')' && NoLineTerminator(s[q + 1..|s| - 1])
    then Some(s[q + 1..|s| - 1])
    else None
  }

  /** What follows the first group is white space, an arrow and a non-empty parenthesised text. */
  lemma UseCaseAfterTail(s: string, a: nat)
    requires a <= |s|
    ensures UseCaseAfter(s, a).Some? ==>
      |UseCaseAfter(s, a).value| >= 1 && UseCaseTail(s, a, UseCaseAfter(s, a).value)
  {
  }

  /** The lazy first group `(.+?)`: lengths `a`, `a + 1`, ... until the rest matches. */
  function UseCaseFrom(s: string, a: nat): (r: Option<(string, string)>)
    requires 1 <= a <= |s|
    decreases |s| - a
  {
    if IsLineTerminator(s[a - 1]) then None
    else
      match UseCaseAfter(s, a)
      case Some(u) => Some((s[..a], u))
      case None => if a < |s| then UseCaseFrom(s, a + 1) else None
  }

  /** A use case found with a first group of at least `a` characters is a use-case line. */
  lemma {:induction false} UseCaseFromLine(s: string, a: nat)
    requires 1 <= a <= |s| && NoLineTerminator(s[..a - 1])
    ensures UseCaseFrom(s, a).Some? ==>
      |UseCaseFrom(s, a).value.1| >= 1 && UseCaseLine(s, UseCaseFrom(s, a).value.0, UseCaseFrom(s, a).value.1)
    decreases |s| - a
  {
    if !IsLineTerminator(s[a - 1]) {
      NoLineTerminatorGrows(s, 0, a - 1);
      UseCaseAfterTail(s, a);
      if UseCaseAfter(s, a).None? && a < |s| {
        UseCaseFromLine(s, a + 1);
      }
    }
  }

  /** `^(.+?)\s*--?>\s*\((.+?)\)$`: the raw actor and the raw use case. */
  function MatchUseCase(s: string): (r: Option<(string, string)>)
    ensures r.Some? ==> 1 <= |r.value.0| <= |s| && |r.value.1| >= 1 && s[..|r.value.0|] == r.value.0
    ensures r.Some? ==> UseCaseLine(s, r.value.0, r.value.1)
  {
    if |s| == 0 then None
    else
      UseCaseFromLine(s, 1);
      UseCaseFrom(s, 1)
  }

  // ---------------------------------------------------------------- state transitions

  /** `\s*:\s*(.+)$` from `t`: white space, a colon, and the label as the rest of the line. */
  predicate ColonTail(s: string, t: nat, caption: string) {
    t <= |s| && var k := SpaceEnd(s, t); k < |s| && s[k] == ':' && RestAt(s, k + 1, caption)
  }

  /** `(?:\s*:\s*(.+))?$` from `t`: the line ends at `t` and the label is empty, or a colon tail
      gives a non-empty label. */
  predicate LabelTail(s: string, t: nat, caption: string) {
    if caption == [] then t == |s| else ColonTail(s, t, caption)
  }

  /** From `c`: the text `to` without line terminators, `]`, and the optional label. */
  predicate BracketedAt(s: string, c: nat, to: string, caption: string) {
    |to| >= 1 && c + |to| < |s| && s[c..c + |to|] == to && NoLineTerminator(to) && s[c + |to|] == ']'
    && LabelTail(s, c + |to| + 1, caption)
  }

  /** After `[` and the first group of length `a`: `]`, white space, an arrow, white space, `[`, the
      second group, `]` and the optional label. */
  predicate StateRest(s: string, a: nat, to: string, caption: string) {
    && 1 + a < |s| && s[1 + a] == ']'
    && var p := SpaceEnd(s, 2 + a);
       ArrowAt(s, p).Some? && TargetAt(s, ArrowAt(s, p).value, to, caption)
  }

  /** From the end `e` of the arrow: white space, `[`, the target text, `]` and the optional label. */
  predicate TargetAt(s: string, e: nat, to: string, caption: string) {
    e <= |s| && var q := SpaceEnd(s, e); q + 1 < |s| && s[q] == '[' && BracketedAt(s, q + 1, to, caption)
  }

  /** `(?:\s*:\s*(.+))?$` from `t`: `Some(label)` with `""` when the optional group is skipped. */
  function StateTail(s: string, t: nat): (r: Option<string>)
    requires t <= |s|
  {
    if t == |s| then Some("") else ColonLabel(s, t)
  }

  /** `\s*:\s*(.+)$` from `t`: white space, a colon and the label. */
  function ColonLabel(s: string, t: nat): (r: Option<string>)
    requires t <= |s|
  {
    var k := SpaceEnd(s, t);
    if k < |s| && s[k] == ':' then RestOfLine(s, k + 1) else None
  }

  /** A label found after a colon is a colon tail. */
  lemma ColonLabelTail(s: string, t: nat)
    requires t <= |s|
    ensures ColonLabel(s, t).Some? ==> ColonTail(s, t, ColonLabel(s, t).value)
  {
    var k := SpaceEnd(s, t);
    if k < |s| && s[k] == ':' {
      RestOfLineAt(s, k + 1);
    }
  }

  /** The optional label: the line ends, or a colon tail follows. */
  lemma StateTailLabel(s: string, t: nat)
    requires t <= |s|
    ensures StateTail(s, t).Some? ==> LabelTail(s, t, StateTail(s, t).value)
  {
    if t < |s| {
      ColonLabelTail(s, t);
    }
  }

  /** The lazy second group of the state pattern, `s[c..c + b]`, then `\]` and the tail. */
  function StateSecond(s: string, c: nat, b: nat): (r: Option<(string, string)>)
    requires 1 <= b && c + b <= |s|
    decreases |s| - b
  {
    if IsLineTerminator(s[c + b - 1]) then None
    else if c + b < |s| && s[c + b] == ']' && StateTail(s, c + b + 1).Some? then
      Some((s[c..c + b], StateTail(s, c + b + 1).value))
    else if c + b < |s| then StateSecond(s, c, b + 1)
    else None
  }

  /** A second group found with at least `b` characters is followed by `]` and the optional label. */
  lemma {:induction false} StateSecondBracketed(s: string, c: nat, b: nat)
    requires 1 <= b && c + b <= |s| && NoLineTerminator(s[c..c + b - 1])
    ensures StateSecond(s, c, b).Some? ==>
      BracketedAt(s, c, StateSecond(s, c, b).value.0, StateSecond(s, c, b).value.1)
    decreases |s| - b
  {
    if !IsLineTerminator(s[c + b - 1]) {
      NoLineTerminatorGrows(s, c, c + b - 1);
      if c + b < |s| && s[c + b] == ']' && StateTail(s, c + b + 1).Some? {
        StateTailLabel(s, c + b + 1);
      } else if c + b < |s| {
        StateSecondBracketed(s, c, b + 1);
      }
    }
  }

  /** `\s*\[(.+?)\]` and the optional label from the end `e` of the arrow. */
  function StateTarget(s: string, e: nat): (r: Option<(string, string)>)
    requires e <= |s|
  {
    var q := SpaceEnd(s, e);
    if q + 1 < |s| && s[q] == '[' then StateSecond(s, q + 1, 1) else None
  }

  /** The rest of the state pattern once the first group is `s[1..1 + a]`. */
  function StateAfterFirst(s: string, a: nat): (r: Option<(string, string)>)
    requires 1 + a <= |s|
  {
    if 1 + a < |s| && s[1 + a] == ']' then
      match ArrowAt(s, SpaceEnd(s, 2 + a))
      case None => None
      case Some(e) => StateTarget(s, e)
    else None
  }

  /** A target found after the arrow is bracketed and followed by the optional label. */
  lemma StateTargetAt(s: string, e: nat)
    requires e <= |s|
    ensures StateTarget(s, e).Some? ==> TargetAt(s, e, StateTarget(s, e).value.0, StateTarget(s, e).value.1)
  {
    var q := SpaceEnd(s, e);
    if q + 1 < |s| && s[q] == '[' {
      assert s[q + 1..q + 1] == [];
      StateSecondBracketed(s, q + 1, 1);
    }
  }

  /** What follows the first group is `]`, an arrow and a bracketed target with its label. */
  lemma StateAfterFirstRest(s: string, a: nat)
    requires 1 + a <= |s|
    ensures StateAfterFirst(s, a).Some? ==>
      StateRest(s, a, StateAfterFirst(s, a).value.0, StateAfterFirst(s, a).value.1)
  {
    if 1 + a < |s| && s[1 + a] == ']' && ArrowAt(s, SpaceEnd(s, 2 + a)).Some? {
      StateTargetAt(s, ArrowAt(s, SpaceEnd(s, 2 + a)).value);
    }
  }

  datatype StateMatch = StateMatch(fromRaw: string, toRaw: string, labelRaw: string)

  /** `s` is `[`, the source text, and the rest of a state transition. */
  predicate StateLine(s: string, m: StateMatch) {
    |m.fromRaw| >= 1 && 1 + |m.fromRaw| <= |s| && s[0] == '[' && s[1..1 + |m.fromRaw|] == m.fromRaw
    && NoLineTerminator(m.fromRaw) && StateRest(s, |m.fromRaw|, m.toRaw, m.labelRaw)
  }

  /** The lazy first group `\[(.+?)\]`. */
  function StateFirst(s: string, a: nat): (r: Option<StateMatch>)
    requires 1 <= a && 1 + a <= |s|
    decreases |s| - a
  {
    if IsLineTerminator(s[a]) then None
    else
      match StateAfterFirst(s, a)
      case Some((to, labelText)) => Some(StateMatch(s[1..1 + a], to, labelText))
      case None => if 1 + a < |s| then StateFirst(s, a + 1) else None
  }

  /** A transition found with a first group of at least `a` characters is a state line. */
  lemma {:induction false} StateFirstLine(s: string, a: nat)
    requires 1 <= a && 1 + a <= |s| && s[0] == '[' && NoLineTerminator(s[1..a])
    ensures StateFirst(s, a).Some? ==> StateLine(s, StateFirst(s, a).value)
    decreases |s| - a
  {
    if !IsLineTerminator(s[a]) {
      NoLineTerminatorGrows(s, 1, a);
      StateAfterFirstRest(s, a);
      if StateAfterFirst(s, a).None? && 1 + a < |s| {
        StateFirstLine(s, a + 1);
      }
    }
  }

  /** `^\[(.+?)\]\s*--?>\s*\[(.+?)\](?:\s*:\s*(.+))?$`. */
  function MatchStateTransition(s: string): (r: Option<StateMatch>)
    ensures r.Some? ==> |s| >= 1 && s[0] == '['
    ensures r.Some? ==> StateLine(s, r.value)
  {
    if |s| >= 2 && s[0] == '[' then
      assert s[1..1] == [];
      StateFirstLine(s, 1);
      StateFirst(s, 1)
    else None
  }

  // ---------------------------------------------------------------- sequence messages

  datatype MessageMatch = MessageMatch(fromRaw: string, async: bool, toRaw: string, labelRaw: string)

  /** From `c`: the text `to` without line terminators, then a colon tail with the label. */
  predicate ToThenLabel(s: string, c: nat, to: string, caption: string) {
    |to| >= 1 && c + |to| <= |s| && s[c..c + |to|] == to && NoLineTerminator(to) && ColonTail(s, c + |to|, caption)
  }

  /** `s` is the sender text, white space, an arrow (`-->` exactly when asynchronous), white space,
      the receiver text and a colon tail with the label. */
  predicate MessageLine(s: string, m: MessageMatch) {
    && 1 <= |m.fromRaw| <= |s| && s[..|m.fromRaw|] == m.fromRaw && NoLineTerminator(m.fromRaw)
    && var p := SpaceEnd(s, |m.fromRaw|);
       ArrowAt(s, p).Some?
       && var e := ArrowAt(s, p).value;
          m.async == (e == p + 3) && ReceiverAt(s, e, m.toRaw, m.labelRaw)
  }

  /** From the end `e` of the arrow: some of the white space after it, the receiver text and a colon
      tail with the label. */
  predicate ReceiverAt(s: string, e: nat, to: string, caption: string) {
    e <= |s| && exists c :: e <= c <= SpaceEnd(s, e) && ToThenLabel(s, c, to, caption)
  }

  /** The lazy third group `s[c..c + b]`, then `\s*:\s*(.+)$`. */
  function MessageThird(s: string, c: nat, b: nat): (r: Option<(string, string)>)
    requires 1 <= b && c + b <= |s|
    decreases |s| - b
  {
    if IsLineTerminator(s[c + b - 1]) then None
    else
      match ColonLabel(s, c + b)
      case Some(caption) => Some((s[c..c + b], caption))
      case None => if c + b < |s| then MessageThird(s, c, b + 1) else None
  }

  /** A third group found with at least `b` characters is followed by a colon tail. */
  lemma {:induction false} MessageThirdLabel(s: string, c: nat, b: nat)
    requires 1 <= b && c + b <= |s| && NoLineTerminator(s[c..c + b - 1])
    ensures MessageThird(s, c, b).Some? ==>
      ToThenLabel(s, c, MessageThird(s, c, b).value.0, MessageThird(s, c, b).value.1)
    decreases |s| - b
  {
    if !IsLineTerminator(s[c + b - 1]) {
      NoLineTerminatorGrows(s, c, c + b - 1);
      ColonLabelTail(s, c + b);
      if ColonLabel(s, c + b).None? && c + b < |s| {
        MessageThirdLabel(s, c, b + 1);
      }
    }
  }

  /** The greedy `\s*` after the arrow: `w` whitespace characters first, then fewer. */
  function MessageAfterArrow(s: string, e: nat, w: nat): (r: Option<(string, string)>)
    requires e + w <= |s|
    decreases w
  {
    var r := if e + w < |s| then MessageThird(s, e + w, 1) else None;
    if r.Some? then r
    else if w == 0 then None
    else MessageAfterArrow(s, e, w - 1)
  }

  /** Where the receiver starts when a receiver and label are found with at most `w` characters
      skipped after the arrow. */
  lemma {:induction false} MessageAfterArrowStart(s: string, e: nat, w: nat) returns (c: nat)
    requires e + w <= |s| && MessageAfterArrow(s, e, w).Some?
    ensures e <= c <= e + w
    ensures ToThenLabel(s, c, MessageAfterArrow(s, e, w).value.0, MessageAfterArrow(s, e, w).value.1)
    decreases w
  {
    if e + w < |s| && MessageThird(s, e + w, 1).Some? {
      assert s[e + w..e + w] == [];
      MessageThirdLabel(s, e + w, 1);
      c := e + w;
    } else {
      assert MessageAfterArrow(s, e, w) == MessageAfterArrow(s, e, w - 1);
      c := MessageAfterArrowStart(s, e, w - 1);
    }
  }

  /** `\s*(.+?)\s*:\s*(.+)$` from the end `e` of the arrow, the greedy white space tried first. */
  function MessageReceiver(s: string, e: nat): (r: Option<(string, string)>)
    requires e <= |s|
  {
    MessageAfterArrow(s, e, SpaceEnd(s, e) - e)
  }

  /** The arrow at `p` and the rest of the message pattern, the first group being `s[..a]`. */
  function MessageArrowAt(s: string, a: nat, p: nat): (r: Option<MessageMatch>)
    requires a <= p <= |s|
  {
    match ArrowAt(s, p)
    case None => None
    case Some(e) =>
      match MessageReceiver(s, e)
      case Some((to, labelText)) => Some(MessageMatch(s[..a], e == p + 3, to, labelText))
      case None => None
  }

  /** `\s*(--?>)` and the rest of the message pattern once the first group is `s[..a]`. */
  function MessageAfterFirst(s: string, a: nat): (r: Option<MessageMatch>)
    requires a <= |s|
  {
    MessageArrowAt(s, a, SpaceEnd(s, a))
  }

  /** What follows the first group is white space, an arrow, the receiver and a colon tail. */
  lemma MessageAfterFirstLine(s: string, a: nat)
    requires 1 <= a <= |s| && NoLineTerminator(s[..a])
    ensures MessageAfterFirst(s, a).Some? ==>
      MessageAfterFirst(s, a).value.fromRaw == s[..a] && MessageLine(s, MessageAfterFirst(s, a).value)
  {
    var p := SpaceEnd(s, a);
    if ArrowAt(s, p).Some? {
      var e := ArrowAt(s, p).value;
      if MessageReceiver(s, e).Some? {
        var c := MessageAfterArrowStart(s, e, SpaceEnd(s, e) - e);
      }
    }
  }

  /** The lazy first group of the message pattern, `s[..a]`. */
  function MessageFirst(s: string, a: nat): (r: Option<MessageMatch>)
    requires 1 <= a <= |s|
    decreases |s| - a
  {
    if IsLineTerminator(s[a - 1]) then None
    else
      match MessageAfterFirst(s, a)
      case Some(m) => Some(m)
      case None => if a < |s| then MessageFirst(s, a + 1) else None
  }

  /** A message found with a first group of at least `a` characters is a message line. */
  lemma {:induction false} MessageFirstLine(s: string, a: nat)
    requires 1 <= a <= |s| && NoLineTerminator(s[..a - 1])
    ensures MessageFirst(s, a).Some? ==> MessageLine(s, MessageFirst(s, a).value)
    decreases |s| - a
  {
    if !IsLineTerminator(s[a - 1]) {
      NoLineTerminatorGrows(s, 0, a - 1);
      MessageAfterFirstLine(s, a);
      if MessageAfterFirst(s, a).None? && a < |s| {
        MessageFirstLine(s, a + 1);
      }
    }
  }

  /** `^(.+?)\s*(--?>)\s*(.+?)\s*:\s*(.+)$`; `async` is true when the arrow is `-->`. */
  function MatchSequenceMessage(s: string): (r: Option<MessageMatch>)
    ensures r.Some? ==> |r.value.fromRaw| >= 1 && |r.value.toRaw| >= 1 && |r.value.labelRaw| >= 1
    ensures r.Some? ==> MessageLine(s, r.value)
  {
    if |s| == 0 then None
    else
      MessageFirstLine(s, 1);
      MessageFirst(s, 1)
  }
}
