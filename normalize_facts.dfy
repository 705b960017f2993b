/** Properties of `normalizeLine` (src/utils/DiagramParser.js:1-4). */
module NormalizeFacts {
  import opened Options
  import opened JsString
  import opened LineRules

  /** No `//` anywhere in `s`. */
  predicate NoSlashPair(s: string) {
    forall j :: 0 <= j < |s| - 1 ==> !(s[j] == '/' && s[j + 1] == '/')
  }

  /** No `#` right after whitespace in `s`. */
  predicate NoSpacedHash(s: string) {
    forall j :: 0 <= j < |s| - 1 ==> !(IsSpace(s[j]) && s[j + 1] == '#')
  }

  lemma InfixKeepsNoMarks(s: string, lo: nat, hi: nat)
    requires lo <= hi <= |s|
    ensures NoSlashPair(s) ==> NoSlashPair(s[lo..hi])
    ensures NoSpacedHash(s) ==> NoSpacedHash(s[lo..hi])
    ensures NoLineTerminator(s) ==> NoLineTerminator(s[lo..hi])
  {
    var t := s[lo..hi];
    assert forall j :: 0 <= j < |t| ==> t[j] == s[lo + j];
  }

  /** A `//` starts a comment match right where it stands, when the line has no line terminator. */
  lemma SlashMarksComment(s: string, j: nat)
    requires NoLineTerminator(s) && j + 1 < |s|
    ensures s[j] == '/' && s[j + 1] == '/' ==> CommentAt(SlashComment, s, j)
  {
    if s[j] == '/' && s[j + 1] == '/' {
      assert SpaceEnd(s, j) == j;
      InfixKeepsNoMarks(s, j + 2, |s|);
    }
  }

  /** A whitespace character followed by `#` starts a comment match, when the line has no line
      terminator. */
  lemma HashMarksComment(s: string, j: nat)
    requires NoLineTerminator(s) && j + 1 < |s|
    ensures IsSpace(s[j]) && s[j + 1] == '#' ==> CommentAt(HashComment, s, j)
  {
    if IsSpace(s[j]) && s[j + 1] == '#' {
      assert SpaceEnd(s, j + 1) == j + 1;
      assert SpaceEnd(s, j) == j + 1;
      InfixKeepsNoMarks(s, j + 2, |s|);
    }
  }

  /** No comment match starts within what the replacement keeps. */
  lemma BeforeCut(kind: CommentKind, s: string, j: nat)
    requires j < |StripComment(kind, s)|
    ensures !CommentAt(kind, s, j)
  {
  }

  /** After the first replacement no `//` is left, when the line has no line terminator. */
  lemma SlashStripRemovesAll(s: string)
    requires NoLineTerminator(s)
    ensures NoSlashPair(StripComment(SlashComment, s))
  {
    var r := StripComment(SlashComment, s);
    forall j | 0 <= j < |r| - 1
      ensures !(r[j] == '/' && r[j + 1] == '/')
    {
      SlashMarksComment(s, j);
      BeforeCut(SlashComment, s, j);
      assert r[j] == s[j] && r[j + 1] == s[j + 1];
    }
  }

  /** After the second replacement no whitespace-preceded `#` is left, and no `//` comes back. */
  lemma HashStripRemovesAll(s: string)
    requires NoLineTerminator(s)
    ensures var r := StripComment(HashComment, s);
            NoSpacedHash(r) && (NoSlashPair(s) ==> NoSlashPair(r))
  {
    var r := StripComment(HashComment, s);
    forall j | 0 <= j < |r| - 1
      ensures !(IsSpace(r[j]) && r[j + 1] == '#')
    {
      HashMarksComment(s, j);
      BeforeCut(HashComment, s, j);
      assert r[j] == s[j] && r[j + 1] == s[j + 1];
    }
    InfixKeepsNoMarks(s, 0, |r|);
  }

  /** Everything from `//` (with the whitespace before it) and from a whitespace-preceded `#` is
      gone: the normalised line contains neither, and it has no whitespace at either end. */
  lemma NormalizeRemovesComments(raw: string)
    requires NoLineTerminator(raw)
    ensures var line := NormalizeLine(raw);
            NoSlashPair(line) && NoSpacedHash(line) && NoLineTerminator(line)
  {
    var a := StripComment(SlashComment, raw);
    SlashStripRemovesAll(raw);
    InfixKeepsNoMarks(raw, 0, |a|);
    var b := StripComment(HashComment, a);
    HashStripRemovesAll(a);
    InfixKeepsNoMarks(a, 0, |b|);
    TrimKeepsNoMarks(b);
  }

  lemma TrimKeepsNoMarks(b: string)
    requires NoSlashPair(b) && NoSpacedHash(b) && NoLineTerminator(b)
    ensures var line := Trim(b);
            NoSlashPair(line) && NoSpacedHash(line) && NoLineTerminator(line)
  {
    var lo, hi := SpaceEnd(b, 0), SpaceStartBack(b, |b|);
    if lo < hi {
      assert Trim(b) == b[lo..hi];
      InfixKeepsNoMarks(b, lo, hi);
    } else {
      assert Trim(b) == [];
    }
  }

  /** A line without comment marks passes both replacements unchanged. */
  lemma {:induction false} NoCommentFound(kind: CommentKind, s: string, i: nat)
    requires i <= |s| && NoSlashPair(s) && NoSpacedHash(s)
    ensures FirstCommentFrom(kind, s, i).None?
    decreases |s| - i
  {
    var j := SpaceEnd(s, i);
    SpaceEndSpaces(s, i);
    assert j > i ==> IsSpace(s[j - 1]);
    if i < |s| {
      NoCommentFound(kind, s, i + 1);
    }
  }

  /** Normalising twice is normalising once. */
  lemma NormalizeIdempotent(raw: string)
    requires NoLineTerminator(raw)
    ensures NormalizeLine(NormalizeLine(raw)) == NormalizeLine(raw)
  {
    var line := NormalizeLine(raw);
    NormalizeRemovesComments(raw);
    NoCommentFound(SlashComment, line, 0);
    NoCommentFound(HashComment, line, 0);
    assert StripComment(HashComment, StripComment(SlashComment, line)) == line;
    TrimIdempotent(StripComment(HashComment, StripComment(SlashComment, raw)));
  }
}
