/**
 * Class declarations in src/utils/DiagramParser.js:136-168: a one-line body `class N {a; b}` gives
 * the class the same members as the block `class N {` / `a` / `b` / `}`, and while a block is open
 * every non-blank line goes to that class and nowhere else.
 */
module ClassBodyFacts {
  import opened Options
  import opened JsString
  import opened LineRules
  import opened DiagramModel
  import opened DiagramParser
  import opened NormalizeFacts
  import opened ParserFacts

  /** The parse loop run over `lines` from `ctx` with a given per-line transition, the first line
      being line `n`. */
  function RunWith(step: (Context, nat, string) -> Context, ctx: Context, n: nat, lines: seq<string>): Context
    decreases |lines|
  {
    if lines == [] then ctx
    else step(RunWith(step, ctx, n, lines[..|lines| - 1]), n + |lines| - 1, lines[|lines| - 1])
  }

  /** Running a line and then the rest is running them all. */
  lemma {:induction false} RunWithCons(step: (Context, nat, string) -> Context, ctx: Context, n: nat,
                                       x: string, lines: seq<string>)
    ensures RunWith(step, ctx, n, [x] + lines) == RunWith(step, step(ctx, n, x), n + 1, lines)
    decreases |lines|
  {
    if lines != [] {
      var init := lines[..|lines| - 1];
      assert ([x] + lines)[..|[x] + lines| - 1] == [x] + init;
      RunWithCons(step, ctx, n, x, init);
    } else {
      assert ([x] + lines)[..0] == [];
    }
  }

  /** The parse loop of `parseDiagramText` run over `lines` from `ctx`. */
  function Run(ctx: Context, n: nat, lines: seq<string>): Context {
    RunWith(Step, ctx, n, lines)
  }

  // ---------------------------------------------------------------- the class header

  function ClassHeader(name: string): string {
    "class " + name + " {"
  }

  /** The header `class N {` followed by anything is recognised with name N and `{` after it. */
  lemma ClassHeadOf(name: string, rest: string)
    requires IsIdentifier(name)
    ensures ClassHead(ClassHeader(name) + rest) == Some((name, |name| + 7))
  {
    var s := ClassHeader(name) + rest;
    assert s[..5] == "class";
    assert s[5] == ' ' && s[6] == name[0];
    SpaceEndOver(s, 5, 6);
    assert forall k :: 6 <= k < 6 + |name| ==> s[k] == name[k - 6];
    IdentEndOver(s, 6, 6 + |name|);
    SpaceEndOver(s, 6 + |name|, 7 + |name|);
    assert s[6..6 + |name|] == name;
  }

  lemma ClassStartOf(name: string)
    requires IsIdentifier(name)
    ensures MatchClassSingleLine(ClassHeader(name)).None?
    ensures MatchClassStart(ClassHeader(name)) == Some(name)
  {
    ClassHeadOf(name, []);
    assert ClassHeader(name) + [] == ClassHeader(name);
  }

  lemma SingleLineOf(name: string, body: string)
    requires IsIdentifier(name) && NoLineTerminator(body)
    ensures MatchClassSingleLine(ClassHeader(name) + body + "}") == Some((name, body))
  {
    ClassHeadOf(name, body + "}");
    var s := ClassHeader(name) + body + "}";
    assert s == ClassHeader(name) + (body + "}");
    assert s[|name| + 8..|s| - 1] == body;
  }

  // ---------------------------------------------------------------- lines that normalise to themselves

  lemma NormalizeFixed(s: string)
    requires NoSlashPair(s) && NoSpacedHash(s)
    requires s != [] && !IsSpace(s[0]) && !IsSpace(s[|s| - 1])
    ensures NormalizeLine(s) == s
  {
    NoCommentFound(SlashComment, s, 0);
    NoCommentFound(HashComment, s, 0);
    TrimPadded([], s, []);
    assert [] + s + [] == s;
  }

  lemma HeaderNormal(name: string)
    requires IsIdentifier(name)
    ensures NormalizeLine(ClassHeader(name)) == ClassHeader(name)
    ensures NormalizeLine("}") == "}"
  {
    var h := ClassHeader(name);
    assert forall k :: 6 <= k < 6 + |name| ==> h[k] == name[k - 6];
    assert forall k :: 0 <= k < |h| ==> h[k] != '/' && h[k] != '#';
    NormalizeFixed(h);
    NormalizeFixed("}");
  }

  // ---------------------------------------------------------------- members

  /** A member line that survives normalisation as it is and contains neither `}` nor `;`. */
  predicate PlainMember(m: string) {
    m != [] && NormalizeLine(m) == m && '}' !in m && ';' !in m && NoLineTerminator(m)
  }

  lemma PlainMemberTrimmed(m: string)
    requires PlainMember(m)
    ensures Trim(m) == m
  {
    TrimPadded([], m, []);
    assert [] + m + [] == m;
  }

  lemma {:induction false} BodyMembersOfPlain(members: seq<string>)
    requires forall i :: 0 <= i < |members| ==> PlainMember(members[i])
    ensures BodyMembers(members) == members
    decreases |members|
  {
    if members != [] {
      PlainMemberTrimmed(members[0]);
      BodyMembersOfPlain(members[1..]);
      assert members == [members[0]] + members[1..];
    }
  }

  /** Every part whose trimmed text is not blank survives the split-and-filter, trimmed. */
  lemma {:induction false} BodyMembersKeepsParts(parts: seq<string>)
    ensures forall i :: 0 <= i < |parts| && Trim(parts[i]) != [] ==> Trim(parts[i]) in BodyMembers(parts)
    decreases |parts|
  {
    if parts != [] {
      BodyMembersKeepsParts(parts[1..]);
      assert forall i :: 1 <= i < |parts| ==> parts[i] == parts[1..][i - 1];
    }
  }

  /** One `;`-separated part becomes one member, trimmed, exactly when its trimmed text is not empty. */
  lemma BodyMembersSingle(part: string)
    ensures BodyMembers([part]) == if Trim(part) == [] then [] else [Trim(part)]
  {
    assert [part][1..] == [];
  }

  /** The split-and-filter works part by part and keeps the parts' order: together with
      `BodyMembersSingle` it is the order-preserving trim-and-drop-blanks of every part. */
  lemma {:induction false} BodyMembersConcat(a: seq<string>, b: seq<string>)
    ensures BodyMembers(a + b) == BodyMembers(a) + BodyMembers(b)
    decreases |a|
  {
    if a == [] {
      assert a + b == b;
    } else {
      assert (a + b)[0] == a[0] && (a + b)[1..] == a[1..] + b;
      BodyMembersConcat(a[1..], b);
    }
  }

  lemma {:induction false} JoinNoTerminator(members: seq<string>)
    requires |members| >= 1
    requires forall i :: 0 <= i < |members| ==> NoLineTerminator(members[i])
    ensures NoLineTerminator(Join(members, ';'))
    decreases |members|
  {
    if |members| > 1 {
      JoinNoTerminator(members[1..]);
    }
  }

  lemma {:induction false} AddMembersSameClasses(c1: Context, c2: Context, name: string, members: seq<string>)
    requires c1.classes == c2.classes
    ensures AddMembers(c1, name, members).classes == AddMembers(c2, name, members).classes
    decreases |members|
  {
    if members != [] {
      AddMembersSameClasses(c1, c2, name, members[..|members| - 1]);
    }
  }

  /** A plain member line inside an open block is added to that class. */
  lemma MemberStep(c: Context, k: nat, name: string, m: string)
    requires c.openClass == Some(name) && PlainMember(m)
    ensures Step(c, k, m) == AddMemberTo(c, name, m)
  {
    assert IndexOfChar(m, '}') == -1;
  }

  /** Inside an open block, plain member lines are added one by one, exactly as `AddMembers` does. */
  lemma {:induction false} RunMembers(c: Context, n: nat, name: string, members: seq<string>)
    requires c.openClass == Some(name)
    requires forall i :: 0 <= i < |members| ==> PlainMember(members[i])
    ensures Run(c, n, members) == AddMembers(c, name, members)
    decreases |members|
  {
    if members != [] {
      var init := members[..|members| - 1];
      var m := members[|members| - 1];
      RunMembers(c, n, name, init);
      AddMembersKeeps(c, name, init, name);
      MemberStep(AddMembers(c, name, init), n + |init|, name, m);
    }
  }

  lemma HeaderStep(ctx: Context, n: nat, name: string)
    requires ctx.openClass.None? && IsIdentifier(name)
    ensures Step(ctx, n, ClassHeader(name)) == EnsureClassIn(ctx, name).(openClass := Some(name))
  {
    ClassStartOf(name);
    HeaderNormal(name);
  }

  lemma CloseStep(c: Context, k: nat)
    requires c.openClass.Some?
    ensures Step(c, k, "}") == c.(openClass := None)
  {
    HeaderNormal("A");
    assert IndexOfChar("}", '}') == 0;
    assert Trim("}"[..0]) == [];
  }

  lemma SingleLineStep(ctx: Context, n: nat, name: string, members: seq<string>)
    requires ctx.openClass.None? && IsIdentifier(name) && |members| >= 1
    requires forall i :: 0 <= i < |members| ==> PlainMember(members[i])
    requires var line := ClassHeader(name) + Join(members, ';') + "}"; NormalizeLine(line) == line
    ensures Step(ctx, n, ClassHeader(name) + Join(members, ';') + "}") == AddMembers(EnsureClassIn(ctx, name), name, members)
  {
    var body := Join(members, ';');
    JoinNoTerminator(members);
    SingleLineOf(name, body);
    SplitJoin(members, ';');
    BodyMembersOfPlain(members);
  }

  /** An open block fed plain member lines and then `}` ends with those members added and closed. */
  lemma BlockRun(c: Context, n: nat, name: string, members: seq<string>)
    requires c.openClass == Some(name)
    requires forall i :: 0 <= i < |members| ==> PlainMember(members[i])
    ensures Run(c, n, members + ["}"]) == AddMembers(c, name, members).(openClass := None)
  {
    assert (members + ["}"])[..|members|] == members;
    RunMembers(c, n, name, members);
    AddMembersKeeps(c, name, members, name);
    CloseStep(AddMembers(c, name, members), n + |members|);
  }

  /** Adding members does not depend on whether the body is open. */
  lemma AddMembersReopen(e: Context, name: string, members: seq<string>)
    requires e.openClass.None?
    ensures AddMembers(e.(openClass := Some(name)), name, members).(openClass := None) == AddMembers(e, name, members)
  {
    var c1 := e.(openClass := Some(name));
    AddMembersKeeps(c1, name, members, name);
    AddMembersKeeps(e, name, members, name);
    AddMembersSameClasses(c1, e, name, members);
  }

  /** The header line of the block form opens the body. */
  lemma HeaderOpensBody(ctx: Context, n: nat, name: string, members: seq<string>)
    requires ctx.openClass.None? && IsIdentifier(name)
    ensures Run(ctx, n, [ClassHeader(name)] + members + ["}"])
            == Run(EnsureClassIn(ctx, name).(openClass := Some(name)), n + 1, members + ["}"])
  {
    HeaderStep(ctx, n, name);
    assert [ClassHeader(name)] + members + ["}"] == [ClassHeader(name)] + (members + ["}"]);
    RunWithCons(Step, ctx, n, ClassHeader(name), members + ["}"]);
  }

  /** The block form, header first, ends with the members added to the class and the body closed. */
  lemma BlockFromHeader(ctx: Context, n: nat, name: string, members: seq<string>)
    requires ctx.openClass.None? && IsIdentifier(name)
    requires forall i :: 0 <= i < |members| ==> PlainMember(members[i])
    ensures Run(ctx, n, [ClassHeader(name)] + members + ["}"])
            == AddMembers(EnsureClassIn(ctx, name), name, members)
  {
    var e := EnsureClassIn(ctx, name);
    HeaderOpensBody(ctx, n, name, members);
    BlockRun(e.(openClass := Some(name)), n + 1, name, members);
    AddMembersReopen(e, name, members);
  }

  /** `class N {a;b;...}` on one line gives the same result as the block `class N {`, `a`, `b`, ..., `}`
      (src/utils/DiagramParser.js:136-168): same classes, same members in the same order, and the body
      is closed afterwards. */
  lemma SingleLineEqualsBlock(ctx: Context, n: nat, name: string, members: seq<string>)
    requires ctx.openClass.None? && IsIdentifier(name) && |members| >= 1
    requires forall i :: 0 <= i < |members| ==> PlainMember(members[i])
    requires var line := ClassHeader(name) + Join(members, ';') + "}"; NormalizeLine(line) == line
    ensures Step(ctx, n, ClassHeader(name) + Join(members, ';') + "}")
            == Run(ctx, n, [ClassHeader(name)] + members + ["}"])
  {
    SingleLineStep(ctx, n, name, members);
    BlockFromHeader(ctx, n, name, members);
  }

  /** What `OpenBodyStep` does to the context: only the open class and the open flag change. */
  lemma OpenBodyKeeps(ctx: Context, name: string, line: string)
    requires Wf(ctx) && ctx.openClass == Some(name)
    ensures var r := OpenBodyStep(ctx, name, line);
            r == ctx.(classes := r.classes, openClass := r.openClass)
            && (r.openClass.None? <==> '}' in line)
            && (r.openClass.Some? ==> r.openClass == ctx.openClass)
            && |r.classes| == |ctx.classes|
            && (forall i :: 0 <= i < |ctx.classes| ==>
                  r.classes[i].id == ctx.classes[i].id && (ctx.classes[i].id != name ==> r.classes[i] == ctx.classes[i]))
  {
    var idx := IndexOfChar(line, '}');
    if idx >= 0 {
      var before := Trim(line[..idx]);
      if before != [] {
        AddMemberInPlace(ctx, name, before);
      }
    } else {
      AddMemberInPlace(ctx, name, line);
    }
  }

  /** Adding a member to an existing class rewrites that class in place and nothing else. */
  lemma AddMemberInPlace(ctx: Context, name: string, line: string)
    requires HasClass(ctx.classes, name)
    ensures var r := AddMemberTo(ctx, name, line);
            r == ctx.(classes := r.classes) && |r.classes| == |ctx.classes|
            && forall i :: 0 <= i < |ctx.classes| ==>
                 r.classes[i].id == ctx.classes[i].id && (ctx.classes[i].id != name ==> r.classes[i] == ctx.classes[i])
  {
    var cs := EnsureClass(ctx.classes, name);
    assert cs == ctx.classes;
    var k := FindClass(cs, name).value;
    var r := AddMemberTo(ctx, name, line);
    assert r.classes == cs[k := AddClassMember(cs[k], line)];
  }

  /** While a body is open, a non-blank line changes nothing but that class and whether the body is
      still open; it closes exactly when the line contains `}` (src/utils/DiagramParser.js:136-148). */
  lemma OpenBodyConsumesLine(ctx: Context, n: nat, raw: string)
    requires Wf(ctx) && ctx.openClass.Some? && NormalizeLine(raw) != []
    ensures var r := Step(ctx, n, raw);
            var name := ctx.openClass.value;
            r == ctx.(classes := r.classes, openClass := r.openClass)
            && (r.openClass.None? <==> '}' in NormalizeLine(raw))
            && (r.openClass.Some? ==> r.openClass == ctx.openClass)
            && |r.classes| == |ctx.classes|
            && (forall i :: 0 <= i < |ctx.classes| ==>
                  r.classes[i].id == ctx.classes[i].id && (ctx.classes[i].id != name ==> r.classes[i] == ctx.classes[i]))
  {
    OpenBodyKeeps(ctx, ctx.openClass.value, NormalizeLine(raw));
  }
}
