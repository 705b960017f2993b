/** What the parse loop of src/utils/DiagramParser.js keeps true, and what a whole parse guarantees. */
module ParserFacts {
  import opened Options
  import opened JsString
  import opened LineRules
  import opened DiagramModel
  import opened DiagramParser

  /** How many recorded commands are `activate`. */
  function ActivateCount(cmds: seq<SequenceCommand>): nat {
    if cmds == [] then 0
    else ActivateCount(cmds[..|cmds| - 1]) + (if cmds[|cmds| - 1].command == ActivateCommand then 1 else 0)
  }

  /** How many starts all activation stacks hold together. */
  function TotalStarts(stacks: seq<Stack>): nat {
    if stacks == [] then 0 else |stacks[0].starts| + TotalStarts(stacks[1..])
  }

  lemma {:induction false} TotalStartsAppend(stacks: seq<Stack>, x: Stack)
    ensures TotalStarts(stacks + [x]) == TotalStarts(stacks) + |x.starts|
  {
    if stacks != [] {
      assert (stacks + [x])[1..] == stacks[1..] + [x];
      TotalStartsAppend(stacks[1..], x);
    }
  }

  lemma {:induction false} TotalStartsUpdate(stacks: seq<Stack>, i: nat, x: Stack)
    requires i < |stacks|
    ensures TotalStarts(stacks[i := x]) + |stacks[i].starts| == TotalStarts(stacks) + |x.starts|
  {
    if i > 0 {
      assert stacks[i := x][1..] == stacks[1..][i - 1 := x];
      TotalStartsUpdate(stacks[1..], i - 1, x);
    }
  }

  /** Every collection of edges, commands and intervals is numbered `prefix-1`, `prefix-2`, ... */
  predicate IdsNumbered(ctx: Context) {
    RelationsNumbered(ctx.relations) && AssociationsNumbered(ctx.associations)
    && TransitionsNumbered(ctx.transitions) && MessagesNumbered(ctx.messages)
    && CommandsNumbered(ctx.commands) && IntervalsNumbered(ctx.intervals)
  }

  predicate RelationsNumbered(rs: seq<ClassRelation>) {
    forall i :: 0 <= i < |rs| ==> rs[i].id == NumberedId("class-relation-", i + 1)
  }

  predicate AssociationsNumbered(xs: seq<UseCaseAssociation>) {
    forall i :: 0 <= i < |xs| ==> xs[i].id == NumberedId("usecase-association-", i + 1)
  }

  predicate TransitionsNumbered(ts: seq<StateTransition>) {
    forall i :: 0 <= i < |ts| ==> ts[i].id == NumberedId("state-transition-", i + 1)
  }

  predicate MessagesNumbered(ms: seq<SequenceMessage>) {
    forall i :: 0 <= i < |ms| ==> ms[i].id == NumberedId("sequence-message-", i + 1)
  }

  predicate CommandsNumbered(cs: seq<SequenceCommand>) {
    forall i :: 0 <= i < |cs| ==> cs[i].id == NumberedId("seq-command-", i + 1)
  }

  predicate IntervalsNumbered(xs: seq<ActivationInterval>) {
    forall i :: 0 <= i < |xs| ==> xs[i].id == NumberedId("activation-", i + 1)
  }

  lemma RelationsNumberedSnoc(rs: seq<ClassRelation>, x: ClassRelation)
    requires RelationsNumbered(rs) && x.id == NumberedId("class-relation-", |rs| + 1)
    ensures RelationsNumbered(rs + [x])
  {
    assert forall i :: 0 <= i < |rs| ==> (rs + [x])[i] == rs[i];
  }

  lemma AssociationsNumberedSnoc(xs: seq<UseCaseAssociation>, x: UseCaseAssociation)
    requires AssociationsNumbered(xs) && x.id == NumberedId("usecase-association-", |xs| + 1)
    ensures AssociationsNumbered(xs + [x])
  {
    assert forall i :: 0 <= i < |xs| ==> (xs + [x])[i] == xs[i];
  }

  lemma TransitionsNumberedSnoc(ts: seq<StateTransition>, x: StateTransition)
    requires TransitionsNumbered(ts) && x.id == NumberedId("state-transition-", |ts| + 1)
    ensures TransitionsNumbered(ts + [x])
  {
    assert forall i :: 0 <= i < |ts| ==> (ts + [x])[i] == ts[i];
  }

  lemma MessagesNumberedSnoc(ms: seq<SequenceMessage>, x: SequenceMessage)
    requires MessagesNumbered(ms) && x.id == NumberedId("sequence-message-", |ms| + 1)
    ensures MessagesNumbered(ms + [x])
  {
    assert forall i :: 0 <= i < |ms| ==> (ms + [x])[i] == ms[i];
  }

  lemma CommandsNumberedSnoc(cs: seq<SequenceCommand>, x: SequenceCommand)
    requires CommandsNumbered(cs) && x.id == NumberedId("seq-command-", |cs| + 1)
    ensures CommandsNumbered(cs + [x])
  {
    assert forall i :: 0 <= i < |cs| ==> (cs + [x])[i] == cs[i];
  }

  /** Bounds that hold up to `m` messages hold up to any later count. */
  lemma BoundsWiden(stacks: seq<Stack>, intervals: seq<ActivationInterval>, m: nat, m': nat)
    requires StartsBounded(stacks, m) && IntervalsBounded(intervals, m) && m <= m'
    ensures StartsBounded(stacks, m') && IntervalsBounded(intervals, m')
  {
  }

  predicate StartsBounded(stacks: seq<Stack>, m: nat) {
    forall i, j :: 0 <= i < |stacks| && 0 <= j < |stacks[i].starts| ==> stacks[i].starts[j] <= m
  }

  predicate IntervalsBounded(intervals: seq<ActivationInterval>, m: nat) {
    forall i :: 0 <= i < |intervals| ==> intervals[i].startIndex <= intervals[i].endIndex <= m
  }

  /** The loop invariant of the parse: numbered ids, no `*` state, stack entries and intervals within
      the messages seen so far, every `activate` accounted for by an interval or an open start, and an
      open class body naming an existing class. */
  predicate Wf(ctx: Context) {
    IdsNumbered(ctx)
    && "*" !in ctx.states
    && StartsBounded(ctx.stacks, |ctx.messages|)
    && IntervalsBounded(ctx.intervals, |ctx.messages|)
    && |ctx.intervals| + TotalStarts(ctx.stacks) == ActivateCount(ctx.commands)
    && (ctx.openClass.Some? ==> FindClass(ctx.classes, ctx.openClass.value).Some?)
  }

  lemma EmptyWf()
    ensures Wf(EmptyContext)
  {
  }

  // ---------------------------------------------------------------- class rules

  predicate HasClass(classes: seq<ClassNode>, x: string) {
    FindClass(classes, x).Some?
  }

  lemma EnsureClassKeeps(classes: seq<ClassNode>, name: string, x: string)
    ensures HasClass(classes, x) ==> HasClass(EnsureClass(classes, name), x)
  {
    if HasClass(classes, x) {
      var i := FindClass(classes, x).value;
      assert EnsureClass(classes, name)[i].id == x;
    }
  }

  lemma AddMemberKeeps(ctx: Context, name: string, line: string, x: string)
    ensures HasClass(ctx.classes, x) ==> HasClass(AddMemberTo(ctx, name, line).classes, x)
    ensures AddMemberTo(ctx, name, line) == ctx.(classes := AddMemberTo(ctx, name, line).classes)
  {
    EnsureClassKeeps(ctx.classes, name, x);
    var cs := EnsureClass(ctx.classes, name);
    if HasClass(cs, x) {
      var i := FindClass(cs, x).value;
      assert AddMemberTo(ctx, name, line).classes[i].id == x;
    }
  }

  lemma {:induction false} AddMembersKeeps(ctx: Context, name: string, members: seq<string>, x: string)
    ensures HasClass(ctx.classes, x) ==> HasClass(AddMembers(ctx, name, members).classes, x)
    ensures AddMembers(ctx, name, members) == ctx.(classes := AddMembers(ctx, name, members).classes)
    decreases |members|
  {
    if members != [] {
      var init := members[..|members| - 1];
      AddMembersKeeps(ctx, name, init, x);
      AddMemberKeeps(AddMembers(ctx, name, init), name, members[|members| - 1], x);
    }
  }

  /** A rule that changes only the class list and the open body keeps the invariant. */
  lemma ClassChangeWf(ctx: Context, c: Context)
    requires Wf(ctx)
    requires c == ctx.(classes := c.classes, openClass := c.openClass)
    requires c.openClass.Some? ==> HasClass(c.classes, c.openClass.value)
    ensures Wf(c)
  {
  }

  lemma OpenBodyWf(ctx: Context, name: string, line: string)
    requires Wf(ctx) && ctx.openClass == Some(name)
    ensures Wf(OpenBodyStep(ctx, name, line))
  {
    var idx := IndexOfChar(line, '}');
    if idx >= 0 {
      var before := Trim(line[..idx]);
      if before != [] {
        AddMemberKeeps(ctx, name, before, name);
      }
    } else {
      AddMemberKeeps(ctx, name, line, name);
    }
  }

  lemma SingleLineClassWf(ctx: Context, name: string, body: string)
    requires Wf(ctx) && ctx.openClass.None?
    ensures Wf(SingleLineClassStep(ctx, name, body))
  {
    AddMembersKeeps(EnsureClassIn(ctx, name), name, BodyMembers(Split(body, ';')), name);
  }

  lemma ClassStartWf(ctx: Context, name: string)
    requires Wf(ctx)
    ensures Wf(ClassStartStep(ctx, name))
  {
  }

  lemma RelationWf(ctx: Context, r: RelationShape)
    requires Wf(ctx) && ctx.openClass.None?
    ensures Wf(RelationStep(ctx, r))
  {
    var c := EnsureClassIn(EnsureClassIn(ctx, r.from), r.to);
    var x := ClassRelation(NumberedId("class-relation-", |ctx.relations| + 1), r.from, r.to, r.relationType,
                           r.markerStart, r.markerEnd);
    RelationsNumberedSnoc(ctx.relations, x);
    assert RelationStep(ctx, r) == ctx.(classes := c.classes, relations := ctx.relations + [x]);
  }

  // ---------------------------------------------------------------- activation rules

  lemma PushWf(c: Context, p: string)
    requires StartsBounded(c.stacks, |c.messages|)
    ensures var s := PushStart(c.stacks, p, |c.messages|);
            StartsBounded(s, |c.messages|) && TotalStarts(s) == TotalStarts(c.stacks) + 1
  {
    var si := FindStack(c.stacks, p);
    var m := |c.messages|;
    if si.Some? {
      var x := Stack(p, c.stacks[si.value].starts + [m]);
      TotalStartsUpdate(c.stacks, si.value, x);
    } else {
      TotalStartsAppend(c.stacks, Stack(p, [m]));
    }
  }

  lemma PopWf(c: Context, lineNumber: nat, p: string)
    requires StartsBounded(c.stacks, |c.messages|) && IntervalsBounded(c.intervals, |c.messages|)
    requires forall i :: 0 <= i < |c.intervals| ==> c.intervals[i].id == NumberedId("activation-", i + 1)
    ensures var r := PopStart(c, lineNumber, p);
            r.messages == c.messages && r.commands == c.commands
            && StartsBounded(r.stacks, |c.messages|) && IntervalsBounded(r.intervals, |c.messages|)
            && |r.intervals| + TotalStarts(r.stacks) == |c.intervals| + TotalStarts(c.stacks)
            && (forall i :: 0 <= i < |r.intervals| ==> r.intervals[i].id == NumberedId("activation-", i + 1))
            && r == c.(stacks := r.stacks, intervals := r.intervals, errors := r.errors)
  {
    var si := FindStack(c.stacks, p);
    if si.Some? && |c.stacks[si.value].starts| > 0 {
      var st := c.stacks[si.value].starts;
      TotalStartsUpdate(c.stacks, si.value, Stack(p, st[..|st| - 1]));
    }
  }

  lemma ActivationWf(ctx: Context, lineNumber: nat, kind: ActivationKind, raw: string)
    requires Wf(ctx) && ctx.openClass.None?
    ensures Wf(ActivationStep(ctx, lineNumber, kind, raw))
  {
    var p := Trim(raw);
    var x := SequenceCommand(NumberedId("seq-command-", |ctx.commands| + 1), kind, p, |ctx.messages|);
    if kind == ActivateCommand {
      ActivateWf(ctx, AddKey(ctx.participants, p), x);
    } else {
      DeactivateWf(ctx, lineNumber, AddKey(ctx.participants, p), x);
    }
  }

  /** Recording the next numbered `activate` and pushing its start keeps the invariant. */
  lemma ActivateWf(ctx: Context, participants: seq<string>, x: SequenceCommand)
    requires Wf(ctx) && ctx.openClass.None?
    requires x.id == NumberedId("seq-command-", |ctx.commands| + 1) && x.command == ActivateCommand
    requires x.atMessageIndex == |ctx.messages|
    ensures var c := ctx.(participants := participants, commands := ctx.commands + [x]);
            Wf(c.(stacks := PushStart(c.stacks, x.participant, |c.messages|)))
  {
    var c := ctx.(participants := participants, commands := ctx.commands + [x]);
    CommandsNumberedSnoc(ctx.commands, x);
    PushWf(c, x.participant);
  }

  /** Recording the next numbered `deactivate` and popping its start keeps the invariant. */
  lemma DeactivateWf(ctx: Context, lineNumber: nat, participants: seq<string>, x: SequenceCommand)
    requires Wf(ctx) && ctx.openClass.None?
    requires x.id == NumberedId("seq-command-", |ctx.commands| + 1) && x.command == DeactivateCommand
    ensures var c := ctx.(participants := participants, commands := ctx.commands + [x]);
            Wf(PopStart(c, lineNumber, x.participant))
  {
    var c := ctx.(participants := participants, commands := ctx.commands + [x]);
    CommandsNumberedSnoc(ctx.commands, x);
    assert Wf(c);
    PopKeepsWf(c, lineNumber, x.participant);
  }

  lemma PopKeepsWf(c: Context, lineNumber: nat, p: string)
    requires Wf(c)
    ensures Wf(PopStart(c, lineNumber, p))
  {
    PopWf(c, lineNumber, p);
  }

  // ---------------------------------------------------------------- remaining rules

  /** Appending the next numbered association, whatever the key lists become, keeps the invariant. */
  lemma AssociationAppendWf(ctx: Context, actors: seq<string>, useCases: seq<string>, x: UseCaseAssociation)
    requires Wf(ctx)
    requires x.id == NumberedId("usecase-association-", |ctx.associations| + 1)
    ensures Wf(ctx.(actors := actors, useCases := useCases, associations := ctx.associations + [x]))
  {
    AssociationsNumberedSnoc(ctx.associations, x);
  }

  lemma UseCaseWf(ctx: Context, line: string, a: string, u: string)
    requires Wf(ctx)
    ensures Wf(UseCaseStep(ctx, line, a, u))
  {
    var actor := Trim(a);
    var useCase := Trim(u);
    AssociationAppendWf(ctx, AddKey(ctx.actors, actor), AddKey(ctx.useCases, useCase),
      UseCaseAssociation(NumberedId("usecase-association-", |ctx.associations| + 1), actor, useCase, Includes(line, "-->")));
  }

  /** Appending the next numbered transition, with a state list free of `*`, keeps the invariant. */
  lemma TransitionAppendWf(ctx: Context, states: seq<string>, x: StateTransition)
    requires Wf(ctx) && "*" !in states
    requires x.id == NumberedId("state-transition-", |ctx.transitions| + 1)
    ensures Wf(ctx.(states := states, transitions := ctx.transitions + [x]))
  {
    TransitionsNumberedSnoc(ctx.transitions, x);
  }

  lemma StateWf(ctx: Context, line: string, m: StateMatch)
    requires Wf(ctx)
    ensures Wf(StateStep(ctx, line, m))
  {
    var from := Trim(m.fromRaw);
    var to := Trim(m.toRaw);
    TransitionAppendWf(ctx, AddState(AddState(ctx.states, from), to),
      StateTransition(NumberedId("state-transition-", |ctx.transitions| + 1), from, to, Trim(m.labelRaw), Includes(line, "-->")));
  }

  lemma MessageWf(ctx: Context, m: MessageMatch)
    requires Wf(ctx)
    ensures Wf(MessageStep(ctx, m))
  {
    var x := SequenceMessage(NumberedId("sequence-message-", |ctx.messages| + 1), Trim(m.fromRaw), Trim(m.toRaw),
                             Trim(m.labelRaw), if m.async then Async else Sync);
    MessagesNumberedSnoc(ctx.messages, x);
    BoundsWiden(ctx.stacks, ctx.intervals, |ctx.messages|, |ctx.messages| + 1);
    var c := MessageStep(ctx, m);
    assert c.messages == ctx.messages + [x] && c.classes == ctx.classes && c.states == ctx.states;
    assert c.stacks == ctx.stacks && c.intervals == ctx.intervals && c.commands == ctx.commands;
    assert IdsNumbered(c);
  }

  lemma LineStepWf(ctx: Context, lineNumber: nat, line: string)
    requires Wf(ctx) && ctx.openClass.None?
    ensures Wf(LineStep(ctx, lineNumber, line))
  {
    var r := LineStep(ctx, lineNumber, line);
    var single := MatchClassSingleLine(line);
    var start := MatchClassStart(line);
    var relation := ParseClassRelation(line);
    var activation := MatchActivation(line);
    var useCase := MatchUseCase(line);
    var state := MatchStateTransition(line);
    var message := MatchSequenceMessage(line);
    if single.Some? {
      assert r == SingleLineClassStep(ctx, single.value.0, single.value.1);
      SingleLineClassWf(ctx, single.value.0, single.value.1);
    } else if start.Some? {
      assert r == ClassStartStep(ctx, start.value);
      ClassStartWf(ctx, start.value);
    } else if relation.Some? {
      assert r == RelationStep(ctx, relation.value);
      RelationWf(ctx, relation.value);
    } else if activation.Some? {
      assert r == ActivationStep(ctx, lineNumber, activation.value.0, activation.value.1);
      ActivationWf(ctx, lineNumber, activation.value.0, activation.value.1);
    } else if useCase.Some? {
      assert r == UseCaseStep(ctx, line, useCase.value.0, useCase.value.1);
      UseCaseWf(ctx, line, useCase.value.0, useCase.value.1);
    } else if state.Some? {
      assert r == StateStep(ctx, line, state.value);
      StateWf(ctx, line, state.value);
    } else if message.Some? {
      assert r == MessageStep(ctx, message.value);
      MessageWf(ctx, message.value);
    } else {
      assert r == ctx.(errors := ctx.errors + [CouldNotParseError(lineNumber, line)]);
    }
  }

  /** Every loop iteration keeps the invariant. */
  lemma StepWf(ctx: Context, lineNumber: nat, raw: string)
    requires Wf(ctx)
    ensures Wf(Step(ctx, lineNumber, raw))
  {
    var line := NormalizeLine(raw);
    if line != [] {
      if ctx.openClass.Some? {
        OpenBodyWf(ctx, ctx.openClass.value, line);
      } else {
        LineStepWf(ctx, lineNumber, line);
      }
    }
  }

  lemma {:induction false} ProcessWf(lines: seq<string>)
    ensures Wf(Process(lines))
  {
    if lines != [] {
      ProcessWf(lines[..|lines| - 1]);
      StepWf(Process(lines[..|lines| - 1]), |lines| - 1, lines[|lines| - 1]);
    }
  }

  // ---------------------------------------------------------------- after the loop

  lemma {:induction false} FlushStackFacts(intervals: seq<ActivationInterval>, p: string, starts: seq<nat>, m: nat)
    requires IntervalsBounded(intervals, m)
    requires forall j :: 0 <= j < |starts| ==> starts[j] <= m
    requires forall i :: 0 <= i < |intervals| ==> intervals[i].id == NumberedId("activation-", i + 1)
    ensures var r := FlushStack(intervals, p, starts, m);
            |r| == |intervals| + |starts| && IntervalsBounded(r, m)
            && (forall i :: 0 <= i < |r| ==> r[i].id == NumberedId("activation-", i + 1))
    decreases |starts|
  {
    if starts != [] {
      var next := intervals + [ActivationInterval(NumberedId("activation-", |intervals| + 1), p, starts[0], m)];
      FlushStackFacts(next, p, starts[1..], m);
    }
  }

  lemma {:induction false} FlushStacksFacts(intervals: seq<ActivationInterval>, stacks: seq<Stack>, m: nat)
    requires IntervalsBounded(intervals, m) && StartsBounded(stacks, m)
    requires forall i :: 0 <= i < |intervals| ==> intervals[i].id == NumberedId("activation-", i + 1)
    ensures var r := FlushStacks(intervals, stacks, m);
            |r| == |intervals| + TotalStarts(stacks) && IntervalsBounded(r, m)
            && (forall i :: 0 <= i < |r| ==> r[i].id == NumberedId("activation-", i + 1))
    decreases |stacks|
  {
    if stacks != [] {
      FlushStackFacts(intervals, stacks[0].participant, stacks[0].starts, m);
      var next := FlushStack(intervals, stacks[0].participant, stacks[0].starts, m);
      assert StartsBounded(stacks[1..], m) by {
        forall i, j | 0 <= i < |stacks[1..]| && 0 <= j < |stacks[1..][i].starts|
          ensures stacks[1..][i].starts[j] <= m
        {
          assert stacks[1..][i] == stacks[i + 1];
        }
      }
      FlushStacksFacts(next, stacks[1..], m);
    }
  }

  /** One interval per `activate` command, each starting no later than it ends and ending within the
      messages, numbered `activation-1`, `activation-2`, ... */
  predicate ActivationsClosed(sq: SequenceDiagram) {
    |sq.activations| == ActivateCount(sq.commands)
    && (forall i :: 0 <= i < |sq.activations| ==>
          sq.activations[i].startIndex <= sq.activations[i].endIndex <= |sq.messages|)
    && (forall i :: 0 <= i < |sq.activations| ==> sq.activations[i].id == NumberedId("activation-", i + 1))
  }

  /** A whole parse: there are exactly as many activation intervals as `activate` commands, each
      interval runs forward and ends within the messages, and intervals are numbered from 1. */
  lemma ParseActivations(input: string)
    ensures ActivationsClosed(Parse(input).diagrams.sequence)
  {
    var ctx := Process(Split(input, '\n'));
    ProcessWf(Split(input, '\n'));
    FinishedActivations(ctx);
  }

  /** Finishing a parse that kept the loop invariant closes every open activation. */
  lemma FinishedActivations(ctx: Context)
    requires Wf(ctx)
    ensures ActivationsClosed(Finish(ctx).diagrams.sequence)
  {
    FinishedDiagrams(ctx);
    FlushStacksFacts(ctx.intervals, ctx.stacks, |ctx.messages|);
  }

  /** The diagrams of a finished parse are the collections of the loop, with the open activations
      closed. */
  lemma FinishedDiagrams(ctx: Context)
    ensures Finish(ctx).diagrams == Diagrams(
              UseCaseDiagram(ctx.actors, ctx.useCases, ctx.associations),
              SequenceDiagram(ctx.participants, ctx.messages,
                              FlushStacks(ctx.intervals, ctx.stacks, |ctx.messages|), ctx.commands),
              ClassDiagram(ctx.classes, ctx.relations),
              StateDiagram(ctx.states, ctx.transitions))
  {
  }

  /** A whole parse: edges, messages and commands are numbered consecutively from 1, so no two share
      an id, and the pseudo state `*` is never listed as a state. */
  lemma ParseIdsAndStates(input: string)
    ensures var d := Parse(input).diagrams;
            "*" !in d.state.states
            && (forall i :: 0 <= i < |d.classDiagram.relations| ==> d.classDiagram.relations[i].id == NumberedId("class-relation-", i + 1))
            && (forall i :: 0 <= i < |d.useCase.associations| ==> d.useCase.associations[i].id == NumberedId("usecase-association-", i + 1))
            && (forall i :: 0 <= i < |d.state.transitions| ==> d.state.transitions[i].id == NumberedId("state-transition-", i + 1))
            && (forall i :: 0 <= i < |d.sequence.messages| ==> d.sequence.messages[i].id == NumberedId("sequence-message-", i + 1))
            && (forall i :: 0 <= i < |d.sequence.commands| ==> d.sequence.commands[i].id == NumberedId("seq-command-", i + 1))
  {
    ProcessWf(Split(input, '\n'));
    FinishedDiagrams(Process(Split(input, '\n')));
  }

  /** Consecutive numbering makes ids unique. */
  lemma NumberedIdsDistinct(prefix: string, i: nat, j: nat)
    requires i != j
    ensures NumberedId(prefix, i + 1) != NumberedId(prefix, j + 1)
  {
    if NumberedId(prefix, i + 1) == NumberedId(prefix, j + 1) {
      NumberedIdInjective(prefix, i + 1, j + 1);
    }
  }
}
