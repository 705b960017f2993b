/**
 * `parseDiagramText` (src/utils/DiagramParser.js:109-330) and the helpers it calls.
 *
 * The pure part describes one input line as a transition `Step` on a `Context`, which holds every
 * collection the source keeps in local variables, and the whole parse as the fold `Process` plus
 * `Finish`. The class `ParserState` holds the same collections as mutable fields and its methods do
 * the work in place, line by line, as the source does; each method is proved to perform exactly the
 * corresponding transition, so `ParseDiagramText` returns `Parse(input)`.
 */
module DiagramParser {
  import opened Options
  import opened JsString
  import opened LineRules
  import opened DiagramModel
  import DiagramTypes

  /** `activationStacks[participant]`: the open activation starts of one participant, oldest first. */
  datatype Stack = Stack(participant: string, starts: seq<nat>)

  /** Everything the parse loop updates. Keyed objects are sequences in key-insertion order. */
  datatype Context = Context(
    actors: seq<string>, useCases: seq<string>, participants: seq<string>,
    classes: seq<ClassNode>, states: seq<string>,
    associations: seq<UseCaseAssociation>, messages: seq<SequenceMessage>,
    relations: seq<ClassRelation>, transitions: seq<StateTransition>,
    commands: seq<SequenceCommand>, stacks: seq<Stack>, intervals: seq<ActivationInterval>,
    errors: seq<string>, openClass: Option<string>)

  const EmptyContext := Context([], [], [], [], [], [], [], [], [], [], [], [], [], None)

  // ---------------------------------------------------------------- keyed objects

  /** `map[key] = {id: key, name: key}`: a new key goes last, an existing key keeps its place. */
  function AddKey(keys: seq<string>, k: string): (r: seq<string>)
    ensures k in keys ==> r == keys
    ensures k !in keys ==> r == keys + [k]
  {
    if k in keys then keys else keys + [k]
  }

  /** Position of the class with the given id. */
  function FindClass(classes: seq<ClassNode>, name: string): (r: Option<nat>)
    ensures r.Some? ==> r.value < |classes| && classes[r.value].id == name
    ensures r.Some? ==> forall i :: 0 <= i < r.value ==> classes[i].id != name
    ensures r.None? ==> forall i :: 0 <= i < |classes| ==> classes[i].id != name
  {
    if classes == [] then None
    else if classes[0].id == name then Some(0)
    else
      match FindClass(classes[1..], name)
      case None => None
      case Some(i) => Some(i + 1)
  }

  /** `ensureClass`: add an empty class unless one with that name exists; never replace one. */
  function EnsureClass(classes: seq<ClassNode>, name: string): (r: seq<ClassNode>)
    ensures FindClass(r, name).Some?
    ensures FindClass(classes, name).Some? ==> r == classes
    ensures FindClass(classes, name).None? ==> r == classes + [ClassNode(name, name, [], [])]
  {
    if FindClass(classes, name).Some? then classes
    else
      var r := classes + [ClassNode(name, name, [], [])];
      assert r[|r| - 1].id == name;
      r
  }

  /** `addClassMember`: a trimmed, non-blank member is a method when it contains both `(` and `)`,
      otherwise an attribute; a blank one is dropped. */
  function AddClassMember(c: ClassNode, memberLine: string): (r: ClassNode)
    ensures r.id == c.id && r.name == c.name
    ensures Trim(memberLine) == [] ==> r == c
    ensures Trim(memberLine) != [] && '(' in Trim(memberLine) && ')' in Trim(memberLine) ==>
              r == c.(methods := c.methods + [Trim(memberLine)])
    ensures Trim(memberLine) != [] && !('(' in Trim(memberLine) && ')' in Trim(memberLine)) ==>
              r == c.(attributes := c.attributes + [Trim(memberLine)])
  {
    var member := Trim(memberLine);
    if member == [] then c
    else if '(' in member && ')' in member then c.(methods := c.methods + [member])
    else c.(attributes := c.attributes + [member])
  }

  // ---------------------------------------------------------------- errors

  function CouldNotParseError(lineNumber: nat, line: string): string {
    "Line " + NatToString(lineNumber + 1) + ": could not parse \"" + line + "\"."
  }

  function UnmatchedDeactivateError(lineNumber: nat, participant: string): string {
    "Line " + NatToString(lineNumber + 1) + ": deactivate without matching activate for \"" + participant + "\"."
  }

  function UnclosedClassError(name: string): string {
    "Unclosed class block for \"" + name + "\"."
  }

  // ---------------------------------------------------------------- one rule per transition

  function EnsureClassIn(ctx: Context, name: string): Context {
    ctx.(classes := EnsureClass(ctx.classes, name))
  }

  /** `addClassMember(ensureClass(classMap, name), memberLine)`. */
  function AddMemberTo(ctx: Context, name: string, memberLine: string): Context {
    var cs := EnsureClass(ctx.classes, name);
    var i := FindClass(cs, name).value;
    ctx.(classes := cs[i := AddClassMember(cs[i], memberLine)])
  }

  /** A line while a class body is open: text before `}` is the last member and `}` closes the body;
      a line without `}` is a member. */
  function OpenBodyStep(ctx: Context, name: string, line: string): Context {
    var idx := IndexOfChar(line, '}');
    if idx >= 0 then
      var before := Trim(line[..idx]);
      var c := if before != [] then AddMemberTo(ctx, name, before) else ctx;
      c.(openClass := None)
    else AddMemberTo(ctx, name, line)
  }

  /** `body.split(';').map(trim).filter(Boolean)`. */
  function BodyMembers(parts: seq<string>): (members: seq<string>)
    ensures |members| <= |parts|
    ensures forall i :: 0 <= i < |members| ==> members[i] != [] && Trim(members[i]) == members[i]
  {
    if parts == [] then []
    else
      var rest := BodyMembers(parts[1..]);
      var m := Trim(parts[0]);
      TrimIdempotent(parts[0]);
      if m != [] then [m] + rest else rest
  }

  /** `members.forEach((member) => addClassMember(targetClass, member))`. */
  function AddMembers(ctx: Context, name: string, members: seq<string>): Context {
    if members == [] then ctx
    else AddMemberTo(AddMembers(ctx, name, members[..|members| - 1]), name, members[|members| - 1])
  }

  function SingleLineClassStep(ctx: Context, name: string, body: string): Context {
    AddMembers(EnsureClassIn(ctx, name), name, BodyMembers(Split(body, ';')))
  }

  function ClassStartStep(ctx: Context, name: string): Context {
    EnsureClassIn(ctx, name).(openClass := Some(name))
  }

  /** The object `parseClassRelation` returns. */
  datatype RelationShape = RelationShape(
    from: string, to: string, relationType: RelationType, markerStart: Option<Marker>, markerEnd: Option<Marker>)

  /** `parseClassRelation`: `L <|-- R` makes R inherit from L; the other tokens point from L to R. */
  function ParseClassRelation(line: string): (r: Option<RelationShape>)
    ensures r.Some? <==> MatchClassRelation(line).Some?
    ensures r.Some? ==>
              var m := MatchClassRelation(line).value;
              && IsIdentifier(r.value.from) && IsIdentifier(r.value.to)
              && (r.value.relationType == Inheritance <==> m.token == InheritToken)
              && (m.token == InheritToken ==> r.value.from == m.right && r.value.to == m.left)
              && (m.token != InheritToken ==> r.value.from == m.left && r.value.to == m.right)
              && (r.value.markerEnd.Some? <==> r.value.relationType == Inheritance)
              && (r.value.markerStart.Some? <==> r.value.relationType == Composition || r.value.relationType == Aggregation)
              && (r.value.markerStart == Some(Diamond) <==> m.token == CompositionToken)
    ensures r.Some? ==>
              var m := MatchClassRelation(line).value;
              && (m.token == InheritToken ==> r.value.markerStart == None && r.value.markerEnd == Some(Triangle))
              && (m.token == CompositionToken ==>
                    r.value.relationType == Composition && r.value.markerStart == Some(Diamond) && r.value.markerEnd == None)
              && (m.token == AggregationToken ==>
                    r.value.relationType == Aggregation && r.value.markerStart == Some(HollowDiamond) && r.value.markerEnd == None)
              && (m.token == AssociationToken ==>
                    r.value.relationType == Association && r.value.markerStart == None && r.value.markerEnd == None)
  {
    match MatchClassRelation(line)
    case None => None
    case Some(RelationMatch(left, token, right)) =>
      Some(match token
        case InheritToken => RelationShape(right, left, Inheritance, None, Some(Triangle))
        case CompositionToken => RelationShape(left, right, Composition, Some(Diamond), None)
        case AggregationToken => RelationShape(left, right, Aggregation, Some(HollowDiamond), None)
        case AssociationToken => RelationShape(left, right, Association, None, None))
  }

  function RelationStep(ctx: Context, r: RelationShape): Context {
    var c := EnsureClassIn(EnsureClassIn(ctx, r.from), r.to);
    c.(relations := c.relations + [ClassRelation(
         NumberedId("class-relation-", |c.relations| + 1), r.from, r.to, r.relationType, r.markerStart, r.markerEnd)])
  }

  /** Position of a participant's activation stack. */
  function FindStack(stacks: seq<Stack>, p: string): (r: Option<nat>)
    ensures r.Some? ==> r.value < |stacks| && stacks[r.value].participant == p
    ensures r.None? ==> forall i :: 0 <= i < |stacks| ==> stacks[i].participant != p
  {
    if stacks == [] then None
    else if stacks[0].participant == p then Some(0)
    else
      match FindStack(stacks[1..], p)
      case None => None
      case Some(i) => Some(i + 1)
  }

  /** `activationStacks[p].push(m)`, creating the stack on first use. */
  function PushStart(stacks: seq<Stack>, p: string, m: nat): seq<Stack> {
    var si := FindStack(stacks, p);
    if si.Some? then stacks[si.value := Stack(p, stacks[si.value].starts + [m])]
    else stacks + [Stack(p, [m])]
  }

  /** `activationStacks[p]?.pop()`: the latest start becomes an interval ending at the current message
      count; with nothing to pop, an error is recorded instead. */
  function PopStart(ctx: Context, lineNumber: nat, p: string): Context {
    var si := FindStack(ctx.stacks, p);
    if si.Some? && |ctx.stacks[si.value].starts| > 0 then
      var st := ctx.stacks[si.value].starts;
      ctx.(stacks := ctx.stacks[si.value := Stack(p, st[..|st| - 1])],
           intervals := ctx.intervals + [ActivationInterval(
             NumberedId("activation-", |ctx.intervals| + 1), p, st[|st| - 1], |ctx.messages|)])
    else ctx.(errors := ctx.errors + [UnmatchedDeactivateError(lineNumber, p)])
  }

  /** `activate p` / `deactivate p`: record the participant and the command, then push or pop. */
  function ActivationStep(ctx: Context, lineNumber: nat, kind: ActivationKind, participantRaw: string): Context {
    var p := Trim(participantRaw);
    var c := ctx.(participants := AddKey(ctx.participants, p),
                  commands := ctx.commands + [SequenceCommand(
                    NumberedId("seq-command-", |ctx.commands| + 1), kind, p, |ctx.messages|)]);
    if kind == ActivateCommand then c.(stacks := PushStart(c.stacks, p, |c.messages|))
    else PopStart(c, lineNumber, p)
  }

  function UseCaseStep(ctx: Context, line: string, actorRaw: string, useCaseRaw: string): Context {
    var actor := Trim(actorRaw);
    var useCase := Trim(useCaseRaw);
    ctx.(actors := AddKey(ctx.actors, actor), useCases := AddKey(ctx.useCases, useCase),
         associations := ctx.associations + [UseCaseAssociation(
           NumberedId("usecase-association-", |ctx.associations| + 1), actor, useCase, Includes(line, "-->"))])
  }

  /** `*` stands for the pseudo start/end state and is never recorded as a state. */
  function AddState(states: seq<string>, name: string): seq<string> {
    if name != "*" then AddKey(states, name) else states
  }

  function StateStep(ctx: Context, line: string, m: StateMatch): Context {
    var from := Trim(m.fromRaw);
    var to := Trim(m.toRaw);
    ctx.(states := AddState(AddState(ctx.states, from), to),
         transitions := ctx.transitions + [StateTransition(
           NumberedId("state-transition-", |ctx.transitions| + 1), from, to, Trim(m.labelRaw), Includes(line, "-->"))])
  }

  function MessageStep(ctx: Context, m: MessageMatch): Context {
    var from := Trim(m.fromRaw);
    var to := Trim(m.toRaw);
    ctx.(participants := AddKey(AddKey(ctx.participants, from), to),
         messages := ctx.messages + [SequenceMessage(
           NumberedId("sequence-message-", |ctx.messages| + 1), from, to, Trim(m.labelRaw),
           if m.async then Async else Sync)])
  }

  /** The rules after the open-body rule, tried in the source's order; the first match wins. */
  function LineStep(ctx: Context, lineNumber: nat, line: string): Context {
    var single := MatchClassSingleLine(line);
    if single.Some? then SingleLineClassStep(ctx, single.value.0, single.value.1)
    else
    var start := MatchClassStart(line);
    if start.Some? then ClassStartStep(ctx, start.value)
    else
    var relation := ParseClassRelation(line);
    if relation.Some? then RelationStep(ctx, relation.value)
    else
    var activation := MatchActivation(line);
    if activation.Some? then ActivationStep(ctx, lineNumber, activation.value.0, activation.value.1)
    else
    var useCase := MatchUseCase(line);
    if useCase.Some? then UseCaseStep(ctx, line, useCase.value.0, useCase.value.1)
    else
    var state := MatchStateTransition(line);
    if state.Some? then StateStep(ctx, line, state.value)
    else
    var message := MatchSequenceMessage(line);
    if message.Some? then MessageStep(ctx, message.value)
    else ctx.(errors := ctx.errors + [CouldNotParseError(lineNumber, line)])
  }

  /** One iteration of the parse loop for line number `lineNumber` (0-based). */
  function Step(ctx: Context, lineNumber: nat, raw: string): Context {
    var line := NormalizeLine(raw);
    if line == [] then ctx
    else if ctx.openClass.Some? then OpenBodyStep(ctx, ctx.openClass.value, line)
    else LineStep(ctx, lineNumber, line)
  }

  /** The parse loop over the first `|lines|` lines. */
  function Process(lines: seq<string>): Context {
    if lines == [] then EmptyContext
    else Step(Process(lines[..|lines| - 1]), |lines| - 1, lines[|lines| - 1])
  }

  // ---------------------------------------------------------------- after the loop

  /** Close every start left on one stack, bottom to top, at the final message count. */
  function FlushStack(intervals: seq<ActivationInterval>, p: string, starts: seq<nat>, end: nat): seq<ActivationInterval>
    decreases |starts|
  {
    if starts == [] then intervals
    else FlushStack(intervals + [ActivationInterval(NumberedId("activation-", |intervals| + 1), p, starts[0], end)],
                    p, starts[1..], end)
  }

  /** `for (const [participant, stack] of Object.entries(activationStacks))`. */
  function FlushStacks(intervals: seq<ActivationInterval>, stacks: seq<Stack>, end: nat): seq<ActivationInterval>
    decreases |stacks|
  {
    if stacks == [] then intervals
    else FlushStacks(FlushStack(intervals, stacks[0].participant, stacks[0].starts, end), stacks[1..], end)
  }

  function FinalErrors(ctx: Context): seq<string> {
    if ctx.openClass.Some? then ctx.errors + [UnclosedClassError(ctx.openClass.value)] else ctx.errors
  }

  function Finish(ctx: Context): ParseResult {
    var intervals := FlushStacks(ctx.intervals, ctx.stacks, |ctx.messages|);
    var diagrams := Diagrams(
      UseCaseDiagram(ctx.actors, ctx.useCases, ctx.associations),
      SequenceDiagram(ctx.participants, ctx.messages, intervals, ctx.commands),
      ClassDiagram(ctx.classes, ctx.relations),
      StateDiagram(ctx.states, ctx.transitions));
    var resolved := DiagramTypes.ResolveDiagramType(diagrams);
    ParseResult(resolved.0, resolved.1, diagrams, FinalErrors(ctx))
  }

  /** `parseDiagramText(input)`. */
  function Parse(input: string): ParseResult {
    Finish(Process(Split(input, '\n')))
  }

  // ---------------------------------------------------------------- the imperative parser

  /** The local collections of `parseDiagramText`, updated in place. */
  class ParserState {
    var actors: seq<string>
    var useCases: seq<string>
    var participants: seq<string>
    var classes: seq<ClassNode>
    var states: seq<string>
    var associations: seq<UseCaseAssociation>
    var messages: seq<SequenceMessage>
    var relations: seq<ClassRelation>
    var transitions: seq<StateTransition>
    var commands: seq<SequenceCommand>
    var stacks: seq<Stack>
    var intervals: seq<ActivationInterval>
    var errors: seq<string>
    var openClassName: Option<string>

    function Snapshot(): Context
      reads this
    {
      Context(actors, useCases, participants, classes, states, associations, messages, relations,
              transitions, commands, stacks, intervals, errors, openClassName)
    }

    constructor()
      ensures Snapshot() == EmptyContext
    {
      actors, useCases, participants, classes, states := [], [], [], [], [];
      associations, messages, relations, transitions, commands := [], [], [], [], [];
      stacks, intervals, errors, openClassName := [], [], [], None;
    }

    /** `ensureClass(classMap, name)`; returns where the class record is. */
    method EnsureClass(name: string) returns (index: nat)
      modifies this
      ensures Snapshot() == EnsureClassIn(old(Snapshot()), name)
      ensures index < |classes| && classes[index].id == name && FindClass(classes, name) == Some(index)
    {
      var found := FindClass(classes, name);
      if found.None? {
        classes := classes + [ClassNode(name, name, [], [])];
        assert classes[|classes| - 1].id == name;
        found := FindClass(classes, name);
      }
      index := found.value;
    }

    /** `addClassMember(ensureClass(classMap, name), memberLine)`: pushes onto the class record. */
    method AddMember(name: string, memberLine: string)
      modifies this
      ensures Snapshot() == AddMemberTo(old(Snapshot()), name, memberLine)
    {
      var i := EnsureClass(name);
      var member := Trim(memberLine);
      if member != [] {
        var target := classes[i];
        if '(' in member && ')' in member {
          target := target.(methods := target.methods + [member]);
        } else {
          target := target.(attributes := target.attributes + [member]);
        }
        classes := classes[i := target];
      }
    }

    method ApplyOpenBody(name: string, line: string)
      modifies this
      ensures Snapshot() == OpenBodyStep(old(Snapshot()), name, line)
    {
      var closing := IndexOfChar(line, '}');
      if closing >= 0 {
        var before := Trim(line[..closing]);
        if before != [] {
          AddMember(name, before);
        }
        openClassName := None;
      } else {
        AddMember(name, line);
      }
    }

    method ApplySingleLineClass(name: string, body: string)
      modifies this
      ensures Snapshot() == SingleLineClassStep(old(Snapshot()), name, body)
    {
      var _ := EnsureClass(name);
      var members := BodyMembers(Split(body, ';'));
      AddEach(name, members);
    }

    /** `members.forEach((member) => addClassMember(targetClass, member))`. */
    method AddEach(name: string, members: seq<string>)
      modifies this
      ensures Snapshot() == AddMembers(old(Snapshot()), name, members)
    {
      ghost var start := Snapshot();
      var i := 0;
      while i < |members|
        invariant 0 <= i <= |members|
        invariant Snapshot() == AddMembers(start, name, members[..i])
      {
        ghost var before := Snapshot();
        AddMember(name, members[i]);
        assert members[..i + 1][..i] == members[..i];
        assert AddMembers(start, name, members[..i + 1]) == AddMemberTo(before, name, members[i]);
        i := i + 1;
      }
      assert members[..i] == members;
    }

    method ApplyClassStart(name: string)
      modifies this
      ensures Snapshot() == ClassStartStep(old(Snapshot()), name)
    {
      var _ := EnsureClass(name);
      openClassName := Some(name);
    }

    method ApplyRelation(r: RelationShape)
      modifies this
      ensures Snapshot() == RelationStep(old(Snapshot()), r)
    {
      var _ := EnsureClass(r.from);
      var _ := EnsureClass(r.to);
      relations := relations + [ClassRelation(
        NumberedId("class-relation-", |relations| + 1), r.from, r.to, r.relationType, r.markerStart, r.markerEnd)];
    }

    method ApplyActivation(lineNumber: nat, kind: ActivationKind, participantRaw: string)
      modifies this
      ensures Snapshot() == ActivationStep(old(Snapshot()), lineNumber, kind, participantRaw)
    {
      ghost var before := Snapshot();
      var p := Trim(participantRaw);
      participants := AddKey(participants, p);
      commands := commands + [SequenceCommand(NumberedId("seq-command-", |commands| + 1), kind, p, |messages|)];
      ghost var recorded := Snapshot();
      assert recorded == before.(participants := participants, commands := commands);
      assert recorded == before.(participants := AddKey(before.participants, p),
                                 commands := before.commands + [SequenceCommand(
                                   NumberedId("seq-command-", |before.commands| + 1), kind, p, |before.messages|)]);
      if kind == ActivateCommand {
        Push(p);
        assert Snapshot() == recorded.(stacks := PushStart(recorded.stacks, p, |recorded.messages|));
      } else {
        Pop(lineNumber, p);
        assert Snapshot() == PopStart(recorded, lineNumber, p);
      }
      assert Snapshot() == ActivationStep(before, lineNumber, kind, participantRaw);
    }

    method Push(p: string)
      modifies this
      ensures Snapshot() == old(Snapshot()).(stacks := PushStart(old(stacks), p, |messages|))
    {
      var si := FindStack(stacks, p);
      ghost var oldStacks := stacks;
      if si.None? {
        stacks := stacks + [Stack(p, [])];
        si := Some(|stacks| - 1);
      }
      var top := stacks[si.value];
      stacks := stacks[si.value := Stack(p, top.starts + [|messages|])];
      if FindStack(oldStacks, p).None? {
        assert top.starts + [|messages|] == [|messages|];
        assert forall i :: 0 <= i < |oldStacks| ==> stacks[i] == oldStacks[i];
        assert stacks == oldStacks + [Stack(p, [|messages|])];
      }
    }

    method Pop(lineNumber: nat, p: string)
      modifies this
      ensures Snapshot() == PopStart(old(Snapshot()), lineNumber, p)
    {
      var si := FindStack(stacks, p);
      if si.Some? && |stacks[si.value].starts| > 0 {
        var st := stacks[si.value].starts;
        var startIndex := st[|st| - 1];
        stacks := stacks[si.value := Stack(p, st[..|st| - 1])];
        intervals := intervals + [ActivationInterval(NumberedId("activation-", |intervals| + 1), p, startIndex, |messages|)];
      } else {
        errors := errors + [UnmatchedDeactivateError(lineNumber, p)];
      }
    }

    method ApplyUseCase(line: string, actorRaw: string, useCaseRaw: string)
      modifies this
      ensures Snapshot() == UseCaseStep(old(Snapshot()), line, actorRaw, useCaseRaw)
    {
      ghost var before := Snapshot();
      var actor := Trim(actorRaw);
      var useCase := Trim(useCaseRaw);
      actors := AddKey(actors, actor);
      useCases := AddKey(useCases, useCase);
      associations := associations + [UseCaseAssociation(
        NumberedId("usecase-association-", |associations| + 1), actor, useCase, Includes(line, "-->"))];
      assert Snapshot() == before.(actors := actors, useCases := useCases, associations := associations);
    }

    method ApplyState(line: string, m: StateMatch)
      modifies this
      ensures Snapshot() == StateStep(old(Snapshot()), line, m)
    {
      ghost var before := Snapshot();
      var from := Trim(m.fromRaw);
      var to := Trim(m.toRaw);
      if from != "*" {
        states := AddKey(states, from);
      }
      assert states == AddState(before.states, from);
      if to != "*" {
        states := AddKey(states, to);
      }
      assert states == AddState(AddState(before.states, from), to);
      var transition := StateTransition(
        NumberedId("state-transition-", |transitions| + 1), from, to, Trim(m.labelRaw), Includes(line, "-->"));
      transitions := transitions + [transition];
      assert transitions == before.transitions + [transition];
      assert Snapshot() == before.(states := states, transitions := transitions);
    }

    method ApplyMessage(m: MessageMatch)
      modifies this
      ensures Snapshot() == MessageStep(old(Snapshot()), m)
    {
      ghost var before := Snapshot();
      var from := Trim(m.fromRaw);
      var to := Trim(m.toRaw);
      participants := AddKey(participants, from);
      participants := AddKey(participants, to);
      messages := messages + [SequenceMessage(
        NumberedId("sequence-message-", |messages| + 1), from, to, Trim(m.labelRaw), if m.async then Async else Sync)];
      assert Snapshot() == before.(participants := participants, messages := messages);
    }

    /** One iteration of the loop body: normalise, skip blank lines, then the first rule that matches. */
    method ApplyLine(lineNumber: nat, raw: string)
      modifies this
      ensures Snapshot() == Step(old(Snapshot()), lineNumber, raw)
    {
      var line := NormalizeLine(raw);
      if line == [] {
        return;
      }
      if openClassName.Some? {
        ApplyOpenBody(openClassName.value, line);
        return;
      }
      var single := MatchClassSingleLine(line);
      if single.Some? {
        ApplySingleLineClass(single.value.0, single.value.1);
        return;
      }
      var start := MatchClassStart(line);
      if start.Some? {
        ApplyClassStart(start.value);
        return;
      }
      var relation := ParseClassRelation(line);
      if relation.Some? {
        ApplyRelation(relation.value);
        return;
      }
      var activation := MatchActivation(line);
      if activation.Some? {
        ApplyActivation(lineNumber, activation.value.0, activation.value.1);
        return;
      }
      var useCase := MatchUseCase(line);
      if useCase.Some? {
        ApplyUseCase(line, useCase.value.0, useCase.value.1);
        return;
      }
      var state := MatchStateTransition(line);
      if state.Some? {
        ApplyState(line, state.value);
        return;
      }
      var message := MatchSequenceMessage(line);
      if message.Some? {
        ApplyMessage(message.value);
        return;
      }
      errors := errors + [CouldNotParseError(lineNumber, line)];
    }

    /** The two nested loops that close every activation still open at the end of the input. */
    method FlushOpenActivations()
      modifies this
      ensures Snapshot() == old(Snapshot()).(intervals := FlushStacks(old(intervals), old(stacks), |old(messages)|))
    {
      ghost var target := FlushStacks(intervals, stacks, |messages|);
      var k := 0;
      while k < |stacks|
        invariant 0 <= k <= |stacks|
        invariant FlushStacks(intervals, stacks[k..], |messages|) == target
        invariant Snapshot() == old(Snapshot()).(intervals := intervals)
      {
        var p := stacks[k].participant;
        var starts := stacks[k].starts;
        ghost var afterStack := FlushStack(intervals, p, starts, |messages|);
        assert FlushStacks(afterStack, stacks[k + 1..], |messages|) == target by {
          assert stacks[k..][1..] == stacks[k + 1..];
        }
        var j := 0;
        while j < |starts|
          invariant 0 <= j <= |starts|
          invariant FlushStack(intervals, p, starts[j..], |messages|) == afterStack
          invariant Snapshot() == old(Snapshot()).(intervals := intervals)
        {
          assert starts[j..][1..] == starts[j + 1..];
          intervals := intervals + [ActivationInterval(NumberedId("activation-", |intervals| + 1), p, starts[j], |messages|)];
          j := j + 1;
        }
        k := k + 1;
      }
    }

    /** After the loop: report a body still open, flush the stacks, assemble the result. */
    method Conclude() returns (result: ParseResult)
      modifies this
      ensures result == Finish(old(Snapshot()))
    {
      if openClassName.Some? {
        errors := errors + [UnclosedClassError(openClassName.value)];
      }
      FlushOpenActivations();
      var diagrams := Diagrams(
        UseCaseDiagram(actors, useCases, associations),
        SequenceDiagram(participants, messages, intervals, commands),
        ClassDiagram(classes, relations),
        StateDiagram(states, transitions));
      var resolved := DiagramTypes.ResolveDiagramType(diagrams);
      result := ParseResult(resolved.0, resolved.1, diagrams, errors);
    }
  }

  /** `parseDiagramText(input)`: split into lines, run the loop, then report an unclosed body,
      flush the activation stacks and resolve the diagram type. */
  method ParseDiagramText(input: string) returns (result: ParseResult)
    ensures result == Parse(input)
  {
    var lines := Split(input, '\n');
    var st := new ParserState();
    RunLines(st, lines);
    result := st.Conclude();
  }

  /** The `for` loop over the lines. */
  method RunLines(st: ParserState, lines: seq<string>)
    requires st.Snapshot() == EmptyContext
    modifies st
    ensures st.Snapshot() == Process(lines)
  {
    var n := 0;
    while n < |lines|
      invariant 0 <= n <= |lines|
      invariant st.Snapshot() == Process(lines[..n])
    {
      FeedLine(st, lines, n);
      n := n + 1;
    }
    assert lines[..n] == lines;
  }

  /** One turn of the parse loop: line `n` moves the state from the first `n` lines to the first `n + 1`. */
  method FeedLine(st: ParserState, lines: seq<string>, n: nat)
    requires n < |lines| && st.Snapshot() == Process(lines[..n])
    modifies st
    ensures st.Snapshot() == Process(lines[..n + 1])
  {
    assert lines[..n + 1][..n] == lines[..n];
    st.ApplyLine(n, lines[n]);
  }
}
