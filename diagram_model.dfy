/**
 * The structured model `parseDiagramText` returns (src/utils/DiagramParser.js:300-329).
 * Actors, use cases, participants and states are `{id: name, name}` records in the source; the
 * model keeps only the name, which is both fields. Lists keep the insertion order of the
 * source's keyed objects.
 */
module DiagramModel {
  import opened Options
  import opened JsString
  import LineRules

  datatype ClassNode = ClassNode(id: string, name: string, attributes: seq<string>, methods: seq<string>)

  datatype RelationType = Inheritance | Composition | Aggregation | Association

  datatype Marker = Triangle | Diamond | HollowDiamond

  datatype ClassRelation = ClassRelation(
    id: string, from: string, to: string, relationType: RelationType,
    markerStart: Option<Marker>, markerEnd: Option<Marker>)

  datatype UseCaseAssociation = UseCaseAssociation(id: string, actorId: string, useCaseId: string, async: bool)

  datatype StateTransition = StateTransition(id: string, from: string, to: string, labelText: string, async: bool)

  datatype MessageType = Sync | Async

  datatype SequenceMessage = SequenceMessage(id: string, from: string, to: string, message: string, messageType: MessageType)

  /** A recorded `activate`/`deactivate` line; `command` is the lower-cased keyword. */
  datatype SequenceCommand = SequenceCommand(
    id: string, command: LineRules.ActivationKind, participant: string, atMessageIndex: nat)

  datatype ActivationInterval = ActivationInterval(id: string, participant: string, startIndex: nat, endIndex: nat)

  datatype UseCaseDiagram = UseCaseDiagram(actors: seq<string>, useCases: seq<string>, associations: seq<UseCaseAssociation>)

  datatype SequenceDiagram = SequenceDiagram(
    participants: seq<string>, messages: seq<SequenceMessage>,
    activations: seq<ActivationInterval>, commands: seq<SequenceCommand>)

  datatype ClassDiagram = ClassDiagram(classes: seq<ClassNode>, relations: seq<ClassRelation>)

  datatype StateDiagram = StateDiagram(states: seq<string>, transitions: seq<StateTransition>)

  datatype Diagrams = Diagrams(useCase: UseCaseDiagram, sequence: SequenceDiagram, classDiagram: ClassDiagram, state: StateDiagram)

  /** The four dialects, in the order the score table lists them. */
  datatype DiagramKind = UseCaseKind | SequenceKind | ClassKind | StateKind

  datatype DiagramType = Unknown | Mixed | Single(kind: DiagramKind)

  datatype ParseResult = ParseResult(
    diagramType: DiagramType, detectedTypes: seq<DiagramKind>, diagrams: Diagrams, errors: seq<string>)

  /** Identifiers such as `class-relation-3`: a fixed prefix and a 1-based counter. */
  function NumberedId(prefix: string, n: nat): string {
    prefix + NatToString(n)
  }

  /** A generated identifier starts with its prefix and has at least one digit after it. */
  lemma NumberedIdPrefixed(prefix: string, n: nat)
    ensures var id := NumberedId(prefix, n); |id| > |prefix| && id[..|prefix|] == prefix
  {
  }

  /** Distinct counters under the same prefix give distinct identifiers. */
  lemma NumberedIdInjective(prefix: string, a: nat, b: nat)
    requires NumberedId(prefix, a) == NumberedId(prefix, b)
    ensures a == b
  {
    PrefixedDecimalInjective(prefix, a, b);
  }
}
