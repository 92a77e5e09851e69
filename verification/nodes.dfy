/**
 * The composite node classes. Each constructor keeps its inputs and binds its
 * named roles with the extraction engine at the default occurrence 1; a role is
 * `None` when no input has a requested class. Roles are bound independently:
 * no node checks that a required role is present or that alternative shapes
 * exclude each other.
 */
module Nodes {
  import opened Wrappers
  import opened Symbols
  import opened Extraction

  const ConditionKinds: seq<Class> := [
    OfToken(Equals), OfToken(NotEquals), OfToken(GreaterThan), OfToken(GreaterOrEq),
    OfToken(LessThan), OfToken(LessOrEq), OfToken(Contains), OfTree(ContainsWords),
    OfToken(Like), OfToken(Under), OfTree(InGroup), OfToken(Ever)]
  const ValueKinds: seq<Class> := [
    OfTree(Number), OfToken(String), OfTree(DateTime), OfToken(Variable),
    OfToken(True), OfToken(False), OfTree(Field)]
  const AscDescKinds: seq<Class> := [OfToken(Asc), OfToken(Desc)]
  const EverNotKinds: seq<Class> := [OfToken(Ever), OfToken(Not)]
  const AndOrKinds: seq<Class> := [OfToken(And), OfToken(Or)]
  const PlusMinusKinds: seq<Class> := [OfToken(Plus), OfToken(Minus)]
  const PrefixKinds: seq<Class> := [OfTree(SourcePrefix), OfTree(TargetPrefix)]
  const ModeKinds: seq<Class> := [OfToken(MustContain), OfToken(MayContain), OfToken(DoesNotContain)]

  datatype NumberNode = NumberNode(inputs: seq<Symbol>, digits: Option<Symbol>, minus: Option<Symbol>)

  function NumberOf(inputs: seq<Symbol>): (r: NumberNode)
    ensures r.inputs == inputs
    ensures r.digits == FirstOf(inputs, [OfToken(Digits)]) && r.minus == FirstOf(inputs, [OfToken(Minus)])
  {
    LookupFirst(inputs, [OfToken(Digits)]);
    LookupFirst(inputs, [OfToken(Minus)]);
    NumberNode(inputs, Lookup(inputs, [OfToken(Digits)]), Lookup(inputs, [OfToken(Minus)]))
  }

  datatype FieldNode = FieldNode(inputs: seq<Symbol>, identifier: Option<Symbol>)

  function FieldOf(inputs: seq<Symbol>): (r: FieldNode)
    ensures r.inputs == inputs
    ensures r.identifier == FirstOf(inputs, [OfToken(Identifier)])
  {
    LookupFirst(inputs, [OfToken(Identifier)]);
    FieldNode(inputs, Lookup(inputs, [OfToken(Identifier)]))
  }

  datatype ContainsWordsNode = ContainsWordsNode(inputs: seq<Symbol>, contains: Option<Symbol>, words: Option<Symbol>)

  function ContainsWordsOf(inputs: seq<Symbol>): (r: ContainsWordsNode)
    ensures r.inputs == inputs
    ensures r.contains == FirstOf(inputs, [OfToken(Contains)]) && r.words == FirstOf(inputs, [OfToken(Words)])
  {
    LookupFirst(inputs, [OfToken(Contains)]);
    LookupFirst(inputs, [OfToken(Words)]);
    ContainsWordsNode(inputs, Lookup(inputs, [OfToken(Contains)]), Lookup(inputs, [OfToken(Words)]))
  }

  datatype DateTimeNode = DateTimeNode(inputs: seq<Symbol>, dateString: Option<Symbol>)

  function DateTimeOf(inputs: seq<Symbol>): (r: DateTimeNode)
    ensures r.inputs == inputs
    ensures r.dateString == FirstOf(inputs, [OfToken(String)])
  {
    LookupFirst(inputs, [OfToken(String)]);
    DateTimeNode(inputs, Lookup(inputs, [OfToken(String)]))
  }

  datatype OrderByFieldListNode = OrderByFieldListNode(
    inputs: seq<Symbol>, field: Option<Symbol>, ascDesc: Option<Symbol>, restOfList: Option<Symbol>)

  function OrderByFieldListOf(inputs: seq<Symbol>): (r: OrderByFieldListNode)
    ensures r.inputs == inputs
    ensures r.field == FirstOf(inputs, [OfTree(Field)]) && r.ascDesc == FirstOf(inputs, AscDescKinds)
    ensures r.restOfList == FirstOf(inputs, [OfTree(OrderByFieldList)])
  {
    assert AllConcrete(AscDescKinds);
    LookupFirst(inputs, [OfTree(Field)]);
    LookupFirst(inputs, AscDescKinds);
    LookupFirst(inputs, [OfTree(OrderByFieldList)]);
    OrderByFieldListNode(inputs, Lookup(inputs, [OfTree(Field)]), Lookup(inputs, AscDescKinds),
      Lookup(inputs, [OfTree(OrderByFieldList)]))
  }

  datatype FieldListNode = FieldListNode(inputs: seq<Symbol>, field: Option<Symbol>, restOfList: Option<Symbol>)

  function FieldListOf(inputs: seq<Symbol>): (r: FieldListNode)
    ensures r.inputs == inputs
    ensures r.field == FirstOf(inputs, [OfTree(Field)]) && r.restOfList == FirstOf(inputs, [OfTree(FieldList)])
  {
    LookupFirst(inputs, [OfTree(Field)]);
    LookupFirst(inputs, [OfTree(FieldList)]);
    FieldListNode(inputs, Lookup(inputs, [OfTree(Field)]), Lookup(inputs, [OfTree(FieldList)]))
  }

  datatype ConditionalOperatorNode = ConditionalOperatorNode(
    inputs: seq<Symbol>, conditionToken: Option<Symbol>, ever: Option<Symbol>, not: Option<Symbol>)

  function ConditionalOperatorOf(inputs: seq<Symbol>): (r: ConditionalOperatorNode)
    ensures r.inputs == inputs
    ensures r.conditionToken == FirstOf(inputs, ConditionKinds)
    ensures r.ever == FirstOf(inputs, [OfToken(Ever)]) && r.not == FirstOf(inputs, [OfToken(Not)])
  {
    assert AllConcrete(ConditionKinds);
    LookupFirst(inputs, ConditionKinds);
    LookupFirst(inputs, [OfToken(Ever)]);
    LookupFirst(inputs, [OfToken(Not)]);
    ConditionalOperatorNode(inputs, Lookup(inputs, ConditionKinds), Lookup(inputs, [OfToken(Ever)]),
      Lookup(inputs, [OfToken(Not)]))
  }

  datatype ValueNode = ValueNode(inputs: seq<Symbol>, value: Option<Symbol>, operator: Option<Symbol>, num: Option<Symbol>)

  function ValueOf(inputs: seq<Symbol>): (r: ValueNode)
    ensures r.inputs == inputs
    ensures r.value == FirstOf(inputs, ValueKinds) && r.operator == FirstOf(inputs, PlusMinusKinds)
    ensures r.num == FirstOf(inputs, [OfTree(Number)])
  {
    assert AllConcrete(ValueKinds);
    assert AllConcrete(PlusMinusKinds);
    LookupFirst(inputs, ValueKinds);
    LookupFirst(inputs, PlusMinusKinds);
    LookupFirst(inputs, [OfTree(Number)]);
    ValueNode(inputs, Lookup(inputs, ValueKinds), Lookup(inputs, PlusMinusKinds), Lookup(inputs, [OfTree(Number)]))
  }

  datatype ValueListNode = ValueListNode(inputs: seq<Symbol>, value: Option<Symbol>, restOfList: Option<Symbol>)

  function ValueListOf(inputs: seq<Symbol>): (r: ValueListNode)
    ensures r.inputs == inputs
    ensures r.value == FirstOf(inputs, [OfTree(Value)]) && r.restOfList == FirstOf(inputs, [OfTree(ValueList)])
  {
    LookupFirst(inputs, [OfTree(Value)]);
    LookupFirst(inputs, [OfTree(ValueList)]);
    ValueListNode(inputs, Lookup(inputs, [OfTree(Value)]), Lookup(inputs, [OfTree(ValueList)]))
  }

  datatype LogicalExpressionNode = LogicalExpressionNode(
    inputs: seq<Symbol>, condition: Option<Symbol>, everNot: Option<Symbol>, orAnd: Option<Symbol>,
    expression: Option<Symbol>)

  function LogicalExpressionOf(inputs: seq<Symbol>): (r: LogicalExpressionNode)
    ensures r.inputs == inputs
    ensures r.condition == FirstOf(inputs, [OfTree(ConditionalExpression)])
    ensures r.everNot == FirstOf(inputs, EverNotKinds) && r.orAnd == FirstOf(inputs, AndOrKinds)
    ensures r.expression == FirstOf(inputs, [OfTree(LogicalExpression)])
  {
    assert AllConcrete(EverNotKinds);
    assert AllConcrete(AndOrKinds);
    LookupFirst(inputs, [OfTree(ConditionalExpression)]);
    LookupFirst(inputs, EverNotKinds);
    LookupFirst(inputs, AndOrKinds);
    LookupFirst(inputs, [OfTree(LogicalExpression)]);
    LogicalExpressionNode(inputs, Lookup(inputs, [OfTree(ConditionalExpression)]), Lookup(inputs, EverNotKinds),
      Lookup(inputs, AndOrKinds), Lookup(inputs, [OfTree(LogicalExpression)]))
  }

  datatype ConditionalExpressionNode = ConditionalExpressionNode(
    inputs: seq<Symbol>, expression: Option<Symbol>, field: Option<Symbol>, conditionalOperator: Option<Symbol>,
    inOperator: Option<Symbol>, value: Option<Symbol>, not: Option<Symbol>, valueList: Option<Symbol>)

  function ConditionalExpressionOf(inputs: seq<Symbol>): (r: ConditionalExpressionNode)
    ensures r.inputs == inputs
    ensures r.expression == FirstOf(inputs, [OfTree(LogicalExpression)]) && r.field == FirstOf(inputs, [OfTree(Field)])
    ensures r.conditionalOperator == FirstOf(inputs, [OfTree(ConditionalOperator)])
    ensures r.inOperator == FirstOf(inputs, [OfToken(In)]) && r.value == FirstOf(inputs, [OfTree(Value)])
    ensures r.not == FirstOf(inputs, [OfToken(Not)]) && r.valueList == FirstOf(inputs, [OfTree(ValueList)])
  {
    LookupFirst(inputs, [OfTree(LogicalExpression)]);
    LookupFirst(inputs, [OfTree(Field)]);
    LookupFirst(inputs, [OfTree(ConditionalOperator)]);
    LookupFirst(inputs, [OfToken(In)]);
    LookupFirst(inputs, [OfTree(Value)]);
    LookupFirst(inputs, [OfToken(Not)]);
    LookupFirst(inputs, [OfTree(ValueList)]);
    ConditionalExpressionNode(inputs, Lookup(inputs, [OfTree(LogicalExpression)]), Lookup(inputs, [OfTree(Field)]),
      Lookup(inputs, [OfTree(ConditionalOperator)]), Lookup(inputs, [OfToken(In)]), Lookup(inputs, [OfTree(Value)]),
      Lookup(inputs, [OfToken(Not)]), Lookup(inputs, [OfTree(ValueList)]))
  }

  datatype FlatSelectNode = FlatSelectNode(
    inputs: seq<Symbol>, fieldList: Option<Symbol>, whereExp: Option<Symbol>, orderBy: Option<Symbol>,
    asOf: Option<Symbol>)

  function FlatSelectOf(inputs: seq<Symbol>): (r: FlatSelectNode)
    ensures r.inputs == inputs
    ensures r.fieldList == FirstOf(inputs, [OfTree(FieldList)]) && r.whereExp == FirstOf(inputs, [OfTree(LogicalExpression)])
    ensures r.orderBy == FirstOf(inputs, [OfTree(OrderByFieldList)]) && r.asOf == FirstOf(inputs, [OfTree(DateTime)])
  {
    LookupFirst(inputs, [OfTree(FieldList)]);
    LookupFirst(inputs, [OfTree(LogicalExpression)]);
    LookupFirst(inputs, [OfTree(OrderByFieldList)]);
    LookupFirst(inputs, [OfTree(DateTime)]);
    FlatSelectNode(inputs, Lookup(inputs, [OfTree(FieldList)]), Lookup(inputs, [OfTree(LogicalExpression)]),
      Lookup(inputs, [OfTree(OrderByFieldList)]), Lookup(inputs, [OfTree(DateTime)]))
  }

  datatype SourcePrefixNode = SourcePrefixNode(inputs: seq<Symbol>, source: Option<Symbol>)

  function SourcePrefixOf(inputs: seq<Symbol>): (r: SourcePrefixNode)
    ensures r.inputs == inputs
    ensures r.source == FirstOf(inputs, [OfToken(Source)])
  {
    LookupFirst(inputs, [OfToken(Source)]);
    SourcePrefixNode(inputs, Lookup(inputs, [OfToken(Source)]))
  }

  datatype TargetPrefixNode = TargetPrefixNode(inputs: seq<Symbol>, target: Option<Symbol>)

  function TargetPrefixOf(inputs: seq<Symbol>): (r: TargetPrefixNode)
    ensures r.inputs == inputs
    ensures r.target == FirstOf(inputs, [OfToken(Target)])
  {
    LookupFirst(inputs, [OfToken(Target)]);
    TargetPrefixNode(inputs, Lookup(inputs, [OfToken(Target)]))
  }

  datatype LinkConditionNode = LinkConditionNode(
    inputs: seq<Symbol>, expression: Option<Symbol>, prefix: Option<Symbol>, field: Option<Symbol>,
    conditionalOperator: Option<Symbol>, inOperator: Option<Symbol>, value: Option<Symbol>, not: Option<Symbol>,
    valueList: Option<Symbol>)

  function LinkConditionOf(inputs: seq<Symbol>): (r: LinkConditionNode)
    ensures r.inputs == inputs
    ensures r.expression == FirstOf(inputs, [OfTree(LinkExpression)]) && r.prefix == FirstOf(inputs, PrefixKinds)
    ensures r.field == FirstOf(inputs, [OfTree(Field)]) && r.conditionalOperator == FirstOf(inputs, [OfTree(ConditionalOperator)])
    ensures r.inOperator == FirstOf(inputs, [OfToken(In)]) && r.value == FirstOf(inputs, [OfTree(Value)])
    ensures r.not == FirstOf(inputs, [OfToken(Not)]) && r.valueList == FirstOf(inputs, [OfTree(ValueList)])
  {
    assert AllConcrete(PrefixKinds);
    LookupFirst(inputs, [OfTree(LinkExpression)]);
    LookupFirst(inputs, PrefixKinds);
    LookupFirst(inputs, [OfTree(Field)]);
    LookupFirst(inputs, [OfTree(ConditionalOperator)]);
    LookupFirst(inputs, [OfToken(In)]);
    LookupFirst(inputs, [OfTree(Value)]);
    LookupFirst(inputs, [OfToken(Not)]);
    LookupFirst(inputs, [OfTree(ValueList)]);
    LinkConditionNode(inputs, Lookup(inputs, [OfTree(LinkExpression)]), Lookup(inputs, PrefixKinds),
      Lookup(inputs, [OfTree(Field)]), Lookup(inputs, [OfTree(ConditionalOperator)]), Lookup(inputs, [OfToken(In)]),
      Lookup(inputs, [OfTree(Value)]), Lookup(inputs, [OfToken(Not)]), Lookup(inputs, [OfTree(ValueList)]))
  }

  datatype LinkExpressionNode = LinkExpressionNode(
    inputs: seq<Symbol>, condition: Option<Symbol>, everNot: Option<Symbol>, orAnd: Option<Symbol>,
    expression: Option<Symbol>)

  function LinkExpressionOf(inputs: seq<Symbol>): (r: LinkExpressionNode)
    ensures r.inputs == inputs
    ensures r.condition == FirstOf(inputs, [OfTree(LinkCondition)])
    ensures r.everNot == FirstOf(inputs, EverNotKinds) && r.orAnd == FirstOf(inputs, AndOrKinds)
    ensures r.expression == FirstOf(inputs, [OfTree(LinkExpression)])
  {
    assert AllConcrete(EverNotKinds);
    assert AllConcrete(AndOrKinds);
    LookupFirst(inputs, [OfTree(LinkCondition)]);
    LookupFirst(inputs, EverNotKinds);
    LookupFirst(inputs, AndOrKinds);
    LookupFirst(inputs, [OfTree(LinkExpression)]);
    LinkExpressionNode(inputs, Lookup(inputs, [OfTree(LinkCondition)]), Lookup(inputs, EverNotKinds),
      Lookup(inputs, AndOrKinds), Lookup(inputs, [OfTree(LinkExpression)]))
  }

  datatype LinkOrderByFieldListNode = LinkOrderByFieldListNode(
    inputs: seq<Symbol>, prefix: Option<Symbol>, field: Option<Symbol>, ascDesc: Option<Symbol>,
    restOfList: Option<Symbol>)

  function LinkOrderByFieldListOf(inputs: seq<Symbol>): (r: LinkOrderByFieldListNode)
    ensures r.inputs == inputs
    ensures r.prefix == FirstOf(inputs, PrefixKinds) && r.field == FirstOf(inputs, [OfTree(Field)])
    ensures r.ascDesc == FirstOf(inputs, AscDescKinds) && r.restOfList == FirstOf(inputs, [OfTree(LinkOrderByFieldList)])
  {
    assert AllConcrete(PrefixKinds);
    assert AllConcrete(AscDescKinds);
    LookupFirst(inputs, PrefixKinds);
    LookupFirst(inputs, [OfTree(Field)]);
    LookupFirst(inputs, AscDescKinds);
    LookupFirst(inputs, [OfTree(LinkOrderByFieldList)]);
    LinkOrderByFieldListNode(inputs, Lookup(inputs, PrefixKinds), Lookup(inputs, [OfTree(Field)]),
      Lookup(inputs, AscDescKinds), Lookup(inputs, [OfTree(LinkOrderByFieldList)]))
  }

  datatype OneHopSelectNode = OneHopSelectNode(
    inputs: seq<Symbol>, fieldList: Option<Symbol>, whereExp: Option<Symbol>, orderBy: Option<Symbol>,
    asOf: Option<Symbol>, mode: Option<Symbol>)

  function OneHopSelectOf(inputs: seq<Symbol>): (r: OneHopSelectNode)
    ensures r.inputs == inputs
    ensures r.fieldList == FirstOf(inputs, [OfTree(FieldList)]) && r.whereExp == FirstOf(inputs, [OfTree(LinkExpression)])
    ensures r.orderBy == FirstOf(inputs, [OfTree(LinkOrderByFieldList)]) && r.asOf == FirstOf(inputs, [OfTree(DateTime)])
    ensures r.mode == FirstOf(inputs, ModeKinds)
  {
    assert AllConcrete(ModeKinds);
    LookupFirst(inputs, [OfTree(FieldList)]);
    LookupFirst(inputs, [OfTree(LinkExpression)]);
    LookupFirst(inputs, [OfTree(LinkOrderByFieldList)]);
    LookupFirst(inputs, [OfTree(DateTime)]);
    LookupFirst(inputs, ModeKinds);
    OneHopSelectNode(inputs, Lookup(inputs, [OfTree(FieldList)]), Lookup(inputs, [OfTree(LinkExpression)]),
      Lookup(inputs, [OfTree(LinkOrderByFieldList)]), Lookup(inputs, [OfTree(DateTime)]), Lookup(inputs, ModeKinds))
  }

  datatype RecursiveSelectNode = RecursiveSelectNode(
    inputs: seq<Symbol>, fieldList: Option<Symbol>, whereExp: Option<Symbol>, orderBy: Option<Symbol>,
    asOf: Option<Symbol>, recursive: Option<Symbol>, matchingChildren: Option<Symbol>)

  function RecursiveSelectOf(inputs: seq<Symbol>): (r: RecursiveSelectNode)
    ensures r.inputs == inputs
    ensures r.fieldList == FirstOf(inputs, [OfTree(FieldList)]) && r.whereExp == FirstOf(inputs, [OfTree(LinkExpression)])
    ensures r.orderBy == FirstOf(inputs, [OfTree(LinkOrderByFieldList)]) && r.asOf == FirstOf(inputs, [OfTree(DateTime)])
    ensures r.recursive == FirstOf(inputs, [OfToken(Recursive)])
    ensures r.matchingChildren == FirstOf(inputs, [OfToken(ReturnMatchingChildren)])
  {
    LookupFirst(inputs, [OfTree(FieldList)]);
    LookupFirst(inputs, [OfTree(LinkExpression)]);
    LookupFirst(inputs, [OfTree(LinkOrderByFieldList)]);
    LookupFirst(inputs, [OfTree(DateTime)]);
    LookupFirst(inputs, [OfToken(Recursive)]);
    LookupFirst(inputs, [OfToken(ReturnMatchingChildren)]);
    RecursiveSelectNode(inputs, Lookup(inputs, [OfTree(FieldList)]), Lookup(inputs, [OfTree(LinkExpression)]),
      Lookup(inputs, [OfTree(LinkOrderByFieldList)]), Lookup(inputs, [OfTree(DateTime)]),
      Lookup(inputs, [OfToken(Recursive)]), Lookup(inputs, [OfToken(ReturnMatchingChildren)]))
  }

  // ---------------------------------------------------------------------------
  // Right-recursive chains

  /** The node kinds whose "rest" role requests the node's own kind. */
  predicate IsChainKind(k: TreeKind) {
    k in {FieldList, OrderByFieldList, LinkOrderByFieldList, ValueList, LogicalExpression, LinkExpression}
  }

  /** The first input of the node's own kind: a strict sub-term of the node. */
  function Rest(s: Symbol): (r: Option<Symbol>)
    requires s.Tree?
    ensures r.Some? ==> r.value in s.inputs && r.value.Tree? && r.value.kind == s.kind && r.value < s
  {
    Lookup(s.inputs, [OfTree(s.kind)])
  }

  /** On every chain kind, the node's own "rest" role is `Rest`. */
  lemma RestIsChainRole(s: Symbol)
    requires s.Tree? && IsChainKind(s.kind)
    ensures s.kind == FieldList ==> FieldListOf(s.inputs).restOfList == Rest(s)
    ensures s.kind == OrderByFieldList ==> OrderByFieldListOf(s.inputs).restOfList == Rest(s)
    ensures s.kind == LinkOrderByFieldList ==> LinkOrderByFieldListOf(s.inputs).restOfList == Rest(s)
    ensures s.kind == ValueList ==> ValueListOf(s.inputs).restOfList == Rest(s)
    ensures s.kind == LogicalExpression ==> LogicalExpressionOf(s.inputs).expression == Rest(s)
    ensures s.kind == LinkExpression ==> LinkExpressionOf(s.inputs).expression == Rest(s)
  {
  }

  /**
   * The nodes met by following the "rest" role from `s` until it is absent:
   * the walk terminates, every step goes to a strictly smaller node of the
   * same kind (so no node repeats), and the number of steps is the length.
   */
  function Chain(s: Symbol): (c: seq<Symbol>)
    requires s.Tree?
    ensures |c| >= 1 && c[0] == s
    ensures forall i :: 0 <= i < |c| ==> c[i].Tree? && c[i].kind == s.kind
    ensures forall i :: 0 <= i < |c| - 1 ==> Rest(c[i]) == Some(c[i + 1])
    ensures Rest(c[|c| - 1]).None?
    ensures forall i, j :: 0 <= i < j < |c| ==> c[j] < c[i]
    decreases s
  {
    match Rest(s)
    case None => [s]
    case Some(t) =>
      var rest := Chain(t);
      ChainCons(s, rest);
      [s] + rest
  }
  /** Putting a node in front of the chain of its rest keeps every chain property. */
  lemma ChainCons(s: Symbol, rest: seq<Symbol>)
    requires s.Tree? && |rest| >= 1 && Rest(s) == Some(rest[0])
    requires forall i :: 0 <= i < |rest| ==> rest[i].Tree? && rest[i].kind == s.kind
    requires forall i :: 0 <= i < |rest| - 1 ==> Rest(rest[i]) == Some(rest[i + 1])
    requires forall i, j :: 0 <= i < j < |rest| ==> rest[j] < rest[i]
    ensures var c := [s] + rest;
      (forall i :: 0 <= i < |c| ==> c[i].Tree? && c[i].kind == s.kind) &&
      (forall i :: 0 <= i < |c| - 1 ==> Rest(c[i]) == Some(c[i + 1])) &&
      (forall i, j :: 0 <= i < j < |c| ==> c[j] < c[i])
  {
    var c := [s] + rest;
    assert forall k :: 0 < k < |c| ==> c[k] == rest[k - 1];
    assert forall j :: 0 < j < |c| ==> c[j] == rest[0] || c[j] < rest[0];
  }


  // ---------------------------------------------------------------------------
  // Role binding on particular inputs

  /** With only concrete classes requested, the first input whose class is requested is bound. */
  lemma FirstOfClass(inputs: seq<Symbol>, kinds: seq<Class>, i: nat)
    requires AllConcrete(kinds) && i < |inputs| && ClassOf(inputs[i]) in kinds
    requires forall j :: 0 <= j < i ==> ClassOf(inputs[j]) !in kinds
    ensures Lookup(inputs, kinds) == Some(inputs[i])
  {
    forall j | 0 <= j <= i ensures Matches(inputs[j], kinds) <==> ClassOf(inputs[j]) in kinds {
      MatchesConcrete(inputs[j], kinds);
    }
    FirstMatch(inputs, kinds, i);
  }

  /** With only concrete classes requested, a role is absent exactly when no input has a requested class. */
  lemma AbsentOfClass(inputs: seq<Symbol>, kinds: seq<Class>)
    requires AllConcrete(kinds)
    ensures Lookup(inputs, kinds).None? <==> forall i :: 0 <= i < |inputs| ==> ClassOf(inputs[i]) !in kinds
  {
    forall i | 0 <= i < |inputs| ensures Matches(inputs[i], kinds) <==> ClassOf(inputs[i]) in kinds {
      MatchesConcrete(inputs[i], kinds);
    }
    NoMatch(inputs, kinds);
  }

  /** ConditionalOperator on [Not, Under]: `not` is the Not token, `conditionToken` the Under token, no `ever`. */
  lemma ConditionalOperatorNotUnder(n: Token, u: Token)
    requires n.kind == Not && u.kind == Under
    ensures var r := ConditionalOperatorOf([Tok(n), Tok(u)]);
      r.not == Some(Tok(n)) && r.conditionToken == Some(Tok(u)) && r.ever == None
  {
    var inputs := [Tok(n), Tok(u)];
    FirstOfClass(inputs, [OfToken(Not)], 0);
    FirstOfClass(inputs, ConditionKinds, 1);
    AbsentOfClass(inputs, [OfToken(Ever)]);
  }

  /** ConditionalOperator on [Ever]: `conditionToken` and `ever` are the same input. */
  lemma ConditionalOperatorEverAlone(e: Token)
    requires e.kind == Ever
    ensures var r := ConditionalOperatorOf([Tok(e)]);
      r.conditionToken == r.ever == Some(Tok(e)) && r.not == None
  {
    var inputs := [Tok(e)];
    FirstOfClass(inputs, ConditionKinds, 0);
    FirstOfClass(inputs, [OfToken(Ever)], 0);
    AbsentOfClass(inputs, [OfToken(Not)]);
  }

  /**
   * Value: when the first value-kind input is a Number, `num` is that same
   * input, not a later Number.
   */
  lemma ValueNumIsValue(inputs: seq<Symbol>)
    requires ValueOf(inputs).value.Some? && ClassOf(ValueOf(inputs).value.value) == OfTree(Number)
    ensures ValueOf(inputs).num == ValueOf(inputs).value
  {
    var i := FirstHit(inputs, ValueKinds);
    forall j | 0 <= j <= i ensures Matches(inputs[j], ValueKinds) <==> ClassOf(inputs[j]) in ValueKinds {
      MatchesConcrete(inputs[j], ValueKinds);
    }
    FirstOfClass(inputs, [OfTree(Number)], i);
  }

  /**
   * RecursiveSelect with a Recursive token and no ReturnMatchingChildren token
   * among its inputs: `recursive` is present and `matchingChildren` absent.
   */
  lemma RecursiveSelectFlags(inputs: seq<Symbol>, k: nat)
    requires k < |inputs| && ClassOf(inputs[k]) == OfToken(Recursive)
    requires forall i :: 0 <= i < |inputs| ==> ClassOf(inputs[i]) != OfToken(ReturnMatchingChildren)
    ensures var r := RecursiveSelectOf(inputs);
      r.recursive.Some? && r.recursive.value.token.kind == Recursive && r.matchingChildren.None?
  {
    AbsentOfClass(inputs, [OfToken(Recursive)]);
    AbsentOfClass(inputs, [OfToken(ReturnMatchingChildren)]);
  }

  /**
   * A flat select built from [SELECT, field list, WHERE, [System.State] = 'Active']:
   * its `whereExp` is present and the condition's field resolves to the
   * identifier token with the text "[System.State]".
   */
  lemma FlatSelectWhereField(select: Token, where: Token, id: Token, eq: Token, str: Token, fieldList: Symbol)
    requires select.kind == Select && where.kind == Where && id.kind == Identifier && id.text == "[System.State]"
    requires eq.kind == Equals && str.kind == String && fieldList.Tree? && fieldList.kind == FieldList
    ensures var field := Tree(Field, [Tok(id)]);
      var condition := Tree(ConditionalExpression, [field, Tree(ConditionalOperator, [Tok(eq)]), Tree(Value, [Tok(str)])]);
      var whereExp := Tree(LogicalExpression, [condition]);
      var query := FlatSelectOf([Tok(select), fieldList, Tok(where), whereExp]);
      query.fieldList == Some(fieldList) && query.whereExp == Some(whereExp) &&
      LogicalExpressionOf(whereExp.inputs).condition == Some(condition) &&
      ConditionalExpressionOf(condition.inputs).field == Some(field) &&
      FieldOf(field.inputs).identifier.Some? && FieldOf(field.inputs).identifier.value.token.text == "[System.State]"
  {
    var field := Tree(Field, [Tok(id)]);
    var condition := Tree(ConditionalExpression, [field, Tree(ConditionalOperator, [Tok(eq)]), Tree(Value, [Tok(str)])]);
    var whereExp := Tree(LogicalExpression, [condition]);
    var inputs := [Tok(select), fieldList, Tok(where), whereExp];
    FirstOfClass(inputs, [OfTree(FieldList)], 1);
    FirstOfClass(inputs, [OfTree(LogicalExpression)], 3);
    FirstOfClass(whereExp.inputs, [OfTree(ConditionalExpression)], 0);
    FirstOfClass(condition.inputs, [OfTree(Field)], 0);
    FirstOfClass(field.inputs, [OfToken(Identifier)], 0);
  }

  /**
   * The two shapes of a ConditionalExpression are not exclusive: inputs holding
   * both a nested LogicalExpression and a Field populate both roles.
   */
  lemma ConditionalExpressionShapesCoexist(nested: Symbol, field: Symbol)
    requires nested.Tree? && nested.kind == LogicalExpression && field.Tree? && field.kind == Field
    ensures var r := ConditionalExpressionOf([nested, field]);
      r.expression == Some(nested) && r.field == Some(field)
  {
    FirstOfClass([nested, field], [OfTree(LogicalExpression)], 0);
    FirstOfClass([nested, field], [OfTree(Field)], 1);
  }
}
