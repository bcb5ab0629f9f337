/**
 * `createDroidModel` of lib/graph/graph-model.ts: the diagram built from a
 * patch text. The master node comes first, then one node per controller,
 * then one node per circuit; then every parameter of every circuit is wired
 * to its circuit node, adding value nodes (expressions, variables, literals)
 * and links as it goes.
 *
 * The diagram is a `DiagramModel` object whose node and link lists grow as
 * nodes and links are added. A node is referred to by its position in the
 * node list; a link end is a node position and a port position in that
 * node's port list, or nothing when the program sets an end to `undefined`.
 *
 * Each step of the builder is specified by a function on `Build` values
 * (the node list, the link list and the memo of variable nodes); the
 * methods that change the `DiagramModel` are proved to leave exactly the
 * state that function describes.
 */
module GraphModel {
  import opened Common
  import opened JsString
  import opened PatchParser
  import opened Graph

  /** A port of the diagram: the node's position in the node list and the port's position in the node. */
  datatype PortRef = PortRef(node: nat, port: nat)

  /** A link; an end the program leaves `undefined` is `None`. */
  datatype Link = Link(source: Option<PortRef>, target: Option<PortRef>)

  /**
   * A reference to a node held by the builder (`master`, an entry of
   * `controllers` or `variables`, the parent node): its position in the
   * diagram and the node itself, whose ports never change once it is built.
   */
  datatype Handle = Handle(id: nat, node: Node)

  /** The end of a link at the port found on a node, if one was found. */
  function Ref(h: Handle, port: Option<nat>): Option<PortRef> {
    if port.Some? then Some(PortRef(h.id, port.value)) else None
  }

  /** The builder's state: the diagram's nodes and links, and the variable nodes by name. */
  datatype Build = Build(nodes: seq<Node>, links: seq<Link>, variables: map<string, Handle>)

  /** The handle of the node `model.addNode(n)` adds next. */
  function NextHandle(b: Build, n: Node): Handle {
    Handle(|b.nodes|, n)
  }

  function WithNode(b: Build, n: Node): Build {
    b.(nodes := b.nodes + [n])
  }

  function WithLink(b: Build, l: Link): Build {
    b.(links := b.links + [l])
  }

  /** A link made only when both of its ends were found (`if (a && b)`). */
  function LinkIfBoth(b: Build, source: Option<PortRef>, target: Option<PortRef>): Build {
    if source.Some? && target.Some? then WithLink(b, Link(source, target)) else b
  }

  /** The diagram object: its nodes and its links, in the order they were added. */
  class DiagramModel {
    var nodes: seq<Node>
    var links: seq<Link>

    constructor()
      ensures nodes == [] && links == []
    {
      nodes := [];
      links := [];
    }

    /** `model.addNode(n)`; the handle records where the node went. */
    method AddNode(n: Node) returns (h: Handle)
      modifies this
      ensures nodes == old(nodes) + [n] && links == old(links)
      ensures h == Handle(|old(nodes)|, n)
    {
      h := Handle(|nodes|, n);
      nodes := nodes + [n];
    }

    /** `model.addLink(link)`. */
    method AddLink(l: Link)
      modifies this
      ensures links == old(links) + [l] && nodes == old(nodes)
    {
      links := links + [l];
    }
  }

  /** Every entry of `controllers` is a controller node. */
  predicate ControllersOk(controllers: map<int, Handle>) {
    forall k :: k in controllers ==> controllers[k].node.kind.ControllerKind?
  }

  // ----- one parameter value (graph-model.ts:54-190) -----

  /**
   * A variable (graph-model.ts:80-95): the one node of that name, made on
   * first use. One link object serves both directions: when the parent has
   * an In port of the parameter's name it runs from the variable's output to
   * it, and when the parent has an Out port of that name the same object is
   * re-pointed from that port to the variable's input. Added twice, it is
   * still one link, and the second wiring is the one it keeps.
   */
  function VariableStep(b: Build, token: string, name: string, parent: Handle): Build {
    var h := if token in b.variables then b.variables[token] else NextHandle(b, VariableNode(token));
    var b1 := if token in b.variables then b else WithNode(b, VariableNode(token)).(variables := b.variables[token := h]);
    var input := FindPort(parent.node.ports, true, name);
    var output := FindPort(parent.node.ports, false, name);
    if output.Some? then WithLink(b1, Link(Ref(parent, output), Ref(h, VariableInputPort(h.node))))
    else if input.Some? then WithLink(b1, Link(Ref(h, VariableOutputPort(h.node)), Ref(parent, input)))
    else b1
  }

  /**
   * A number or a voltage (graph-model.ts:97-113): a new literal node and,
   * as for a variable, one link object that the Out-port wiring re-points.
   * Its target is then the literal's first In port, which does not exist.
   */
  function PrimitiveStep(b: Build, text: string, name: string, parent: Handle): Build {
    var h := NextHandle(b, PrimitiveNode(text));
    var b1 := WithNode(b, PrimitiveNode(text));
    var input := FindPort(parent.node.ports, true, name);
    var output := FindPort(parent.node.ports, false, name);
    if output.Some? then WithLink(b1, Link(Ref(parent, output), Ref(h, FirstOfDirection(h.node.ports, true))))
    else if input.Some? then WithLink(b1, Link(Ref(h, FirstOfDirection(h.node.ports, false)), Ref(parent, input)))
    else b1
  }

  /** The master port an input links to from the parent: `<token>-in` when normalled, else `<token>`. */
  function MasterInName(token: string, normalized: bool): string {
    if normalized then token + "-in" else token
  }

  /** The master port an input links from to the parent: `<token>-out` when normalled, else `<token>`. */
  function MasterOutName(token: string, normalized: bool): string {
    if normalized then token + "-out" else token
  }

  /**
   * An input or normalled input (graph-model.ts:115-140): the parent's Out
   * port of the parameter's name to the master port, then the master port
   * to the parent's In port of that name, each only when both ports exist.
   */
  function InputStep(b: Build, master: Handle, token: string, normalized: bool, name: string, parent: Handle): Build {
    var b1 := LinkIfBoth(b,
      Ref(parent, FindPort(parent.node.ports, false, name)),
      Ref(master, PortNamed(master.node.ports, MasterInName(token, normalized))));
    LinkIfBoth(b1,
      Ref(master, PortNamed(master.node.ports, MasterOutName(token, normalized))),
      Ref(parent, FindPort(parent.node.ports, true, name)))
  }

  /**
   * A pot or a button (graph-model.ts:142-165): the controller registered
   * under the value's controller number, if any, links its pot or button
   * port to the parent's port of the parameter's name.
   */
  function ControlStep(b: Build, controllers: map<int, Handle>, pot: bool, c: Option<int>, i: Option<int>, name: string, parent: Handle): Build
    requires ControllersOk(controllers)
  {
    if c.None? || c.value !in controllers then b
    else
      var k: int := c.value;
      var h := controllers[k];
      var port := if pot then PotPort(h.node, i) else ButtonPort(h.node, i);
      LinkIfBoth(b, Ref(h, port), Ref(parent, PortNamed(parent.node.ports, name)))
  }

  /** An LED (graph-model.ts:167-180): the parent's port to the controller's LED port. */
  function LedStep(b: Build, controllers: map<int, Handle>, c: Option<int>, i: Option<int>, name: string, parent: Handle): Build
    requires ControllersOk(controllers)
  {
    if c.None? || c.value !in controllers then b
    else
      var k: int := c.value;
      var h := controllers[k];
      LinkIfBoth(b, Ref(parent, PortNamed(parent.node.ports, name)), Ref(h, LedPort(h.node, i)))
  }

  /**
   * An output (graph-model.ts:182-190): when the parent has a port of the
   * parameter's name, a link from it to the master port named by the token,
   * which may not exist.
   */
  function OutputStep(b: Build, master: Handle, token: string, name: string, parent: Handle): Build {
    var parentPort := PortNamed(parent.node.ports, name);
    if parentPort.Some? then WithLink(b, Link(Ref(parent, parentPort), Ref(master, PortNamed(master.node.ports, token))))
    else b
  }

  /** `addParamNode` for a value that is not an expression. */
  function LeafStep(b: Build, master: Handle, controllers: map<int, Handle>, name: string, v: Value, parent: Handle): Build
    requires ControllersOk(controllers)
  {
    match v
    case Variable(t) => VariableStep(b, t, name, parent)
    case Number(t) => PrimitiveStep(b, t, name, parent)
    case Voltage(t, _) => PrimitiveStep(b, t, name, parent)
    case Input(t, _) => InputStep(b, master, t, false, name, parent)
    case InputNormalized(t, _) => InputStep(b, master, t, true, name, parent)
    case Pot(_, c, i) => ControlStep(b, controllers, true, c, i, name, parent)
    case Button(_, c, i) => ControlStep(b, controllers, false, c, i, name, parent)
    case Led(_, c, i) => LedStep(b, controllers, c, i, name, parent)
    case Output(t, _) => OutputStep(b, master, t, name, parent)
  }

  /** The loop over an expression's operands: each non-primitive one is a parameter of the expression node. */
  function OperandsStep(b: Build, master: Handle, controllers: map<int, Handle>, operands: seq<Value>, node: Handle): Build
    requires ControllersOk(controllers)
    decreases |operands|
  {
    if operands == [] then b
    else
      var b1 := OperandsStep(b, master, controllers, operands[..|operands| - 1], node);
      var op := operands[|operands| - 1];
      if op.IsPrimitive() then b1 else LeafStep(b1, master, controllers, op.text, op, node)
  }

  /**
   * An expression (graph-model.ts:55-78): a new expression node, its
   * operands wired to it, then a link from its first Out port to the
   * parent's In port of the parameter's name and a link from the parent's
   * Out port of that name to its first In port, which may not exist.
   */
  function ExpressionStep(b: Build, master: Handle, controllers: map<int, Handle>, name: string, text: string, operands: seq<Value>, parent: Handle): Build
    requires ControllersOk(controllers)
  {
    var h := NextHandle(b, ExpressionNode(text, operands));
    var b1 := OperandsStep(WithNode(b, h.node), master, controllers, operands, h);
    var input := FindPort(parent.node.ports, true, name);
    var output := FindPort(parent.node.ports, false, name);
    var b2 := if input.Some? then WithLink(b1, Link(Ref(h, FirstOfDirection(h.node.ports, false)), Ref(parent, input))) else b1;
    if output.Some? then WithLink(b2, Link(Ref(parent, output), Ref(h, FirstOfDirection(h.node.ports, true)))) else b2
  }

  /** `addParamNode(param, parent)`. */
  function ParamStep(b: Build, master: Handle, controllers: map<int, Handle>, p: Param, parent: Handle): Build
    requires ControllersOk(controllers)
  {
    match p.value
    case Leaf(v) => LeafStep(b, master, controllers, p.name, v, parent)
    case Expression(text, operands) => ExpressionStep(b, master, controllers, p.name, text, operands, parent)
  }

  /** `for (const param of circuit.params) addParamNode(param, circuitNode)`. */
  function ParamsStep(b: Build, master: Handle, controllers: map<int, Handle>, params: seq<Param>, parent: Handle): Build
    requires ControllersOk(controllers)
    decreases |params|
  {
    if params == [] then b
    else ParamStep(ParamsStep(b, master, controllers, params[..|params| - 1], parent), master, controllers, params[|params| - 1], parent)
  }

  // ----- the whole diagram (graph-model.ts:13-52, 193-199) -----

  /** The controller loop: a node per controller, registered under its number. */
  function ControllerNodesStep(b: Build, controllers: map<int, Handle>, cs: seq<Controller>): (Build, map<int, Handle>)
    decreases |cs|
  {
    if cs == [] then (b, controllers)
    else
      var (b1, c1) := ControllerNodesStep(b, controllers, cs[..|cs| - 1]);
      var c := cs[|cs| - 1];
      var n := ControllerNode(c.index, 0, 0);
      (WithNode(b1, n), c1[c.index := NextHandle(b1, n)])
  }

  /** The circuit loop: a node per circuit, in order. */
  function CircuitNodesStep(b: Build, catalog: Catalog, circuits: seq<Circuit>): (Build, seq<Handle>)
    decreases |circuits|
  {
    if circuits == [] then (b, [])
    else
      var (b1, hs) := CircuitNodesStep(b, catalog, circuits[..|circuits| - 1]);
      var n := CircuitNode(catalog, circuits[|circuits| - 1].name);
      (WithNode(b1, n), hs + [NextHandle(b1, n)])
  }

  /** The parameter loop: the `i`-th circuit's parameters wired to the `i`-th circuit node. */
  function CircuitParamsStep(b: Build, master: Handle, controllers: map<int, Handle>, circuits: seq<Circuit>, nodes: seq<Handle>): Build
    requires ControllersOk(controllers)
    requires |nodes| == |circuits|
    decreases |circuits|
  {
    if circuits == [] then b
    else
      var k := |circuits| - 1;
      var b1 := CircuitParamsStep(b, master, controllers, circuits[..k], nodes[..k]);
      ParamsStep(b1, master, controllers, circuits[k].params, nodes[k])
  }

  /** The master node's handle: it is added first. */
  function MasterHandle(): Handle {
    Handle(0, MasterNode())
  }

  /** The diagram `createDroidModel` builds from a parsed patch. */
  function BuildSpec(patch: Patch, catalog: Catalog): Build {
    var b0 := Build([MasterNode()], [], map[]);
    var (b1, controllers) := ControllerNodesStep(b0, map[], patch.controllers);
    ControllerNodesStepOk(b0, map[], patch.controllers);
    var (b2, nodes) := CircuitNodesStep(b1, catalog, patch.circuits);
    CircuitNodesStepShape(b1, catalog, patch.circuits);
    CircuitParamsStep(b2, MasterHandle(), controllers, patch.circuits, nodes)
  }

  /** Every node the controller loop registers is a controller node. */
  lemma {:induction false} ControllerNodesStepOk(b: Build, controllers: map<int, Handle>, cs: seq<Controller>)
    requires ControllersOk(controllers)
    ensures ControllersOk(ControllerNodesStep(b, controllers, cs).1)
    decreases |cs|
  {
    if cs != [] {
      ControllerNodesStepOk(b, controllers, cs[..|cs| - 1]);
    }
  }

  /** The circuit loop adds one node per circuit and returns one handle per circuit. */
  lemma {:induction false} CircuitNodesStepShape(b: Build, catalog: Catalog, circuits: seq<Circuit>)
    ensures var (b1, hs) := CircuitNodesStep(b, catalog, circuits);
      |hs| == |circuits| && |b1.nodes| == |b.nodes| + |circuits| && b1.links == b.links && b1.variables == b.variables &&
      b.nodes <= b1.nodes &&
      forall j :: 0 <= j < |circuits| ==>
        hs[j] == Handle(|b.nodes| + j, CircuitNode(catalog, circuits[j].name)) && b1.nodes[|b.nodes| + j] == hs[j].node
    decreases |circuits|
  {
    if circuits != [] {
      var k := |circuits| - 1;
      CircuitNodesStepShape(b, catalog, circuits[..k]);
    }
  }

  // ----- the builder's methods -----

  /**
   * `addVariable` and the variable branch of `addParamNode`. The one link
   * object is added once when either wiring applies; its ends are those of
   * the last wiring.
   */
  method AddVariableParam(model: DiagramModel, variables: map<string, Handle>, token: string, name: string, parent: Handle)
    returns (variables': map<string, Handle>)
    modifies model
    ensures Build(model.nodes, model.links, variables') ==
      VariableStep(Build(old(model.nodes), old(model.links), variables), token, name, parent)
  {
    var node: Handle;
    variables' := variables;
    if token in variables {
      node := variables[token];
    } else {
      node := model.AddNode(VariableNode(token));
      variables' := variables[token := node];
    }
    var input := FindPort(parent.node.ports, true, name);
    var output := FindPort(parent.node.ports, false, name);
    var link := Link(None, None);
    var added := false;
    if input.Some? {
      link := Link(Ref(node, VariableOutputPort(node.node)), Ref(parent, input));
      added := true;
    }
    if output.Some? {
      link := Link(Ref(parent, output), Ref(node, VariableInputPort(node.node)));
      added := true;
    }
    if added {
      model.AddLink(link);
    }
  }

  /** The number and voltage branch of `addParamNode`, with the same one-link wiring. */
  method AddPrimitiveParam(model: DiagramModel, variables: map<string, Handle>, text: string, name: string, parent: Handle)
    modifies model
    ensures Build(model.nodes, model.links, variables) ==
      PrimitiveStep(Build(old(model.nodes), old(model.links), variables), text, name, parent)
  {
    var node := model.AddNode(PrimitiveNode(text));
    var input := FindPort(parent.node.ports, true, name);
    var output := FindPort(parent.node.ports, false, name);
    var link := Link(None, None);
    var added := false;
    if input.Some? {
      link := Link(Ref(node, FirstOfDirection(node.node.ports, false)), Ref(parent, input));
      added := true;
    }
    if output.Some? {
      link := Link(Ref(parent, output), Ref(node, FirstOfDirection(node.node.ports, true)));
      added := true;
    }
    if added {
      model.AddLink(link);
    }
  }

  /** The input and normalled-input branches of `addParamNode`. */
  method AddInputParam(model: DiagramModel, variables: map<string, Handle>, master: Handle, token: string, normalized: bool, name: string, parent: Handle)
    modifies model
    ensures Build(model.nodes, model.links, variables) ==
      InputStep(Build(old(model.nodes), old(model.links), variables), master, token, normalized, name, parent)
  {
    var parentOut := Ref(parent, FindPort(parent.node.ports, false, name));
    var masterIn := Ref(master, PortNamed(master.node.ports, MasterInName(token, normalized)));
    if masterIn.Some? && parentOut.Some? {
      model.AddLink(Link(parentOut, masterIn));
    }
    var parentIn := Ref(parent, FindPort(parent.node.ports, true, name));
    var masterOut := Ref(master, PortNamed(master.node.ports, MasterOutName(token, normalized)));
    if masterOut.Some? && parentIn.Some? {
      model.AddLink(Link(masterOut, parentIn));
    }
  }

  /** The pot and button branch of `addParamNode`; a missing controller or port only logs. */
  method AddControlParam(model: DiagramModel, variables: map<string, Handle>, controllers: map<int, Handle>, pot: bool, c: Option<int>, i: Option<int>, name: string, parent: Handle)
    requires ControllersOk(controllers)
    modifies model
    ensures Build(model.nodes, model.links, variables) ==
      ControlStep(Build(old(model.nodes), old(model.links), variables), controllers, pot, c, i, name, parent)
  {
    if c.Some? && c.value in controllers {
      var k: int := c.value;
      var controllerNode := controllers[k];
      var controllerPort := if pot then PotPort(controllerNode.node, i) else ButtonPort(controllerNode.node, i);
      var parentPort := PortNamed(parent.node.ports, name);
      if controllerPort.Some? && parentPort.Some? {
        model.AddLink(Link(Ref(controllerNode, controllerPort), Ref(parent, parentPort)));
      }
    }
  }

  /** The LED branch of `addParamNode`. */
  method AddLedParam(model: DiagramModel, variables: map<string, Handle>, controllers: map<int, Handle>, c: Option<int>, i: Option<int>, name: string, parent: Handle)
    requires ControllersOk(controllers)
    modifies model
    ensures Build(model.nodes, model.links, variables) ==
      LedStep(Build(old(model.nodes), old(model.links), variables), controllers, c, i, name, parent)
  {
    if c.Some? && c.value in controllers {
      var k: int := c.value;
      var controllerNode := controllers[k];
      var controllerPort := LedPort(controllerNode.node, i);
      var parentPort := PortNamed(parent.node.ports, name);
      if parentPort.Some? && controllerPort.Some? {
        model.AddLink(Link(Ref(parent, parentPort), Ref(controllerNode, controllerPort)));
      }
    }
  }

  /** The output branch of `addParamNode`. */
  method AddOutputParam(model: DiagramModel, variables: map<string, Handle>, master: Handle, token: string, name: string, parent: Handle)
    modifies model
    ensures Build(model.nodes, model.links, variables) ==
      OutputStep(Build(old(model.nodes), old(model.links), variables), master, token, name, parent)
  {
    var parentPort := PortNamed(parent.node.ports, name);
    if parentPort.Some? {
      model.AddLink(Link(Ref(parent, parentPort), Ref(master, PortNamed(master.node.ports, token))));
    }
  }

  /** `addParamNode(param, parent)`: the branch of the value's kind. */
  method AddParamNode(model: DiagramModel, master: Handle, controllers: map<int, Handle>, variables: map<string, Handle>, param: Param, parent: Handle)
    returns (variables': map<string, Handle>)
    requires ControllersOk(controllers)
    modifies model
    ensures Build(model.nodes, model.links, variables') ==
      ParamStep(Build(old(model.nodes), old(model.links), variables), master, controllers, param, parent)
    decreases if param.value.Expression? then 2 else 0
  {
    variables' := variables;
    match param.value {
      case Expression(text, operands) =>
        variables' := AddExpressionParam(model, master, controllers, variables, param.name, text, operands, parent);
      case Leaf(v) =>
        variables' := AddLeafParam(model, master, controllers, variables, param.name, v, parent);
    }
  }

  /** `addParamNode` for a value that is not an expression: the branch of its kind. */
  method AddLeafParam(model: DiagramModel, master: Handle, controllers: map<int, Handle>, variables: map<string, Handle>,
                      name: string, v: Value, parent: Handle)
    returns (variables': map<string, Handle>)
    requires ControllersOk(controllers)
    modifies model
    ensures Build(model.nodes, model.links, variables') ==
      LeafStep(Build(old(model.nodes), old(model.links), variables), master, controllers, name, v, parent)
  {
    variables' := variables;
    match v {
      case Variable(t) =>
        variables' := AddVariableParam(model, variables, t, name, parent);
      case Number(t) =>
        AddPrimitiveParam(model, variables, t, name, parent);
      case Voltage(t, _) =>
        AddPrimitiveParam(model, variables, t, name, parent);
      case Input(t, _) =>
        AddInputParam(model, variables, master, t, false, name, parent);
      case InputNormalized(t, _) =>
        AddInputParam(model, variables, master, t, true, name, parent);
      case Pot(_, c, i) =>
        AddControlParam(model, variables, controllers, true, c, i, name, parent);
      case Button(_, c, i) =>
        AddControlParam(model, variables, controllers, false, c, i, name, parent);
      case Led(_, c, i) =>
        AddLedParam(model, variables, controllers, c, i, name, parent);
      case Output(t, _) =>
        AddOutputParam(model, variables, master, t, name, parent);
    }
  }

  /**
   * The expression branch of `addParamNode`: the node, then
   * `addParamNode({name: token, value: operand}, node)` for every operand
   * that is not a literal, then the two links to the parent.
   */
  method AddExpressionParam(model: DiagramModel, master: Handle, controllers: map<int, Handle>, variables: map<string, Handle>,
                            name: string, text: string, operands: seq<Value>, parent: Handle)
    returns (variables': map<string, Handle>)
    requires ControllersOk(controllers)
    modifies model
    ensures Build(model.nodes, model.links, variables') ==
      ExpressionStep(Build(old(model.nodes), old(model.links), variables), master, controllers, name, text, operands, parent)
    decreases 1
  {
    variables' := variables;
    ghost var b0 := Build(model.nodes, model.links, variables);
    var exprNode := NewExpressionNode(text, operands);
    var node := model.AddNode(exprNode);
    ghost var b1 := WithNode(b0, exprNode);
    for k := 0 to |operands|
      invariant Build(model.nodes, model.links, variables') == OperandsStep(b1, master, controllers, operands[..k], node)
    {
      assert operands[..k + 1][..k] == operands[..k];
      var sub := operands[k];
      if sub.IsPrimitive() {
        continue;
      }
      variables' := AddParamNode(model, master, controllers, variables', Param(sub.text, Leaf(sub)), node);
    }
    assert operands[..|operands|] == operands;
    var input := FindPort(parent.node.ports, true, name);
    var output := FindPort(parent.node.ports, false, name);
    if input.Some? {
      model.AddLink(Link(Ref(node, FirstOfDirection(exprNode.ports, false)), Ref(parent, input)));
    }
    if output.Some? {
      model.AddLink(Link(Ref(parent, output), Ref(node, FirstOfDirection(exprNode.ports, true))));
    }
  }

  /** The controller loop: a controller node per controller, registered under its index. */
  method AddControllers(model: DiagramModel, cs: seq<Controller>) returns (controllers: map<int, Handle>)
    modifies model
    ensures (Build(model.nodes, model.links, map[]), controllers) ==
      ControllerNodesStep(Build(old(model.nodes), old(model.links), map[]), map[], cs)
  {
    controllers := map[];
    for i := 0 to |cs|
      invariant (Build(model.nodes, model.links, map[]), controllers) ==
        ControllerNodesStep(Build(old(model.nodes), old(model.links), map[]), map[], cs[..i])
    {
      assert cs[..i + 1][..i] == cs[..i];
      var node := NewControllerNode(cs[i].index, 0, 0);
      var h := model.AddNode(node);
      controllers := controllers[cs[i].index := h];
    }
    assert cs[..|cs|] == cs;
  }

  /** The circuit loop: a circuit node per circuit, kept in order. */
  method AddCircuitNodes(model: DiagramModel, catalog: Catalog, circuits: seq<Circuit>) returns (nodes: seq<Handle>)
    modifies model
    ensures (Build(model.nodes, model.links, map[]), nodes) ==
      CircuitNodesStep(Build(old(model.nodes), old(model.links), map[]), catalog, circuits)
  {
    nodes := [];
    for i := 0 to |circuits|
      invariant (Build(model.nodes, model.links, map[]), nodes) ==
        CircuitNodesStep(Build(old(model.nodes), old(model.links), map[]), catalog, circuits[..i])
    {
      assert circuits[..i + 1][..i] == circuits[..i];
      var node := NewCircuitNode(catalog, circuits[i].name);
      var h := model.AddNode(node);
      nodes := nodes + [h];
    }
    assert circuits[..|circuits|] == circuits;
  }

  /** The parameter loop: `addParamNode(param, circuitNode)` for every parameter of every circuit. */
  method AddCircuitParams(model: DiagramModel, master: Handle, controllers: map<int, Handle>, circuits: seq<Circuit>, nodes: seq<Handle>)
    requires ControllersOk(controllers)
    requires |nodes| == |circuits|
    modifies model
    ensures Build(model.nodes, model.links, map[]).nodes ==
      CircuitParamsStep(Build(old(model.nodes), old(model.links), map[]), master, controllers, circuits, nodes).nodes
    ensures model.links ==
      CircuitParamsStep(Build(old(model.nodes), old(model.links), map[]), master, controllers, circuits, nodes).links
  {
    ghost var b := Build(model.nodes, model.links, map[]);
    var variables: map<string, Handle> := map[];
    for i := 0 to |circuits|
      invariant Build(model.nodes, model.links, variables) == CircuitParamsStep(b, master, controllers, circuits[..i], nodes[..i])
    {
      assert circuits[..i + 1][..i] == circuits[..i];
      assert nodes[..i + 1][..i] == nodes[..i];
      var params := circuits[i].params;
      ghost var bi := Build(model.nodes, model.links, variables);
      for j := 0 to |params|
        invariant Build(model.nodes, model.links, variables) == ParamsStep(bi, master, controllers, params[..j], nodes[i])
      {
        assert params[..j + 1][..j] == params[..j];
        variables := AddParamNode(model, master, controllers, variables, params[j], nodes[i]);
      }
      assert params[..|params|] == params;
    }
    assert circuits[..|circuits|] == circuits;
    assert nodes[..|nodes|] == nodes;
  }

  /** The body of `createDroidModel` after parsing: master, controllers, circuits, then every circuit's parameters. */
  method BuildDroidModel(patch: Patch, catalog: Catalog) returns (model: DiagramModel)
    ensures fresh(model)
    ensures model.nodes == BuildSpec(patch, catalog).nodes && model.links == BuildSpec(patch, catalog).links
  {
    var masterNode := NewMasterNode();
    model := new DiagramModel();
    var master := model.AddNode(masterNode);
    ghost var b0 := Build([MasterNode()], [], map[]);
    assert Build(model.nodes, model.links, map[]) == b0 && master == MasterHandle();
    var controllers := AddControllers(model, patch.controllers);
    ghost var b1 := ControllerNodesStep(b0, map[], patch.controllers).0;
    ControllerNodesStepOk(b0, map[], patch.controllers);
    var circuits := AddCircuitNodes(model, catalog, patch.circuits);
    ghost var b2 := CircuitNodesStep(b1, catalog, patch.circuits).0;
    assert Build(model.nodes, model.links, map[]) == b2;
    CircuitNodesStepShape(b1, catalog, patch.circuits);
    AddCircuitParams(model, master, controllers, patch.circuits, circuits);
  }

  /**
   * Why `createDroidModel` throws: the parser throws, or a link is given an
   * `undefined` port, on which the library's `setSourcePort`/`setTargetPort`
   * call `addLink` (graph-model.ts:75, :110 and :187).
   */
  datatype ModelError =
    | ParseFailed(cause: ParseError)
    | UndefinedPort(link: Link)   // the first link wired to an undefined port

  /** A link one of whose ends was set to `undefined`. */
  predicate HasUndefinedEnd(l: Link) {
    l.source.None? || l.target.None?
  }

  /** The position of the first link with an undefined end, if any. */
  function FirstUndefined(links: seq<Link>): (r: Option<nat>)
    ensures r.Some? ==> r.value < |links| && HasUndefinedEnd(links[r.value])
    ensures forall j :: 0 <= j < |links| && (r.None? || j < r.value) ==> !HasUndefinedEnd(links[j])
    decreases |links|
  {
    if links == [] then None
    else if HasUndefinedEnd(links[0]) then Some(0)
    else
      match FirstUndefined(links[1..])
      case None => None
      case Some(i) => Some(i + 1)
  }

  /**
   * `createDroidModel(src)`: parse the text, throwing as the parser does,
   * and build the diagram of the patch.
   */
  method CreateDroidModel(src: string, catalog: Catalog) returns (r: Result<DiagramModel, ModelError>, ghost patch: Patch)
    ensures !ParsesWithoutError(Lines(src)) <==> r.Err? && r.error.ParseFailed?
    ensures |Lines(src)| > 0 && !IsHeader(Lines(src)[0]) ==> r == Err(ParseFailed(TextBeforeHeader(Lines(src)[0])))
    ensures r.Err? && r.error.ParseFailed? && |Lines(src)| > 0 && IsHeader(Lines(src)[0]) ==> r.error.cause.ParamWithoutValue?
    ensures ParsesWithoutError(Lines(src)) ==> PatchOfLines(Lines(src), patch)
    ensures ParsesWithoutError(Lines(src)) ==> |patch.controllers| + |patch.circuits| == HeaderCount(Lines(src))
    ensures ParsesWithoutError(Lines(src)) ==> forall i :: 0 <= i < |patch.controllers| ==> patch.controllers[i].index == i + 1
    ensures ParsesWithoutError(Lines(src)) ==>
      (r.Ok? <==> forall j :: 0 <= j < |BuildSpec(patch, catalog).links| ==> !HasUndefinedEnd(BuildSpec(patch, catalog).links[j]))
    ensures r.Err? && r.error.UndefinedPort? ==>
      r.error.link in BuildSpec(patch, catalog).links && HasUndefinedEnd(r.error.link)
    ensures r.Ok? ==> fresh(r.value)
    ensures r.Ok? ==> r.value.nodes == BuildSpec(patch, catalog).nodes && r.value.links == BuildSpec(patch, catalog).links
  {
    var parsed := ParseDroidPatch(src);
    patch := Patch([], []);
    if parsed.Err? {
      r := Err(ParseFailed(parsed.error));
      return;
    }
    patch := parsed.value;
    var model := BuildDroidModel(parsed.value, catalog);
    var undefinedAt := FirstUndefined(model.links);
    if undefinedAt.Some? {
      r := Err(UndefinedPort(model.links[undefinedAt.value]));
    } else {
      r := Ok(model);
    }
  }
}
