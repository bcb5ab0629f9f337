/**
 * What the diagram `createDroidModel` builds always satisfies: every link
 * end names a port that exists, there is one variable node per variable
 * name, the master, controller and circuit nodes sit where the builder
 * put them, and no link reaches a controller node.
 */
module DiagramFacts {
  import opened Common
  import opened JsString
  import opened PatchParser
  import opened Graph
  import opened GraphModel

  // ----- the invariant -----

  /** The handle names the node at its position. */
  predicate HandleIn(nodes: seq<Node>, h: Handle) {
    h.id < |nodes| && nodes[h.id] == h.node
  }

  /** A link end is missing, or a port of a node of the diagram. */
  predicate EndOk(nodes: seq<Node>, e: Option<PortRef>) {
    e.Some? ==> e.value.node < |nodes| && e.value.port < |nodes[e.value.node].ports|
  }

  /** Every registered controller is in the diagram. */
  predicate ControllersIn(nodes: seq<Node>, controllers: map<int, Handle>) {
    forall k :: k in controllers ==> HandleIn(nodes, controllers[k])
  }

  /**
   * The builder's invariant: the variable memo names exactly the variable
   * nodes, one per name; controller nodes have no ports; every link end
   * exists.
   */
  predicate Wf(b: Build) {
    (forall t :: t in b.variables ==> HandleIn(b.nodes, b.variables[t]) && b.variables[t].node == VariableNode(t)) &&
    (forall k :: 0 <= k < |b.nodes| && b.nodes[k].kind.VariableKind? ==>
      b.nodes[k].kind.name in b.variables && b.variables[b.nodes[k].kind.name].id == k) &&
    (forall k :: 0 <= k < |b.nodes| && b.nodes[k].kind.ControllerKind? ==> b.nodes[k].ports == []) &&
    (forall l :: 0 <= l < |b.links| ==> EndOk(b.nodes, b.links[l].source) && EndOk(b.nodes, b.links[l].target))
  }

  /** A later state: nodes and links only appended, memoised variables kept. */
  predicate Grows(b: Build, r: Build) {
    b.nodes <= r.nodes && b.links <= r.links &&
    forall t :: t in b.variables ==> t in r.variables && r.variables[t] == b.variables[t]
  }

  /** The nodes a parameter step reads are in the diagram. */
  predicate InScope(b: Build, master: Handle, controllers: map<int, Handle>, parent: Handle) {
    HandleIn(b.nodes, master) && HandleIn(b.nodes, parent) && ControllersIn(b.nodes, controllers)
  }

  lemma GrowsTrans(a: Build, b: Build, c: Build)
    requires Grows(a, b) && Grows(b, c)
    ensures Grows(a, c)
  {
  }

  lemma InScopeGrows(b: Build, r: Build, master: Handle, controllers: map<int, Handle>, parent: Handle)
    requires InScope(b, master, controllers, parent) && Grows(b, r)
    ensures InScope(r, master, controllers, parent)
  {
    assert forall k :: 0 <= k < |b.nodes| ==> r.nodes[k] == b.nodes[k];
  }

  /** A found port of a node in the diagram is a valid link end. */
  lemma RefOk(nodes: seq<Node>, h: Handle, port: Option<nat>)
    requires HandleIn(nodes, h) && (port.Some? ==> port.value < |h.node.ports|)
    ensures EndOk(nodes, Ref(h, port))
  {
  }

  /** Adding a node that is neither a variable nor a controller keeps the invariant. */
  lemma WithNodeWf(b: Build, n: Node)
    requires Wf(b) && !n.kind.VariableKind? && !n.kind.ControllerKind?
    ensures Wf(WithNode(b, n)) && Grows(b, WithNode(b, n))
  {
    var r := WithNode(b, n);
    assert forall k :: 0 <= k < |b.nodes| ==> r.nodes[k] == b.nodes[k];
    forall l | 0 <= l < |r.links|
      ensures EndOk(r.nodes, r.links[l].source) && EndOk(r.nodes, r.links[l].target)
    {
      assert EndOk(b.nodes, b.links[l].source) && EndOk(b.nodes, b.links[l].target);
    }
  }

  /** Adding the variable node of a new name and memoising it keeps the invariant. */
  lemma WithVariableWf(b: Build, t: string)
    requires Wf(b) && t !in b.variables
    ensures var h := NextHandle(b, VariableNode(t));
      var r := WithNode(b, VariableNode(t)).(variables := b.variables[t := h]);
      Wf(r) && Grows(b, r)
  {
    var h := NextHandle(b, VariableNode(t));
    var r := WithNode(b, VariableNode(t)).(variables := b.variables[t := h]);
    assert forall k :: 0 <= k < |b.nodes| ==> r.nodes[k] == b.nodes[k];
    forall l | 0 <= l < |r.links|
      ensures EndOk(r.nodes, r.links[l].source) && EndOk(r.nodes, r.links[l].target)
    {
      assert EndOk(b.nodes, b.links[l].source) && EndOk(b.nodes, b.links[l].target);
    }
    forall k | 0 <= k < |r.nodes| && r.nodes[k].kind.VariableKind?
      ensures r.nodes[k].kind.name in r.variables && r.variables[r.nodes[k].kind.name].id == k
    {
      if k < |b.nodes| {
        assert b.nodes[k].kind.name in b.variables;
      }
    }
  }

  /** Adding a link whose ends exist keeps the invariant. */
  lemma WithLinkWf(b: Build, l: Link)
    requires Wf(b) && EndOk(b.nodes, l.source) && EndOk(b.nodes, l.target)
    ensures Wf(WithLink(b, l)) && Grows(b, WithLink(b, l))
  {
  }

  lemma LinkIfBothWf(b: Build, source: Option<PortRef>, target: Option<PortRef>)
    requires Wf(b) && EndOk(b.nodes, source) && EndOk(b.nodes, target)
    ensures Wf(LinkIfBoth(b, source, target)) && Grows(b, LinkIfBoth(b, source, target))
  {
    if source.Some? && target.Some? {
      WithLinkWf(b, Link(source, target));
    }
  }

  // ----- every step keeps the invariant -----

  lemma VariableStepWf(b: Build, token: string, name: string, parent: Handle)
    requires Wf(b) && HandleIn(b.nodes, parent)
    ensures var r := VariableStep(b, token, name, parent); Wf(r) && Grows(b, r)
  {
    var h := if token in b.variables then b.variables[token] else NextHandle(b, VariableNode(token));
    var b1 := if token in b.variables then b else WithNode(b, VariableNode(token)).(variables := b.variables[token := h]);
    if token !in b.variables {
      WithVariableWf(b, token);
    }
    assert Wf(b1) && Grows(b, b1) && HandleIn(b1.nodes, h) && h.node == VariableNode(token);
    assert HandleIn(b1.nodes, parent) by {
      assert b1.nodes[parent.id] == b.nodes[parent.id];
    }
    VariableNodePorts(token);
    var input := FindPort(parent.node.ports, true, name);
    var output := FindPort(parent.node.ports, false, name);
    if output.Some? {
      var l := Link(Ref(parent, output), Ref(h, VariableInputPort(h.node)));
      RefOk(b1.nodes, parent, output);
      RefOk(b1.nodes, h, VariableInputPort(h.node));
      WithLinkWf(b1, l);
    } else if input.Some? {
      var l := Link(Ref(h, VariableOutputPort(h.node)), Ref(parent, input));
      RefOk(b1.nodes, parent, input);
      RefOk(b1.nodes, h, VariableOutputPort(h.node));
      WithLinkWf(b1, l);
    }
  }

  lemma PrimitiveStepWf(b: Build, text: string, name: string, parent: Handle)
    requires Wf(b) && HandleIn(b.nodes, parent)
    ensures var r := PrimitiveStep(b, text, name, parent); Wf(r) && Grows(b, r)
  {
    var n := PrimitiveNode(text);
    var h := NextHandle(b, n);
    var b1 := WithNode(b, n);
    WithNodeWf(b, n);
    assert HandleIn(b1.nodes, parent) by {
      assert b1.nodes[parent.id] == b.nodes[parent.id];
    }
    assert HandleIn(b1.nodes, h);
    var input := FindPort(parent.node.ports, true, name);
    var output := FindPort(parent.node.ports, false, name);
    if output.Some? {
      RefOk(b1.nodes, parent, output);
      RefOk(b1.nodes, h, FirstOfDirection(h.node.ports, true));
      WithLinkWf(b1, Link(Ref(parent, output), Ref(h, FirstOfDirection(h.node.ports, true))));
    } else if input.Some? {
      RefOk(b1.nodes, parent, input);
      RefOk(b1.nodes, h, FirstOfDirection(h.node.ports, false));
      WithLinkWf(b1, Link(Ref(h, FirstOfDirection(h.node.ports, false)), Ref(parent, input)));
    }
  }

  lemma InputStepWf(b: Build, master: Handle, token: string, normalized: bool, name: string, parent: Handle)
    requires Wf(b) && HandleIn(b.nodes, master) && HandleIn(b.nodes, parent)
    ensures var r := InputStep(b, master, token, normalized, name, parent); Wf(r) && Grows(b, r)
  {
    var out := FindPort(parent.node.ports, false, name);
    var masterIn := PortNamed(master.node.ports, MasterInName(token, normalized));
    RefOk(b.nodes, parent, out);
    RefOk(b.nodes, master, masterIn);
    LinkIfBothWf(b, Ref(parent, out), Ref(master, masterIn));
    var b1 := LinkIfBoth(b, Ref(parent, out), Ref(master, masterIn));
    var masterOut := PortNamed(master.node.ports, MasterOutName(token, normalized));
    var input := FindPort(parent.node.ports, true, name);
    RefOk(b1.nodes, master, masterOut);
    RefOk(b1.nodes, parent, input);
    LinkIfBothWf(b1, Ref(master, masterOut), Ref(parent, input));
  }

  lemma ControlStepWf(b: Build, controllers: map<int, Handle>, pot: bool, c: Option<int>, i: Option<int>, name: string, parent: Handle)
    requires ControllersOk(controllers)
    requires Wf(b) && HandleIn(b.nodes, parent) && ControllersIn(b.nodes, controllers)
    ensures var r := ControlStep(b, controllers, pot, c, i, name, parent); Wf(r) && Grows(b, r)
  {
    if c.Some? && c.value in controllers {
      var k: int := c.value;
      var h := controllers[k];
      var port := if pot then PotPort(h.node, i) else ButtonPort(h.node, i);
      var parentPort := PortNamed(parent.node.ports, name);
      RefOk(b.nodes, h, port);
      RefOk(b.nodes, parent, parentPort);
      LinkIfBothWf(b, Ref(h, port), Ref(parent, parentPort));
    }
  }

  lemma LedStepWf(b: Build, controllers: map<int, Handle>, c: Option<int>, i: Option<int>, name: string, parent: Handle)
    requires ControllersOk(controllers)
    requires Wf(b) && HandleIn(b.nodes, parent) && ControllersIn(b.nodes, controllers)
    ensures var r := LedStep(b, controllers, c, i, name, parent); Wf(r) && Grows(b, r)
  {
    if c.Some? && c.value in controllers {
      var k: int := c.value;
      var h := controllers[k];
      var parentPort := PortNamed(parent.node.ports, name);
      RefOk(b.nodes, h, LedPort(h.node, i));
      RefOk(b.nodes, parent, parentPort);
      LinkIfBothWf(b, Ref(parent, parentPort), Ref(h, LedPort(h.node, i)));
    }
  }

  lemma OutputStepWf(b: Build, master: Handle, token: string, name: string, parent: Handle)
    requires Wf(b) && HandleIn(b.nodes, master) && HandleIn(b.nodes, parent)
    ensures var r := OutputStep(b, master, token, name, parent); Wf(r) && Grows(b, r)
  {
    var parentPort := PortNamed(parent.node.ports, name);
    if parentPort.Some? {
      RefOk(b.nodes, parent, parentPort);
      RefOk(b.nodes, master, PortNamed(master.node.ports, token));
      WithLinkWf(b, Link(Ref(parent, parentPort), Ref(master, PortNamed(master.node.ports, token))));
    }
  }

  lemma LeafStepWf(b: Build, master: Handle, controllers: map<int, Handle>, name: string, v: Value, parent: Handle)
    requires ControllersOk(controllers)
    requires Wf(b) && InScope(b, master, controllers, parent)
    ensures var r := LeafStep(b, master, controllers, name, v, parent); Wf(r) && Grows(b, r)
  {
    match v
    case Variable(t) => VariableStepWf(b, t, name, parent);
    case Number(t) => PrimitiveStepWf(b, t, name, parent);
    case Voltage(t, _) => PrimitiveStepWf(b, t, name, parent);
    case Input(t, _) => InputStepWf(b, master, t, false, name, parent);
    case InputNormalized(t, _) => InputStepWf(b, master, t, true, name, parent);
    case Pot(_, c, i) => ControlStepWf(b, controllers, true, c, i, name, parent);
    case Button(_, c, i) => ControlStepWf(b, controllers, false, c, i, name, parent);
    case Led(_, c, i) => LedStepWf(b, controllers, c, i, name, parent);
    case Output(t, _) => OutputStepWf(b, master, t, name, parent);
  }

  lemma {:induction false} OperandsStepWf(b: Build, master: Handle, controllers: map<int, Handle>, operands: seq<Value>, node: Handle)
    requires ControllersOk(controllers)
    requires Wf(b) && InScope(b, master, controllers, node)
    ensures var r := OperandsStep(b, master, controllers, operands, node); Wf(r) && Grows(b, r)
    decreases |operands|
  {
    if operands != [] {
      var init := operands[..|operands| - 1];
      OperandsStepWf(b, master, controllers, init, node);
      var b1 := OperandsStep(b, master, controllers, init, node);
      var op := operands[|operands| - 1];
      if !op.IsPrimitive() {
        InScopeGrows(b, b1, master, controllers, node);
        LeafStepWf(b1, master, controllers, op.text, op, node);
        GrowsTrans(b, b1, LeafStep(b1, master, controllers, op.text, op, node));
      }
    }
  }

  /** In a well-formed diagram the expression's node is the one at the old length. */
  lemma ExpressionNodePlaced(b: Build, master: Handle, controllers: map<int, Handle>, name: string, text: string, operands: seq<Value>, parent: Handle)
    requires ControllersOk(controllers)
    requires Wf(b) && InScope(b, master, controllers, parent)
    ensures var r := ExpressionStep(b, master, controllers, name, text, operands, parent);
      |r.nodes| > |b.nodes| && r.nodes[|b.nodes|] == ExpressionNode(text, operands)
  {
    var h := NextHandle(b, ExpressionNode(text, operands));
    var b0 := WithNode(b, h.node);
    WithNodeWf(b, h.node);
    InScopeGrows(b, b0, master, controllers, parent);
    OperandsStepWf(b0, master, controllers, operands, h);
  }

  lemma ExpressionStepWf(b: Build, master: Handle, controllers: map<int, Handle>, name: string, text: string, operands: seq<Value>, parent: Handle)
    requires ControllersOk(controllers)
    requires Wf(b) && InScope(b, master, controllers, parent)
    ensures var r := ExpressionStep(b, master, controllers, name, text, operands, parent); Wf(r) && Grows(b, r)
  {
    var h := NextHandle(b, ExpressionNode(text, operands));
    var b0 := WithNode(b, h.node);
    WithNodeWf(b, h.node);
    InScopeGrows(b, b0, master, controllers, parent);
    assert InScope(b0, master, controllers, h);
    OperandsStepWf(b0, master, controllers, operands, h);
    var b1 := OperandsStep(b0, master, controllers, operands, h);
    GrowsTrans(b, b0, b1);
    InScopeGrows(b0, b1, master, controllers, parent);
    InScopeGrows(b0, b1, master, controllers, h);
    var input := FindPort(parent.node.ports, true, name);
    var output := FindPort(parent.node.ports, false, name);
    var b2 := b1;
    if input.Some? {
      RefOk(b1.nodes, h, FirstOfDirection(h.node.ports, false));
      RefOk(b1.nodes, parent, input);
      b2 := WithLink(b1, Link(Ref(h, FirstOfDirection(h.node.ports, false)), Ref(parent, input)));
      WithLinkWf(b1, Link(Ref(h, FirstOfDirection(h.node.ports, false)), Ref(parent, input)));
      GrowsTrans(b, b1, b2);
    }
    if output.Some? {
      RefOk(b2.nodes, parent, output);
      RefOk(b2.nodes, h, FirstOfDirection(h.node.ports, true));
      WithLinkWf(b2, Link(Ref(parent, output), Ref(h, FirstOfDirection(h.node.ports, true))));
      GrowsTrans(b, b2, WithLink(b2, Link(Ref(parent, output), Ref(h, FirstOfDirection(h.node.ports, true)))));
    }
  }

  lemma ParamStepWf(b: Build, master: Handle, controllers: map<int, Handle>, p: Param, parent: Handle)
    requires ControllersOk(controllers)
    requires Wf(b) && InScope(b, master, controllers, parent)
    ensures var r := ParamStep(b, master, controllers, p, parent); Wf(r) && Grows(b, r)
  {
    match p.value
    case Leaf(v) => LeafStepWf(b, master, controllers, p.name, v, parent);
    case Expression(text, operands) => ExpressionStepWf(b, master, controllers, p.name, text, operands, parent);
  }

  lemma {:induction false} ParamsStepWf(b: Build, master: Handle, controllers: map<int, Handle>, params: seq<Param>, parent: Handle)
    requires ControllersOk(controllers)
    requires Wf(b) && InScope(b, master, controllers, parent)
    ensures var r := ParamsStep(b, master, controllers, params, parent); Wf(r) && Grows(b, r)
    decreases |params|
  {
    if params != [] {
      var init := params[..|params| - 1];
      ParamsStepWf(b, master, controllers, init, parent);
      var b1 := ParamsStep(b, master, controllers, init, parent);
      InScopeGrows(b, b1, master, controllers, parent);
      ParamStepWf(b1, master, controllers, params[|params| - 1], parent);
      GrowsTrans(b, b1, ParamStep(b1, master, controllers, params[|params| - 1], parent));
    }
  }

  lemma {:induction false} CircuitParamsStepWf(b: Build, master: Handle, controllers: map<int, Handle>, circuits: seq<Circuit>, nodes: seq<Handle>)
    requires ControllersOk(controllers)
    requires |nodes| == |circuits|
    requires Wf(b) && HandleIn(b.nodes, master) && ControllersIn(b.nodes, controllers)
    requires forall j :: 0 <= j < |nodes| ==> HandleIn(b.nodes, nodes[j])
    ensures var r := CircuitParamsStep(b, master, controllers, circuits, nodes); Wf(r) && Grows(b, r)
    decreases |circuits|
  {
    if circuits != [] {
      var k := |circuits| - 1;
      CircuitParamsStepWf(b, master, controllers, circuits[..k], nodes[..k]);
      var b1 := CircuitParamsStep(b, master, controllers, circuits[..k], nodes[..k]);
      assert InScope(b, master, controllers, nodes[k]);
      InScopeGrows(b, b1, master, controllers, nodes[k]);
      ParamsStepWf(b1, master, controllers, circuits[k].params, nodes[k]);
      GrowsTrans(b, b1, ParamsStep(b1, master, controllers, circuits[k].params, nodes[k]));
    }
  }

  // ----- the controller loop -----

  /** A controller node built without pot or button counts has no ports. */
  lemma PortlessController(index: nat)
    ensures ControllerNode(index, 0, 0).ports == []
  {
    assert |ControllerNode(index, 0, 0).ports| == 0;
  }

  /**
   * The controller loop appends one portless controller node per
   * declaration and registers, under each number, the last node made for
   * it.
   */
  lemma ControllerNodesStepShape(b: Build, cs: seq<Controller>)
    ensures var (r, c) := ControllerNodesStep(b, map[], cs);
      |r.nodes| == |b.nodes| + |cs| && b.nodes <= r.nodes && r.links == b.links && r.variables == b.variables &&
      (forall i :: 0 <= i < |cs| ==> r.nodes[|b.nodes| + i] == ControllerNode(cs[i].index, 0, 0)) &&
      (forall k :: k in c ==> k >= 0 && HandleIn(r.nodes, c[k]) && c[k].node == ControllerNode(k, 0, 0))
  {
    ControllerNodesLayout(b, cs);
    ControllerTable(b, cs);
  }

  /** The nodes the controller loop appends: one controller node per declaration, in order. */
  lemma {:induction false} ControllerNodesLayout(b: Build, cs: seq<Controller>)
    ensures var r := ControllerNodesStep(b, map[], cs).0;
      |r.nodes| == |b.nodes| + |cs| && b.nodes <= r.nodes && r.links == b.links && r.variables == b.variables &&
      (forall i :: 0 <= i < |cs| ==> r.nodes[|b.nodes| + i] == ControllerNode(cs[i].index, 0, 0))
    decreases |cs|
  {
    if cs != [] {
      var n := |cs| - 1;
      ControllerNodesLayout(b, cs[..n]);
      var r1 := ControllerNodesStep(b, map[], cs[..n]).0;
      var r := ControllerNodesStep(b, map[], cs).0;
      assert r.nodes == r1.nodes + [ControllerNode(cs[n].index, 0, 0)];
    }
  }

  /** The table the controller loop fills: each number maps to a node of the diagram made for that number. */
  lemma {:induction false} ControllerTable(b: Build, cs: seq<Controller>)
    ensures var (r, c) := ControllerNodesStep(b, map[], cs);
      forall k :: k in c ==> k >= 0 && HandleIn(r.nodes, c[k]) && c[k].node == ControllerNode(k, 0, 0)
    decreases |cs|
  {
    if cs != [] {
      var n := |cs| - 1;
      ControllerTable(b, cs[..n]);
      ControllerNodesLayout(b, cs[..n]);
      var (r1, c1) := ControllerNodesStep(b, map[], cs[..n]);
      var (r, c) := ControllerNodesStep(b, map[], cs);
      assert r.nodes == r1.nodes + [ControllerNode(cs[n].index, 0, 0)];
      forall k | k in c
        ensures k >= 0 && HandleIn(r.nodes, c[k]) && c[k].node == ControllerNode(k, 0, 0)
      {
        if k != cs[n].index {
          assert c[k] == c1[k];
        }
      }
    }
  }

  /**
   * With the numbers the parser assigns (1, 2, ...), the controller table
   * maps exactly 1..N, number `k` to the `k`-th controller node.
   */
  lemma {:induction false} ControllersOfParsedPatch(b: Build, cs: seq<Controller>)
    requires forall i :: 0 <= i < |cs| ==> cs[i].index == i + 1
    ensures ControllerNodesStep(b, map[], cs).1 == map k | 1 <= k <= |cs| :: Handle(|b.nodes| + k - 1, ControllerNode(k, 0, 0))
    decreases |cs|
  {
    if cs != [] {
      var n := |cs| - 1;
      ControllersOfParsedPatch(b, cs[..n]);
      ControllerNodesLayout(b, cs[..n]);
      NumberedTableExtend(|b.nodes|, n);
    }
  }

  /** The table of controllers numbered 1..n whose nodes start at `base`, grown by number n+1. */
  lemma NumberedTableExtend(base: nat, n: nat)
    ensures (map k | 1 <= k <= n :: Handle(base + k - 1, ControllerNode(k, 0, 0)))[n + 1 := Handle(base + n, ControllerNode(n + 1, 0, 0))]
      == map k | 1 <= k <= n + 1 :: Handle(base + k - 1, ControllerNode(k, 0, 0))
  {
  }

  // ----- the whole diagram -----

  /** Adding a portless controller node keeps the invariant. */
  lemma WithControllerWf(b: Build, n: Node)
    requires Wf(b) && n.kind.ControllerKind? && n.ports == []
    ensures Wf(WithNode(b, n)) && Grows(b, WithNode(b, n))
  {
    var r := WithNode(b, n);
    assert forall k :: 0 <= k < |b.nodes| ==> r.nodes[k] == b.nodes[k];
    forall l | 0 <= l < |r.links|
      ensures EndOk(r.nodes, r.links[l].source) && EndOk(r.nodes, r.links[l].target)
    {
      assert EndOk(b.nodes, b.links[l].source) && EndOk(b.nodes, b.links[l].target);
    }
  }

  /** The controller loop keeps the invariant. */
  lemma {:induction false} ControllerNodesStepWf(b: Build, cs: seq<Controller>)
    requires Wf(b)
    ensures Wf(ControllerNodesStep(b, map[], cs).0)
    decreases |cs|
  {
    if cs != [] {
      var n := |cs| - 1;
      ControllerNodesStepWf(b, cs[..n]);
      PortlessController(cs[n].index);
      WithControllerWf(ControllerNodesStep(b, map[], cs[..n]).0, ControllerNode(cs[n].index, 0, 0));
    }
  }

  /** The diagram holding only the master node keeps the invariant. */
  lemma InitialWf()
    ensures Wf(Build([MasterNode()], [], map[]))
  {
    assert MasterNode().kind == MasterKind;
  }

  /** After the controller loop: the start, then one portless controller node per declaration. */
  lemma ControllerStage(b0: Build, cs: seq<Controller>)
    requires Wf(b0)
    ensures var (b1, c) := ControllerNodesStep(b0, map[], cs);
      Wf(b1) && ControllersOk(c) && ControllersIn(b1.nodes, c) &&
      |b1.nodes| == |b0.nodes| + |cs| && b0.nodes <= b1.nodes &&
      forall i :: 0 <= i < |cs| ==> b1.nodes[|b0.nodes| + i] == ControllerNode(cs[i].index, 0, 0)
  {
    ControllerNodesStepShape(b0, cs);
    ControllerNodesStepOk(b0, map[], cs);
    ControllerNodesStepWf(b0, cs);
  }

  /** After the circuit loop: one circuit node per block, appended; the invariant kept. */
  lemma CircuitStage(b1: Build, catalog: Catalog, circuits: seq<Circuit>)
    requires Wf(b1)
    ensures var (b2, hs) := CircuitNodesStep(b1, catalog, circuits);
      Wf(b2) && Grows(b1, b2) && |hs| == |circuits| && |b2.nodes| == |b1.nodes| + |circuits| &&
      (forall j :: 0 <= j < |hs| ==> HandleIn(b2.nodes, hs[j])) &&
      forall j :: 0 <= j < |circuits| ==> b2.nodes[|b1.nodes| + j] == CircuitNode(catalog, circuits[j].name)
  {
    var (b2, hs) := CircuitNodesStep(b1, catalog, circuits);
    CircuitNodesStepShape(b1, catalog, circuits);
    assert b1.nodes <= b2.nodes;
    forall k | 0 <= k < |b2.nodes|
      ensures b2.nodes[k].kind.VariableKind? ==> b2.nodes[k].kind.name in b2.variables && b2.variables[b2.nodes[k].kind.name].id == k
      ensures b2.nodes[k].kind.ControllerKind? ==> b2.nodes[k].ports == []
    {
      if k >= |b1.nodes| {
        assert b2.nodes[|b1.nodes| + (k - |b1.nodes|)] == CircuitNode(catalog, circuits[k - |b1.nodes|].name);
      } else {
        assert b2.nodes[k] == b1.nodes[k];
      }
    }
    forall l | 0 <= l < |b2.links|
      ensures EndOk(b2.nodes, b2.links[l].source) && EndOk(b2.nodes, b2.links[l].target)
    {
      assert EndOk(b1.nodes, b1.links[l].source) && EndOk(b1.nodes, b1.links[l].target);
    }
  }

  /**
   * The built diagram keeps the invariant, and its first nodes are the
   * master, then one controller node per declaration, then one circuit node
   * per circuit block, in patch order.
   */
  lemma BuildSpecShape(patch: Patch, catalog: Catalog)
    ensures var r := BuildSpec(patch, catalog);
      var nc := |patch.controllers|;
      Wf(r) && |r.nodes| >= 1 + nc + |patch.circuits| &&
      r.nodes[0] == MasterNode() &&
      (forall i :: 0 <= i < nc ==> r.nodes[1 + i] == ControllerNode(patch.controllers[i].index, 0, 0)) &&
      (forall j :: 0 <= j < |patch.circuits| ==> r.nodes[1 + nc + j] == CircuitNode(catalog, patch.circuits[j].name))
  {
    var b0 := Build([MasterNode()], [], map[]);
    InitialWf();
    FrontStages(b0, MasterHandle(), patch, catalog);
    var (b1, controllers) := ControllerNodesStep(b0, map[], patch.controllers);
    var (b2, nodes) := CircuitNodesStep(b1, catalog, patch.circuits);
    CircuitParamsStepWf(b2, MasterHandle(), controllers, patch.circuits, nodes);
    var r := CircuitParamsStep(b2, MasterHandle(), controllers, patch.circuits, nodes);
    assert r == BuildSpec(patch, catalog);
    assert b2.nodes <= r.nodes;
    assert r.nodes[0] == b0.nodes[0];
  }

  /** The controller and circuit loops, from any well-formed start that holds the master. */
  lemma FrontStages(b0: Build, master: Handle, patch: Patch, catalog: Catalog)
    requires Wf(b0) && HandleIn(b0.nodes, master)
    ensures var (b1, controllers) := ControllerNodesStep(b0, map[], patch.controllers);
      var (b2, nodes) := CircuitNodesStep(b1, catalog, patch.circuits);
      var nc := |patch.controllers|;
      ControllersOk(controllers) && |nodes| == |patch.circuits| &&
      Wf(b2) && HandleIn(b2.nodes, master) && ControllersIn(b2.nodes, controllers) &&
      (forall j :: 0 <= j < |nodes| ==> HandleIn(b2.nodes, nodes[j])) &&
      b0.nodes <= b2.nodes && |b2.nodes| == |b0.nodes| + nc + |patch.circuits| &&
      (forall i :: 0 <= i < nc ==> b2.nodes[|b0.nodes| + i] == ControllerNode(patch.controllers[i].index, 0, 0)) &&
      (forall j :: 0 <= j < |patch.circuits| ==> b2.nodes[|b0.nodes| + nc + j] == CircuitNode(catalog, patch.circuits[j].name))
  {
    var (b1, controllers) := ControllerNodesStep(b0, map[], patch.controllers);
    ControllerStage(b0, patch.controllers);
    var (b2, nodes) := CircuitNodesStep(b1, catalog, patch.circuits);
    CircuitStage(b1, catalog, patch.circuits);
    assert InScope(b1, master, controllers, master);
    InScopeGrows(b1, b2, master, controllers, master);
    assert b1.nodes <= b2.nodes;
  }

  /** Two uses of a variable name, anywhere in the patch, share one node. */
  lemma BuiltVariablesUnique(patch: Patch, catalog: Catalog, k1: nat, k2: nat)
    requires var r := BuildSpec(patch, catalog);
      k1 < |r.nodes| && k2 < |r.nodes| && r.nodes[k1].kind.VariableKind? && r.nodes[k1].kind == r.nodes[k2].kind
    ensures k1 == k2
  {
    BuildSpecShape(patch, catalog);
  }

  /**
   * Every link end of the built diagram is missing or a port that exists,
   * and none is on a controller node: a controller node gets no ports, so
   * no pot, button or LED parameter is ever wired.
   */
  lemma BuiltLinkEnds(patch: Patch, catalog: Catalog, l: nat)
    requires l < |BuildSpec(patch, catalog).links|
    ensures var r := BuildSpec(patch, catalog);
      EndOk(r.nodes, r.links[l].source) && EndOk(r.nodes, r.links[l].target) &&
      (r.links[l].source.Some? ==> !r.nodes[r.links[l].source.value.node].kind.ControllerKind?) &&
      (r.links[l].target.Some? ==> !r.nodes[r.links[l].target.value.node].kind.ControllerKind?)
  {
    BuildSpecShape(patch, catalog);
  }
}
