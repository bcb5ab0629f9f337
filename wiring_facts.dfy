/**
 * How each kind of parameter value is wired: which nodes it adds and which
 * ports its links join, with the port lookups of `graph.ts` resolved.
 */
module WiringFacts {
  import opened Common
  import opened JsString
  import opened PatchParser
  import opened Graph
  import opened GraphModel

  /**
   * A variable: the first use of a name adds its node, later uses reuse it.
   * When the parent has an Out port of the parameter's name the one link
   * runs from it to the variable's `set` port; otherwise, when the parent
   * has an In port of that name, from the variable's `get` port to it.
   */
  lemma VariableWiring(b: Build, token: string, name: string, parent: Handle)
    requires token in b.variables ==> b.variables[token].node == VariableNode(token)
    ensures var r := VariableStep(b, token, name, parent);
      var input := FindPort(parent.node.ports, true, name);
      var output := FindPort(parent.node.ports, false, name);
      token in r.variables && r.variables[token].node == VariableNode(token) &&
      (token in b.variables ==> r.nodes == b.nodes && r.variables == b.variables) &&
      (token !in b.variables ==>
        r.nodes == b.nodes + [VariableNode(token)] && r.variables == b.variables[token := Handle(|b.nodes|, VariableNode(token))]) &&
      var id := r.variables[token].id;
      r.links ==
        if output.Some? then b.links + [Link(Some(PortRef(parent.id, output.value)), Some(PortRef(id, 0)))]
        else if input.Some? then b.links + [Link(Some(PortRef(id, 1)), Some(PortRef(parent.id, input.value)))]
        else b.links
  {
    VariableNodePorts(token);
  }

  /** Two uses of one variable name add one node between them. */
  lemma VariableMemo(b: Build, token: string, name1: string, parent1: Handle, name2: string, parent2: Handle)
    requires token in b.variables ==> b.variables[token].node == VariableNode(token)
    ensures var r1 := VariableStep(b, token, name1, parent1);
      var r2 := VariableStep(r1, token, name2, parent2);
      |r2.nodes| == |b.nodes| + (if token in b.variables then 0 else 1) &&
      r2.variables[token] == r1.variables[token]
  {
    VariableWiring(b, token, name1, parent1);
    var r1 := VariableStep(b, token, name1, parent1);
    VariableWiring(r1, token, name2, parent2);
  }

  /**
   * A number or a voltage adds one literal node. Wired from the parent's Out
   * port, its link has no target, because a literal has no In port; wired
   * to the parent's In port, it runs from the literal's `get`.
   */
  lemma PrimitiveWiring(b: Build, text: string, name: string, parent: Handle)
    ensures var r := PrimitiveStep(b, text, name, parent);
      var input := FindPort(parent.node.ports, true, name);
      var output := FindPort(parent.node.ports, false, name);
      r.nodes == b.nodes + [PrimitiveNode(text)] && r.variables == b.variables &&
      r.links ==
        if output.Some? then b.links + [Link(Some(PortRef(parent.id, output.value)), None)]
        else if input.Some? then b.links + [Link(Some(PortRef(|b.nodes|, 0)), Some(PortRef(parent.id, input.value)))]
        else b.links
  {
    PrimitiveNodePorts(text);
  }

  /**
   * A normalled input `N<k>`, k in 1..8: the parent's Out port to the
   * master's `N<k>-in` (port k-1), then the master's `N<k>-out` (port 7+k)
   * to the parent's In port, each when the parent has that port.
   */
  lemma NormalledInputWiring(b: Build, k: nat, name: string, parent: Handle)
    requires 1 <= k <= 8
    ensures var out := FindPort(parent.node.ports, false, name);
      var input := FindPort(parent.node.ports, true, name);
      InputStep(b, MasterHandle(), "N" + NatStr(k), true, name, parent) ==
        LinkIfBoth(LinkIfBoth(b, Ref(parent, out), Some(PortRef(0, k - 1))), Some(PortRef(0, 7 + k)), Ref(parent, input))
  {
    MasterLookups(k);
  }

  /**
   * An input `I<k>`, k in 1..8: both links use the master's port `I<k>`
   * (port 15+k), an Out port; so the first, from the parent's Out port,
   * ends at an Out port.
   */
  lemma InputWiring(b: Build, k: nat, name: string, parent: Handle)
    requires 1 <= k <= 8
    ensures var out := FindPort(parent.node.ports, false, name);
      var input := FindPort(parent.node.ports, true, name);
      InputStep(b, MasterHandle(), "I" + NatStr(k), false, name, parent) ==
        LinkIfBoth(LinkIfBoth(b, Ref(parent, out), Some(PortRef(0, 15 + k))), Some(PortRef(0, 15 + k)), Ref(parent, input)) &&
      !MasterHandle().node.ports[15 + k].isIn
  {
    MasterLookups(k);
  }

  /** An output `O<k>`, k in 1..8: the parent's port of that name to the master's In port `O<k>` (port 23+k). */
  lemma OutputWiring(b: Build, k: nat, name: string, parent: Handle)
    requires 1 <= k <= 8
    ensures var p := PortNamed(parent.node.ports, name);
      OutputStep(b, MasterHandle(), "O" + NatStr(k), name, parent) ==
        if p.Some? then WithLink(b, Link(Some(PortRef(parent.id, p.value)), Some(PortRef(0, 23 + k)))) else b
  {
    MasterLookups(k);
  }

  /**
   * An output token that names no master port (`O9`, say): when the parent
   * has the port, the link gets an undefined target, so `createDroidModel` throws.
   */
  lemma OutputToMissingPort(b: Build, token: string, name: string, parent: Handle)
    requires PortNamed(MasterPorts(), token).None?
    requires PortNamed(parent.node.ports, name).Some?
    ensures var r := OutputStep(b, MasterHandle(), token, name, parent);
      r.nodes == b.nodes && |r.links| == |b.links| + 1 && r.links[..|b.links|] == b.links &&
      r.links[|b.links|] == Link(Some(PortRef(parent.id, PortNamed(parent.node.ports, name).value)), None) &&
      HasUndefinedEnd(r.links[|b.links|])
  {
  }

  /**
   * The tokens `N<k>`, `I<k>` and `O<k>` of a parameter line, read by the
   * parser and wired by the builder, reach the master ports of number k.
   */
  lemma MasterTokenWiring(b: Build, controllers: map<int, Handle>, letter: char, k: nat, name: string, parent: Handle)
    requires ControllersOk(controllers)
    requires letter == 'N' || letter == 'I' || letter == 'O'
    requires 1 <= k <= 8
    ensures var t := [letter] + NatStr(k);
      var r := LeafStep(b, MasterHandle(), controllers, name, ParseValue(t), parent);
      var out := FindPort(parent.node.ports, false, name);
      var input := FindPort(parent.node.ports, true, name);
      var p := PortNamed(parent.node.ports, name);
      r == if letter == 'N' then
             LinkIfBoth(LinkIfBoth(b, Ref(parent, out), Some(PortRef(0, k - 1))), Some(PortRef(0, 7 + k)), Ref(parent, input))
           else if letter == 'I' then
             LinkIfBoth(LinkIfBoth(b, Ref(parent, out), Some(PortRef(0, 15 + k))), Some(PortRef(0, 15 + k)), Ref(parent, input))
           else if p.Some? then WithLink(b, Link(Some(PortRef(parent.id, p.value)), Some(PortRef(0, 23 + k))))
           else b
  {
    IndexedLeaf(b, MasterHandle(), controllers, letter, k, name, parent);
    if letter == 'N' {
      NormalledInputWiring(b, k, name, parent);
    } else if letter == 'I' {
      InputWiring(b, k, name, parent);
    } else {
      OutputWiring(b, k, name, parent);
    }
  }

  /** The parsed token `N<k>`, `I<k>` or `O<k>` selects the normalled-input, input or output step. */
  lemma IndexedLeaf(b: Build, master: Handle, controllers: map<int, Handle>, letter: char, k: nat, name: string, parent: Handle)
    requires ControllersOk(controllers)
    requires letter == 'N' || letter == 'I' || letter == 'O'
    ensures var t := [letter] + NatStr(k);
      LeafStep(b, master, controllers, name, ParseValue(t), parent) ==
        if letter == 'N' then InputStep(b, master, "N" + NatStr(k), true, name, parent)
        else if letter == 'I' then InputStep(b, master, "I" + NatStr(k), false, name, parent)
        else OutputStep(b, master, "O" + NatStr(k), name, parent)
  {
    var t := [letter] + NatStr(k);
    IndexRoundTrip(letter, k);
    IndexedLeafStep(b, master, controllers, name, ParseValue(t), parent);
    assert t == [letter] + NatStr(k) == (if letter == 'N' then "N" else if letter == 'I' then "I" else "O") + NatStr(k);
  }

  lemma IndexedLeafStep(b: Build, master: Handle, controllers: map<int, Handle>, name: string, v: Value, parent: Handle)
    requires ControllersOk(controllers)
    requires v.InputNormalized? || v.Input? || v.Output?
    ensures LeafStep(b, master, controllers, name, v, parent) ==
      if v.InputNormalized? then InputStep(b, master, v.text, true, name, parent)
      else if v.Input? then InputStep(b, master, v.text, false, name, parent)
      else OutputStep(b, master, v.text, name, parent)
  {
  }

  /**
   * Pots, buttons and LEDs: when every registered controller node has no
   * ports, as the builder makes them, such a parameter changes nothing.
   */
  lemma ControlUnwired(b: Build, controllers: map<int, Handle>, v: Value, name: string, parent: Handle, master: Handle)
    requires ControllersOk(controllers)
    requires forall k :: k in controllers ==> controllers[k].node.ports == []
    requires v.Pot? || v.Button? || v.Led?
    ensures LeafStep(b, master, controllers, name, v, parent) == b
  {
    if v.controller.Some? && v.controller.value in controllers {
      var k: int := v.controller.value;
      assert controllers[k].node.ports == [];
    }
  }

  /**
   * A pot `P<c>.<i>` whose controller node has `pots` pots and `buttons`
   * buttons: with 1 <= i <= pots, the link runs from the controller's port
   * 2*buttons+i-1, the pot `P<c>.<i>`, to the parent's port of the
   * parameter's name; otherwise there is none.
   */
  lemma PotWiring(b: Build, controllers: map<int, Handle>, c: nat, pots: nat, buttons: nat, i: Option<int>, name: string, parent: Handle)
    requires ControllersOk(controllers)
    requires c in controllers && controllers[c].node == ControllerNode(c, pots, buttons)
    ensures var p := PortNamed(parent.node.ports, name);
      ControlStep(b, controllers, true, Some(c), i, name, parent) ==
        if i.Some? && 1 <= i.value <= pots && p.Some? then
          WithLink(b, Link(Some(PortRef(controllers[c].id, 2 * buttons + i.value - 1)), Some(PortRef(parent.id, p.value))))
        else b
  {
    PotLookup(c, pots, buttons, i);
  }

  /** A button `B<c>.<i>` links from the controller's port buttons+i-1 when 1 <= i <= buttons. */
  lemma ButtonWiring(b: Build, controllers: map<int, Handle>, c: nat, pots: nat, buttons: nat, i: Option<int>, name: string, parent: Handle)
    requires ControllersOk(controllers)
    requires c in controllers && controllers[c].node == ControllerNode(c, pots, buttons)
    ensures var p := PortNamed(parent.node.ports, name);
      ControlStep(b, controllers, false, Some(c), i, name, parent) ==
        if i.Some? && 1 <= i.value <= buttons && p.Some? then
          WithLink(b, Link(Some(PortRef(controllers[c].id, buttons + i.value - 1)), Some(PortRef(parent.id, p.value))))
        else b
  {
    ButtonLookup(c, pots, buttons, i);
  }

  /** An LED `L<c>.<i>` links from the parent's port to the controller's port i-1 when 1 <= i <= buttons. */
  lemma LedWiring(b: Build, controllers: map<int, Handle>, c: nat, pots: nat, buttons: nat, i: Option<int>, name: string, parent: Handle)
    requires ControllersOk(controllers)
    requires c in controllers && controllers[c].node == ControllerNode(c, pots, buttons)
    ensures var p := PortNamed(parent.node.ports, name);
      LedStep(b, controllers, Some(c), i, name, parent) ==
        if i.Some? && 1 <= i.value <= buttons && p.Some? then
          WithLink(b, Link(Some(PortRef(parent.id, p.value)), Some(PortRef(controllers[c].id, i.value - 1))))
        else b
  {
    LedLookup(c, pots, buttons, i);
  }

  /** The operand loop with only literal operands changes nothing. */
  lemma {:induction false} LiteralOperandsUnwired(b: Build, master: Handle, controllers: map<int, Handle>, operands: seq<Value>, node: Handle)
    requires ControllersOk(controllers)
    requires forall j :: 0 <= j < |operands| ==> operands[j].IsPrimitive()
    requires ControllersOk(controllers)
    ensures OperandsStep(b, master, controllers, operands, node) == b
    decreases |operands|
  {
    if operands != [] {
      LiteralOperandsUnwired(b, master, controllers, operands[..|operands| - 1], node);
    }
  }

  /**
   * An expression of literals only adds its own node and, when the parent
   * has an In port of the parameter's name, a link from its `get` to it;
   * wired from the parent's Out port, the link has no target, because the
   * node has no In port.
   */
  lemma LiteralExpressionWiring(b: Build, master: Handle, controllers: map<int, Handle>, name: string, text: string, operands: seq<Value>, parent: Handle)
    requires ControllersOk(controllers)
    requires forall j :: 0 <= j < |operands| ==> operands[j].IsPrimitive()
    ensures var r := ExpressionStep(b, master, controllers, name, text, operands, parent);
      var input := FindPort(parent.node.ports, true, name);
      var output := FindPort(parent.node.ports, false, name);
      var toParent := if input.Some? then [Link(Some(PortRef(|b.nodes|, 0)), Some(PortRef(parent.id, input.value)))] else [];
      var fromParent := if output.Some? then [Link(Some(PortRef(parent.id, output.value)), None)] else [];
      r.nodes == b.nodes + [ExpressionNode(text, operands)] && r.variables == b.variables &&
      r.links == b.links + toParent + fromParent
  {
    var h := NextHandle(b, ExpressionNode(text, operands));
    LiteralOperandsUnwired(WithNode(b, h.node), master, controllers, operands, h);
    ExpressionNodePorts(text, operands);
    LiteralsCountZero(operands);
  }

  lemma {:induction false} LiteralsCountZero(operands: seq<Value>)
    requires forall j :: 0 <= j < |operands| ==> operands[j].IsPrimitive()
    ensures NonPrimitiveCount(operands) == 0
    decreases |operands|
  {
    if operands != [] {
      LiteralsCountZero(operands[..|operands| - 1]);
    }
  }

  /** The operands that are not primitive values, in their order. */
  function NonPrimitiveOperands(operands: seq<Value>): (r: seq<Value>)
    ensures |r| == NonPrimitiveCount(operands)
    ensures forall j :: 0 <= j < |r| ==> !r[j].IsPrimitive() && r[j] in operands
    decreases |operands|
  {
    if operands == [] then []
    else
      var init := NonPrimitiveOperands(operands[..|operands| - 1]);
      var op := operands[|operands| - 1];
      if op.IsPrimitive() then init else init + [op]
  }

  /**
   * Primitive operands add nothing to the diagram: wiring all the operands
   * is wiring only the non-primitive ones.
   */
  lemma {:induction false} OperandsSkipPrimitives(b: Build, master: Handle, controllers: map<int, Handle>, operands: seq<Value>, node: Handle)
    requires ControllersOk(controllers)
    ensures OperandsStep(b, master, controllers, operands, node) ==
      OperandsStep(b, master, controllers, NonPrimitiveOperands(operands), node)
    decreases |operands|
  {
    if operands != [] {
      var init := operands[..|operands| - 1];
      var op := operands[|operands| - 1];
      OperandsSkipPrimitives(b, master, controllers, init, node);
      if !op.IsPrimitive() {
        var kept := NonPrimitiveOperands(operands);
        assert kept == NonPrimitiveOperands(init) + [op];
        assert kept[..|kept| - 1] == NonPrimitiveOperands(init);
        assert kept[|kept| - 1] == op;
      }
    }
  }

  /**
   * An expression with any operands: its node goes after the existing ones,
   * its non-primitive operands are wired into it, and then at most two links
   * join it to the parent: from its `get` port (port 0) to the parent's In
   * port of the parameter's name, and from the parent's Out port of that
   * name to its first In port, port 1, which exists exactly when some
   * operand is not primitive.
   */
  lemma ExpressionWiring(b: Build, master: Handle, controllers: map<int, Handle>, name: string, text: string, operands: seq<Value>, parent: Handle)
    requires ControllersOk(controllers)
    ensures var node := ExpressionNode(text, operands);
      var r := ExpressionStep(b, master, controllers, name, text, operands, parent);
      var m := OperandsStep(WithNode(b, node), master, controllers, NonPrimitiveOperands(operands), Handle(|b.nodes|, node));
      var input := FindPort(parent.node.ports, true, name);
      var output := FindPort(parent.node.ports, false, name);
      var toParent := if input.Some? then [Link(Some(PortRef(|b.nodes|, 0)), Some(PortRef(parent.id, input.value)))] else [];
      var operandPort := if NonPrimitiveCount(operands) > 0 then Some(PortRef(|b.nodes|, 1)) else None;
      var fromParent := if output.Some? then [Link(Some(PortRef(parent.id, output.value)), operandPort)] else [];
      r.nodes == m.nodes && r.variables == m.variables && r.links == m.links + toParent + fromParent
  {
    var h := NextHandle(b, ExpressionNode(text, operands));
    OperandsSkipPrimitives(WithNode(b, h.node), master, controllers, operands, h);
    ExpressionNodePorts(text, operands);
  }
}
