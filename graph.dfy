/**
 * The node shapes of lib/graph/graph.ts: which ports the master, controller,
 * circuit, expression, variable and primitive nodes get, in which order and
 * direction, and the name-based port lookups the graph builder relies on.
 *
 * A diagram port is a name and a direction; a node is its kind and its ports
 * in the order they were added. `getInPorts()`/`getOutPorts()` keep that
 * order, while `getPorts()` is a dictionary keyed by name in which a later
 * port of the same name replaces an earlier one.
 */
module Graph {
  import opened Common
  import opened JsString
  import opened PatchParser

  datatype Port = Port(name: string, isIn: bool)

  datatype NodeKind =
    | MasterKind
    | ControllerKind(index: nat)
    | CircuitKind(name: string)
    | ExpressionKind(text: string)
    | VariableKind(name: string)
    | PrimitiveKind(text: string)

  datatype Node = Node(kind: NodeKind, ports: seq<Port>)

  // ----- port lookups -----

  /** `getInPorts()/getOutPorts().find(p => p.getName() === name)`: the first port of that direction and name. */
  function FindPort(ports: seq<Port>, isIn: bool, name: string): (r: Option<nat>)
    ensures r.Some? ==> r.value < |ports| && ports[r.value] == Port(name, isIn)
    ensures r.Some? ==> forall j :: 0 <= j < r.value ==> ports[j] != Port(name, isIn)
    ensures r.None? ==> forall j :: 0 <= j < |ports| ==> ports[j] != Port(name, isIn)
    decreases |ports|
  {
    if ports == [] then None
    else if ports[0] == Port(name, isIn) then Some(0)
    else
      match FindPort(ports[1..], isIn, name)
      case None => None
      case Some(j) => Some(j + 1)
  }

  /** `getPorts()[name]`: the port added last under that name. */
  function PortNamed(ports: seq<Port>, name: string): (r: Option<nat>)
    ensures r.Some? ==> r.value < |ports| && ports[r.value].name == name
    ensures r.Some? ==> forall j :: r.value < j < |ports| ==> ports[j].name != name
    ensures r.None? ==> forall j :: 0 <= j < |ports| ==> ports[j].name != name
    decreases |ports|
  {
    if ports == [] then None
    else if ports[|ports| - 1].name == name then Some(|ports| - 1)
    else PortNamed(ports[..|ports| - 1], name)
  }

  /** `getInPorts()[0]` / `getOutPorts()[0]`: the first port of a direction, if any. */
  function FirstOfDirection(ports: seq<Port>, isIn: bool): (r: Option<nat>)
    ensures r.Some? ==> r.value < |ports| && ports[r.value].isIn == isIn
    ensures r.Some? ==> forall j :: 0 <= j < r.value ==> ports[j].isIn != isIn
    ensures r.None? ==> forall j :: 0 <= j < |ports| ==> ports[j].isIn != isIn
    decreases |ports|
  {
    if ports == [] then None
    else if ports[0].isIn == isIn then Some(0)
    else
      match FirstOfDirection(ports[1..], isIn)
      case None => None
      case Some(j) => Some(j + 1)
  }

  predicate NamesDistinct(ports: seq<Port>) {
    forall a, b :: 0 <= a < b < |ports| ==> ports[a].name != ports[b].name
  }

  /** With distinct names, the dictionary lookup finds each port at its own position. */
  lemma PortNamedOfDistinct(ports: seq<Port>, j: nat)
    requires NamesDistinct(ports) && j < |ports|
    ensures PortNamed(ports, ports[j].name) == Some(j)
  {
  }

  /** The first-match search finds the one matching position, or none when nothing matches. */
  lemma FindPortExactly(ports: seq<Port>, target: Port, m: Option<nat>)
    requires m.Some? ==> m.value < |ports|
    requires forall j :: 0 <= j < |ports| ==> (ports[j] == target <==> m == Some(j))
    ensures FindPort(ports, target.isIn, target.name) == m
    decreases |ports|
  {
    assert target == Port(target.name, target.isIn);
    if ports != [] && ports[0] != target {
      var m': Option<nat> := if m.Some? then Some(m.value - 1) else None;
      forall j | 0 <= j < |ports| - 1
        ensures ports[1..][j] == target <==> m' == Some(j)
      {
        assert ports[1..][j] == ports[j + 1];
      }
      FindPortExactly(ports[1..], target, m');
    }
  }


  // ----- the master node (graph.ts:71-100) -----

  /** Port `i` (0-based) of group `g`: N-in, N-out, I, O, R. */
  function MasterPort(g: nat, i: nat): Port
    requires g < 5
  {
    var n := NatStr(i + 1);
    if g == 0 then Port("N" + n + "-in", true)
    else if g == 1 then Port("N" + n + "-out", false)
    else if g == 2 then Port("I" + n, false)
    else if g == 3 then Port("O" + n, true)
    else Port("R" + n, true)
  }

  /** The master's 40 ports: five groups of eight, in the order they are added. */
  function MasterPorts(): (ps: seq<Port>)
    ensures |ps| == 40
  {
    seq(40, j requires 0 <= j < 40 => MasterPort(j / 8, j % 8))
  }

  function MasterNode(): Node {
    Node(MasterKind, MasterPorts())
  }

  /** One more master port: the prefix up to port `i` of group `g` extends the one before it. */
  lemma MasterStep(g: nat, i: nat)
    requires g < 5 && i < 8
    ensures MasterPorts()[..8 * g + i + 1] == MasterPorts()[..8 * g + i] + [MasterPort(g, i)]
  {
    var ps := MasterPorts();
    assert ps[8 * g + i] == MasterPort(g, i);
    assert ps[..8 * g + i + 1] == ps[..8 * g + i] + [ps[8 * g + i]];
  }

  /** `new GraphNodeDroidMaster()`: five loops of eight `addPort` calls. */
  method NewMasterNode() returns (n: Node)
    ensures n == MasterNode()
  {
    var ports: seq<Port> := [];
    for normal := 0 to 8
      invariant ports == MasterPorts()[..normal]
    {
      MasterStep(0, normal);
      ports := ports + [Port("N" + NatStr(normal + 1) + "-in", true)];
    }
    for normal := 0 to 8
      invariant ports == MasterPorts()[..8 + normal]
    {
      MasterStep(1, normal);
      ports := ports + [Port("N" + NatStr(normal + 1) + "-out", false)];
    }
    for input := 0 to 8
      invariant ports == MasterPorts()[..16 + input]
    {
      MasterStep(2, input);
      ports := ports + [Port("I" + NatStr(input + 1), false)];
    }
    for output := 0 to 8
      invariant ports == MasterPorts()[..24 + output]
    {
      MasterStep(3, output);
      ports := ports + [Port("O" + NatStr(output + 1), true)];
    }
    for register := 0 to 8
      invariant ports == MasterPorts()[..32 + register]
    {
      MasterStep(4, register);
      ports := ports + [Port("R" + NatStr(register + 1), true)];
    }
    assert ports == MasterPorts()[..40] == MasterPorts();
    n := Node(MasterKind, ports);
  }


  lemma DigitCharInjective(a: nat, b: nat)
    requires a < 10 && b < 10 && DigitChar(a) == DigitChar(b)
    ensures a == b
  {
  }

  /** A master port name tells its group and its number. */
  lemma {:induction false} MasterPortInjective(g: nat, i: nat, h: nat, k: nat)
    requires g < 5 && h < 5 && i < 8 && k < 8
    requires MasterPort(g, i).name == MasterPort(h, k).name
    ensures g == h && i == k
  {
    var a, b := MasterPort(g, i).name, MasterPort(h, k).name;
    assert NatStr(i + 1) == [DigitChar(i + 1)];
    assert NatStr(k + 1) == [DigitChar(k + 1)];
    assert a[1] == DigitChar(i + 1) && b[1] == DigitChar(k + 1);
    DigitCharInjective(i + 1, k + 1);
    assert a[0] == (if g <= 1 then 'N' else if g == 2 then 'I' else if g == 3 then 'O' else 'R');
    assert b[0] == (if h <= 1 then 'N' else if h == 2 then 'I' else if h == 3 then 'O' else 'R');
    assert |a| == (if g == 0 then 5 else if g == 1 then 6 else 2);
    assert |b| == (if h == 0 then 5 else if h == 1 then 6 else 2);
  }

  /** The 40 master ports have 40 different names. */
  lemma MasterNamesDistinct()
    ensures NamesDistinct(MasterPorts())
  {
    var ps := MasterPorts();
    forall a, b | 0 <= a < b < |ps| ensures ps[a].name != ps[b].name {
      if ps[a].name == ps[b].name {
        MasterPortInjective(a / 8, a % 8, b / 8, b % 8);
      }
    }
  }

  /** The dictionary lookup of a master port's name finds that port. */
  lemma MasterLookup(g: nat, i: nat)
    requires g < 5 && i < 8
    ensures MasterPorts()[8 * g + i] == MasterPort(g, i)
    ensures PortNamed(MasterPorts(), MasterPort(g, i).name) == Some(8 * g + i)
  {
    MasterNamesDistinct();
    assert MasterPorts()[8 * g + i] == MasterPort(g, i);
    PortNamedOfDistinct(MasterPorts(), 8 * g + i);
  }

  /**
   * Looking up `N<k>-in`, `N<k>-out`, `I<k>`, `O<k>` or `R<k>` by name, for
   * k in 1..8, finds the port added for it, with the direction the master
   * gives it: normalled jacks in and out, inputs out, outputs and registers in.
   */
  lemma MasterLookups(k: nat)
    requires 1 <= k <= 8
    ensures PortNamed(MasterPorts(), "N" + NatStr(k) + "-in") == Some(k - 1) && MasterPorts()[k - 1].isIn
    ensures PortNamed(MasterPorts(), "N" + NatStr(k) + "-out") == Some(7 + k) && !MasterPorts()[7 + k].isIn
    ensures PortNamed(MasterPorts(), "I" + NatStr(k)) == Some(15 + k) && !MasterPorts()[15 + k].isIn
    ensures PortNamed(MasterPorts(), "O" + NatStr(k)) == Some(23 + k) && MasterPorts()[23 + k].isIn
    ensures PortNamed(MasterPorts(), "R" + NatStr(k)) == Some(31 + k) && MasterPorts()[31 + k].isIn
  {
    MasterLookup(0, k - 1);
    MasterLookup(1, k - 1);
    MasterLookup(2, k - 1);
    MasterLookup(3, k - 1);
    MasterLookup(4, k - 1);
  }


  // ----- controller nodes (graph.ts:101-138) -----

  /** `${letter}${index}.${suffix}`. */
  function ControllerPortName(letter: char, index: nat, suffix: string): string {
    [letter] + NatStr(index) + "." + suffix
  }

  /** `count` ports named `<letter><index>.1` .. `<letter><index>.<count>`. */
  function ControllerRow(letter: char, index: nat, count: nat, isIn: bool): (ps: seq<Port>)
    ensures |ps| == count
  {
    seq(count, i requires 0 <= i < count => Port(ControllerPortName(letter, index, NatStr(i + 1)), isIn))
  }

  /** LED inputs, then button outputs, then pot outputs. */
  function ControllerPorts(index: nat, pots: nat, buttons: nat): (ps: seq<Port>)
    ensures |ps| == 2 * buttons + pots
  {
    ControllerRow('L', index, buttons, true) + ControllerRow('B', index, buttons, false) + ControllerRow('P', index, pots, false)
  }

  function ControllerNode(index: nat, pots: nat, buttons: nat): Node {
    Node(ControllerKind(index), ControllerPorts(index, pots, buttons))
  }

  /** One more port of a row: the prefix of length `i + 1` extends the prefix of length `i`. */
  lemma RowStep(letter: char, index: nat, count: nat, isIn: bool, i: nat)
    requires i < count
    ensures var row := ControllerRow(letter, index, count, isIn);
      row[..i + 1] == row[..i] + [Port(ControllerPortName(letter, index, NatStr(i + 1)), isIn)]
  {
    var row := ControllerRow(letter, index, count, isIn);
    assert row[..i + 1] == row[..i] + [row[i]];
  }

  /**
   * `new GraphNodeDroidControllerButton(controller)`: its three loops, over
   * the controller's button count, button count and pot count.
   */
  method NewControllerNode(index: nat, pots: nat, buttons: nat) returns (n: Node)
    ensures n == ControllerNode(index, pots, buttons)
  {
    var leds := ControllerRow('L', index, buttons, true);
    var btns := ControllerRow('B', index, buttons, false);
    var knobs := ControllerRow('P', index, pots, false);
    var ports: seq<Port> := [];
    for i := 0 to buttons
      invariant ports == leds[..i]
    {
      RowStep('L', index, buttons, true, i);
      ports := ports + [Port(ControllerPortName('L', index, NatStr(i + 1)), true)];
    }
    assert leds[..buttons] == leds;
    for i := 0 to buttons
      invariant ports == leds + btns[..i]
    {
      RowStep('B', index, buttons, false, i);
      ports := ports + [Port(ControllerPortName('B', index, NatStr(i + 1)), false)];
    }
    assert btns[..buttons] == btns;
    for i := 0 to pots
      invariant ports == leds + btns + knobs[..i]
    {
      RowStep('P', index, pots, false, i);
      ports := ports + [Port(ControllerPortName('P', index, NatStr(i + 1)), false)];
    }
    assert knobs[..pots] == knobs;
    n := Node(ControllerKind(index), ports);
  }



  /** The lookup name `<letter><index>.<i>` for a parsed sub-index (`NaN` when missing). */
  function LookupName(letter: char, index: nat, i: Option<int>): string {
    ControllerPortName(letter, index, NumberStr(i))
  }

  /** `getPotPort(i)`: the first out port named `P<index>.<i>`. */
  function PotPort(n: Node, i: Option<int>): Option<nat>
    requires n.kind.ControllerKind?
  {
    FindPort(n.ports, false, LookupName('P', n.kind.index, i))
  }

  /** `getButtonPort(i)`: the first out port named `B<index>.<i>`. */
  function ButtonPort(n: Node, i: Option<int>): Option<nat>
    requires n.kind.ControllerKind?
  {
    FindPort(n.ports, false, LookupName('B', n.kind.index, i))
  }

  /** `getLedPort(i)`: the first in port named `L<index>.<i>`. */
  function LedPort(n: Node, i: Option<int>): Option<nat>
    requires n.kind.ControllerKind?
  {
    FindPort(n.ports, true, LookupName('L', n.kind.index, i))
  }

  /** A port name of the node matches a lookup name exactly when letter and number agree. */
  lemma ControllerNameMatch(letter: char, other: char, index: nat, m: nat, i: Option<int>)
    ensures ControllerPortName(other, index, NatStr(m)) == LookupName(letter, index, i) <==> other == letter && i == Some(m)
  {
    var a := ControllerPortName(other, index, NatStr(m));
    var b := LookupName(letter, index, i);
    var p := |NatStr(index)| + 2;
    assert NumberStr(Some(m)) == NatStr(m);
    if a == b {
      assert a[0] == other && b[0] == letter;
      assert a[p..] == NatStr(m) && b[p..] == NumberStr(i);
      NumberStrInjective(Some(m), i);
    }
  }

  /** Whether the `j`-th port of the row of `letter` matches the lookup of `letter2` with sub-index `i`. */
  lemma RowMatch(letter: char, letter2: char, index: nat, count: nat, isIn: bool, isIn2: bool, i: Option<int>, j: nat)
    requires j < count
    ensures ControllerRow(letter, index, count, isIn)[j] == Port(LookupName(letter2, index, i), isIn2) <==>
      letter == letter2 && isIn == isIn2 && i == Some(j + 1)
  {
    ControllerNameMatch(letter2, letter, index, j + 1, i);
  }
  /** Whether the `m`-th port of a controller matches the lookup of `letter` with sub-index `i`. */
  lemma ControllerPortMatch(index: nat, pots: nat, buttons: nat, letter: char, isIn: bool, i: Option<int>, m: nat)
    requires m < 2 * buttons + pots
    ensures ControllerPorts(index, pots, buttons)[m] == Port(LookupName(letter, index, i), isIn) <==>
      if m < buttons then letter == 'L' && isIn && i == Some(m + 1)
      else if m < 2 * buttons then letter == 'B' && !isIn && i == Some(m - buttons + 1)
      else letter == 'P' && !isIn && i == Some(m - 2 * buttons + 1)
  {
    var leds, btns, knobs := ControllerRow('L', index, buttons, true), ControllerRow('B', index, buttons, false), ControllerRow('P', index, pots, false);
    var ps := leds + btns + knobs;
    assert ControllerPorts(index, pots, buttons) == ps;
    if m < buttons {
      assert ps[m] == leds[m];
      RowMatch('L', letter, index, buttons, true, isIn, i, m);
    } else if m < 2 * buttons {
      assert ps[m] == btns[m - buttons];
      RowMatch('B', letter, index, buttons, false, isIn, i, m - buttons);
    } else {
      assert ps[m] == knobs[m - 2 * buttons];
      RowMatch('P', letter, index, pots, false, isIn, i, m - 2 * buttons);
    }
  }




  /**
   * `getPotPort(i)` finds a port exactly when `i` is a number from 1 to the
   * pot count; it is the `i`-th pot port, after the LED and button ports.
   */
  lemma PotLookup(index: nat, pots: nat, buttons: nat, i: Option<int>)
    ensures PotPort(ControllerNode(index, pots, buttons), i) ==
      if i.Some? && 1 <= i.value <= pots then Some(2 * buttons + i.value - 1) else None
  {
    var ps := ControllerPorts(index, pots, buttons);
    var target := Port(LookupName('P', index, i), false);
    var found: Option<nat> := if i.Some? && 1 <= i.value <= pots then Some(2 * buttons + i.value - 1) else None;
    forall m | 0 <= m < |ps|
      ensures ps[m] == target <==> found == Some(m)
    {
      ControllerPortMatch(index, pots, buttons, 'P', false, i, m);
    }
    FindPortExactly(ps, target, found);
  }





  /** `getButtonPort(i)` finds the `i`-th button port exactly when 1 <= i <= the button count. */
  lemma ButtonLookup(index: nat, pots: nat, buttons: nat, i: Option<int>)
    ensures ButtonPort(ControllerNode(index, pots, buttons), i) ==
      if i.Some? && 1 <= i.value <= buttons then Some(buttons + i.value - 1) else None
  {
    var ps := ControllerPorts(index, pots, buttons);
    var target := Port(LookupName('B', index, i), false);
    var found: Option<nat> := if i.Some? && 1 <= i.value <= buttons then Some(buttons + i.value - 1) else None;
    forall m | 0 <= m < |ps|
      ensures ps[m] == target <==> found == Some(m)
    {
      ControllerPortMatch(index, pots, buttons, 'B', false, i, m);
    }
    FindPortExactly(ps, target, found);
  }





  /** `getLedPort(i)` finds the `i`-th LED port exactly when 1 <= i <= the button count. */
  lemma LedLookup(index: nat, pots: nat, buttons: nat, i: Option<int>)
    ensures LedPort(ControllerNode(index, pots, buttons), i) ==
      if i.Some? && 1 <= i.value <= buttons then Some(i.value - 1) else None
  {
    var ps := ControllerPorts(index, pots, buttons);
    var target := Port(LookupName('L', index, i), true);
    var found: Option<nat> := if i.Some? && 1 <= i.value <= buttons then Some(i.value - 1) else None;
    forall m | 0 <= m < |ps|
      ensures ps[m] == target <==> found == Some(m)
    {
      ControllerPortMatch(index, pots, buttons, 'L', true, i, m);
    }
    FindPortExactly(ps, target, found);
  }





  // ----- port descriptors and circuit nodes (graph.ts:17-29, 142-184) -----

  /** A catalog port entry: a counted run `prefix start_at..count`, or one named port. */
  datatype Descriptor =
    | Counted(prefix: string, startAt: int, count: int)
    | Fixed(name: string)

  /** How many ports a descriptor stands for: `count` is the last number, not a length. */
  function ExpandedCount(d: Descriptor): nat {
    match d
    case Fixed(_) => 1
    case Counted(_, startAt, count) => if count - startAt + 1 > 0 then count - startAt + 1 else 0
  }

  /** The ports of one descriptor: `prefix` followed by `start_at`, `start_at + 1`, ..., `count`. */
  function Expand(d: Descriptor, isIn: bool): (ps: seq<Port>)
    ensures |ps| == ExpandedCount(d)
  {
    match d
    case Fixed(name) => [Port(name, isIn)]
    case Counted(prefix, startAt, _) =>
      seq(ExpandedCount(d), i requires 0 <= i < ExpandedCount(d) => Port(prefix + IntStr(startAt + i), isIn))
  }

  /** `visitInput`/`visitOutput`: the `while (index++ < count)` loop. */
  method VisitDescriptor(d: Descriptor, isIn: bool) returns (ports: seq<Port>)
    ensures ports == Expand(d, isIn)
  {
    match d {
      case Fixed(name) =>
        ports := [Port(name, isIn)];
      case Counted(prefix, startAt, count) =>
        ports := [];
        var index := startAt - 1;
        while index < count
          invariant startAt - 1 <= index
          invariant index == startAt - 1 || index <= count
          invariant |ports| == index - startAt + 1
          invariant forall i :: 0 <= i < |ports| ==> ports[i] == Port(prefix + IntStr(startAt + i), isIn)
          decreases count - index
        {
          index := index + 1;
          ports := ports + [Port(prefix + IntStr(index), isIn)];
        }
    }
  }

  /**
   * A counted descriptor's ports all have its direction and its prefix, and
   * the rest of each name reads back as `start_at`, `start_at + 1`, ...:
   * the numbers are contiguous and increasing.
   */
  lemma ExpandNumbers(d: Descriptor, isIn: bool)
    requires d.Counted?
    ensures var ps := Expand(d, isIn);
      forall i :: 0 <= i < |ps| ==>
        ps[i].isIn == isIn && d.prefix <= ps[i].name && ParseInt(ps[i].name[|d.prefix|..]) == Some(d.startAt + i)
  {
    var ps := Expand(d, isIn);
    forall i | 0 <= i < |ps|
      ensures ps[i].isIn == isIn && d.prefix <= ps[i].name && ParseInt(ps[i].name[|d.prefix|..]) == Some(d.startAt + i)
    {
      assert ps[i].name == d.prefix + IntStr(d.startAt + i);
      assert ps[i].name[|d.prefix|..] == IntStr(d.startAt + i);
      ParseIntIntStr(d.startAt + i);
    }
  }

  /** Every number from `start_at` to `count` gets its port. */
  lemma ExpandCovers(d: Descriptor, isIn: bool, m: int)
    requires d.Counted? && d.startAt <= m <= d.count
    ensures Port(d.prefix + IntStr(m), isIn) in Expand(d, isIn)
  {
    assert Expand(d, isIn)[m - d.startAt] == Port(d.prefix + IntStr(m), isIn);
  }

  /** The ports of a list of descriptors, in order. */
  function ExpandAll(ds: seq<Descriptor>, isIn: bool): seq<Port>
    decreases |ds|
  {
    if ds == [] then [] else ExpandAll(ds[..|ds| - 1], isIn) + Expand(ds[|ds| - 1], isIn)
  }

  /** Summed port counts. */
  function TotalCount(ds: seq<Descriptor>): nat
    decreases |ds|
  {
    if ds == [] then 0 else TotalCount(ds[..|ds| - 1]) + ExpandedCount(ds[|ds| - 1])
  }

  /** The expanded list is as long as the summed port counts. */
  lemma {:induction false} ExpandAllLength(ds: seq<Descriptor>, isIn: bool)
    ensures |ExpandAll(ds, isIn)| == TotalCount(ds)
    decreases |ds|
  {
    if ds != [] {
      ExpandAllLength(ds[..|ds| - 1], isIn);
    }
  }

  /** Descriptor `d`'s ports, expanded with direction `isIn`, sit in `ps` from index `lo` on, in their own order. */
  predicate PortsAt(ps: seq<Port>, lo: nat, d: Descriptor, isIn: bool) {
    lo + ExpandedCount(d) <= |ps| && ps[lo..lo + ExpandedCount(d)] == Expand(d, isIn)
  }

  /** The last descriptor's ports close the expanded list. */
  lemma ExpandAllLast(ds: seq<Descriptor>, isIn: bool)
    requires ds != []
    ensures TotalCount(ds[..|ds| - 1]) + ExpandedCount(ds[|ds| - 1]) == |ExpandAll(ds, isIn)|
    ensures PortsAt(ExpandAll(ds, isIn), TotalCount(ds[..|ds| - 1]), ds[|ds| - 1], isIn)
  {
    var n := |ds| - 1;
    ExpandAllLength(ds[..n], isIn);
    var front, back := ExpandAll(ds[..n], isIn), Expand(ds[n], isIn);
    assert ExpandAll(ds, isIn) == front + back;
    SliceOfConcat(front, back, 0, |back|);
    assert back[0..|back|] == back;
  }

  /** Appending a descriptor leaves the ports of the earlier ones in place. */
  lemma ExpandAllKeepsInit(ds: seq<Descriptor>, isIn: bool, j: nat)
    requires j < |ds| - 1
    requires PortsAt(ExpandAll(ds[..|ds| - 1], isIn), TotalCount(ds[..|ds| - 1][..j]), ds[..|ds| - 1][j], isIn)
    ensures PortsAt(ExpandAll(ds, isIn), TotalCount(ds[..j]), ds[j], isIn)
  {
    var init := ds[..|ds| - 1];
    assert ds[..j] == init[..j] && ds[j] == init[j];
    var front, back := ExpandAll(init, isIn), Expand(ds[|ds| - 1], isIn);
    assert ExpandAll(ds, isIn) == front + back;
    var lo := TotalCount(ds[..j]);
    SliceOfConcat(front, back, lo, lo + ExpandedCount(ds[j]));
  }

  /** Descriptor `j`'s ports follow the ports of the descriptors before it. */
  lemma {:induction false} ExpandAllAt(ds: seq<Descriptor>, isIn: bool, j: nat)
    requires j < |ds|
    ensures PortsAt(ExpandAll(ds, isIn), TotalCount(ds[..j]), ds[j], isIn)
    decreases |ds|
  {
    if j < |ds| - 1 {
      ExpandAllAt(ds[..|ds| - 1], isIn, j);
      ExpandAllKeepsInit(ds, isIn, j);
    } else {
      ExpandAllLast(ds, isIn);
    }
  }

  /** Every descriptor's ports sit, in their own order, right after the ports of the descriptors before it. */
  lemma ExpandAllOrder(ds: seq<Descriptor>, isIn: bool)
    ensures forall j :: 0 <= j < |ds| ==> PortsAt(ExpandAll(ds, isIn), TotalCount(ds[..j]), ds[j], isIn)
  {
    forall j | 0 <= j < |ds| ensures PortsAt(ExpandAll(ds, isIn), TotalCount(ds[..j]), ds[j], isIn) {
      ExpandAllAt(ds, isIn, j);
    }
  }

  /** The expanded list has the summed length, every port has the given direction, and each descriptor's ports are in it. */
  lemma {:induction false} ExpandAllShape(ds: seq<Descriptor>, isIn: bool)
    ensures |ExpandAll(ds, isIn)| == TotalCount(ds)
    ensures forall p :: p in ExpandAll(ds, isIn) ==> p.isIn == isIn
    ensures forall j, p :: 0 <= j < |ds| && p in Expand(ds[j], isIn) ==> p in ExpandAll(ds, isIn)
    decreases |ds|
  {
    if ds != [] {
      var init := ds[..|ds| - 1];
      ExpandAllShape(init, isIn);
      forall j, p | 0 <= j < |ds| && p in Expand(ds[j], isIn) ensures p in ExpandAll(ds, isIn) {
        if j < |init| {
          assert ds[j] == init[j];
        }
      }
    }
  }

  /** A catalog entry: its input and output descriptors. */
  datatype CircuitSpec = CircuitSpec(inputs: seq<Descriptor>, outputs: seq<Descriptor>)

  /** The circuit catalog: entries by name, and the names in the catalog's own order. */
  datatype Catalog = Catalog(circuits: map<string, CircuitSpec>, order: seq<string>)

  function CircuitPorts(spec: CircuitSpec): seq<Port> {
    ExpandAll(spec.inputs, true) + ExpandAll(spec.outputs, false)
  }

  /** `new GraphNodeDroidCircuit({name})`: no ports when the catalog lacks the name. */
  function CircuitNode(catalog: Catalog, name: string): Node {
    Node(CircuitKind(name), if name in catalog.circuits then CircuitPorts(catalog.circuits[name]) else [])
  }

  /** `for (const port of visit..(d)) this.addPort(port)`: the descriptor's ports, added one by one. */
  method AddDescriptorPorts(ports: seq<Port>, d: Descriptor, isIn: bool) returns (r: seq<Port>)
    ensures r == ports + Expand(d, isIn)
  {
    var ps := VisitDescriptor(d, isIn);
    r := ports;
    for k := 0 to |ps|
      invariant r == ports + ps[..k]
    {
      r := r + [ps[k]];
    }
    assert ps[..|ps|] == ps;
  }

  /** The constructor's loops: every input descriptor's ports, then every output descriptor's. */
  method NewCircuitNode(catalog: Catalog, name: string) returns (n: Node)
    ensures n == CircuitNode(catalog, name)
  {
    if name !in catalog.circuits {
      return Node(CircuitKind(name), []);
    }
    var spec := catalog.circuits[name];
    var ports: seq<Port> := [];
    for j := 0 to |spec.inputs|
      invariant ports == ExpandAll(spec.inputs[..j], true)
    {
      ports := AddDescriptorPorts(ports, spec.inputs[j], true);
      assert spec.inputs[..j + 1][..j] == spec.inputs[..j];
    }
    assert spec.inputs[..|spec.inputs|] == spec.inputs;
    for j := 0 to |spec.outputs|
      invariant ports == ExpandAll(spec.inputs, true) + ExpandAll(spec.outputs[..j], false)
    {
      ports := AddDescriptorPorts(ports, spec.outputs[j], false);
      assert spec.outputs[..j + 1][..j] == spec.outputs[..j];
    }
    assert spec.outputs[..|spec.outputs|] == spec.outputs;
    n := Node(CircuitKind(name), ports);
  }

  /** Slicing a concatenation inside either of its parts. */
  lemma SliceOfConcat(a: seq<Port>, b: seq<Port>, lo: nat, hi: nat)
    requires lo <= hi
    ensures hi <= |a| ==> (a + b)[lo..hi] == a[lo..hi]
    ensures hi <= |b| ==> (a + b)[|a| + lo..|a| + hi] == b[lo..hi]
  {
  }

  /** Input descriptor `j`'s ports follow the ports of the inputs before it. */
  lemma CircuitInputAt(spec: CircuitSpec, j: nat)
    requires j < |spec.inputs|
    ensures PortsAt(CircuitPorts(spec), TotalCount(spec.inputs[..j]), spec.inputs[j], true)
  {
    ExpandAllAt(spec.inputs, true, j);
    var lo := TotalCount(spec.inputs[..j]);
    SliceOfConcat(ExpandAll(spec.inputs, true), ExpandAll(spec.outputs, false), lo, lo + ExpandedCount(spec.inputs[j]));
  }

  /** Output descriptor `j`'s ports follow all the inputs' and the outputs' before it. */
  lemma CircuitOutputAt(spec: CircuitSpec, j: nat)
    requires j < |spec.outputs|
    ensures PortsAt(CircuitPorts(spec), TotalCount(spec.inputs) + TotalCount(spec.outputs[..j]), spec.outputs[j], false)
  {
    ExpandAllLength(spec.inputs, true);
    ExpandAllAt(spec.outputs, false, j);
    var lo := TotalCount(spec.outputs[..j]);
    SliceOfConcat(ExpandAll(spec.inputs, true), ExpandAll(spec.outputs, false), lo, lo + ExpandedCount(spec.outputs[j]));
  }

  /** A circuit's ports: each input descriptor's ports in catalog order, then each output descriptor's. */
  lemma CircuitPortsOrder(spec: CircuitSpec)
    ensures forall j :: 0 <= j < |spec.inputs| ==>
      PortsAt(CircuitPorts(spec), TotalCount(spec.inputs[..j]), spec.inputs[j], true)
    ensures forall j :: 0 <= j < |spec.outputs| ==>
      PortsAt(CircuitPorts(spec), TotalCount(spec.inputs) + TotalCount(spec.outputs[..j]), spec.outputs[j], false)
  {
    forall j | 0 <= j < |spec.inputs| ensures PortsAt(CircuitPorts(spec), TotalCount(spec.inputs[..j]), spec.inputs[j], true) {
      CircuitInputAt(spec, j);
    }
    forall j | 0 <= j < |spec.outputs|
      ensures PortsAt(CircuitPorts(spec), TotalCount(spec.inputs) + TotalCount(spec.outputs[..j]), spec.outputs[j], false)
    {
      CircuitOutputAt(spec, j);
    }
  }

  /** A circuit's ports: the expanded inputs, all In, then the expanded outputs, all Out. */
  lemma CircuitPortsLayout(spec: CircuitSpec)
    ensures var ps := CircuitPorts(spec);
      |ps| == TotalCount(spec.inputs) + TotalCount(spec.outputs) &&
      (forall j :: 0 <= j < |ps| ==> (ps[j].isIn <==> j < TotalCount(spec.inputs))) &&
      (forall j, p :: 0 <= j < |spec.inputs| && p in Expand(spec.inputs[j], true) ==> p in ps) &&
      (forall j, p :: 0 <= j < |spec.outputs| && p in Expand(spec.outputs[j], false) ==> p in ps)
  {
    var ins, outs := ExpandAll(spec.inputs, true), ExpandAll(spec.outputs, false);
    ExpandAllShape(spec.inputs, true);
    ExpandAllShape(spec.outputs, false);
    var ps := ins + outs;
    forall j | 0 <= j < |ps| ensures ps[j].isIn <==> j < |ins| {
      if j < |ins| {
        assert ps[j] == ins[j] && ins[j] in ins;
      } else {
        assert ps[j] == outs[j - |ins|] && outs[j - |ins|] in outs;
      }
    }
  }

  /**
   * A known circuit's node has one port per expanded input, all In, then one
   * per expanded output, all Out; every descriptor's ports are on it, in
   * catalog order.
   */
  lemma CircuitNodeShape(catalog: Catalog, name: string)
    requires name in catalog.circuits
    ensures var spec := catalog.circuits[name];
      var ps := CircuitNode(catalog, name).ports;
      |ps| == TotalCount(spec.inputs) + TotalCount(spec.outputs) &&
      (forall j :: 0 <= j < |ps| ==> (ps[j].isIn <==> j < TotalCount(spec.inputs))) &&
      (forall j, p :: 0 <= j < |spec.inputs| && p in Expand(spec.inputs[j], true) ==> p in ps) &&
      (forall j, p :: 0 <= j < |spec.outputs| && p in Expand(spec.outputs[j], false) ==> p in ps)
    ensures var spec := catalog.circuits[name];
      var ps := CircuitNode(catalog, name).ports;
      (forall j :: 0 <= j < |spec.inputs| ==> PortsAt(ps, TotalCount(spec.inputs[..j]), spec.inputs[j], true)) &&
      (forall j :: 0 <= j < |spec.outputs| ==>
        PortsAt(ps, TotalCount(spec.inputs) + TotalCount(spec.outputs[..j]), spec.outputs[j], false))
  {
    var spec := catalog.circuits[name];
    assert CircuitNode(catalog, name).ports == CircuitPorts(spec);
    CircuitPortsLayout(spec);
    CircuitPortsOrder(spec);
  }

  /** A name the catalog lacks gives a node without ports. */
  lemma UnknownCircuitHasNoPorts(catalog: Catalog, name: string)
    requires name !in catalog.circuits
    ensures CircuitNode(catalog, name).ports == []
    ensures FindPort(CircuitNode(catalog, name).ports, true, name) == None
  {
  }

  // ----- value nodes (graph.ts:31-61) -----

  /** One In port per non-primitive operand, named by its token, in operand order. */
  function OperandPorts(operands: seq<Value>): seq<Port>
    decreases |operands|
  {
    if operands == [] then []
    else
      var last := operands[|operands| - 1];
      OperandPorts(operands[..|operands| - 1]) + (if last.IsPrimitive() then [] else [Port(last.text, true)])
  }

  function ExpressionNode(text: string, operands: seq<Value>): Node {
    Node(ExpressionKind(text), [Port("get", false)] + OperandPorts(operands))
  }

  /** `new GraphDroidNodeValueExpression(..)`: `get`, then a loop that skips primitive operands. */
  method NewExpressionNode(text: string, operands: seq<Value>) returns (n: Node)
    ensures n == ExpressionNode(text, operands)
  {
    var ports := [Port("get", false)];
    for k := 0 to |operands|
      invariant ports == [Port("get", false)] + OperandPorts(operands[..k])
    {
      assert operands[..k + 1][..k] == operands[..k];
      var p := operands[k];
      if p.IsPrimitive() {
        continue;
      }
      ports := ports + [Port(p.text, true)];
    }
    assert operands[..|operands|] == operands;
    n := Node(ExpressionKind(text), ports);
  }

  /** How many operands are not literals. */
  function NonPrimitiveCount(operands: seq<Value>): nat
    decreases |operands|
  {
    if operands == [] then 0
    else NonPrimitiveCount(operands[..|operands| - 1]) + (if operands[|operands| - 1].IsPrimitive() then 0 else 1)
  }

  /** One operand port per non-primitive operand. */
  lemma {:induction false} OperandPortsCount(operands: seq<Value>)
    ensures |OperandPorts(operands)| == NonPrimitiveCount(operands)
    decreases |operands|
  {
    if operands != [] {
      OperandPortsCount(operands[..|operands| - 1]);
    }
  }

  /** Every operand port is an In port named by the token of a non-primitive operand. */
  lemma {:induction false} OperandPortsSound(operands: seq<Value>)
    ensures forall p :: p in OperandPorts(operands) ==>
      p.isIn && exists k :: 0 <= k < |operands| && !operands[k].IsPrimitive() && p.name == operands[k].text
    decreases |operands|
  {
    if operands != [] {
      var init := operands[..|operands| - 1];
      OperandPortsSound(init);
      forall p | p in OperandPorts(operands)
        ensures p.isIn && exists k :: 0 <= k < |operands| && !operands[k].IsPrimitive() && p.name == operands[k].text
      {
        if p in OperandPorts(init) {
          var k :| 0 <= k < |init| && !init[k].IsPrimitive() && p.name == init[k].text;
          assert operands[k] == init[k];
        } else {
          assert p == Port(operands[|operands| - 1].text, true);
        }
      }
    }
  }

  /** Every non-primitive operand gets an In port named by its token. */
  lemma {:induction false} OperandPortsComplete(operands: seq<Value>)
    ensures forall k :: 0 <= k < |operands| && !operands[k].IsPrimitive() ==> Port(operands[k].text, true) in OperandPorts(operands)
    decreases |operands|
  {
    if operands != [] {
      var init := operands[..|operands| - 1];
      OperandPortsComplete(init);
      forall k | 0 <= k < |operands| && !operands[k].IsPrimitive() ensures Port(operands[k].text, true) in OperandPorts(operands) {
        if k < |init| {
          assert operands[k] == init[k];
          assert Port(init[k].text, true) in OperandPorts(init);
        }
      }
    }
  }

  /**
   * The ports keep the operands' order: the port of non-primitive operand k
   * comes after the ports of the non-primitive operands before it.
   */
  lemma {:induction false} OperandPortsOrder(operands: seq<Value>)
    ensures forall k :: 0 <= k < |operands| && !operands[k].IsPrimitive() ==>
      NonPrimitiveCount(operands[..k]) < |OperandPorts(operands)| &&
      OperandPorts(operands)[NonPrimitiveCount(operands[..k])] == Port(operands[k].text, true)
    decreases |operands|
  {
    if operands != [] {
      var n := |operands| - 1;
      var init := operands[..n];
      OperandPortsOrder(init);
      OperandPortsCount(init);
      var ps := OperandPorts(operands);
      assert OperandPorts(init) <= ps;
      forall k | 0 <= k < |operands| && !operands[k].IsPrimitive()
        ensures NonPrimitiveCount(operands[..k]) < |ps| && ps[NonPrimitiveCount(operands[..k])] == Port(operands[k].text, true)
      {
        if k < n {
          assert operands[..k] == init[..k] && operands[k] == init[k];
        } else {
          assert operands[..k] == init;
        }
      }
    }
  }

  /**
   * The operand ports are In ports, one per non-primitive operand: every
   * such operand's token names one, and each one is named by such a token,
   * in operand order.
   */
  lemma OperandPortsShape(operands: seq<Value>)
    ensures |OperandPorts(operands)| == NonPrimitiveCount(operands)
    ensures forall p :: p in OperandPorts(operands) ==>
      p.isIn && exists k :: 0 <= k < |operands| && !operands[k].IsPrimitive() && p.name == operands[k].text
    ensures forall k :: 0 <= k < |operands| && !operands[k].IsPrimitive() ==> Port(operands[k].text, true) in OperandPorts(operands)
    ensures forall k :: 0 <= k < |operands| && !operands[k].IsPrimitive() ==>
      NonPrimitiveCount(operands[..k]) < |OperandPorts(operands)| &&
      OperandPorts(operands)[NonPrimitiveCount(operands[..k])] == Port(operands[k].text, true)
  {
    OperandPortsCount(operands);
    OperandPortsSound(operands);
    OperandPortsComplete(operands);
    OperandPortsOrder(operands);
  }


  /**
   * An expression node's only Out port is `get`, first; then come the In
   * ports of the non-primitive operands in operand order, so its first In
   * port, if any, is the first non-primitive operand's.
   */
  lemma ExpressionNodePorts(text: string, operands: seq<Value>)
    ensures var ps := ExpressionNode(text, operands).ports;
      FirstOfDirection(ps, false) == Some(0) && ps[0] == Port("get", false) &&
      (forall j :: 1 <= j < |ps| ==> ps[j].isIn) &&
      (FirstOfDirection(ps, true).Some? <==> NonPrimitiveCount(operands) > 0) &&
      (forall k :: 0 <= k < |operands| && !operands[k].IsPrimitive() ==>
        1 + NonPrimitiveCount(operands[..k]) < |ps| && ps[1 + NonPrimitiveCount(operands[..k])] == Port(operands[k].text, true)) &&
      (forall k :: 0 <= k < |operands| && !operands[k].IsPrimitive() && NonPrimitiveCount(operands[..k]) == 0 ==>
        FirstOfDirection(ps, true) == Some(1) && ps[1] == Port(operands[k].text, true))
  {
    var ps := ExpressionNode(text, operands).ports;
    OperandPortsShape(operands);
    assert forall j :: 1 <= j < |ps| ==> ps[j] == OperandPorts(operands)[j - 1];
    forall j | 1 <= j < |ps| ensures ps[j].isIn {
      assert ps[j] == OperandPorts(operands)[j - 1];
      assert ps[j] in OperandPorts(operands);
    }
    if NonPrimitiveCount(operands) > 0 {
      assert ps[1].isIn;
    }
  }

  /** A variable node: In `set`, then Out `get`. */
  function VariableNode(name: string): Node {
    Node(VariableKind(name), [Port("set", true), Port("get", false)])
  }

  /** `getInputPort()`: `getPorts().set`. */
  function VariableInputPort(n: Node): Option<nat> {
    PortNamed(n.ports, "set")
  }

  /** `getOutputPort()`: `getPorts().get`. */
  function VariableOutputPort(n: Node): Option<nat> {
    PortNamed(n.ports, "get")
  }

  /** A variable node's input is its In port `set` and its output its Out port `get`. */
  lemma VariableNodePorts(name: string)
    ensures var n := VariableNode(name);
      VariableInputPort(n) == Some(0) && n.ports[0].isIn &&
      VariableOutputPort(n) == Some(1) && !n.ports[1].isIn &&
      FirstOfDirection(n.ports, true) == Some(0) && FirstOfDirection(n.ports, false) == Some(1)
  {
    var n := VariableNode(name);
    assert n.ports[0].name == "set" && n.ports[1].name == "get";
    assert "set" != "get";
  }

  /** A literal node: one Out port `get`. */
  function PrimitiveNode(text: string): Node {
    Node(PrimitiveKind(text), [Port("get", false)])
  }

  /** A primitive node's first Out port is `get` and it has no In port at all. */
  lemma PrimitiveNodePorts(text: string)
    ensures var n := PrimitiveNode(text);
      FirstOfDirection(n.ports, false) == Some(0) && n.ports[0].name == "get" &&
      FirstOfDirection(n.ports, true) == None
  {
  }

  // ----- the circuit list (graph.ts:162-168) -----

  /** The catalog names without those containing `midi`, in catalog order. */
  function NonMidiNames(names: seq<string>): seq<string>
    decreases |names|
  {
    if names == [] then []
    else
      var last := names[|names| - 1];
      NonMidiNames(names[..|names| - 1]) + (if Contains(last, "midi") then [] else [last])
  }

  /** A name is listed exactly when it is in the catalog and does not contain `midi`. */
  lemma {:induction false} NonMidiMembership(names: seq<string>, name: string)
    ensures name in NonMidiNames(names) <==> name in names && !Contains(name, "midi")
    decreases |names|
  {
    if names != [] {
      var init := names[..|names| - 1];
      NonMidiMembership(init, name);
      assert names == init + [names[|names| - 1]];
    }
  }

  /** Filtering keeps relative order: the filter of a concatenation is the concatenation of the filters. */
  lemma {:induction false} NonMidiAppend(a: seq<string>, b: seq<string>)
    ensures NonMidiNames(a + b) == NonMidiNames(a) + NonMidiNames(b)
    decreases |b|
  {
    if b == [] {
      assert a + b == a;
    } else {
      var initB := b[..|b| - 1];
      NonMidiAppend(a, initB);
      assert (a + b)[..|a + b| - 1] == a + initB;
    }
  }

  /** `visitCircuits`: one circuit node per listed name. */
  function CircuitNodes(catalog: Catalog): (ns: seq<Node>)
    ensures forall n :: n in ns ==> n.kind.CircuitKind? && n.kind.name in catalog.order && !Contains(n.kind.name, "midi")
  {
    var names := NonMidiNames(catalog.order);
    forall k | 0 <= k < |names| ensures names[k] in catalog.order && !Contains(names[k], "midi") {
      NonMidiMembership(catalog.order, names[k]);
    }
    seq(|names|, k requires 0 <= k < |names| => CircuitNode(catalog, names[k]))
  }

  /** No name appears twice in the list. */
  predicate Distinct(names: seq<string>) {
    forall i, j :: 0 <= i < j < |names| ==> names[i] != names[j]
  }

  /** A catalog as `circuits.json` makes one: each entry listed once, and only entries listed. */
  predicate ValidCatalog(catalog: Catalog) {
    Distinct(catalog.order) &&
    (forall name :: name in catalog.order ==> name in catalog.circuits) &&
    (forall name :: name in catalog.circuits ==> name in catalog.order)
  }

  /** Filtering a list without repeats leaves a list without repeats. */
  lemma {:induction false} NonMidiDistinct(names: seq<string>)
    requires Distinct(names)
    ensures Distinct(NonMidiNames(names))
    decreases |names|
  {
    if names != [] {
      var init := names[..|names| - 1];
      var last := names[|names| - 1];
      NonMidiDistinct(init);
      NonMidiMembership(init, last);
      assert last !in init;
    }
  }

  /**
   * Over a valid catalog the circuit list holds, once each, the node of every
   * catalogued circuit whose name does not contain `midi`, with all its ports.
   */
  lemma CircuitNodesOfValidCatalog(catalog: Catalog)
    requires ValidCatalog(catalog)
    ensures var ns := CircuitNodes(catalog);
      (forall k :: 0 <= k < |ns| ==>
        ns[k].kind.name in catalog.circuits && ns[k].ports == CircuitPorts(catalog.circuits[ns[k].kind.name])) &&
      (forall name :: name in catalog.circuits && !Contains(name, "midi") ==>
        exists k :: 0 <= k < |ns| && ns[k].kind.name == name) &&
      (forall i, j :: 0 <= i < j < |ns| ==> ns[i].kind.name != ns[j].kind.name)
  {
    var names := NonMidiNames(catalog.order);
    var ns := CircuitNodes(catalog);
    assert forall k :: 0 <= k < |ns| ==> ns[k] == CircuitNode(catalog, names[k]);
    NonMidiDistinct(catalog.order);
    forall name | name in catalog.circuits && !Contains(name, "midi")
      ensures exists k :: 0 <= k < |ns| && ns[k].kind.name == name
    {
      NonMidiMembership(catalog.order, name);
      var k :| 0 <= k < |names| && names[k] == name;
      assert ns[k].kind.name == name;
    }
    forall k | 0 <= k < |ns|
      ensures ns[k].kind.name in catalog.circuits
    {
      NonMidiMembership(catalog.order, names[k]);
    }
  }
}
