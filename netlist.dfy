/**
 * The circuit graph of gate.py: Node and Gate objects refer to each other
 * (a node lists the gates it feeds and names the gate that drives it), so
 * the model keeps them in an arena. A Circuit holds every node and every
 * gate in creation order, and the references are indices into it.
 */
module Netlist {
  import opened Wrappers
  import opened Logic
  import opened Controllability

  /** Node.stuck_at: None, 0 or 1. */
  datatype Fault = FaultFree | StuckAt0 | StuckAt1

  /**
   * A Node: its logic value, its fault, the gates it is an input of (with
   * one entry per input pin it drives), the gate it is the output of (None
   * for a primary input), and its (cc0, cc1) once computed.
   */
  datatype Node = Node(state: Value, fault: Fault, consumers: seq<nat>, producer: Option<nat>, cc: Option<Cc>)

  /** A Gate: its type, its input nodes, its output node and its depth. */
  datatype Gate = Gate(kind: GateType, inputs: seq<nat>, output: nat, depth: nat)

  /** The errors the node and gate operations raise. */
  datatype Error =
    | DOnFaultyNode   // set_state of D or ~D on a faulty node
    | NotFaulty       // is_fault_activated on a fault-free node

  // ---------------------------------------------------------------------
  // Well-formedness of the arena
  // ---------------------------------------------------------------------

  /** n repeated k times. */
  function Repeat(n: nat, k: nat): seq<nat>
  {
    seq(k, _ => n)
  }

  /**
   * The gates list of node n as the Gate constructors build it: every gate
   * in creation order, once for each of its input pins that n drives.
   */
  function ConsumersOf(gates: seq<Gate>, n: nat): seq<nat>
  {
    if |gates| == 0 then []
    else ConsumersOf(gates[..|gates| - 1], n) + Repeat(|gates| - 1, multiset(gates[|gates| - 1].inputs)[n])
  }

  /** Every gate's output exists and names the gate as its producer, and conversely. */
  predicate ProducersMatch(nodes: seq<Node>, gates: seq<Gate>)
  {
    (forall g :: 0 <= g < |gates| ==>
       gates[g].output < |nodes| && nodes[gates[g].output].producer == Some(g)) &&
    (forall n :: 0 <= n < |nodes| && nodes[n].producer.Some? ==>
       nodes[n].producer.value < |gates| && gates[nodes[n].producer.value].output == n)
  }

  /** A gate's inputs were created before its output node. */
  predicate InputsBefore(gates: seq<Gate>)
  {
    forall g, k :: 0 <= g < |gates| && 0 <= k < |gates[g].inputs| ==> gates[g].inputs[k] < gates[g].output
  }

  /** Every node's gates list mirrors the gates' input lists. */
  predicate ConsumersMirror(nodes: seq<Node>, gates: seq<Gate>)
  {
    forall n :: 0 <= n < |nodes| ==> nodes[n].consumers == ConsumersOf(gates, n)
  }

  /**
   * The depth set_depth gives a gate over the inputs ins: above the depth of
   * every gate driving an input, and either 1 or exactly one above the
   * deepest of them.
   */
  predicate DepthFits(nodes: seq<Node>, gates: seq<Gate>, ins: seq<nat>, d: nat)
    requires ProducersMatch(nodes, gates)
    requires forall k :: 0 <= k < |ins| ==> ins[k] < |nodes|
  {
    d >= 1 &&
    (forall k :: 0 <= k < |ins| && nodes[ins[k]].producer.Some? ==>
       gates[nodes[ins[k]].producer.value].depth < d) &&
    (d == 1 || (exists k :: 0 <= k < |ins| && nodes[ins[k]].producer.Some? &&
                  d == gates[nodes[ins[k]].producer.value].depth + 1))
  }

  predicate DepthsFit(nodes: seq<Node>, gates: seq<Gate>)
    requires ProducersMatch(nodes, gates) && InputsBefore(gates)
  {
    forall g :: 0 <= g < |gates| ==> DepthFits(nodes, gates, gates[g].inputs, gates[g].depth)
  }

  /** Controllabilities, once computed, are at least 1. */
  predicate CcPositive(nodes: seq<Node>)
  {
    forall n :: 0 <= n < |nodes| && nodes[n].cc.Some? ==> nodes[n].cc.value.cc0 >= 1 && nodes[n].cc.value.cc1 >= 1
  }

  predicate WellFormed(nodes: seq<Node>, gates: seq<Gate>)
  {
    ProducersMatch(nodes, gates) && InputsBefore(gates) && ConsumersMirror(nodes, gates) &&
    DepthsFit(nodes, gates) && CcPositive(nodes)
  }

  // ---------------------------------------------------------------------
  // The gates list of a node
  // ---------------------------------------------------------------------

  /** The gates list of n holds exactly the gates with n among their inputs. */
  lemma {:induction false} ConsumersOfMember(gates: seq<Gate>, n: nat, c: nat)
    ensures c in ConsumersOf(gates, n) <==> c < |gates| && n in gates[c].inputs
  {
    if |gates| > 0 {
      var last := |gates| - 1;
      ConsumersOfMember(gates[..last], n, c);
      var tail := Repeat(last, multiset(gates[last].inputs)[n]);
      assert c in tail <==> c == last && n in gates[last].inputs by {
        if c in tail {
          var i :| 0 <= i < |tail| && tail[i] == c;
        }
        if c == last && n in gates[last].inputs {
          assert tail[0] == c;
        }
      }
    }
  }

  /** Each gate in the gates list of a node has its output after that node. */
  lemma ConsumersForward(nodes: seq<Node>, gates: seq<Gate>, n: nat)
    requires WellFormed(nodes, gates) && n < |nodes|
    ensures forall k :: 0 <= k < |nodes[n].consumers| ==>
      nodes[n].consumers[k] < |gates| && n < gates[nodes[n].consumers[k]].output
  {
    forall k | 0 <= k < |nodes[n].consumers|
      ensures nodes[n].consumers[k] < |gates| && n < gates[nodes[n].consumers[k]].output
    {
      var c := nodes[n].consumers[k];
      ConsumersOfMember(gates, n, c);
      var j :| 0 <= j < |gates[c].inputs| && gates[c].inputs[j] == n;
    }
  }

  /** A node that no gate reads has an empty gates list. */
  lemma {:induction false} ConsumersOfUnread(gates: seq<Gate>, n: nat)
    requires forall g :: 0 <= g < |gates| ==> n !in gates[g].inputs
    ensures ConsumersOf(gates, n) == []
  {
    if |gates| > 0 {
      ConsumersOfUnread(gates[..|gates| - 1], n);
    }
  }

  // ---------------------------------------------------------------------
  // Node predicates
  // ---------------------------------------------------------------------

  /** Node.is_faulty. */
  predicate IsFaulty(n: Node) { n.fault != FaultFree }

  /** Node.is_pi: no gate drives the node. */
  predicate IsPi(n: Node) { n.producer.None? }

  /** Node.is_po: the node feeds no gate. */
  predicate IsPo(n: Node) { |n.consumers| == 0 }

  /** Node.is_fanout: the node feeds more than one gate input. */
  predicate IsFanout(n: Node) { |n.consumers| > 1 }

  /** In a well-formed circuit, a primary input is a node no gate outputs. */
  lemma PiIsUndriven(nodes: seq<Node>, gates: seq<Gate>, n: nat)
    requires WellFormed(nodes, gates) && n < |nodes|
    ensures IsPi(nodes[n]) <==> forall g :: 0 <= g < |gates| ==> gates[g].output != n
  {
  }

  /** In a well-formed circuit, a primary output is a node no gate reads. */
  lemma PoIsUnread(nodes: seq<Node>, gates: seq<Gate>, n: nat)
    requires WellFormed(nodes, gates) && n < |nodes|
    ensures IsPo(nodes[n]) <==> forall g :: 0 <= g < |gates| ==> n !in gates[g].inputs
  {
    if !IsPo(nodes[n]) {
      ConsumersOfMember(gates, n, nodes[n].consumers[0]);
    } else {
      forall g | 0 <= g < |gates| ensures n !in gates[g].inputs {
        ConsumersOfMember(gates, n, g);
      }
    }
  }

  /** The total number of gate input pins that node n drives. */
  function Reads(gates: seq<Gate>, n: nat): nat
  {
    if |gates| == 0 then 0 else Reads(gates[..|gates| - 1], n) + multiset(gates[|gates| - 1].inputs)[n]
  }

  /** In a well-formed circuit, a fanout node drives more than one gate input pin. */
  lemma FanoutDrivesSeveralPins(nodes: seq<Node>, gates: seq<Gate>, n: nat)
    requires WellFormed(nodes, gates) && n < |nodes|
    ensures IsFanout(nodes[n]) <==> Reads(gates, n) > 1
  {
    ConsumersOfLength(gates, n);
  }

  lemma {:induction false} ConsumersOfLength(gates: seq<Gate>, n: nat)
    ensures |ConsumersOf(gates, n)| == Reads(gates, n)
  {
    if |gates| > 0 {
      ConsumersOfLength(gates[..|gates| - 1], n);
    }
  }

  // ---------------------------------------------------------------------
  // Values under a fault
  // ---------------------------------------------------------------------

  /** The value a stuck-at fault forces onto its line. */
  function StuckBit(f: Fault): bool
    requires f != FaultFree
  {
    f == StuckAt1
  }

  /** The value activate_fault stores: D for stuck-at-0, ~D for stuck-at-1. */
  function ActivatedValue(f: Fault): (v: Value)
    requires f != FaultFree
    ensures Known(v) && GoodBit(v) == !StuckBit(f) && FaultyBit(v) == StuckBit(f)
  {
    if f == StuckAt0 then D else NotD
  }

  /**
   * The value set_state stores for val on a node with fault f: 1 on a
   * stuck-at-0 line becomes D, 0 on a stuck-at-1 line becomes ~D, and any
   * other value is stored unchanged.
   */
  function Masked(f: Fault, val: Value): Value
  {
    if f == StuckAt0 && val == One then D
    else if f == StuckAt1 && val == Zero then NotD
    else val
  }

  /**
   * On a faulty line, a binary value set by set_state becomes the pair of
   * the good value and the stuck value; a fault-free line and X are
   * unaffected.
   */
  lemma MaskedIsFaultyView(f: Fault, val: Value)
    ensures f == FaultFree || val == X ==> Masked(f, val) == val
    ensures f != FaultFree && (val == Zero || val == One) ==>
      Known(Masked(f, val)) && GoodBit(Masked(f, val)) == GoodBit(val) &&
      FaultyBit(Masked(f, val)) == StuckBit(f)
  {
  }

  /**
   * Node.is_fault_activated: an error on a fault-free node, otherwise
   * whether the node holds D (stuck-at-0) or ~D (stuck-at-1).
   */
  function FaultActivated(n: Node): (r: Result<bool, Error>)
    ensures r.Err? <==> n.fault == FaultFree
    ensures r.Ok? ==> (r.value <==>
      Known(n.state) && GoodBit(n.state) != StuckBit(n.fault) && FaultyBit(n.state) == StuckBit(n.fault))
  {
    if n.fault == FaultFree then Err(NotFaulty)
    else Ok(n.state == ActivatedValue(n.fault))
  }

  /**
   * Driving a faulty line through set_state activates its fault exactly
   * when the value driven is the opposite of the stuck value.
   */
  lemma SetStateActivates(n: Node, val: Value)
    requires IsFaulty(n) && (val == Zero || val == One)
    ensures FaultActivated(n.(state := Masked(n.fault, val))) == Ok(GoodBit(val) != StuckBit(n.fault))
  {
  }

  // ---------------------------------------------------------------------
  // Gate queries
  // ---------------------------------------------------------------------

  /** Every index in ins names a node. */
  predicate NodesIn(nodes: seq<Node>, ins: seq<nat>)
  {
    forall k :: 0 <= k < |ins| ==> ins[k] < |nodes|
  }

  /** A well-formed gate's inputs and output are nodes of the circuit. */
  lemma GateNodesIn(nodes: seq<Node>, gates: seq<Gate>, g: nat)
    requires WellFormed(nodes, gates) && g < |gates|
    ensures NodesIn(nodes, gates[g].inputs) && gates[g].output < |nodes|
  {
    assert forall k :: 0 <= k < |gates[g].inputs| ==> gates[g].inputs[k] < gates[g].output;
  }

  /** The states of the nodes ins, in order (the list Gate.propagate builds). */
  function States(nodes: seq<Node>, ins: seq<nat>): (vs: seq<Value>)
    requires NodesIn(nodes, ins)
    ensures |vs| == |ins| && forall k :: 0 <= k < |ins| ==> vs[k] == nodes[ins[k]].state
  {
    if |ins| == 0 then [] else States(nodes, ins[..|ins| - 1]) + [nodes[ins[|ins| - 1]].state]
  }

  /** The list comprehension of Gate.propagate: the states of the nodes ins, collected in order. */
  method CollectStates(nodes: seq<Node>, ins: seq<nat>) returns (vs: seq<Value>)
    requires NodesIn(nodes, ins)
    ensures vs == States(nodes, ins)
  {
    vs := [];
    for k := 0 to |ins|
      invariant vs == States(nodes, ins[..k])
    {
      assert ins[..k + 1][..k] == ins[..k];
      vs := vs + [nodes[ins[k]].state];
    }
    assert ins[..|ins|] == ins;
  }

  /** Gate.get_unassigned_inputs: the inputs whose value is X, in order. */
  function Unassigned(nodes: seq<Node>, ins: seq<nat>): (r: seq<nat>)
    requires NodesIn(nodes, ins)
    ensures NodesIn(nodes, r) && |r| <= |ins|
    ensures forall x :: x in r <==> x in ins && nodes[x].state == X
  {
    if |ins| == 0 then []
    else
      var last := ins[|ins| - 1];
      Unassigned(nodes, ins[..|ins| - 1]) + (if nodes[last].state == X then [last] else [])
  }

  /** Gate.get_assigned_inputs: the inputs whose value is not X, in order. */
  function Assigned(nodes: seq<Node>, ins: seq<nat>): (r: seq<nat>)
    requires NodesIn(nodes, ins)
    ensures NodesIn(nodes, r) && |r| <= |ins|
    ensures forall x :: x in r <==> x in ins && nodes[x].state != X
  {
    if |ins| == 0 then []
    else
      var last := ins[|ins| - 1];
      Assigned(nodes, ins[..|ins| - 1]) + (if nodes[last].state != X then [last] else [])
  }

  /** Unassigned and Assigned grow by the last input, each when it is of its kind. */
  lemma SelectionsSnoc(nodes: seq<Node>, ins: seq<nat>)
    requires NodesIn(nodes, ins) && |ins| > 0
    ensures var init, last := ins[..|ins| - 1], ins[|ins| - 1];
      Unassigned(nodes, ins) == Unassigned(nodes, init) + (if nodes[last].state == X then [last] else []) &&
      Assigned(nodes, ins) == Assigned(nodes, init) + (if nodes[last].state == X then [] else [last])
  {
  }

  /** Appending one element to one side of a split of init splits init + [last]. */
  lemma SplitSnoc(u: seq<nat>, a: seq<nat>, init: seq<nat>, last: nat, left: bool)
    requires multiset(u) + multiset(a) == multiset(init)
    ensures multiset(u + (if left then [last] else [])) + multiset(a + (if left then [] else [last]))
      == multiset(init + [last])
  {
    if left {
      assert multiset(u + [last]) == multiset(u) + multiset{last};
      assert a + [] == a;
    } else {
      assert multiset(a + [last]) == multiset(a) + multiset{last};
      assert u + [] == u;
    }
  }

  /** The unassigned and the assigned inputs split the input list, pin for pin. */
  lemma {:induction false} UnassignedAssignedPartition(nodes: seq<Node>, ins: seq<nat>)
    requires NodesIn(nodes, ins)
    ensures multiset(Unassigned(nodes, ins)) + multiset(Assigned(nodes, ins)) == multiset(ins)
    ensures |Unassigned(nodes, ins)| + |Assigned(nodes, ins)| == |ins|
  {
    if |ins| > 0 {
      var init, last := ins[..|ins| - 1], ins[|ins| - 1];
      UnassignedAssignedPartition(nodes, init);
      SelectionsSnoc(nodes, ins);
      assert ins == init + [last];
      SplitSnoc(Unassigned(nodes, init), Assigned(nodes, init), init, last, nodes[last].state == X);
    }
    assert |multiset(ins)| == |ins|;
  }

  /**
   * r lists, in input order, the pins k of ins whose state is X (when x holds)
   * or is not X (otherwise); idx gives the pin position of each entry.
   */
  ghost predicate PicksInOrder(nodes: seq<Node>, ins: seq<nat>, r: seq<nat>, idx: seq<nat>, x: bool)
    requires NodesIn(nodes, ins)
  {
    && |idx| == |r|
    && (forall i :: 0 <= i < |idx| ==> idx[i] < |ins| && r[i] == ins[idx[i]])
    && (forall i, j :: 0 <= i < j < |idx| ==> idx[i] < idx[j])
    && (forall k :: 0 <= k < |ins| ==> (k in idx <==> (nodes[ins[k]].state == X) == x))
  }

  /** Both lists keep the input order and take every pin of their kind exactly once. */
  lemma SelectionsKeepOrder(nodes: seq<Node>, ins: seq<nat>)
    requires NodesIn(nodes, ins)
    ensures exists idx :: PicksInOrder(nodes, ins, Unassigned(nodes, ins), idx, true)
    ensures exists idx :: PicksInOrder(nodes, ins, Assigned(nodes, ins), idx, false)
  {
    var iu := UnassignedPositions(nodes, ins);
    var ia := AssignedPositions(nodes, ins);
  }

  /** The pin positions Unassigned picks, by induction on the input list. */
  lemma {:induction false} UnassignedPositions(nodes: seq<Node>, ins: seq<nat>) returns (idx: seq<nat>)
    requires NodesIn(nodes, ins)
    ensures PicksInOrder(nodes, ins, Unassigned(nodes, ins), idx, true)
  {
    if |ins| == 0 {
      idx := [];
    } else {
      var init := ins[..|ins| - 1];
      var last := |ins| - 1;
      var prev := UnassignedPositions(nodes, init);
      if nodes[ins[last]].state == X {
        assert Unassigned(nodes, ins) == Unassigned(nodes, init) + [ins[last]];
        ExtendPicks(nodes, ins, Unassigned(nodes, init), prev, true);
        idx := prev + [last];
      } else {
        assert Unassigned(nodes, ins) == Unassigned(nodes, init);
        StayPicks(nodes, ins, Unassigned(nodes, init), prev, true);
        idx := prev;
      }
    }
  }

  /** The pin positions Assigned picks, by induction on the input list. */
  lemma {:induction false} AssignedPositions(nodes: seq<Node>, ins: seq<nat>) returns (idx: seq<nat>)
    requires NodesIn(nodes, ins)
    ensures PicksInOrder(nodes, ins, Assigned(nodes, ins), idx, false)
  {
    if |ins| == 0 {
      idx := [];
    } else {
      var init := ins[..|ins| - 1];
      var last := |ins| - 1;
      var prev := AssignedPositions(nodes, init);
      if nodes[ins[last]].state != X {
        assert Assigned(nodes, ins) == Assigned(nodes, init) + [ins[last]];
        ExtendPicks(nodes, ins, Assigned(nodes, init), prev, false);
        idx := prev + [last];
      } else {
        assert Assigned(nodes, ins) == Assigned(nodes, init);
        StayPicks(nodes, ins, Assigned(nodes, init), prev, false);
        idx := prev;
      }
    }
  }

  /** A selection of the pins but the last grows by the last pin when it is of its kind. */
  lemma ExtendPicks(nodes: seq<Node>, ins: seq<nat>, r: seq<nat>, idx: seq<nat>, x: bool)
    requires NodesIn(nodes, ins) && |ins| > 0
    requires PicksInOrder(nodes, ins[..|ins| - 1], r, idx, x)
    requires (nodes[ins[|ins| - 1]].state == X) == x
    ensures PicksInOrder(nodes, ins, r + [ins[|ins| - 1]], idx + [|ins| - 1], x)
  {
    var idx' := idx + [|ins| - 1];
    forall k | 0 <= k < |ins|
      ensures k in idx' <==> (nodes[ins[k]].state == X) == x
    {
      if k < |ins| - 1 {
        assert ins[..|ins| - 1][k] == ins[k];
        if k in idx' && k !in idx {
          assert false;
        }
      }
    }
  }

  /** A selection of the pins but the last stays one when the last is not of its kind. */
  lemma StayPicks(nodes: seq<Node>, ins: seq<nat>, r: seq<nat>, idx: seq<nat>, x: bool)
    requires NodesIn(nodes, ins) && |ins| > 0
    requires PicksInOrder(nodes, ins[..|ins| - 1], r, idx, x)
    requires (nodes[ins[|ins| - 1]].state == X) != x
    ensures PicksInOrder(nodes, ins, r, idx, x)
  {
    forall k | 0 <= k < |ins|
      ensures k in idx <==> (nodes[ins[k]].state == X) == x
    {
      if k < |ins| - 1 {
        assert ins[..|ins| - 1][k] == ins[k];
      }
    }
  }

  /**
   * The inputs the hardest/easiest searches range over: the unassigned ones
   * when asked for and there are any, otherwise all of them.
   */
  function Candidates(nodes: seq<Node>, ins: seq<nat>, unassigned: bool): (r: seq<nat>)
    requires NodesIn(nodes, ins)
    ensures NodesIn(nodes, r) && forall x :: x in r ==> x in ins
    ensures |r| == 0 <==> |ins| == 0
    ensures unassigned && (exists k :: 0 <= k < |ins| && nodes[ins[k]].state == X) ==>
      (forall x :: x in r <==> x in ins && nodes[x].state == X) && r == Unassigned(nodes, ins)
    ensures !unassigned || (forall k :: 0 <= k < |ins| ==> nodes[ins[k]].state != X) ==> r == ins
  {
    var u := Unassigned(nodes, ins);
    if unassigned && |u| > 0 then
      assert u[0] in u;
      var k :| 0 <= k < |ins| && ins[k] == u[0];
      assert nodes[ins[k]].state == X;
      u
    else ins
  }

  /** Every node in ins has its controllability set. */
  predicate CcKnown(nodes: seq<Node>, ins: seq<nat>)
    requires NodesIn(nodes, ins)
  {
    forall k :: 0 <= k < |ins| ==> nodes[ins[k]].cc.Some?
  }

  /** The cc0 of a node when val is 0, its cc1 otherwise. */
  function Cost(n: Node, val: int): nat
    requires n.cc.Some?
  {
    if val == 0 then n.cc.value.cc0 else n.cc.value.cc1
  }

  /** Position k holds the first of the largest costs among cs. */
  predicate FirstMax(nodes: seq<Node>, cs: seq<nat>, val: int, k: nat)
    requires NodesIn(nodes, cs) && CcKnown(nodes, cs) && k < |cs|
  {
    (forall j :: 0 <= j < |cs| ==> Cost(nodes[cs[j]], val) <= Cost(nodes[cs[k]], val)) &&
    (forall j :: 0 <= j < k ==> Cost(nodes[cs[j]], val) < Cost(nodes[cs[k]], val))
  }

  /** Position k holds the first of the smallest costs among cs. */
  predicate FirstMin(nodes: seq<Node>, cs: seq<nat>, val: int, k: nat)
    requires NodesIn(nodes, cs) && CcKnown(nodes, cs) && k < |cs|
  {
    (forall j :: 0 <= j < |cs| ==> Cost(nodes[cs[k]], val) <= Cost(nodes[cs[j]], val)) &&
    (forall j :: 0 <= j < k ==> Cost(nodes[cs[k]], val) < Cost(nodes[cs[j]], val))
  }

  /** The starting value of the running minimum in get_easiest_controllable_input. */
  const EasiestSentinel: nat := 100000

  /**
   * Gate.is_on_d_frontier: the output is still X while some input carries
   * D or ~D.
   */
  predicate IsOnDFrontier(nodes: seq<Node>, gates: seq<Gate>, g: nat)
    requires WellFormed(nodes, gates) && g < |gates|
  {
    GateNodesIn(nodes, gates, g);
    var vals := States(nodes, gates[g].inputs);
    nodes[gates[g].output].state == X && (D in vals || NotD in vals)
  }

  /**
   * If a gate on the D-frontier holds the value its rule computes, one of its
   * inputs is still X: a rule gives X only when some input is X.
   */
  lemma FrontierNeedsXInput(nodes: seq<Node>, gates: seq<Gate>, g: nat)
    requires WellFormed(nodes, gates) && g < |gates|
    requires ArityOk(gates[g].kind, |gates[g].inputs|)
    requires IsOnDFrontier(nodes, gates, g)
    requires nodes[gates[g].output].state == Eval(gates[g].kind, States(nodes, gates[g].inputs))
    ensures exists k :: 0 <= k < |gates[g].inputs| && nodes[gates[g].inputs[k]].state == X
  {
    var vals := States(nodes, gates[g].inputs);
    var k :| 0 <= k < |vals| && vals[k] == X;
  }

  /** The inputs' cc0 values, in order. */
  function Cc0s(nodes: seq<Node>, ins: seq<nat>): (cs: seq<nat>)
    requires NodesIn(nodes, ins) && CcKnown(nodes, ins)
    ensures |cs| == |ins| && forall k :: 0 <= k < |ins| ==> cs[k] == nodes[ins[k]].cc.value.cc0
  {
    if |ins| == 0 then [] else Cc0s(nodes, ins[..|ins| - 1]) + [nodes[ins[|ins| - 1]].cc.value.cc0]
  }

  /** The inputs' cc1 values, in order. */
  function Cc1s(nodes: seq<Node>, ins: seq<nat>): (cs: seq<nat>)
    requires NodesIn(nodes, ins) && CcKnown(nodes, ins)
    ensures |cs| == |ins| && forall k :: 0 <= k < |ins| ==> cs[k] == nodes[ins[k]].cc.value.cc1
  {
    if |ins| == 0 then [] else Cc1s(nodes, ins[..|ins| - 1]) + [nodes[ins[|ins| - 1]].cc.value.cc1]
  }

  /** What set_controllability needs: for a gate output, inputs with cc set and a count the formula takes. */
  predicate CcReady(nodes: seq<Node>, gates: seq<Gate>, i: nat)
    requires WellFormed(nodes, gates) && i < |nodes|
  {
    match nodes[i].producer
    case None => true
    case Some(g) =>
      GateNodesIn(nodes, gates, g);
      CcDefined(gates[g].kind, |gates[g].inputs|) && CcKnown(nodes, gates[g].inputs)
  }

  /** The pair Node.set_controllability computes for node i. */
  function NodeCc(nodes: seq<Node>, gates: seq<Gate>, i: nat): (c: Cc)
    requires WellFormed(nodes, gates) && i < |nodes| && CcReady(nodes, gates, i)
    ensures c.cc0 >= 1 && c.cc1 >= 1
    ensures IsPi(nodes[i]) ==> c == Cc(1, 1)
  {
    match nodes[i].producer
    case None => Cc(1, 1)
    case Some(g) =>
      GateNodesIn(nodes, gates, g);
      var ins := gates[g].inputs;
      GateCc(gates[g].kind, Cc0s(nodes, ins), Cc1s(nodes, ins))
  }

  /**
   * Gate.get_hardest_controllable_input: the first candidate whose cc0
   * (val 0) or cc1 (otherwise) is strictly above every earlier one and above
   * 0, so the first of the largest; None when every candidate costs 0.
   */
  method HardestInput(nodes: seq<Node>, gates: seq<Gate>, g: nat, val: int, unassigned: bool) returns (r: Option<nat>)
    requires g < |gates| && NodesIn(nodes, gates[g].inputs)
    requires CcKnown(nodes, Candidates(nodes, gates[g].inputs, unassigned))
    ensures r.None? <==> forall k :: 0 <= k < |Candidates(nodes, gates[g].inputs, unassigned)| ==>
      Cost(nodes[Candidates(nodes, gates[g].inputs, unassigned)[k]], val) == 0
    ensures r.Some? ==>
      exists k :: 0 <= k < |Candidates(nodes, gates[g].inputs, unassigned)| &&
        Candidates(nodes, gates[g].inputs, unassigned)[k] == r.value &&
        Cost(nodes[r.value], val) > 0 && FirstMax(nodes, Candidates(nodes, gates[g].inputs, unassigned), val, k)
  {
    var cs := Candidates(nodes, gates[g].inputs, unassigned);
    var maxm := 0;
    r := None;
    ghost var at := 0;
    for k := 0 to |cs|
      invariant at <= k
      invariant r.None? ==> maxm == 0
      invariant r.Some? ==> at < k && cs[at] == r.value && maxm == Cost(nodes[cs[at]], val) > 0
      invariant forall j :: 0 <= j < k ==> Cost(nodes[cs[j]], val) <= maxm
      invariant forall j :: 0 <= j < at ==> Cost(nodes[cs[j]], val) < maxm
    {
      var controllability := Cost(nodes[cs[k]], val);
      if controllability > maxm {
        r := Some(cs[k]);
        maxm := controllability;
        at := k;
      }
    }
  }

  /**
   * Gate.get_easiest_controllable_input: the first candidate whose cost is
   * strictly below every earlier one and below the 100000 sentinel, so the
   * first of the smallest; None when every candidate costs 100000 or more.
   */
  method EasiestInput(nodes: seq<Node>, gates: seq<Gate>, g: nat, val: int, unassigned: bool) returns (r: Option<nat>)
    requires g < |gates| && NodesIn(nodes, gates[g].inputs)
    requires CcKnown(nodes, Candidates(nodes, gates[g].inputs, unassigned))
    ensures r.None? <==> forall k :: 0 <= k < |Candidates(nodes, gates[g].inputs, unassigned)| ==>
      Cost(nodes[Candidates(nodes, gates[g].inputs, unassigned)[k]], val) >= EasiestSentinel
    ensures r.Some? ==>
      exists k :: 0 <= k < |Candidates(nodes, gates[g].inputs, unassigned)| &&
        Candidates(nodes, gates[g].inputs, unassigned)[k] == r.value &&
        Cost(nodes[r.value], val) < EasiestSentinel &&
        FirstMin(nodes, Candidates(nodes, gates[g].inputs, unassigned), val, k)
  {
    var cs := Candidates(nodes, gates[g].inputs, unassigned);
    var minm := EasiestSentinel;
    r := None;
    ghost var at := 0;
    for k := 0 to |cs|
      invariant at <= k
      invariant r.None? ==> minm == EasiestSentinel
      invariant r.Some? ==> at < k && cs[at] == r.value && minm == Cost(nodes[cs[at]], val) < EasiestSentinel
      invariant forall j :: 0 <= j < k ==> minm <= Cost(nodes[cs[j]], val)
      invariant forall j :: 0 <= j < at ==> minm < Cost(nodes[cs[j]], val)
    {
      var controllability := Cost(nodes[cs[k]], val);
      if controllability < minm {
        r := Some(cs[k]);
        minm := controllability;
        at := k;
      }
    }
  }

  /** In a well-formed circuit controllabilities are positive, so the hardest input is None only without candidates. */
  lemma HardestNoneOnlyWithoutCandidates(nodes: seq<Node>, gates: seq<Gate>, g: nat, val: int, unassigned: bool)
    requires WellFormed(nodes, gates) && g < |gates|
    requires NodesIn(nodes, gates[g].inputs)
    requires CcKnown(nodes, Candidates(nodes, gates[g].inputs, unassigned))
    ensures (forall k :: 0 <= k < |Candidates(nodes, gates[g].inputs, unassigned)| ==>
               Cost(nodes[Candidates(nodes, gates[g].inputs, unassigned)[k]], val) == 0)
            <==> |Candidates(nodes, gates[g].inputs, unassigned)| == 0
  {
    var cs := Candidates(nodes, gates[g].inputs, unassigned);
    if |cs| > 0 {
      assert Cost(nodes[cs[0]], val) >= 1;
    }
  }

  // ---------------------------------------------------------------------
  // has_x_path
  // ---------------------------------------------------------------------

  /**
   * The part of well-formedness the search relies on: gate outputs are
   * nodes, and every gate a node feeds has its output after that node.
   */
  predicate Forward(nodes: seq<Node>, gates: seq<Gate>)
  {
    (forall g :: 0 <= g < |gates| ==> gates[g].output < |nodes|) &&
    (forall n, k :: 0 <= n < |nodes| && 0 <= k < |nodes[n].consumers| ==>
       nodes[n].consumers[k] < |gates| && n < gates[nodes[n].consumers[k]].output)
  }

  lemma WellFormedIsForward(nodes: seq<Node>, gates: seq<Gate>)
    requires WellFormed(nodes, gates)
    ensures Forward(nodes, gates)
  {
    forall n | 0 <= n < |nodes|
      ensures forall k :: 0 <= k < |nodes[n].consumers| ==>
        nodes[n].consumers[k] < |gates| && n < gates[nodes[n].consumers[k]].output
    {
      ConsumersForward(nodes, gates, n);
    }
  }

  /**
   * Node m leads to a primary output through X values only: m is X and is
   * a primary output itself or drives a gate whose output does.
   */
  ghost predicate XReaches(nodes: seq<Node>, gates: seq<Gate>, m: nat)
    requires Forward(nodes, gates) && m < |nodes|
    decreases |nodes| - m
  {
    nodes[m].state == X &&
    (IsPo(nodes[m]) ||
     exists k :: 0 <= k < |nodes[m].consumers| && XReaches(nodes, gates, gates[nodes[m].consumers[k]].output))
  }

  /** Node b is the output of a gate that node a drives. */
  predicate Drives(nodes: seq<Node>, gates: seq<Gate>, a: nat, b: nat)
    requires Forward(nodes, gates) && a < |nodes|
  {
    exists k :: 0 <= k < |nodes[a].consumers| && gates[nodes[a].consumers[k]].output == b
  }

  /**
   * An explicit path of X nodes, each driving the next through a gate,
   * that ends at a primary output.
   */
  ghost predicate IsXPath(nodes: seq<Node>, gates: seq<Gate>, p: seq<nat>)
    requires Forward(nodes, gates)
  {
    |p| > 0 && NodesIn(nodes, p) &&
    (forall j :: 0 <= j < |p| ==> nodes[p[j]].state == X) &&
    (forall j :: 0 <= j < |p| - 1 ==> Drives(nodes, gates, p[j], p[j + 1])) &&
    IsPo(nodes[p[|p| - 1]])
  }

  /** XReaches holds exactly when an explicit X path starts at the node. */
  lemma XReachesIsPath(nodes: seq<Node>, gates: seq<Gate>, m: nat)
    requires Forward(nodes, gates) && m < |nodes|
    ensures XReaches(nodes, gates, m) <==> exists p :: IsXPath(nodes, gates, p) && p[0] == m
  {
    if XReaches(nodes, gates, m) {
      var p := PathOf(nodes, gates, m);
    }
    if exists p :: IsXPath(nodes, gates, p) && p[0] == m {
      var p :| IsXPath(nodes, gates, p) && p[0] == m;
      PathReaches(nodes, gates, p);
    }
  }

  lemma {:induction false} PathOf(nodes: seq<Node>, gates: seq<Gate>, m: nat) returns (p: seq<nat>)
    requires Forward(nodes, gates) && m < |nodes| && XReaches(nodes, gates, m)
    ensures IsXPath(nodes, gates, p) && p[0] == m
    decreases |nodes| - m
  {
    if IsPo(nodes[m]) {
      p := [m];
    } else {
      var k :| 0 <= k < |nodes[m].consumers| && XReaches(nodes, gates, gates[nodes[m].consumers[k]].output);
      var o := gates[nodes[m].consumers[k]].output;
      var q := PathOf(nodes, gates, o);
      p := [m] + q;
      assert Drives(nodes, gates, m, o);
      forall j | 0 <= j < |p| - 1
        ensures Drives(nodes, gates, p[j], p[j + 1])
      {
        if j > 0 {
          assert p[j] == q[j - 1] && p[j + 1] == q[j];
        }
      }
      assert forall j :: 0 <= j < |q| ==> p[j + 1] == q[j];
    }
  }

  lemma {:induction false} PathReaches(nodes: seq<Node>, gates: seq<Gate>, p: seq<nat>)
    requires Forward(nodes, gates) && IsXPath(nodes, gates, p)
    ensures XReaches(nodes, gates, p[0])
    decreases |p|
  {
    if |p| > 1 {
      var q := p[1..];
      forall j | 0 <= j < |q| - 1
        ensures Drives(nodes, gates, q[j], q[j + 1])
      {
        assert q[j] == p[j + 1] && q[j + 1] == p[j + 2];
      }
      assert IsXPath(nodes, gates, q);
      PathReaches(nodes, gates, q);
      assert Drives(nodes, gates, p[0], p[1]);
      var k :| 0 <= k < |nodes[p[0]].consumers| && gates[nodes[p[0]].consumers[k]].output == p[1];
      assert XReaches(nodes, gates, gates[nodes[p[0]].consumers[k]].output);
    }
  }

  /**
   * What Node.has_x_path answers: for a primary output, whether it is X;
   * otherwise whether one of the gates it drives has an output that leads
   * to a primary output through X values.
   */
  ghost predicate HasXPathSpec(nodes: seq<Node>, gates: seq<Gate>, n: nat)
    requires Forward(nodes, gates) && n < |nodes|
  {
    if IsPo(nodes[n]) then nodes[n].state == X
    else exists k :: 0 <= k < |nodes[n].consumers| && XReaches(nodes, gates, gates[nodes[n].consumers[k]].output)
  }

  /** Each index in cs names a gate. */
  predicate GatesIn(gates: seq<Gate>, cs: seq<nat>)
  {
    forall k :: 0 <= k < |cs| ==> cs[k] < |gates|
  }

  /** The outputs of the gates cs whose value is X, in order (what the search pushes). */
  function XOutputs(nodes: seq<Node>, gates: seq<Gate>, cs: seq<nat>): (r: seq<nat>)
    requires Forward(nodes, gates) && GatesIn(gates, cs)
    ensures NodesIn(nodes, r)
    ensures forall i :: 0 <= i < |r| ==>
      nodes[r[i]].state == X && exists k :: 0 <= k < |cs| && r[i] == gates[cs[k]].output
    ensures forall k :: 0 <= k < |cs| && nodes[gates[cs[k]].output].state == X ==> gates[cs[k]].output in r
  {
    if |cs| == 0 then []
    else
      var init, o := cs[..|cs| - 1], gates[cs[|cs| - 1]].output;
      var r0 := XOutputs(nodes, gates, init);
      assert forall k :: 0 <= k < |init| ==> init[k] == cs[k];
      r0 + (if nodes[o].state == X then [o] else [])
  }

  /** Some pushed output leads on exactly when some gate of cs has an output that does. */
  lemma XOutputsReach(nodes: seq<Node>, gates: seq<Gate>, cs: seq<nat>)
    requires Forward(nodes, gates) && GatesIn(gates, cs)
    ensures AnyReaches(nodes, gates, XOutputs(nodes, gates, cs))
        <==> (exists k :: 0 <= k < |cs| && XReaches(nodes, gates, gates[cs[k]].output))
  {
    var r := XOutputs(nodes, gates, cs);
    if exists k :: 0 <= k < |cs| && XReaches(nodes, gates, gates[cs[k]].output) {
      var k :| 0 <= k < |cs| && XReaches(nodes, gates, gates[cs[k]].output);
      assert gates[cs[k]].output in r;
      var i :| 0 <= i < |r| && r[i] == gates[cs[k]].output;
      assert XReaches(nodes, gates, r[i]);
    }
    if exists i :: 0 <= i < |r| && XReaches(nodes, gates, r[i]) {
      var i :| 0 <= i < |r| && XReaches(nodes, gates, r[i]);
      var k :| 0 <= k < |cs| && r[i] == gates[cs[k]].output;
      assert XReaches(nodes, gates, gates[cs[k]].output);
    }
  }

  /**
   * The number of paths from m to primary outputs along gates, counting
   * each path by its node sequence; the search's stack can only shrink in
   * this measure.
   */
  ghost function PathCount(nodes: seq<Node>, gates: seq<Gate>, m: nat): nat
    requires Forward(nodes, gates) && m < |nodes|
    decreases |nodes| - m, 1
  {
    1 + PathsThrough(nodes, gates, m, nodes[m].consumers)
  }

  ghost function PathsThrough(nodes: seq<Node>, gates: seq<Gate>, m: nat, cs: seq<nat>): nat
    requires Forward(nodes, gates) && m < |nodes|
    requires forall k :: 0 <= k < |cs| ==> cs[k] < |gates| && m < gates[cs[k]].output
    decreases |nodes| - m, 0, |cs|
  {
    if |cs| == 0 then 0
    else PathsThrough(nodes, gates, m, cs[..|cs| - 1]) + PathCount(nodes, gates, gates[cs[|cs| - 1]].output)
  }

  ghost function StackCount(nodes: seq<Node>, gates: seq<Gate>, stack: seq<nat>): nat
    requires Forward(nodes, gates) && NodesIn(nodes, stack)
  {
    if |stack| == 0 then 0
    else StackCount(nodes, gates, stack[..|stack| - 1]) + PathCount(nodes, gates, stack[|stack| - 1])
  }

  lemma {:induction false} StackCountAppend(nodes: seq<Node>, gates: seq<Gate>, a: seq<nat>, b: seq<nat>)
    requires Forward(nodes, gates) && NodesIn(nodes, a) && NodesIn(nodes, b)
    ensures StackCount(nodes, gates, a + b) == StackCount(nodes, gates, a) + StackCount(nodes, gates, b)
    decreases |b|
  {
    if |b| == 0 {
      assert a + b == a;
    } else {
      StackCountAppend(nodes, gates, a, b[..|b| - 1]);
      assert (a + b)[..|a + b| - 1] == a + b[..|b| - 1];
      assert (a + b)[|a + b| - 1] == b[|b| - 1];
    }
  }

  lemma {:induction false} XOutputsCount(nodes: seq<Node>, gates: seq<Gate>, m: nat, cs: seq<nat>)
    requires Forward(nodes, gates) && m < |nodes|
    requires forall k :: 0 <= k < |cs| ==> cs[k] < |gates| && m < gates[cs[k]].output
    ensures StackCount(nodes, gates, XOutputs(nodes, gates, cs)) <= PathsThrough(nodes, gates, m, cs)
  {
    if |cs| > 0 {
      var init, o := cs[..|cs| - 1], gates[cs[|cs| - 1]].output;
      XOutputsCount(nodes, gates, m, init);
      var tail := if nodes[o].state == X then [o] else [];
      assert XOutputs(nodes, gates, cs) == XOutputs(nodes, gates, init) + tail;
      assert PathsThrough(nodes, gates, m, cs) == PathsThrough(nodes, gates, m, init) + PathCount(nodes, gates, o);
      StackCountAppend(nodes, gates, XOutputs(nodes, gates, init), tail);
      assert StackCount(nodes, gates, tail) <= PathCount(nodes, gates, o) by {
        if nodes[o].state == X {
          assert tail[..0] == [];
        }
      }
    }
  }

  /** Some node of the stack leads to a primary output through X values. */
  ghost predicate AnyReaches(nodes: seq<Node>, gates: seq<Gate>, stack: seq<nat>)
    requires Forward(nodes, gates) && NodesIn(nodes, stack)
  {
    exists i :: 0 <= i < |stack| && XReaches(nodes, gates, stack[i])
  }

  lemma AnyReachesAppend(nodes: seq<Node>, gates: seq<Gate>, a: seq<nat>, b: seq<nat>)
    requires Forward(nodes, gates) && NodesIn(nodes, a) && NodesIn(nodes, b)
    ensures AnyReaches(nodes, gates, a + b) <==> AnyReaches(nodes, gates, a) || AnyReaches(nodes, gates, b)
  {
    var ab := a + b;
    if AnyReaches(nodes, gates, ab) {
      var i :| 0 <= i < |ab| && XReaches(nodes, gates, ab[i]);
      if i < |a| {
        assert a[i] == ab[i];
      } else {
        assert b[i - |a|] == ab[i];
      }
    }
    if AnyReaches(nodes, gates, a) {
      var i :| 0 <= i < |a| && XReaches(nodes, gates, a[i]);
      assert ab[i] == a[i];
    }
    if AnyReaches(nodes, gates, b) {
      var i :| 0 <= i < |b| && XReaches(nodes, gates, b[i]);
      assert ab[|a| + i] == b[i];
    }
  }

  /** Every node on the stack is X, as the search only ever pushes X nodes. */
  predicate AllX(nodes: seq<Node>, stack: seq<nat>)
    requires NodesIn(nodes, stack)
  {
    forall i :: 0 <= i < |stack| ==> nodes[stack[i]].state == X
  }

  /** Popping the top of the stack splits the answer between the top and the rest. */
  lemma PopReaches(nodes: seq<Node>, gates: seq<Gate>, stack: seq<nat>)
    requires Forward(nodes, gates) && NodesIn(nodes, stack) && |stack| > 0
    ensures stack == stack[..|stack| - 1] + [stack[|stack| - 1]]
    ensures AnyReaches(nodes, gates, stack) <==>
      AnyReaches(nodes, gates, stack[..|stack| - 1]) || XReaches(nodes, gates, stack[|stack| - 1])
    ensures AllX(nodes, stack) ==> AllX(nodes, stack[..|stack| - 1]) && nodes[stack[|stack| - 1]].state == X
  {
    var rest, top := stack[..|stack| - 1], stack[|stack| - 1];
    assert stack == rest + [top];
    AnyReachesAppend(nodes, gates, rest, [top]);
    assert AnyReaches(nodes, gates, [top]) <==> XReaches(nodes, gates, top) by {
      if XReaches(nodes, gates, top) {
        assert [top][0] == top;
      }
    }
  }

  /**
   * One round of the search: popping a non-output X node and pushing the X
   * outputs of its gates keeps the answer.
   */
  lemma SearchStepReach(nodes: seq<Node>, gates: seq<Gate>, rest: seq<nat>, node: nat)
    requires Forward(nodes, gates) && NodesIn(nodes, rest) && node < |nodes|
    requires nodes[node].state == X && !IsPo(nodes[node])
    ensures GatesIn(gates, nodes[node].consumers)
    ensures
      AnyReaches(nodes, gates, rest + XOutputs(nodes, gates, nodes[node].consumers)) <==>
      AnyReaches(nodes, gates, rest) || XReaches(nodes, gates, node)
    ensures AllX(nodes, rest) ==> AllX(nodes, rest + XOutputs(nodes, gates, nodes[node].consumers))
  {
    var cs := nodes[node].consumers;
    var pushed := XOutputs(nodes, gates, cs);
    XOutputsReach(nodes, gates, cs);
    AnyReachesAppend(nodes, gates, rest, pushed);
    if AllX(nodes, rest) {
      forall i | 0 <= i < |rest + pushed|
        ensures nodes[(rest + pushed)[i]].state == X
      {
        if i >= |rest| {
          assert (rest + pushed)[i] == pushed[i - |rest|];
        }
      }
    }
  }

  /** The same round shrinks the stack's path count. */
  lemma SearchStepCount(nodes: seq<Node>, gates: seq<Gate>, rest: seq<nat>, node: nat)
    requires Forward(nodes, gates) && NodesIn(nodes, rest) && node < |nodes|
    ensures GatesIn(gates, nodes[node].consumers)
    ensures
      var next := rest + XOutputs(nodes, gates, nodes[node].consumers);
      StackCount(nodes, gates, next) < StackCount(nodes, gates, rest + [node])
  {
    var cs := nodes[node].consumers;
    var pushed := XOutputs(nodes, gates, cs);
    XOutputsCount(nodes, gates, node, cs);
    StackCountAppend(nodes, gates, rest, pushed);
    StackCountAppend(nodes, gates, rest, [node]);
    assert [node][..0] == [];
  }

  /**
   * Node.has_x_path: a depth-first search with an explicit stack of nodes,
   * seeded with the X outputs of the gates the node drives; it succeeds on
   * the first primary output popped and otherwise pushes the X outputs of
   * the popped node's gates.
   */
  method HasXPath(nodes: seq<Node>, gates: seq<Gate>, n: nat) returns (found: bool)
    requires Forward(nodes, gates) && n < |nodes|
    ensures found == HasXPathSpec(nodes, gates, n)
  {
    if IsPo(nodes[n]) {
      return nodes[n].state == X;
    }
    var toExplore := XOutputs(nodes, gates, nodes[n].consumers);
    XOutputsReach(nodes, gates, nodes[n].consumers);
    while |toExplore| > 0
      invariant NodesIn(nodes, toExplore)
      invariant AllX(nodes, toExplore)
      invariant HasXPathSpec(nodes, gates, n) <==> AnyReaches(nodes, gates, toExplore)
      decreases StackCount(nodes, gates, toExplore)
    {
      var node := toExplore[|toExplore| - 1];
      var rest := toExplore[..|toExplore| - 1];
      PopReaches(nodes, gates, toExplore);
      toExplore := rest;
      if IsPo(nodes[node]) {
        assert XReaches(nodes, gates, node);
        return true;
      }
      SearchStepReach(nodes, gates, rest, node);
      SearchStepCount(nodes, gates, rest, node);
      toExplore := PushXOutputs(nodes, gates, toExplore, nodes[node].consumers);
    }
    return false;
  }

  /** The inner loop of has_x_path: push the X outputs of the gates cs. */
  method PushXOutputs(nodes: seq<Node>, gates: seq<Gate>, stack: seq<nat>, cs: seq<nat>) returns (stack': seq<nat>)
    requires Forward(nodes, gates) && GatesIn(gates, cs)
    ensures stack' == stack + XOutputs(nodes, gates, cs)
  {
    stack' := stack;
    for j := 0 to |cs|
      invariant stack' == stack + XOutputs(nodes, gates, cs[..j])
    {
      assert cs[..j + 1][..j] == cs[..j];
      var output := gates[cs[j]].output;
      if nodes[output].state == X {
        stack' := stack' + [output];
      }
    }
    assert cs[..|cs|] == cs;
  }

  /**
   * Gate.set_depth over the inputs ins: 1 more than the deepest gate
   * driving one of them, ignoring primary inputs. It only reads the circuit.
   */
  method SetDepth(nodes: seq<Node>, gates: seq<Gate>, ins: seq<nat>) returns (d: nat)
    requires ProducersMatch(nodes, gates) && forall k :: 0 <= k < |ins| ==> ins[k] < |nodes|
    ensures DepthFits(nodes, gates, ins, d)
  {
    var depth := 0;
    for k := 0 to |ins|
      invariant forall j :: 0 <= j < k && nodes[ins[j]].producer.Some? ==>
        gates[nodes[ins[j]].producer.value].depth <= depth
      invariant depth == 0 || (exists j :: 0 <= j < k && nodes[ins[j]].producer.Some? &&
                                 depth == gates[nodes[ins[j]].producer.value].depth)
    {
      var input := ins[k];
      if nodes[input].producer.None? {
        continue;
      }
      var producerDepth := gates[nodes[input].producer.value].depth;
      if producerDepth > depth {
        depth := producerDepth;
      }
    }
    d := depth + 1;
  }

  // ---------------------------------------------------------------------
  // The arena
  // ---------------------------------------------------------------------

  class Circuit {
    var nodes: seq<Node>
    var gates: seq<Gate>

    ghost predicate Valid()
      reads this
    {
      WellFormed(nodes, gates)
    }

    constructor()
      ensures Valid() && nodes == [] && gates == []
    {
      nodes := [];
      gates := [];
    }

    /** Node(stuck_at=f) for a primary input: value X, no gates yet, no controllability. */
    method AddInput(f: Fault) returns (n: nat)
      requires Valid()
      modifies this
      ensures Valid()
      ensures n == |old(nodes)| && nodes == old(nodes) + [Node(X, f, [], None, None)]
      ensures gates == old(gates)
    {
      n := |nodes|;
      nodes := nodes + [Node(X, f, [], None, None)];
      AddInputKeepsValid(old(nodes), nodes, gates);
    }


    /**
     * Gate(kind, *ins): append the new gate to the gates list of each input,
     * once per pin, create its fault-free output node and set its depth.
     */
    method AddGate(kind: GateType, ins: seq<nat>) returns (g: nat)
      requires Valid() && forall k :: 0 <= k < |ins| ==> ins[k] < |nodes|
      modifies this
      ensures Valid()
      ensures g == |old(gates)| && |gates| == g + 1 && |nodes| == |old(nodes)| + 1
      ensures gates == old(gates) + [Gate(kind, ins, |old(nodes)|, gates[g].depth)]
      ensures DepthFits(old(nodes), old(gates), ins, gates[g].depth)
      ensures nodes[|old(nodes)|] == Node(X, FaultFree, [], Some(g), None)
      ensures forall n :: 0 <= n < |old(nodes)| ==>
        nodes[n] == old(nodes)[n].(consumers := old(nodes)[n].consumers + Repeat(g, multiset(ins)[n]))
    {
      g := |gates|;
      var depth := SetDepth(nodes, gates, ins);
      ghost var nodes0 := nodes;
      assert DepthFits(nodes0, old(gates), ins, depth);
      AttachToInputs(ins, g);
      ghost var nodes1 := nodes;
      var output := |nodes|;
      nodes := nodes + [Node(X, FaultFree, [], Some(g), None)];
      gates := gates + [Gate(kind, ins, output, depth)];
      assert forall n :: 0 <= n < |nodes0| ==> nodes[n] == nodes1[n];
      AddGateKeepsValid(nodes0, old(gates), nodes, gates, kind, ins, depth);
    }

    /**
     * Node.set_state: raises on D or ~D for a faulty node, otherwise stores
     * the value as the node's fault shows it.
     */
    method SetState(i: nat, val: Value) returns (r: Outcome<Error>)
      requires Valid() && i < |nodes|
      modifies this
      ensures Valid() && gates == old(gates)
      ensures r.Fail? <==> IsFaulty(old(nodes)[i]) && (val == D || val == NotD)
      ensures r.Fail? ==> r.error == DOnFaultyNode && nodes == old(nodes)
      ensures r.Pass? ==> nodes == old(nodes)[i := old(nodes)[i].(state := Masked(old(nodes)[i].fault, val))]
    {
      var node := nodes[i];
      if IsFaulty(node) && (val == D || val == NotD) {
        return Fail(DOnFaultyNode);
      }
      var stored := val;
      if node.fault == StuckAt0 && val == One {
        stored := D;
      } else if node.fault == StuckAt1 && val == Zero {
        stored := NotD;
      }
      Put(i, node.(state := stored));
      r := Pass;
    }

    /** Node.set_stuck_at. */
    method SetStuckAt(i: nat, f: Fault)
      requires Valid() && i < |nodes|
      modifies this
      ensures Valid() && gates == old(gates)
      ensures nodes == old(nodes)[i := old(nodes)[i].(fault := f)]
    {
      Put(i, nodes[i].(fault := f));
    }

    /** Node.remove_fault: no fault, value X. */
    method RemoveFault(i: nat)
      requires Valid() && i < |nodes|
      modifies this
      ensures Valid() && gates == old(gates)
      ensures nodes == old(nodes)[i := old(nodes)[i].(fault := FaultFree, state := X)]
      ensures !IsFaulty(nodes[i]) && FaultActivated(nodes[i]).Err?
    {
      Put(i, nodes[i].(fault := FaultFree, state := X));
    }

    /** Node.activate_fault: a faulty node takes D or ~D; a fault-free node is left alone. */
    method ActivateFault(i: nat)
      requires Valid() && i < |nodes|
      modifies this
      ensures Valid() && gates == old(gates)
      ensures IsFaulty(old(nodes)[i]) ==>
        nodes == old(nodes)[i := old(nodes)[i].(state := ActivatedValue(old(nodes)[i].fault))]
      ensures !IsFaulty(old(nodes)[i]) ==> nodes == old(nodes)
      ensures IsFaulty(nodes[i]) ==> FaultActivated(nodes[i]) == Ok(true)
    {
      if IsFaulty(nodes[i]) {
        Put(i, nodes[i].(state := ActivatedValue(nodes[i].fault)));
      }
    }

    /** Node.make_faulty: set the fault and, if asked, activate it. */
    method MakeFaulty(i: nat, f: Fault, activate: bool)
      requires Valid() && i < |nodes|
      modifies this
      ensures Valid() && gates == old(gates)
      ensures activate && f != FaultFree ==>
        nodes == old(nodes)[i := old(nodes)[i].(fault := f, state := ActivatedValue(f))]
      ensures !(activate && f != FaultFree) ==> nodes == old(nodes)[i := old(nodes)[i].(fault := f)]
      ensures activate && f != FaultFree ==> FaultActivated(nodes[i]) == Ok(true)
    {
      SetStuckAt(i, f);
      if activate {
        ActivateFault(i);
      }
    }

    /** Node.reset: value X, fault kept. */
    method ResetNode(i: nat)
      requires Valid() && i < |nodes|
      modifies this
      ensures Valid() && gates == old(gates)
      ensures nodes == old(nodes)[i := old(nodes)[i].(state := X)]
    {
      Put(i, nodes[i].(state := X));
    }

    /** Replace node i by a node of the same shape. */
    method Put(i: nat, n: Node)
      requires Valid() && i < |nodes|
      requires n.producer == nodes[i].producer && n.consumers == nodes[i].consumers
      requires n.cc.Some? ==> n.cc.value.cc0 >= 1 && n.cc.value.cc1 >= 1
      modifies this
      ensures Valid() && gates == old(gates) && nodes == old(nodes)[i := n]
    {
      var nodes' := nodes[i := n];
      SameShapeKeepsValid(nodes, nodes', gates);
      nodes := nodes';
    }

    /**
     * Node.set_controllability: (1, 1) for a primary input, otherwise the
     * formula of the driving gate's type over its inputs' pairs; the pair
     * is stored in the node and returned.
     */
    method SetControllability(i: nat) returns (c: Cc)
      requires Valid() && i < |nodes| && CcReady(nodes, gates, i)
      modifies this
      ensures Valid() && gates == old(gates)
      ensures c == NodeCc(old(nodes), gates, i)
      ensures nodes == old(nodes)[i := old(nodes)[i].(cc := Some(c))]
    {
      match nodes[i].producer {
        case None =>
          c := Cc(1, 1);
        case Some(g) =>
          GateNodesIn(nodes, gates, g);
          var ins := gates[g].inputs;
          c := GateControllability(gates[g].kind, Cc0s(nodes, ins), Cc1s(nodes, ins));
      }
      Put(i, nodes[i].(cc := Some(c)));
    }

    /** Gate.reset: every input and the output get value X. */
    method ResetGate(g: nat)
      requires Valid() && g < |gates|
      modifies this
      ensures Valid() && gates == old(gates) && |nodes| == |old(nodes)|
      ensures forall n :: 0 <= n < |nodes| ==>
        nodes[n] == if n in gates[g].inputs || n == gates[g].output then old(nodes)[n].(state := X) else old(nodes)[n]
    {
      GateNodesIn(nodes, gates, g);
      ResetAll(gates[g].inputs);
      ghost var nodes1 := nodes;
      ResetNode(gates[g].output);
      assert forall n :: 0 <= n < |nodes| && n != gates[g].output ==> nodes[n] == nodes1[n];
    }

    /** The loop of Gate.reset over the inputs. */
    method ResetAll(ins: seq<nat>)
      requires Valid() && NodesIn(nodes, ins)
      modifies this
      ensures Valid() && gates == old(gates) && |nodes| == |old(nodes)|
      ensures forall n :: 0 <= n < |nodes| ==>
        nodes[n] == if n in ins then old(nodes)[n].(state := X) else old(nodes)[n]
    {
      for k := 0 to |ins|
        invariant Valid() && gates == old(gates) && |nodes| == |old(nodes)|
        invariant forall n :: 0 <= n < |nodes| ==>
          nodes[n] == if n in ins[..k] then old(nodes)[n].(state := X) else old(nodes)[n]
      {
        assert ins[..k + 1] == ins[..k] + [ins[k]];
        ResetNode(ins[k]);
      }
      assert ins[..|ins|] == ins;
    }

    /**
     * Gate.propagate: evaluate the gate's rule on its inputs' values and
     * store the result in the output through set_state, which raises when
     * the output is faulty and the result is D or ~D.
     */
    method PropagateGate(g: nat) returns (r: Result<Value, Error>)
      requires Valid() && g < |gates| && ArityOk(gates[g].kind, |gates[g].inputs|)
      modifies this
      ensures Valid() && gates == old(gates)
      ensures r.Err? <==>
        IsFaulty(old(nodes)[gates[g].output]) && Eval(gates[g].kind, States(old(nodes), gates[g].inputs)) in {D, NotD}
      ensures r.Err? ==> r.error == DOnFaultyNode && nodes == old(nodes)
      ensures r.Ok? ==>
        r.value == Masked(old(nodes)[gates[g].output].fault, Eval(gates[g].kind, States(old(nodes), gates[g].inputs))) &&
        nodes == old(nodes)[gates[g].output := old(nodes)[gates[g].output].(state := r.value)]
    {
      GateNodesIn(nodes, gates, g);
      var gate := gates[g];
      var ins := CollectStates(nodes, gate.inputs);
      var output := Propagate(gate.kind, ins);
      var o := SetState(gate.output, output);
      if o.Fail? {
        return Err(o.error);
      }
      r := Ok(nodes[gate.output].state);
    }

    /** The loop of Gate.__init__ that appends gate g to the gates list of each input. */
    method AttachToInputs(ins: seq<nat>, g: nat)
      requires forall k :: 0 <= k < |ins| ==> ins[k] < |nodes|
      modifies this
      ensures gates == old(gates) && |nodes| == |old(nodes)|
      ensures forall n :: 0 <= n < |nodes| ==>
        nodes[n] == old(nodes)[n].(consumers := old(nodes)[n].consumers + Repeat(g, multiset(ins)[n]))
    {
      for k := 0 to |ins|
        invariant gates == old(gates) && |nodes| == |old(nodes)|
        invariant forall n :: 0 <= n < |nodes| ==>
          nodes[n] == old(nodes)[n].(consumers := old(nodes)[n].consumers + Repeat(g, multiset(ins[..k])[n]))
      {
        var input := ins[k];
        assert ins[..k + 1] == ins[..k] + [input];
        nodes := nodes[input := nodes[input].(consumers := nodes[input].consumers + [g])];
      }
      assert ins[..|ins|] == ins;
    }
  }

  // ---------------------------------------------------------------------
  // Preservation of well-formedness
  // ---------------------------------------------------------------------

  /** A fitted depth stays fitted when gates are appended and old nodes keep their producers. */
  lemma DepthFitsFrame(nodes: seq<Node>, gates: seq<Gate>, nodes': seq<Node>, gates': seq<Gate>, ins: seq<nat>, d: nat)
    requires ProducersMatch(nodes, gates) && ProducersMatch(nodes', gates')
    requires forall k :: 0 <= k < |ins| ==> ins[k] < |nodes|
    requires |nodes| <= |nodes'| && |gates| <= |gates'|
    requires forall g :: 0 <= g < |gates| ==> gates'[g] == gates[g]
    requires forall n :: 0 <= n < |nodes| ==> nodes'[n].producer == nodes[n].producer
    requires DepthFits(nodes, gates, ins, d)
    ensures DepthFits(nodes', gates', ins, d)
  {
    if d != 1 {
      var k :| 0 <= k < |ins| && nodes[ins[k]].producer.Some? &&
        d == gates[nodes[ins[k]].producer.value].depth + 1;
      assert nodes'[ins[k]].producer == nodes[ins[k]].producer;
    }
  }

  /** Depths stay fitted when gates are appended and old nodes keep their producers. */
  lemma DepthsFitFrame(nodes: seq<Node>, gates: seq<Gate>, nodes': seq<Node>, gates': seq<Gate>)
    requires ProducersMatch(nodes, gates) && InputsBefore(gates) && DepthsFit(nodes, gates)
    requires ProducersMatch(nodes', gates') && InputsBefore(gates')
    requires |nodes| <= |nodes'| && |gates| <= |gates'|
    requires forall g :: 0 <= g < |gates| ==> gates'[g] == gates[g]
    requires forall n :: 0 <= n < |nodes| ==> nodes'[n].producer == nodes[n].producer
    ensures forall g :: 0 <= g < |gates| ==> DepthFits(nodes', gates', gates'[g].inputs, gates'[g].depth)
  {
    forall g | 0 <= g < |gates| ensures DepthFits(nodes', gates', gates'[g].inputs, gates'[g].depth) {
      var ins := gates[g].inputs;
      assert DepthFits(nodes, gates, ins, gates[g].depth);
      assert forall k :: 0 <= k < |ins| ==> ins[k] < gates[g].output < |nodes|;
      DepthFitsFrame(nodes, gates, nodes', gates', ins, gates[g].depth);
    }
  }

  /** Nodes with the same producers and gates lists (states, faults, cc may differ). */
  predicate SameShape(nodes: seq<Node>, nodes': seq<Node>)
  {
    |nodes| == |nodes'| &&
    forall n :: 0 <= n < |nodes| ==> nodes'[n].producer == nodes[n].producer && nodes'[n].consumers == nodes[n].consumers
  }

  /** Changing node states, faults or positive controllabilities keeps the arena well-formed. */
  lemma SameShapeKeepsValid(nodes: seq<Node>, nodes': seq<Node>, gates: seq<Gate>)
    requires WellFormed(nodes, gates) && SameShape(nodes, nodes') && CcPositive(nodes')
    ensures WellFormed(nodes', gates)
  {
    assert ProducersMatch(nodes', gates);
    assert ConsumersMirror(nodes', gates);
    DepthsFitFrame(nodes, gates, nodes', gates);
  }

  lemma AddInputKeepsValid(nodes0: seq<Node>, nodes: seq<Node>, gates: seq<Gate>)
    requires WellFormed(nodes0, gates)
    requires |nodes| == |nodes0| + 1 && nodes[..|nodes0|] == nodes0
    requires nodes[|nodes0|].producer.None? && nodes[|nodes0|].consumers == [] && nodes[|nodes0|].cc.None?
    ensures WellFormed(nodes, gates)
  {
    AddInputShape(nodes0, nodes, gates);
    DepthsFitFrame(nodes0, gates, nodes, gates);
  }

  lemma AddInputShape(nodes0: seq<Node>, nodes: seq<Node>, gates: seq<Gate>)
    requires ProducersMatch(nodes0, gates) && InputsBefore(gates) && ConsumersMirror(nodes0, gates) && CcPositive(nodes0)
    requires |nodes| == |nodes0| + 1 && nodes[..|nodes0|] == nodes0
    requires nodes[|nodes0|].producer.None? && nodes[|nodes0|].consumers == [] && nodes[|nodes0|].cc.None?
    ensures ProducersMatch(nodes, gates) && ConsumersMirror(nodes, gates) && CcPositive(nodes)
    ensures forall n :: 0 <= n < |nodes0| ==> nodes[n] == nodes0[n]
  {
    var n := |nodes0|;
    forall i | 0 <= i < n ensures nodes[i] == nodes0[i] {
      assert nodes[..n][i] == nodes[i];
    }
    AddInputProducers(nodes0, nodes, gates);
    AddInputConsumers(nodes0, nodes, gates);
  }

  lemma AddInputProducers(nodes0: seq<Node>, nodes: seq<Node>, gates: seq<Gate>)
    requires ProducersMatch(nodes0, gates)
    requires |nodes| == |nodes0| + 1 && forall i :: 0 <= i < |nodes0| ==> nodes[i] == nodes0[i]
    requires nodes[|nodes0|].producer.None?
    ensures ProducersMatch(nodes, gates)
  {
  }

  lemma AddInputConsumers(nodes0: seq<Node>, nodes: seq<Node>, gates: seq<Gate>)
    requires ProducersMatch(nodes0, gates) && InputsBefore(gates) && ConsumersMirror(nodes0, gates)
    requires |nodes| == |nodes0| + 1 && forall i :: 0 <= i < |nodes0| ==> nodes[i] == nodes0[i]
    requires nodes[|nodes0|].consumers == []
    ensures ConsumersMirror(nodes, gates)
  {
    var n := |nodes0|;
    forall h | 0 <= h < |gates| ensures n !in gates[h].inputs {
      assert forall k :: 0 <= k < |gates[h].inputs| ==> gates[h].inputs[k] < gates[h].output;
    }
    ConsumersOfUnread(gates, n);
  }

  /** The arena after AddGate is well-formed again. */
  lemma AddGateKeepsValid(nodes0: seq<Node>, gates0: seq<Gate>, nodes: seq<Node>, gates: seq<Gate>,
                          kind: GateType, ins: seq<nat>, depth: nat)
    requires WellFormed(nodes0, gates0) && forall k :: 0 <= k < |ins| ==> ins[k] < |nodes0|
    requires DepthFits(nodes0, gates0, ins, depth)
    requires gates == gates0 + [Gate(kind, ins, |nodes0|, depth)]
    requires |nodes| == |nodes0| + 1
    requires nodes[|nodes0|] == Node(X, FaultFree, [], Some(|gates0|), None)
    requires forall n :: 0 <= n < |nodes0| ==>
      nodes[n] == nodes0[n].(consumers := nodes0[n].consumers + Repeat(|gates0|, multiset(ins)[n]))
    ensures WellFormed(nodes, gates)
  {
    assert forall n :: 0 <= n < |nodes0| ==> nodes[n].producer == nodes0[n].producer && nodes[n].cc == nodes0[n].cc;
    assert forall n :: 0 <= n < |nodes0| ==>
      nodes[n].consumers == nodes0[n].consumers + Repeat(|gates0|, multiset(ins)[n]);
    AddGateProducers(nodes0, gates0, nodes, gates, kind, ins, depth);
    AddGateConsumers(nodes0, gates0, nodes, gates, kind, ins, depth);
    AddGateDepths(nodes0, gates0, nodes, gates, kind, ins, depth);
  }

  lemma AddGateDepths(nodes0: seq<Node>, gates0: seq<Gate>, nodes: seq<Node>, gates: seq<Gate>,
                      kind: GateType, ins: seq<nat>, depth: nat)
    requires ProducersMatch(nodes0, gates0) && InputsBefore(gates0) && DepthsFit(nodes0, gates0)
    requires ProducersMatch(nodes, gates) && InputsBefore(gates)
    requires forall k :: 0 <= k < |ins| ==> ins[k] < |nodes0|
    requires DepthFits(nodes0, gates0, ins, depth)
    requires gates == gates0 + [Gate(kind, ins, |nodes0|, depth)]
    requires |nodes| == |nodes0| + 1
    requires forall n :: 0 <= n < |nodes0| ==> nodes[n].producer == nodes0[n].producer
    ensures DepthsFit(nodes, gates)
  {
    DepthsFitFrame(nodes0, gates0, nodes, gates);
    DepthFitsFrame(nodes0, gates0, nodes, gates, ins, depth);
  }

  lemma AddGateProducers(nodes0: seq<Node>, gates0: seq<Gate>, nodes: seq<Node>, gates: seq<Gate>,
                         kind: GateType, ins: seq<nat>, depth: nat)
    requires ProducersMatch(nodes0, gates0) && InputsBefore(gates0)
    requires forall k :: 0 <= k < |ins| ==> ins[k] < |nodes0|
    requires gates == gates0 + [Gate(kind, ins, |nodes0|, depth)]
    requires |nodes| == |nodes0| + 1
    requires nodes[|nodes0|].producer == Some(|gates0|)
    requires forall n :: 0 <= n < |nodes0| ==> nodes[n].producer == nodes0[n].producer
    ensures ProducersMatch(nodes, gates) && InputsBefore(gates)
  {
  }

  lemma AddGateConsumers(nodes0: seq<Node>, gates0: seq<Gate>, nodes: seq<Node>, gates: seq<Gate>,
                         kind: GateType, ins: seq<nat>, depth: nat)
    requires ProducersMatch(nodes0, gates0) && InputsBefore(gates0) && ConsumersMirror(nodes0, gates0)
    requires CcPositive(nodes0)
    requires forall k :: 0 <= k < |ins| ==> ins[k] < |nodes0|
    requires gates == gates0 + [Gate(kind, ins, |nodes0|, depth)]
    requires |nodes| == |nodes0| + 1
    requires nodes[|nodes0|].consumers == [] && nodes[|nodes0|].cc.None?
    requires forall n :: 0 <= n < |nodes0| ==> nodes[n].cc == nodes0[n].cc
    requires forall n :: 0 <= n < |nodes0| ==>
      nodes[n].consumers == nodes0[n].consumers + Repeat(|gates0|, multiset(ins)[n])
    ensures ConsumersMirror(nodes, gates) && CcPositive(nodes)
  {
    var g := |gates0|;
    assert gates[..g] == gates0;
    var n := |nodes0|;
    forall h | 0 <= h < |gates| ensures n !in gates[h].inputs {
      if h < g {
        assert forall k :: 0 <= k < |gates0[h].inputs| ==> gates0[h].inputs[k] < gates0[h].output;
      }
    }
    ConsumersOfUnread(gates, n);
  }
}
