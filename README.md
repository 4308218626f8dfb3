# gate.py ATPG core in Dafny

This project models `gate.py` from jonahobw/atpg_mcts. That file is the circuit
layer of an automatic test-pattern generator for single stuck-at faults in
combinational circuits. The model covers five parts:

- **Logic** (`logic.dfy`): the five-valued D-calculus 0, 1, X, D, ~D; `invert`;
  the seven propagation rules; `control_value`. Each rule is proved against a
  reference semantics: a known value is a pair of bits, one for the good
  circuit and one for the faulty circuit. On X-free inputs every rule
  computes the Boolean gate in both circuits at once. Every rule is also
  monotone when X inputs are refined, so a known output never changes later.
- **Naming** (`naming.dfy`): `generate_name`. It is a bijection between counts
  and strings of capital letters (bijective base 26).
- **Controllability** (`controllability.dfy`): the SCOAP formulas of
  `Node.set_controllability`. This includes `construct_odds`, proved to
  enumerate exactly the odd-sized increasing subsets of 1..n, and the XOR
  cc1 / XNOR cc0 minimisation loop with its 1000000 sentinel.
- **Netlist** (`netlist.dfy`): nodes and gates as an arena. A `Circuit` class
  holds sequences of node and gate records addressed by index. A
  well-formedness invariant ties the two lists together:
  - each node's `producer` is the gate whose output it is;
  - each node's `consumers` list mirrors the gates' input lists, one entry per pin;
  - gate inputs are created before the gate's output;
  - a gate's depth is 1 when every input is a primary input, otherwise one more than the largest depth among its inputs' producers.

  Every mutator keeps this invariant: adding inputs and gates, `set_state`,
  the fault methods, `reset`, `propagate`, `set_controllability`. The read-only
  queries are functions or value-level methods over the two sequences:
  - assigned / unassigned inputs;
  - hardest and easiest input;
  - D-frontier membership;
  - `has_x_path`, a depth-first search proved to terminate and to answer
    exactly whether a path of X nodes reaches a primary output.
- **Wrappers** (`wrappers.dfy`): `Option`, `Result` and `Outcome`. The
  `ValueError`s raised by `gate.py` become `Err` / `Fail` results.

## Model

| member | source | states |
|---|---|---|
| Logic.FromBits | gate.py:177-180 | a known value is exactly a (good, faulty) bit pair: D is good 1 / faulty 0, ~D the reverse |
| Logic.FromBitsOfBits | gate.py:177-180 | every known value is recovered from its two bits, so the pair encoding is a bijection |
| Logic.Invert | gate.py:296-304 | invert keeps X and only X, and flips both the good and the faulty bit of a known value |
| Logic.InvertInvolution | gate.py:296-304 | inverting twice gives the value back |
| Logic.AndGoodFaulty | gate.py:310-336 | on X-free inputs AND is known, and its good and faulty bits are the Boolean AND of the inputs' good and faulty bits |
| Logic.OrGoodFaulty | gate.py:338-362 | on X-free inputs OR is known, and its bits are the Boolean OR of the inputs' bits |
| Logic.Xor2GoodFaulty | gate.py:371-374 | the two-input XOR rule built from AND, OR and invert XORs the good bits and the faulty bits |
| Logic.Xor2Pairs | gate.py:371-374 | the two AND terms of xor_2inp are never both 1; on the two-element lists xor_2inp builds, the all-1 and all-0 tests of AND and OR hold exactly when both elements have that value |
| Logic.Xor2OfX | gate.py:371-374 | an X on either side of xor_2inp gives X |
| Logic.XorGoodFaulty | gate.py:370-382 | the right-to-left XOR fold over X-free inputs gives the parity of the good bits and of the faulty bits |
| Logic.XorOfX | gate.py:370-382 | any X input makes the XOR fold X |
| Logic.XorPropagate | gate.py:370-382 | the popping while loop returns the right-to-left fold of the inputs |
| Logic.AndEval | gate.py:310-336 | a 0 input forces 0, and so do D and ~D together, whatever else occurs; the output is 1 exactly when every input is 1; X comes out only when some input is X (good/faulty meaning in AndGoodFaulty, monotonicity in AndMonotone) |
| Logic.OrEval | gate.py:338-362 | a 1 input forces 1, and so do D and ~D together, whatever else occurs; the output is 0 exactly when every input is 0; X comes out only when some input is X (OrGoodFaulty, OrMonotone) |
| Logic.Xor2 | gate.py:371-374 | the two-input XOR is X exactly when one of its inputs is X (bit semantics in Xor2GoodFaulty) |
| Logic.XorFold | gate.py:376-382 | the right-to-left fold is X exactly when some input is X (parity in XorGoodFaulty) |
| Logic.Eval | gate.py:292-385 | every rule gives X only when some input is X (Boolean meaning in EvalGoodFaulty, monotonicity in EvalMonotone) |
| Logic.Propagate | gate.py:292-294 | dispatch on the gate type returns the rule for that type |
| Logic.EvalGoodFaulty | gate.py:306-385 | every rule, on X-free inputs of a valid arity, is known and computes the Boolean gate in the good and the faulty circuit |
| Logic.AndMonotone | gate.py:310-336 | refining X inputs of AND can only refine its output |
| Logic.OrMonotone | gate.py:338-362 | refining X inputs of OR can only refine its output |
| Logic.EvalMonotone | gate.py:306-385 | every rule is monotone under refinement of X inputs |
| Logic.KnownOutputIsExact | gate.py:306-385 | a known output on partial inputs already equals the good and faulty Boolean result of every full assignment that refines them |
| Logic.AndPrecise | gate.py:310-336 | when AND gives X, setting every X input to 0 gives 0 and setting every X input to 1 does not |
| Logic.OrPrecise | gate.py:338-362 | when OR gives X, setting every X input to 1 gives 1 and setting every X input to 0 does not |
| Logic.XorPrecise | gate.py:370-382 | with an X input, filling that X with 1 instead of 0 (the other X's with 0) changes the XOR fold |
| Logic.KnownOutputAgrees | gate.py:292-385 | when a rule's output is known, every two X-free completions of its inputs give the same output |
| Logic.XOutputWitnesses | gate.py:292-385 | when a rule gives X, two X-free completions of its inputs give different outputs: all X's to 0 against all to 1 (NOT, AND, NAND, OR, NOR), or against one X raised to 1 (XOR, XNOR) |
| Logic.EvalPrecise | gate.py:292-385 | every rule gives X exactly when two X-free completions of its inputs give different outputs; with EvalMonotone this pins the output of every rule on every input |
| Logic.InvertedGates | gate.py:364-368 | NAND, NOR and XNOR are invert of AND, OR and XOR |
| Logic.AndOrDependOnlyOnValues | gate.py:310-362 | AND and OR depend only on which values occur, not on their order or multiplicity |
| Logic.XorBinaryParity | gate.py:370-382 | on 0/1 inputs XOR gives 0 or 1, and 1 exactly when the number of 1s is odd |
| Logic.XorSingle | gate.py:376-382 | a one-input XOR returns its input unchanged |
| Logic.ControlValue | gate.py:193 | control_value is -1 exactly for NOT, XOR and XNOR, and 0 or 1 for the gates that have a controlling value |
| Logic.ControllingValueDecides | gate.py:397-417 | one input at the controlling value fixes the AND/NAND/OR/NOR output whatever the other inputs are |
| Logic.XorHasNoControllingValue | gate.py:419-426 | XOR and XNOR have no controlling value: either input value can still flip the output |
| Naming.GenerateName | gate.py:7-9 | labels use only letters A to Z and are empty exactly for count 0 |
| Naming.NameValueOfGenerateName | gate.py:7-9 | decoding a generated label as bijective base 26 gives back the count |
| Naming.GenerateNameOfNameValue | gate.py:7-9 | every letter string is the label of the count it decodes to |
| Naming.GenerateNameInjective | gate.py:7-9 | distinct counts get distinct labels |
| Naming.GenerateNameExamples | gate.py:7-9 | 1, 26, 27, 28, 702 and 703 give A, Z, AA, AB, ZZ and AAA |
| Controllability.Min | gate.py:82 | the minimum of a non-empty list is an element and is at most every element |
| Controllability.Combinations | gate.py:63 | itertools.combinations of a range, in its order (CombinationsExact, CombinationsOfOne, CombinationsTooMany) |
| Controllability.CombinationsExact | gate.py:63 | itertools.combinations yields exactly the increasing sequences of length k drawn from the range |
| Controllability.CombinationsOfOne | gate.py:63 | combinations of size one are the singletons, in order |
| Controllability.CombinationsTooMany | gate.py:63 | there are no combinations larger than the range |
| Controllability.OddSizedFromExact | gate.py:59-64 | the odd-size loop yields exactly the increasing odd-sized subsets of 1..n of size at least k |
| Controllability.ConstructOdds | gate.py:42-64 | the odd-sized selections of positions 1..n, by size (ConstructOddsExact, ConstructOddsExamples) |
| Controllability.ConstructOddsExact | gate.py:42-64 | construct_odds(n) yields exactly the odd-sized increasing subsets of 1..n |
| Controllability.ConstructOddsExamples | gate.py:51-54 | the three docstring examples for n = 2, 3, 4 hold as written |
| Controllability.MinTerm | gate.py:66-75 | the loop minimum is at most the sentinel and every term, and is the sentinel or some term |
| Controllability.XorCc1XnorCc0 | gate.py:37-76 | the nested loops return one more than the cheapest odd-parity assignment's cost (capped by the sentinel) |
| Controllability.OddParityCost | gate.py:37-76 | one more than the cheapest odd-parity assignment, capped by the sentinel (OddParityCostIsMinimum, computed by XorCc1XnorCc0) |
| Controllability.OddParityCostIsMinimum | gate.py:37-76 | the result is at most one more than the cost of every odd-sized subset, and is attained by one when any exists |
| Controllability.GateCc | gate.py:78-98 | every per-type formula gives cc0 and cc1 of at least 1 |
| Controllability.GateControllability | gate.py:78-101 | the branch chain computes the per-type pair |
| Controllability.InvertingGatesSwapCc | gate.py:84-98 | NAND, NOR and XNOR get the swapped pair of AND, OR and XOR |
| Controllability.AndCc0IsCheapestInput | gate.py:81-82 | AND cc0 is one more than the cheapest input cc0, attained by some input |
| Controllability.TwoPrimaryInputs | gate.py:78-98 | over two primary inputs AND gets (2,3), OR (3,2), XOR and XNOR (3,3) |
| Controllability.GateCcMonotone | gate.py:78-98 | harder inputs never make a gate easier to control |
| Controllability.XorCc0CountsAnOddAssignment | gate.py:93-94 | the XOR cc0 formula as written includes the all-ones assignment, which drives a 3-input XOR to 1 |
| Netlist.ConsumersOfMember | gate.py:197-199 | a node's consumer list names exactly the gates that read it |
| Netlist.ConsumersOfLength | gate.py:197-199 | a node's consumer list has one entry per input pin it drives |
| Netlist.IsFaulty | gate.py:118-119 | the node carries a stuck-at fault (FaultActivated and MaskedIsFaultyView state what that changes) |
| Netlist.IsFanout | gate.py:121-122 | the node feeds more than one input pin (FanoutDrivesSeveralPins) |
| Netlist.IsPo | gate.py:146-147 | the node feeds no gate (PoIsUnread) |
| Netlist.IsPi | gate.py:167-168 | no gate drives the node (PiIsUndriven) |
| Netlist.Masked | gate.py:124-133 | the value set_state stores on a node with the given fault (MaskedIsFaultyView) |
| Netlist.PiIsUndriven | gate.py:167-168 | a node is a primary input exactly when no gate outputs it |
| Netlist.PoIsUnread | gate.py:146-147 | a node is a primary output exactly when no gate reads it |
| Netlist.FanoutDrivesSeveralPins | gate.py:121-122 | a node is a fanout exactly when it drives more than one input pin |
| Netlist.ActivatedValue | gate.py:135-138 | an activated fault stores the value whose good bit is the opposite of the stuck bit and whose faulty bit is the stuck bit |
| Netlist.MaskedIsFaultyView | gate.py:124-133 | set_state stores the value unchanged on fault-free nodes and for X; on a faulty node a 0/1 value gets the stuck bit as its faulty bit |
| Netlist.FaultActivated | gate.py:140-144 | is_fault_activated fails exactly on fault-free nodes; otherwise it holds iff the good bit differs from the stuck bit and the faulty bit equals it |
| Netlist.SetStateActivates | gate.py:124-144 | after set_state(0/1) on a faulty node, the fault is activated exactly when the value opposes the stuck bit |
| Netlist.States | gate.py:282-284 | the collected input states are the inputs' states, in order |
| Netlist.CollectStates | gate.py:282-284 | the loop that collects the input states returns them in order, as States describes |
| Netlist.Unassigned | gate.py:219-220 | unassigned inputs are exactly the inputs whose state is X |
| Netlist.Assigned | gate.py:222-223 | assigned inputs are exactly the inputs whose state is not X |
| Netlist.UnassignedAssignedPartition | gate.py:219-223 | the two lists split the inputs as a multiset |
| Netlist.Candidates | gate.py:229-233 | when asked for unassigned inputs and some input is X, the candidates are the unassigned list itself: every X input and nothing else, in input order (SelectionsKeepOrder); otherwise all inputs; empty only for a gate without inputs |
| Netlist.SelectionsKeepOrder | gate.py:219-223 | the unassigned and the assigned lists each keep the input order and take every pin of their kind, once per pin |
| Netlist.UnassignedPositions | gate.py:219-220 | the unassigned list is the inputs at the increasing pin positions whose state is X |
| Netlist.AssignedPositions | gate.py:222-223 | the assigned list is the inputs at the increasing pin positions whose state is not X |
| Netlist.IsOnDFrontier | gate.py:264-273 | the output is X and some input holds D or ~D; FrontierNeedsXInput shows such a gate, once propagated, still has an X input |
| Netlist.FrontierNeedsXInput | gate.py:264-273 | a gate on the D-frontier whose output agrees with its inputs has some X input |
| Netlist.NodeCc | gate.py:28-101 | controllability of a node is at least (1,1), and exactly (1,1) for a primary input |
| Netlist.Cost | gate.py:236-238 | the cc0 of the node for val 0 and its cc1 otherwise, as the getattr selects it (HardestInput, EasiestInput) |
| Netlist.HardestInput | gate.py:225-242 | returns none iff every candidate's cost is 0, else the first candidate of largest positive cost |
| Netlist.EasiestInput | gate.py:244-262 | returns none iff every candidate's cost reaches 100000, else the first candidate of smallest cost |
| Netlist.HardestNoneOnlyWithoutCandidates | gate.py:225-242 | in a well-formed circuit, where computed controllabilities are at least 1, every candidate costs 0 exactly when there are no candidates, so hardest returns none only for a gate without inputs |
| Netlist.XReachesIsPath | gate.py:149-165 | the recursive reachability used as the search's specification holds exactly when an explicit all-X path to a primary output exists |
| Netlist.XOutputs | gate.py:156 | the pushed outputs are exactly the X outputs of the given gates |
| Netlist.XOutputsReach | gate.py:156 | some pushed output leads to a primary output exactly when some gate output does |
| Netlist.PopReaches | gate.py:158 | popping the stack top splits the answer between the top and the rest |
| Netlist.SearchStepReach | gate.py:158-164 | expanding a non-output X node keeps the answer of the search |
| Netlist.SearchStepCount | gate.py:158-164 | expanding a node strictly shrinks the number of paths still to explore |
| Netlist.HasXPath | gate.py:149-165 | has_x_path terminates, and answers X-ness for a primary output and otherwise whether some gate output leads to a primary output through X nodes |
| Netlist.PushXOutputs | gate.py:162-164 | the inner loop appends the X outputs of the node's gates to the stack |
| Netlist.Circuit.AddInput | gate.py:15-26 | a new primary input is X, unread, undriven, with unknown controllability |
| Netlist.SetDepth | gate.py:203-217 | depth is 1 for all-PI inputs and otherwise one more than the largest producer depth |
| Netlist.Circuit.AddGate | gate.py:192-201 | the gate is appended, each input gains one consumer entry per pin, and a fresh X output node is created |
| Netlist.Circuit.SetState | gate.py:124-133 | fails exactly for D or ~D on a faulty node; otherwise stores the masked value and nothing else changes |
| Netlist.Circuit.SetStuckAt | gate.py:103-104 | only the fault of the node changes |
| Netlist.Circuit.RemoveFault | gate.py:106-108 | the node becomes fault-free and X |
| Netlist.Circuit.ActivateFault | gate.py:135-138 | a faulty node becomes activated; a fault-free node is untouched |
| Netlist.Circuit.MakeFaulty | gate.py:110-113 | sets the fault and, when asked, leaves the fault activated |
| Netlist.Circuit.ResetNode | gate.py:115-116 | the state becomes X and the fault stays |
| Netlist.Circuit.SetControllability | gate.py:28-101 | stores and returns the per-type controllability pair |
| Netlist.Circuit.ResetGate | gate.py:275-278 | the gate's inputs and output become X and nothing else changes |
| Netlist.Circuit.ResetAll | gate.py:276-277 | every listed node becomes X and nothing else changes |
| Netlist.Circuit.PropagateGate | gate.py:280-290 | fails exactly when a faulty output would get D or ~D; otherwise the output holds the masked rule value |
| Netlist.Circuit.AttachToInputs | gate.py:198-199 | each input's consumer list gains the gate once per pin |
| Netlist.AddInputKeepsValid | gate.py:15-26 | adding a primary input keeps the circuit well formed |
| Netlist.AddGateKeepsValid | gate.py:192-201 | adding a gate keeps the circuit well formed |

## Left out

- Node and gate names: nodes and gates are identified by their index. `Node.name_count`, `Gate.name_counts` and the gate name strings are hidden global counters used only for labels. `generate_name` is modelled on its own, with the count passed explicitly.
- `__repr__` and the verbose printing in `propagate`: they only format text.
- The `explored` list of `has_x_path`: it is appended to but never read.
- Python reflection: `getattr` on the type name and on `cc0`/`cc1` is replaced by a match on `GateType` and by `Cost`, which selects cc0 for `val == 0` and cc1 otherwise.
- `TypeVar`/`Generic`: typing scaffolding only.
- Exceptions: the `ValueError`s of `set_state` and `is_fault_activated` become `Fail`/`Err` results. The arity `assert`s of the NOT, AND and OR rules become the precondition `ArityOk` of propagation.
- Controllability as Python `None`: `cc` is an `Option`. Hardest/easiest and `set_controllability` require the values they read to be present, where `gate.py` would raise a `TypeError`.
- Netlist.HardestInput, Netlist.EasiestInput, Netlist.HasXPath: these read the circuit without changing it, so they take the node and gate sequences as values rather than being `Circuit` methods.
- Netlist.Circuit.AddGate: `gate.py` runs `set_depth` after attaching the gate to its inputs. The model computes the depth first; the result is the same, because depth reads only producer depths.
- Controllability.GateCc: XOR cc0 (XNOR cc1) is kept as written, `min(sum cc0, sum cc1) + 1`. SCOAP's cc0 for XOR is the cheapest even-parity assignment. For an odd number of inputs, the all-ones sum is an odd-parity assignment; XorCc0CountsAnOddAssignment exhibits this with three inputs. The model does not replace the formula, because `set_controllability` stores it as written.
- Gates may be built with any number of inputs, as in `gate.py`. Two operations demand a minimum arity. Propagation requires `ArityOk`. Controllability requires `CcDefined`: at least one input for NOT, AND, NAND, OR and NOR.
- Controllability.GateCc, Controllability.GateControllability, Netlist.NodeCc, Netlist.Circuit.SetControllability: the zero-input error path of `set_controllability` is dropped. There `gate_inputs[0]` raises an `IndexError` (gate.py:79) and `min([])` raises a `ValueError` (gate.py:82, 86, 89, 91). The model requires `CcDefined` instead of modelling these errors.
- Python object identity is modelled by indices. Because the same node may appear twice in a gate's input list, consumer lists have one entry per pin.
- Netlist loading, the PODEM search and test-vector output are not part of this model; they live outside `gate.py`.
