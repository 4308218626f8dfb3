/**
 * The five-valued D-calculus of the gate model: signal values, gate types,
 * and the propagation rule of each gate type.
 *
 * A known value (anything but X) stands for a pair of Boolean values: the
 * value of the signal in the good circuit and in the faulty circuit.
 * D is good 1 / faulty 0 and NotD (written ~D in gate.py) good 0 / faulty 1.
 * The main theorem of this module, EvalGoodFaulty, says that on X-free inputs
 * every gate rule computes the good circuit and the faulty circuit at once;
 * EvalMonotone says that replacing X inputs by known values never changes a
 * known output, so a known output is the same for every completion of the X's.
 */
module Logic {

  datatype Value = Zero | One | X | D | NotD

  datatype GateType = Not | And | Nand | Or | Nor | Xor | Xnor

  predicate Known(v: Value) { v != X }

  /** The value of a known signal in the good circuit. */
  function GoodBit(v: Value): bool
    requires Known(v)
  {
    v == One || v == D
  }

  /** The value of a known signal in the faulty circuit. */
  function FaultyBit(v: Value): bool
    requires Known(v)
  {
    v == One || v == NotD
  }

  /** The known value with the given good-circuit and faulty-circuit bits. */
  function FromBits(good: bool, faulty: bool): (v: Value)
    ensures Known(v) && GoodBit(v) == good && FaultyBit(v) == faulty
  {
    if good && faulty then One
    else if good then D
    else if faulty then NotD
    else Zero
  }

  lemma FromBitsOfBits(v: Value)
    requires Known(v)
    ensures FromBits(GoodBit(v), FaultyBit(v)) == v
  {
  }

  /** Gate.invert: 0 and 1 swap, D and NotD swap, X stays X. */
  function Invert(v: Value): (r: Value)
    ensures r == X <==> v == X
    ensures Known(v) ==> GoodBit(r) == !GoodBit(v) && FaultyBit(r) == !FaultyBit(v)
  {
    match v
    case Zero => One
    case One => Zero
    case X => X
    case D => NotD
    case NotD => D
  }

  lemma InvertInvolution(v: Value)
    ensures Invert(Invert(v)) == v
  {
  }

  /** Every element of ins is v. */
  predicate All(ins: seq<Value>, v: Value)
  {
    forall i :: 0 <= i < |ins| ==> ins[i] == v
  }

  lemma AllPair(a: Value, b: Value, v: Value)
    ensures All([a, b], v) <==> a == v && b == v
  {
    if a != v {
      assert [a, b][0] != v;
    } else if b != v {
      assert [a, b][1] != v;
    }
  }

  /**
   * Gate.and_propagate. The final fallback of and_propagate (a plain 0 after
   * every other case) cannot be reached: with no 0, no X, no D and no NotD
   * every input is 1, which the second test already caught.
   */
  function AndEval(ins: seq<Value>): (r: Value)
    requires |ins| > 1
    ensures Zero in ins ==> r == Zero
    ensures D in ins && NotD in ins ==> r == Zero
    ensures r == One <==> All(ins, One)
    ensures r == X ==> X in ins
  {
    if Zero in ins then Zero
    else if All(ins, One) then One
    else
      var dFound := D in ins;
      var dPrimeFound := NotD in ins;
      if dFound && dPrimeFound then Zero
      else if X in ins then X
      else if dFound && !dPrimeFound then D
      else if !dFound && dPrimeFound then NotD
      else assert false; Zero
  }

  /** Gate.or_propagate, the dual of AndEval. */
  function OrEval(ins: seq<Value>): (r: Value)
    requires |ins| > 1
    ensures One in ins ==> r == One
    ensures D in ins && NotD in ins ==> r == One
    ensures r == Zero <==> All(ins, Zero)
    ensures r == X ==> X in ins
  {
    if One in ins then One
    else if All(ins, Zero) then Zero
    else
      var dFound := D in ins;
      var dPrimeFound := NotD in ins;
      if dFound && dPrimeFound then One
      else if X in ins then X
      else if dFound then D
      else NotD
  }

  /** The two-input XOR rule of Gate.xor_propagate, built from AND, OR and invert. */
  function Xor2(a: Value, b: Value): (r: Value)
    ensures r == X <==> a == X || b == X
  {
    Xor2Pairs(a, b);
    OrEval([AndEval([a, Invert(b)]), AndEval([b, Invert(a)])])
  }

  /**
   * Gate.xor_propagate: start from the last input and fold the remaining
   * inputs in from right to left, the accumulated value first.
   */
  function XorFold(ins: seq<Value>): (r: Value)
    requires |ins| >= 1
    ensures r == X <==> X in ins
  {
    if |ins| == 1 then ins[0] else Xor2(XorFold(ins[1..]), ins[0])
  }

  /**
   * The input counts the rules accept: NOT asserts exactly one input,
   * AND and OR (hence NAND and NOR) assert more than one, and XOR pops
   * one value before folding, so it needs at least one.
   */
  predicate ArityOk(t: GateType, n: nat)
  {
    match t
    case Not => n == 1
    case And | Nand | Or | Nor => n > 1
    case Xor | Xnor => n >= 1
  }

  /** The propagation rule of a gate of type t (Gate._propagate). */
  function Eval(t: GateType, ins: seq<Value>): (r: Value)
    requires ArityOk(t, |ins|)
    ensures r == X ==> X in ins
  {
    match t
    case Not => Invert(ins[0])
    case And => AndEval(ins)
    case Nand => Invert(AndEval(ins))
    case Or => OrEval(ins)
    case Nor => Invert(OrEval(ins))
    case Xor => XorFold(ins)
    case Xnor => Invert(XorFold(ins))
  }

  /** The value the while loop of Gate.xor_propagate returns. */
  method XorPropagate(ins: seq<Value>) returns (val: Value)
    requires |ins| >= 1
    ensures val == XorFold(ins)
  {
    var inputs := ins;
    val := inputs[|inputs| - 1];
    inputs := inputs[..|inputs| - 1];
    while |inputs| > 0
      invariant inputs == ins[..|inputs|]
      invariant val == XorFold(ins[|inputs|..])
    {
      var newVal := inputs[|inputs| - 1];
      inputs := inputs[..|inputs| - 1];
      assert ins[|inputs|..][1..] == ins[|inputs| + 1..];
      val := Xor2(val, newVal);
    }
  }

  /** Gate._propagate, with XOR and XNOR going through the while loop of xor_propagate. */
  method Propagate(t: GateType, ins: seq<Value>) returns (r: Value)
    requires ArityOk(t, |ins|)
    ensures r == Eval(t, ins)
  {
    match t
    case Xor =>
      r := XorPropagate(ins);
    case Xnor =>
      r := XorPropagate(ins);
      r := Invert(r);
    case _ =>
      r := Eval(t, ins);
  }

  /** Gate.control_value: 0 for AND/NAND, 1 for OR/NOR, -1 for the rest. */
  function ControlValue(t: GateType): (c: int)
    ensures c == -1 || c == 0 || c == 1
    ensures c == -1 <==> t == Not || t == Xor || t == Xnor
  {
    match t
    case And | Nand => 0
    case Or | Nor => 1
    case _ => -1
  }

  // ---------------------------------------------------------------------
  // Reference semantics: Boolean evaluation of the good and faulty circuits
  // ---------------------------------------------------------------------

  function Parity(bs: seq<bool>): bool
  {
    if |bs| == 0 then false else Parity(bs[1..]) != bs[0]
  }

  /** Boolean evaluation of a gate of type t. */
  function BoolEval(t: GateType, bs: seq<bool>): bool
    requires ArityOk(t, |bs|)
  {
    match t
    case Not => !bs[0]
    case And => forall i :: 0 <= i < |bs| ==> bs[i]
    case Nand => !(forall i :: 0 <= i < |bs| ==> bs[i])
    case Or => exists i :: 0 <= i < |bs| && bs[i]
    case Nor => !(exists i :: 0 <= i < |bs| && bs[i])
    case Xor => Parity(bs)
    case Xnor => !Parity(bs)
  }

  function Goods(ins: seq<Value>): (bs: seq<bool>)
    requires X !in ins
    ensures |bs| == |ins|
  {
    seq(|ins|, i requires 0 <= i < |ins| => GoodBit(ins[i]))
  }

  function Faultys(ins: seq<Value>): (bs: seq<bool>)
    requires X !in ins
    ensures |bs| == |ins|
  {
    seq(|ins|, i requires 0 <= i < |ins| => FaultyBit(ins[i]))
  }

  lemma AndGoodFaulty(ins: seq<Value>)
    requires |ins| > 1 && X !in ins
    ensures Known(AndEval(ins))
    ensures GoodBit(AndEval(ins)) == BoolEval(And, Goods(ins))
    ensures FaultyBit(AndEval(ins)) == BoolEval(And, Faultys(ins))
  {
    var g, f := Goods(ins), Faultys(ins);
    if Zero in ins {
      var i :| 0 <= i < |ins| && ins[i] == Zero;
      assert !g[i] && !f[i];
    } else if forall i :: 0 <= i < |ins| ==> ins[i] == One {
    } else if D in ins && NotD in ins {
      var i :| 0 <= i < |ins| && ins[i] == NotD;
      var j :| 0 <= j < |ins| && ins[j] == D;
      assert !g[i] && !f[j];
    } else if D in ins {
      var j :| 0 <= j < |ins| && ins[j] == D;
      assert !f[j];
      forall i | 0 <= i < |ins| ensures g[i] {
        assert ins[i] in ins;
      }
    } else {
      assert NotD in ins by {
        var i :| 0 <= i < |ins| && ins[i] != One;
        assert ins[i] in ins;
      }
      var j :| 0 <= j < |ins| && ins[j] == NotD;
      assert !g[j];
      forall i | 0 <= i < |ins| ensures f[i] {
        assert ins[i] in ins;
      }
    }
  }

  lemma OrGoodFaulty(ins: seq<Value>)
    requires |ins| > 1 && X !in ins
    ensures Known(OrEval(ins))
    ensures GoodBit(OrEval(ins)) == BoolEval(Or, Goods(ins))
    ensures FaultyBit(OrEval(ins)) == BoolEval(Or, Faultys(ins))
  {
    var g, f := Goods(ins), Faultys(ins);
    if One in ins {
      var i :| 0 <= i < |ins| && ins[i] == One;
      assert g[i] && f[i];
    } else if forall i :: 0 <= i < |ins| ==> ins[i] == Zero {
    } else if D in ins && NotD in ins {
      var i :| 0 <= i < |ins| && ins[i] == D;
      var j :| 0 <= j < |ins| && ins[j] == NotD;
      assert g[i] && f[j];
    } else if D in ins {
      var j :| 0 <= j < |ins| && ins[j] == D;
      assert g[j];
      forall i | 0 <= i < |ins| ensures !f[i] {
        assert ins[i] in ins;
      }
    } else {
      assert NotD in ins by {
        var i :| 0 <= i < |ins| && ins[i] != Zero;
        assert ins[i] in ins;
      }
      var j :| 0 <= j < |ins| && ins[j] == NotD;
      assert f[j];
      forall i | 0 <= i < |ins| ensures !g[i] {
        assert ins[i] in ins;
      }
    }
  }

  /** On known values the two-input XOR rule is exclusive-or in both circuits. */
  lemma Xor2GoodFaulty(a: Value, b: Value)
    requires Known(a) && Known(b)
    ensures Xor2(a, b) == FromBits(GoodBit(a) != GoodBit(b), FaultyBit(a) != FaultyBit(b))
  {
    Xor2Pairs(a, b);
  }

  /**
   * What the membership tests of AND and OR see in the pairs Xor2 builds;
   * in particular the two AND terms of xor_2inp are never both 1.
   */
  lemma Xor2Pairs(a: Value, b: Value)
    ensures All([a, Invert(b)], One) <==> a == One && Invert(b) == One
    ensures All([b, Invert(a)], One) <==> b == One && Invert(a) == One
    ensures All([AndEval([a, Invert(b)]), AndEval([b, Invert(a)])], Zero)
        <==> AndEval([a, Invert(b)]) == Zero && AndEval([b, Invert(a)]) == Zero
    ensures !(AndEval([a, Invert(b)]) == One && AndEval([b, Invert(a)]) == One)
  {
    AllPair(a, Invert(b), One);
    AllPair(b, Invert(a), One);
    AllPair(AndEval([a, Invert(b)]), AndEval([b, Invert(a)]), Zero);
  }

  /** X on either side of the two-input XOR rule gives X. */
  lemma Xor2OfX(a: Value)
    ensures Xor2(X, a) == X && Xor2(a, X) == X
  {
    Xor2Pairs(X, a);
    Xor2Pairs(a, X);
  }

  lemma {:induction false} XorGoodFaulty(ins: seq<Value>)
    requires |ins| >= 1 && X !in ins
    ensures Known(XorFold(ins))
    ensures GoodBit(XorFold(ins)) == Parity(Goods(ins))
    ensures FaultyBit(XorFold(ins)) == Parity(Faultys(ins))
  {
    assert Goods(ins)[1..] == Goods(ins[1..]);
    assert Faultys(ins)[1..] == Faultys(ins[1..]);
    if |ins| > 1 {
      assert X !in ins[1..] by {
        forall i | 0 <= i < |ins| - 1 ensures ins[1..][i] != X {
          assert ins[i + 1] in ins;
        }
      }
      XorGoodFaulty(ins[1..]);
      Xor2GoodFaulty(XorFold(ins[1..]), ins[0]);
    }
  }

  /**
   * The D-calculus simulates the good and the faulty circuit at once: on
   * X-free inputs every gate rule yields a known value whose good bit is the
   * gate's Boolean function of the inputs' good bits, and likewise for the
   * faulty bits.
   */
  lemma EvalGoodFaulty(t: GateType, ins: seq<Value>)
    requires ArityOk(t, |ins|) && X !in ins
    ensures Known(Eval(t, ins))
    ensures GoodBit(Eval(t, ins)) == BoolEval(t, Goods(ins))
    ensures FaultyBit(Eval(t, ins)) == BoolEval(t, Faultys(ins))
  {
    match t
    case Not =>
    case And => AndGoodFaulty(ins);
    case Nand => AndGoodFaulty(ins);
    case Or => OrGoodFaulty(ins);
    case Nor => OrGoodFaulty(ins);
    case Xor => XorGoodFaulty(ins);
    case Xnor => XorGoodFaulty(ins);
  }

  // ---------------------------------------------------------------------
  // Soundness with respect to X: refining X inputs keeps a known output
  // ---------------------------------------------------------------------

  /** b carries at least the information of a: a is X or equal to b. */
  predicate Refines(a: Value, b: Value) { a == X || a == b }

  predicate RefinesAll(ins: seq<Value>, ins': seq<Value>)
  {
    |ins| == |ins'| && forall i :: 0 <= i < |ins| ==> Refines(ins[i], ins'[i])
  }

  lemma RefinesAllNoX(ins: seq<Value>, ins': seq<Value>)
    requires RefinesAll(ins, ins') && X !in ins
    ensures ins' == ins
  {
    forall i | 0 <= i < |ins| ensures ins'[i] == ins[i] {
      assert ins[i] in ins;
    }
  }

  lemma {:induction false} XorOfX(ins: seq<Value>)
    requires |ins| >= 1 && X in ins
    ensures XorFold(ins) == X
  {
    if |ins| > 1 {
      Xor2OfX(XorFold(ins[1..]));
      if ins[0] != X {
        assert X in ins[1..] by {
          var i :| 0 <= i < |ins| && ins[i] == X;
          assert ins[1..][i - 1] == X;
        }
        XorOfX(ins[1..]);
        Xor2OfX(ins[0]);
      }
    }
  }

  lemma AndMonotone(ins: seq<Value>, ins': seq<Value>)
    requires |ins| > 1 && RefinesAll(ins, ins')
    ensures Refines(AndEval(ins), AndEval(ins'))
  {
    if Zero in ins {
      var i :| 0 <= i < |ins| && ins[i] == Zero;
      assert ins'[i] == Zero;
    } else if D in ins && NotD in ins {
      var i :| 0 <= i < |ins| && ins[i] == D;
      var j :| 0 <= j < |ins| && ins[j] == NotD;
      assert ins'[i] == D && ins'[j] == NotD;
    } else if X !in ins {
      RefinesAllNoX(ins, ins');
    }
  }

  lemma OrMonotone(ins: seq<Value>, ins': seq<Value>)
    requires |ins| > 1 && RefinesAll(ins, ins')
    ensures Refines(OrEval(ins), OrEval(ins'))
  {
    if One in ins {
      var i :| 0 <= i < |ins| && ins[i] == One;
      assert ins'[i] == One;
    } else if D in ins && NotD in ins {
      var i :| 0 <= i < |ins| && ins[i] == D;
      var j :| 0 <= j < |ins| && ins[j] == NotD;
      assert ins'[i] == D && ins'[j] == NotD;
    } else if X !in ins {
      RefinesAllNoX(ins, ins');
    }
  }

  /**
   * Every gate rule is monotone in the information order: assigning known
   * values to X inputs can turn an X output into a known one, but never
   * changes an output that was already known.
   */
  lemma EvalMonotone(t: GateType, ins: seq<Value>, ins': seq<Value>)
    requires ArityOk(t, |ins|) && RefinesAll(ins, ins')
    ensures Refines(Eval(t, ins), Eval(t, ins'))
  {
    match t
    case Not =>
    case And => AndMonotone(ins, ins');
    case Nand => AndMonotone(ins, ins');
    case Or => OrMonotone(ins, ins');
    case Nor => OrMonotone(ins, ins');
    case Xor =>
      if X in ins { XorOfX(ins); } else { RefinesAllNoX(ins, ins'); }
    case Xnor =>
      if X in ins { XorOfX(ins); } else { RefinesAllNoX(ins, ins'); }
  }

  /**
   * Hence a known output is exact: for every X-free completion of the
   * inputs, the good and faulty Boolean evaluations agree with it.
   */
  lemma KnownOutputIsExact(t: GateType, ins: seq<Value>, full: seq<Value>)
    requires ArityOk(t, |ins|) && RefinesAll(ins, full) && X !in full
    requires Known(Eval(t, ins))
    ensures GoodBit(Eval(t, ins)) == BoolEval(t, Goods(full))
    ensures FaultyBit(Eval(t, ins)) == BoolEval(t, Faultys(full))
  {
    EvalMonotone(t, ins, full);
    EvalGoodFaulty(t, full);
  }

  // ---------------------------------------------------------------------
  // Precision: an X output means the completions of the inputs disagree
  // ---------------------------------------------------------------------

  /** full assigns a known value to every input, keeping the known ones. */
  predicate Completes(ins: seq<Value>, full: seq<Value>)
  {
    RefinesAll(ins, full) && X !in full
  }

  /** ins with every X replaced by the known value v. */
  function Fill(ins: seq<Value>, v: Value): (r: seq<Value>)
    requires Known(v)
    ensures Completes(ins, r)
    ensures forall i :: 0 <= i < |ins| && ins[i] == X ==> r[i] == v
  {
    var r := seq(|ins|, i requires 0 <= i < |ins| => if ins[i] == X then v else ins[i]);
    assert X !in r by {
      forall i | 0 <= i < |r| ensures r[i] != X { }
    }
    r
  }

  /** Flipping one bit flips the parity. */
  lemma {:induction false} ParityFlip(bs: seq<bool>, i: nat)
    requires i < |bs|
    ensures Parity(bs[i := !bs[i]]) == !Parity(bs)
  {
    if i == 0 {
      assert bs[0 := !bs[0]][1..] == bs[1..];
    } else {
      assert bs[i := !bs[i]][1..] == bs[1..][i - 1 := !bs[i]];
      ParityFlip(bs[1..], i - 1);
    }
  }

  /**
   * When AND gives X, no input is 0 and D and NotD do not both occur, so
   * setting every X to 0 gives 0 and setting every X to 1 does not.
   */
  lemma AndPrecise(ins: seq<Value>)
    requires |ins| > 1 && AndEval(ins) == X
    ensures AndEval(Fill(ins, Zero)) == Zero && AndEval(Fill(ins, One)) != Zero
  {
    var i :| 0 <= i < |ins| && ins[i] == X;
    var f0, f1 := Fill(ins, Zero), Fill(ins, One);
    assert f0[i] == Zero;
    forall j | 0 <= j < |f1| ensures f1[j] != Zero && (f1[j] == D ==> D in ins) && (f1[j] == NotD ==> NotD in ins) {
      assert ins[j] in ins;
    }
  }

  /** The dual for OR: every X set to 1 gives 1, every X set to 0 does not. */
  lemma OrPrecise(ins: seq<Value>)
    requires |ins| > 1 && OrEval(ins) == X
    ensures OrEval(Fill(ins, One)) == One && OrEval(Fill(ins, Zero)) != One
  {
    var i :| 0 <= i < |ins| && ins[i] == X;
    var f0, f1 := Fill(ins, Zero), Fill(ins, One);
    assert f1[i] == One;
    forall j | 0 <= j < |f0| ensures f0[j] != One && (f0[j] == D ==> D in ins) && (f0[j] == NotD ==> NotD in ins) {
      assert ins[j] in ins;
    }
  }

  /** Raising one 0 input of an X-free list to 1 sets that good bit and keeps the rest. */
  lemma RaiseGoods(f: seq<Value>, i: nat)
    requires X !in f && i < |f| && f[i] == Zero
    ensures X !in f[i := One]
    ensures !Goods(f)[i] && Goods(f[i := One]) == Goods(f)[i := true]
  {
    var g := f[i := One];
    forall j | 0 <= j < |g| ensures g[j] != X {
      assert f[j] in f;
    }
    forall j | 0 <= j < |g| ensures Goods(g)[j] == Goods(f)[i := true][j] { }
  }

  /** With an X input, XOR changes when one X is filled with 1 instead of 0. */
  lemma XorPrecise(ins: seq<Value>, i: nat)
    requires i < |ins| && ins[i] == X
    ensures Completes(ins, Fill(ins, Zero)[i := One])
    ensures XorFold(Fill(ins, Zero)) != XorFold(Fill(ins, Zero)[i := One])
  {
    var f0 := Fill(ins, Zero);
    var f1 := f0[i := One];
    RaiseGoods(f0, i);
    XorGoodFaulty(f0);
    XorGoodFaulty(f1);
    ParityFlip(Goods(f0), i);
  }

  /** Two completions of inputs with a known output give the same output. */
  lemma KnownOutputAgrees(t: GateType, ins: seq<Value>, f0: seq<Value>, f1: seq<Value>)
    requires ArityOk(t, |ins|) && Eval(t, ins) != X
    requires Completes(ins, f0) && Completes(ins, f1)
    ensures Eval(t, f0) == Eval(t, f1)
  {
    EvalMonotone(t, ins, f0);
    EvalMonotone(t, ins, f1);
  }

  /** Two completions of inputs with an X output that give different outputs. */
  lemma XOutputWitnesses(t: GateType, ins: seq<Value>) returns (f0: seq<Value>, f1: seq<Value>)
    requires ArityOk(t, |ins|) && Eval(t, ins) == X
    ensures Completes(ins, f0) && Completes(ins, f1) && Eval(t, f0) != Eval(t, f1)
  {
    f0, f1 := Fill(ins, Zero), Fill(ins, One);
    match t
    case Not =>
    case And => AndPrecise(ins);
    case Nand => AndPrecise(ins);
    case Or => OrPrecise(ins);
    case Nor => OrPrecise(ins);
    case Xor =>
      var i :| 0 <= i < |ins| && ins[i] == X;
      XorPrecise(ins, i);
      f1 := f0[i := One];
    case Xnor =>
      var i :| 0 <= i < |ins| && ins[i] == X;
      XorPrecise(ins, i);
      f1 := f0[i := One];
  }

  /**
   * Every rule is exact about X: its output is X exactly when two X-free
   * completions of the inputs give different outputs. With EvalMonotone,
   * this pins the output of every rule on every input.
   */
  lemma EvalPrecise(t: GateType, ins: seq<Value>)
    requires ArityOk(t, |ins|)
    ensures Eval(t, ins) == X <==>
      exists f0, f1 :: Completes(ins, f0) && Completes(ins, f1) && Eval(t, f0) != Eval(t, f1)
  {
    if Eval(t, ins) != X {
      forall f0, f1 | Completes(ins, f0) && Completes(ins, f1)
        ensures Eval(t, f0) == Eval(t, f1)
      {
        KnownOutputAgrees(t, ins, f0, f1);
      }
    } else {
      var f0, f1 := XOutputWitnesses(t, ins);
    }
  }

  // ---------------------------------------------------------------------
  // Further properties named by gate.py
  // ---------------------------------------------------------------------

  /** NAND, NOR and XNOR are the inverses of AND, OR and XOR. */
  lemma InvertedGates(ins: seq<Value>)
    requires |ins| > 1
    ensures Eval(Nand, ins) == Invert(Eval(And, ins))
    ensures Eval(Nor, ins) == Invert(Eval(Or, ins))
    ensures Eval(Xnor, ins) == Invert(Eval(Xor, ins))
  {
  }

  /** AND and OR depend only on which values occur, not on their order or count. */
  lemma AndOrDependOnlyOnValues(a: seq<Value>, b: seq<Value>)
    requires |a| > 1 && |b| > 1
    requires forall v :: v in a <==> v in b
    ensures AndEval(a) == AndEval(b)
    ensures OrEval(a) == OrEval(b)
  {
    assert (forall i :: 0 <= i < |a| ==> a[i] == One) <==> (forall i :: 0 <= i < |b| ==> b[i] == One) by {
      if forall i :: 0 <= i < |a| ==> a[i] == One {
        forall i | 0 <= i < |b| ensures b[i] == One {
          assert b[i] in a;
        }
      }
      if forall i :: 0 <= i < |b| ==> b[i] == One {
        forall i | 0 <= i < |a| ensures a[i] == One {
          assert a[i] in b;
        }
      }
    }
    assert (forall i :: 0 <= i < |a| ==> a[i] == Zero) <==> (forall i :: 0 <= i < |b| ==> b[i] == Zero) by {
      if forall i :: 0 <= i < |a| ==> a[i] == Zero {
        forall i | 0 <= i < |b| ensures b[i] == Zero {
          assert b[i] in a;
        }
      }
      if forall i :: 0 <= i < |b| ==> b[i] == Zero {
        forall i | 0 <= i < |a| ensures a[i] == Zero {
          assert a[i] in b;
        }
      }
    }
  }

  /** The number of occurrences of v in s. */
  function Count(s: seq<Value>, v: Value): nat
  {
    if |s| == 0 then 0 else Count(s[1..], v) + (if s[0] == v then 1 else 0)
  }

  /** On inputs drawn from {0, 1}, XOR is 1 exactly when an odd number of inputs are 1. */
  lemma {:induction false} XorBinaryParity(ins: seq<Value>)
    requires |ins| >= 1
    requires forall i :: 0 <= i < |ins| ==> ins[i] == Zero || ins[i] == One
    ensures XorFold(ins) == Zero || XorFold(ins) == One
    ensures XorFold(ins) == One <==> Count(ins, One) % 2 == 1
  {
    XorGoodFaulty(ins);
    ParityOfGoods(ins);
    assert Goods(ins) == Faultys(ins);
  }

  /** On inputs drawn from {0, 1}, the parity of the good bits is the parity of the number of 1s. */
  lemma {:induction false} ParityOfGoods(ins: seq<Value>)
    requires forall i :: 0 <= i < |ins| ==> ins[i] == Zero || ins[i] == One
    ensures X !in ins && (Parity(Goods(ins)) <==> Count(ins, One) % 2 == 1)
  {
    if |ins| > 0 {
      var rest := ins[1..];
      assert forall i :: 0 <= i < |rest| ==> rest[i] == ins[i + 1];
      ParityOfGoods(rest);
      assert Goods(ins)[1..] == Goods(rest);
      var cr := Count(rest, One);
      if ins[0] == One {
        assert (cr + 1) % 2 == 1 <==> cr % 2 != 1;
      }
    }
  }

  /** A one-input XOR returns its input unchanged. */
  lemma XorSingle(v: Value)
    ensures Eval(Xor, [v]) == v
  {
  }

  /**
   * A controlling value on any input fixes the output, whatever the other
   * inputs are: 0 forces AND to 0 and NAND to 1, 1 forces OR to 1 and NOR to 0.
   */
  lemma {:induction false} ControllingValueDecides(t: GateType, ins: seq<Value>, i: nat)
    requires ArityOk(t, |ins|) && i < |ins|
    requires ControlValue(t) >= 0
    requires ins[i] == (if ControlValue(t) == 0 then Zero else One)
    ensures Eval(t, ins) == (if t == And || t == Nor then Zero else One)
  {
    assert ins[i] in ins;
  }

  /** XOR has no controlling value: with either value on one input, the other input still decides. */
  lemma XorHasNoControllingValue(v: Value)
    requires v == Zero || v == One
    ensures Eval(Xor, [v, Zero]) != Eval(Xor, [v, One])
    ensures Eval(Xnor, [v, Zero]) != Eval(Xnor, [v, One])
  {
    assert [v, Zero][1..] == [Zero] && [v, One][1..] == [One];
    Xor2GoodFaulty(Zero, v);
    Xor2GoodFaulty(One, v);
  }
}
